/** The AI's choice of a card to play: leading, following suit and sloughing,
    each a fixed sequence of preferences over the valid plays
    (src/logic/aiPlaying.ts). The game stage is read off the tricks taken by
    seat 0, as in the source. */
module AiPlaying {
  import opened Cards
  import opened Seqs
  import opened Errors
  import opened Game
  import opened MoveValidation
  import opened AiPassing

  /** The filters and keys the choices use, named once so that every use is
      the same function. */
  function Value(): Card -> int { (c: Card) => c.value }
  function ValueAtMost(v: int): Card -> bool { (c: Card) => c.value <= v }
  function ValueAbove(v: int): Card -> bool { (c: Card) => c.value > v }
  function VeryLow(): Card -> bool { (c: Card) => c.value >= 2 && c.value <= 4 }
  function Hearty(): Card -> bool { (c: Card) => IsHeart(c) }
  function NotHearty(): Card -> bool { (c: Card) => !IsHeart(c) }

  /** The safety score of a card as the sum of its terms: 50 for the queen of
      spades, twice the value for a heart, the value for a queen, king or ace.
      It depends only on the card; the queen of spades is strictly the most
      dangerous card and no card scores below 0. */
  function CardSafety(card: Card): (s: int)
    ensures 0 <= s <= 62
    ensures s == 62 <==> card == QueenOfSpades
    ensures card.suit != Hearts && card.value < 12 ==> s == 0
  {
    (if card == QueenOfSpades then 50 else 0) +
    (if card.suit == Hearts then 2 * card.value else 0) +
    (if card.value >= 12 then card.value else 0)
  }

  /** evaluateCardSafety: accumulates the score term by term; hand and state
      are not consulted. */
  method EvaluateCardSafety(card: Card, hand: seq<Card>, gs: GameState) returns (safetyScore: int)
    ensures safetyScore == CardSafety(card)
  {
    safetyScore := 0;
    if IsQueenOfSpades(card) {
      safetyScore := safetyScore + 50;
    }
    if IsHeart(card) {
      safetyScore := safetyScore + card.value * 2;
    }
    if card.value >= 12 {
      safetyScore := safetyScore + card.value;
    }
  }

  /** The comparator of the final lead sort: low cards before high ones (queen
      and up), then longer suits first, then lower values first. */
  function LeadComparator(a: Card, b: Card, counts: map<Suit, int>): int {
    var aHigh, bHigh := a.value >= 12, b.value >= 12;
    if aHigh != bHigh then (if aHigh then 1 else -1)
    else if SuitLength(counts, b.suit) != SuitLength(counts, a.suit) then
      SuitLength(counts, b.suit) - SuitLength(counts, a.suit)
    else a.value - b.value
  }

  /** The same order as one number, for suit lengths between 0 and `bound`. */
  function LeadKey(counts: map<Suit, int>, bound: nat): Card -> int {
    (c: Card) => (if c.value >= 12 then 15 * (bound + 1) else 0) +
                 (bound - SuitLength(counts, c.suit)) * 15 + c.value
  }

  /** The key orders two cards exactly as the comparator does, so that the
      stable sort by the key is the source's sort. */
  lemma LeadKeyAgrees(a: Card, b: Card, counts: map<Suit, int>, bound: nat)
    requires 0 <= SuitLength(counts, a.suit) <= bound && 0 <= SuitLength(counts, b.suit) <= bound
    ensures LeadComparator(a, b, counts) < 0 <==> LeadKey(counts, bound)(a) < LeadKey(counts, bound)(b)
    ensures LeadComparator(a, b, counts) == 0 <==> LeadKey(counts, bound)(a) == LeadKey(counts, bound)(b)
  {
    assert 2 <= a.value <= 14 && 2 <= b.value <= 14;
  }

  /** The longest-suit choice among the very low cards: the first card of the
      stable sort by decreasing suit length, that is the first card of a
      longest suit. */
  function FirstOfLongestSuit(cards: seq<Card>, counts: map<Suit, int>): (c: Card)
    requires |cards| > 0
    ensures c in cards
    ensures forall x :: x in cards ==> SuitLength(counts, x.suit) <= SuitLength(counts, c.suit)
    ensures exists i :: 0 <= i < |cards| && cards[i] == c &&
                        forall j :: 0 <= j < i ==> SuitLength(counts, cards[j].suit) < SuitLength(counts, c.suit)
  {
    var key := (x: Card) => -SuitLength(counts, x.suit);
    SortByKeyFirst(cards, key);
    SortByKey(cards, key)[0]
  }

  /** The head of the final lead sort: a card the comparator puts no later
      than any other, and the first such card of `nonHearts` on ties. */
  lemma LeadSortFirst(hand: seq<Card>, nonHearts: seq<Card>, counts: map<Suit, int>)
    requires |nonHearts| > 0
    requires CountsOf(hand, counts)
    ensures SortByKey(nonHearts, LeadKey(counts, |hand|))[0] in nonHearts
    ensures forall x :: x in nonHearts ==>
              LeadComparator(SortByKey(nonHearts, LeadKey(counts, |hand|))[0], x, counts) <= 0
    ensures exists i :: 0 <= i < |nonHearts| && nonHearts[i] == SortByKey(nonHearts, LeadKey(counts, |hand|))[0] &&
                        forall j :: 0 <= j < i ==> LeadComparator(nonHearts[i], nonHearts[j], counts) < 0
  {
    var key := LeadKey(counts, |hand|);
    var c := SortByKey(nonHearts, key)[0];
    SortByKeyFirst(nonHearts, key);
    forall x | x in nonHearts
      ensures LeadComparator(c, x, counts) <= 0 && (key(c) < key(x) ==> LeadComparator(c, x, counts) < 0)
    {
      LeadKeyAgrees(c, x, counts, |hand|);
    }
    var i :| 0 <= i < |nonHearts| && nonHearts[i] == c && forall j :: 0 <= j < i ==> key(nonHearts[j]) > key(nonHearts[i]);
    forall j | 0 <= j < i ensures LeadComparator(nonHearts[i], nonHearts[j], counts) < 0 {
      assert nonHearts[j] in nonHearts;
    }
  }

  /** The late-game choice among low hearts: the second lowest when there are
      two or more, else the only one. With two or more, one other card is no
      higher and every card besides those two is no lower. */
  function SecondLowest(lowHearts: seq<Card>): (c: Card)
    requires |lowHearts| > 0
    ensures c in lowHearts
    ensures |lowHearts| > 1 ==>
              exists x :: x in multiset(lowHearts) - multiset{c} && x.value <= c.value &&
                          forall y :: y in multiset(lowHearts) - multiset{c, x} ==> c.value <= y.value
  {
    var sorted := SortByKey(lowHearts, Value());
    if |sorted| > 1 then
      SortedSecond(sorted, multiset(lowHearts));
      assert sorted[1] in multiset(lowHearts);
      sorted[1]
    else
      assert sorted[0] in multiset(lowHearts);
      sorted[0]
  }

  /** In a sequence sorted by value, the second element has the first below it
      and every other element above it. */
  lemma SortedSecond(sorted: seq<Card>, ms: multiset<Card>)
    requires |sorted| > 1 && multiset(sorted) == ms && SortedByKey(sorted, Value())
    ensures sorted[0] in ms - multiset{sorted[1]} && sorted[0].value <= sorted[1].value
    ensures forall y :: y in ms - multiset{sorted[1], sorted[0]} ==> sorted[1].value <= y.value
  {
    var a, b, rest := sorted[0], sorted[1], sorted[2..];
    assert sorted == [a, b] + rest;
    assert ms == multiset{a, b} + multiset(rest);
    assert Value()(a) <= Value()(b);
    forall y: Card | y in ms - multiset{b, a} ensures b.value <= y.value {
      assert y in rest;
      var k :| 0 <= k < |rest| && rest[k] == y;
      assert Value()(sorted[1]) <= Value()(sorted[k + 2]);
    }
  }

  /** Some card is a spade of J or below. */
  predicate HasLowSpade(cs: seq<Card>) {
    exists x :: x in cs && x.suit == Spades && x.value <= 11
  }

  /** Some card is very low, 2 to 4. */
  predicate HasVeryLow(cs: seq<Card>) {
    exists x :: x in cs && 2 <= x.value <= 4
  }

  lemma LowSpadesFilter(cs: seq<Card>)
    ensures forall x :: x in Filter(Filter(cs, SuitIs(Spades)), ValueAtMost(11)) <==>
                        x in cs && x.suit == Spades && x.value <= 11
    ensures |Filter(Filter(cs, SuitIs(Spades)), ValueAtMost(11))| > 0 <==> HasLowSpade(cs)
  {
    var f := Filter(Filter(cs, SuitIs(Spades)), ValueAtMost(11));
    if |f| > 0 {
      assert f[0] in f;
    }
  }

  lemma VeryLowFilter(cs: seq<Card>)
    ensures forall x :: x in Filter(cs, VeryLow()) <==> x in cs && 2 <= x.value <= 4
    ensures |Filter(cs, VeryLow())| > 0 <==> HasVeryLow(cs)
  {
    var f := Filter(cs, VeryLow());
    if |f| > 0 {
      assert f[0] in f;
    }
  }

  /** The lead among the valid cards other than hearts. Early in the hand and
      without the queen of spades, the lowest spade of J or below (the first
      on ties); before the late game, a very low card (2 to 4) of a longest
      suit; else the first card by the lead comparator. */
  function LeadNonHeart(hand: seq<Card>, nonHearts: seq<Card>, counts: map<Suit, int>,
                        isEarlyGame: bool, isLateGame: bool): (c: Card)
    requires |nonHearts| > 0
    requires CountsOf(hand, counts)
    ensures c in nonHearts
    ensures isEarlyGame && QueenOfSpades !in hand && HasLowSpade(nonHearts) ==>
              c.suit == Spades && c.value <= 11 &&
              forall x :: x in nonHearts && x.suit == Spades && x.value <= 11 ==> c.value <= x.value
    ensures !(isEarlyGame && QueenOfSpades !in hand && HasLowSpade(nonHearts)) &&
            !isLateGame && HasVeryLow(nonHearts) ==>
              2 <= c.value <= 4 &&
              (forall x :: x in nonHearts && 2 <= x.value <= 4 ==> SuitLength(counts, x.suit) <= SuitLength(counts, c.suit)) &&
              |Filter(nonHearts, VeryLow())| > 0 && c == FirstOfLongestSuit(Filter(nonHearts, VeryLow()), counts)
    ensures !(isEarlyGame && QueenOfSpades !in hand && HasLowSpade(nonHearts)) &&
            !(!isLateGame && HasVeryLow(nonHearts)) ==>
              c == LeadByComparator(hand, nonHearts, counts)
  {
    var hasQueenOfSpades := exists x :: x in hand && IsQueenOfSpades(x);
    var spades := Filter(nonHearts, SuitIs(Spades));
    var lowSpades := Filter(spades, ValueAtMost(11));
    var veryLowCards := Filter(nonHearts, VeryLow());
    LowSpadesFilter(nonHearts);
    VeryLowFilter(nonHearts);
    if isEarlyGame && !hasQueenOfSpades && |spades| > 0 && |lowSpades| > 0 then
      MinBy(lowSpades, Value())
    else if |veryLowCards| > 0 && !isLateGame then
      FirstOfLongestSuit(veryLowCards, counts)
    else
      LeadByComparator(hand, nonHearts, counts)
  }

  /** The lead by the source's comparator: a card that no other card of
      nonHearts sorts before, and the first of those in nonHearts. */
  function LeadByComparator(hand: seq<Card>, nonHearts: seq<Card>, counts: map<Suit, int>): (c: Card)
    requires |nonHearts| > 0
    requires CountsOf(hand, counts)
    ensures c in nonHearts
    ensures forall x :: x in nonHearts ==> LeadComparator(c, x, counts) <= 0
    ensures exists i :: 0 <= i < |nonHearts| && nonHearts[i] == c &&
                        forall j :: 0 <= j < i ==> LeadComparator(c, nonHearts[j], counts) < 0
  {
    LeadSortFirst(hand, nonHearts, counts);
    SortByKey(nonHearts, LeadKey(counts, |hand|))[0]
  }

  /** The lead when only hearts are valid: in the late game the second lowest
      heart of 7 or below, if there is one; otherwise the highest heart, the
      first on ties. */
  function LeadHeart(hearts: seq<Card>, isLateGame: bool): (c: Card)
    requires |hearts| > 0
    ensures c in hearts
    ensures !(isLateGame && exists x :: x in hearts && x.value <= 7) ==> forall x :: x in hearts ==> x.value <= c.value
    ensures isLateGame && (exists x :: x in hearts && x.value <= 7) ==>
              c.value <= 7 && c == SecondLowest(Filter(hearts, ValueAtMost(7)))
  {
    var lowHearts := Filter(hearts, ValueAtMost(7));
    if isLateGame && |lowHearts| > 0 then SecondLowest(lowHearts)
    else MaxBy(hearts, Value())
  }

  /** selectCardToLead: refuses when nothing is valid and plays a single valid
      card. Otherwise it leads a card other than a heart whenever there is
      one; early in the hand (seat 0 has fewer than 4 tricks) and without the
      queen of spades that is the lowest valid spade of J or below. With only
      hearts valid, and before the late game (10 tricks at seat 0), it leads
      the highest heart. */
  method SelectCardToLead(hand: seq<Card>, validPlays: seq<Card>, gs: GameState) returns (r: Result<Card>)
    requires |gs.players| > 0
    ensures validPlays == [] <==> r == Err(NoValidPlays)
    ensures validPlays != [] ==> r.Ok? && r.value in validPlays
    ensures |validPlays| == 1 ==> r == Ok(validPlays[0])
    ensures r.Ok? && (exists c :: c in validPlays && c.suit != Hearts) ==> r.value.suit != Hearts
    ensures r.Ok? && |gs.players[0].tricksTaken| < 4 && QueenOfSpades !in hand && HasLowSpade(validPlays) ==>
              r.value.suit == Spades && r.value.value <= 11 &&
              forall c :: c in validPlays && c.suit == Spades && c.value <= 11 ==> r.value.value <= c.value
    ensures r.Ok? && |gs.players[0].tricksTaken| < 10 && (forall c :: c in validPlays ==> c.suit == Hearts) ==>
              forall c :: c in validPlays ==> c.value <= r.value.value
    ensures |validPlays| > 1 && (exists c :: c in validPlays && c.suit != Hearts) ==>
              exists counts :: CountsOf(hand, counts) &&
                r == Ok(LeadNonHeart(hand, Filter(validPlays, NotHearty()), counts,
                                     |gs.players[0].tricksTaken| < 4, |gs.players[0].tricksTaken| >= 10))
    ensures |validPlays| > 1 && (forall c :: c in validPlays ==> c.suit == Hearts) ==>
              r == Ok(LeadHeart(validPlays, |gs.players[0].tricksTaken| >= 10))
  {
    if |validPlays| == 0 {
      return Err(NoValidPlays);
    }
    if |validPlays| == 1 {
      return Ok(validPlays[0]);
    }
    var suitCounts := CountSuits(hand);
    var tricksPlayed := |gs.players[0].tricksTaken|;
    var isEarlyGame := tricksPlayed < 4;
    var isLateGame := tricksPlayed >= 10;
    var nonHearts := Filter(validPlays, NotHearty());
    var hearts := Filter(validPlays, Hearty());
    if |nonHearts| > 0 {
      return Ok(LeadNonHeart(hand, nonHearts, suitCounts, isEarlyGame, isLateGame));
    }
    // Every valid play is a heart here, so the source's closing fallback to
    // validPlays[0] is never reached.
    NoNonHeartsAllHearts(validPlays);
    return Ok(LeadHeart(hearts, isLateGame));
  }

  /** When no valid play is a card other than a heart, every valid play is a
      heart and the filter of hearts is the whole list. */
  lemma NoNonHeartsAllHearts(validPlays: seq<Card>)
    requires |Filter(validPlays, NotHearty())| == 0
    ensures forall c :: c in validPlays ==> c.suit == Hearts
    ensures Filter(validPlays, Hearty()) == validPlays
  {
    FilterAll(validPlays, Hearty());
  }

  /** The highest value played so far in suit `s`, 0 when none. */
  function HighestLed(trick: seq<PlayedCard>, s: Suit): (h: int)
    ensures h >= 0
    ensures forall k :: 0 <= k < |trick| && trick[k].card.suit == s ==> trick[k].card.value <= h
    ensures h == 0 || exists k :: 0 <= k < |trick| && trick[k].card.suit == s && trick[k].card.value == h
  {
    if trick == [] then 0
    else
      var init := trick[..|trick| - 1];
      var h := HighestLed(init, s);
      var c := trick[|trick| - 1].card;
      assert forall k :: 0 <= k < |init| ==> init[k] == trick[k];
      if c.suit == s && c.value > h then c.value else h
  }

  /** Some valid card is above 4 and would not beat `h`. */
  predicate CanDuckHigh(validPlays: seq<Card>, h: int) {
    exists x :: x in validPlays && 4 < x.value <= h
  }

  /** The last rule of selectCardToFollow, when a card must beat the highest led
      card h: the lowest card that beats h, taken among those above 4 when the
      trick holds a penalty card and the player has a card above 4. */
  function WinCheaply(validPlays: seq<Card>, h: int, dangerous: bool): (c: Card)
    requires exists x :: x in validPlays && x.value > h
    ensures c in validPlays && c.value > h
    ensures (!dangerous || !CanWinHigh(validPlays, h)) ==>
              forall x :: x in validPlays && x.value > h ==> c.value <= x.value
    ensures dangerous && CanWinHigh(validPlays, h) ==>
              c.value > 4 && forall x :: x in validPlays && x.value > h && x.value > 4 ==> c.value <= x.value
  {
    var winningCards := Filter(validPlays, ValueAbove(h));
    var otherCards := Filter(validPlays, ValueAbove(4));
    var winningNonLow := Filter(winningCards, ValueAbove(4));
    WinFilters(validPlays, h);
    if dangerous && |otherCards| > 0 && |winningNonLow| > 0 then MinBy(winningNonLow, Value())
    else MinBy(winningCards, Value())
  }

  /** What the filters of the winning rule keep: the cards that beat h, the
      cards above 4, and the cards that do both. */
  lemma WinFilters(validPlays: seq<Card>, h: int)
    requires exists x :: x in validPlays && x.value > h
    ensures |Filter(validPlays, ValueAbove(h))| > 0
    ensures forall x :: x in Filter(Filter(validPlays, ValueAbove(h)), ValueAbove(4)) <==>
                          x in validPlays && x.value > h && x.value > 4
    ensures CanWinHigh(validPlays, h) <==>
              |Filter(validPlays, ValueAbove(4))| > 0 && |Filter(Filter(validPlays, ValueAbove(h)), ValueAbove(4))| > 0
  {
    var winningCards := Filter(validPlays, ValueAbove(h));
    var otherCards := Filter(validPlays, ValueAbove(4));
    var winningNonLow := Filter(winningCards, ValueAbove(4));
    var w :| w in validPlays && w.value > h;
    assert w in winningCards;
    if CanWinHigh(validPlays, h) {
      var v :| v in validPlays && v.value > h && v.value > 4;
      assert v in otherCards && v in winningNonLow;
    }
    if |winningNonLow| > 0 {
      assert winningNonLow[0] in winningNonLow;
    }
  }

  /** Some card beats h and is above 4. */
  predicate CanWinHigh(validPlays: seq<Card>, h: int) {
    exists x :: x in validPlays && x.value > h && x.value > 4
  }

  /** What the filters of selectCardToFollow keep: the cards that do not beat
      h, and among them those above 4. */
  lemma FollowFilters(validPlays: seq<Card>, h: int)
    ensures forall x :: x in Filter(validPlays, ValueAtMost(h)) <==> x in validPlays && x.value <= h
    ensures forall x :: x in Filter(Filter(validPlays, ValueAtMost(h)), ValueAbove(4)) <==>
                        x in validPlays && 4 < x.value <= h
    ensures |Filter(Filter(validPlays, ValueAtMost(h)), ValueAbove(4))| > 0 <==> CanDuckHigh(validPlays, h)
    ensures |Filter(validPlays, ValueAtMost(h))| > 0 <==> exists x :: x in validPlays && x.value <= h
    ensures (forall x :: x in validPlays ==> x.value <= h) ==> |Filter(validPlays, ValueAtMost(h))| == |validPlays|
    ensures (exists x :: x in validPlays && x.value > h) ==> |Filter(validPlays, ValueAtMost(h))| < |validPlays|
  {
    var losing := Filter(validPlays, ValueAtMost(h));
    var duck := Filter(losing, ValueAbove(4));
    if |duck| > 0 {
      assert duck[0] in duck;
    }
    if |losing| > 0 {
      assert losing[0] in losing;
    }
    if forall x :: x in validPlays ==> x.value <= h {
      FilterAll(validPlays, ValueAtMost(h));
    }
    if exists x :: x in validPlays && x.value > h {
      var w :| w in validPlays && w.value > h;
      FilterPartition(validPlays, ValueAbove(h), ValueAtMost(h));
      assert w in Filter(validPlays, ValueAbove(h));
    }
  }

  /** The choice of selectCardToFollow after the first trick: the highest card
      above 4 that does not beat the highest led card h; else, in the late game
      or when no card beats h, the highest card that does not; else
      WinCheaply. The source's closing fallbacks are never reached: when no
      card beats h every card is at most h and the rule before has answered. */
  function FollowLater(validPlays: seq<Card>, h: int, dangerous: bool, isLateGame: bool): (c: Card)
    requires |validPlays| > 0
    ensures c in validPlays
    ensures CanDuckHigh(validPlays, h) ==>
              4 < c.value <= h && forall x :: x in validPlays && 4 < x.value <= h ==> x.value <= c.value
    ensures (!CanDuckHigh(validPlays, h) && (exists x :: x in validPlays && x.value <= h) &&
             (isLateGame || forall x :: x in validPlays ==> x.value <= h)) ==>
              c.value <= h && forall x :: x in validPlays && x.value <= h ==> x.value <= c.value
    ensures (!CanDuckHigh(validPlays, h) && !(isLateGame && exists x :: x in validPlays && x.value <= h) &&
             exists x :: x in validPlays && x.value > h) ==>
              c == WinCheaply(validPlays, h, dangerous)
  {
    var losingCards := Filter(validPlays, ValueAtMost(h));
    var losingNonLow := Filter(losingCards, ValueAbove(4));
    FollowFilters(validPlays, h);
    if |losingCards| > 0 && |losingNonLow| > 0 then MaxBy(losingNonLow, Value())
    else if |losingCards| > 0 && (isLateGame || |losingCards| == |validPlays|) then MaxBy(losingCards, Value())
    else WinCheaply(validPlays, h, dangerous)
  }

  /** The choice of selectCardToFollow once the trick has been examined: on the
      first trick of the hand, while the trick is still open, the highest card;
      otherwise FollowLater. */
  function FollowChoice(validPlays: seq<Card>, h: int, dangerous: bool, isFirstTrick: bool,
                        trickLength: nat, isLateGame: bool): (c: Card)
    requires |validPlays| > 0
    ensures c in validPlays
    ensures isFirstTrick && trickLength < 4 ==> forall x :: x in validPlays ==> x.value <= c.value
    ensures !(isFirstTrick && trickLength < 4) ==> c == FollowLater(validPlays, h, dangerous, isLateGame)
  {
    if isFirstTrick && trickLength < 4 then MaxBy(validPlays, Value())
    else FollowLater(validPlays, h, dangerous, isLateGame)
  }

  /** One more card of the trick raises the highest value of the led suit
      when it is of that suit and higher. */
  lemma HighestLedStep(trick: seq<PlayedCard>, k: nat, led: Suit)
    requires k < |trick|
    ensures HighestLed(trick[..k + 1], led) ==
            if trick[k].card.suit == led && trick[k].card.value > HighestLed(trick[..k], led)
            then trick[k].card.value else HighestLed(trick[..k], led)
  {
    assert trick[..k + 1][..k] == trick[..k];
  }

  /** Some play of the trick is the queen of spades. */
  predicate QueenPlayed(trick: seq<PlayedCard>) {
    exists m :: 0 <= m < |trick| && trick[m].card == QueenOfSpades
  }

  /** Some play of the trick is a heart. */
  predicate HeartPlayed(trick: seq<PlayedCard>) {
    exists m :: 0 <= m < |trick| && trick[m].card.suit == Hearts
  }

  /** One more play of the trick adds its own queen or heart and keeps the others. */
  lemma PlayedStep(trick: seq<PlayedCard>, k: nat)
    requires k < |trick|
    ensures QueenPlayed(trick[..k + 1]) <==> QueenPlayed(trick[..k]) || trick[k].card == QueenOfSpades
    ensures HeartPlayed(trick[..k + 1]) <==> HeartPlayed(trick[..k]) || trick[k].card.suit == Hearts
  {
    var p := trick[..k + 1];
    assert p[k] == trick[k];
    assert forall m :: 0 <= m < k ==> p[m] == trick[..k][m];
  }

  /** The `for` loop of selectCardToFollow over the trick: the highest value
      of the led suit, and whether the queen of spades or a heart was played. */
  method ScanTrick(trick: seq<PlayedCard>, led: Suit) returns (highestValueInTrick: int, trickHasQueenOfSpades: bool, trickHasHearts: bool)
    ensures highestValueInTrick == HighestLed(trick, led)
    ensures trickHasQueenOfSpades <==> QueenPlayed(trick)
    ensures trickHasHearts <==> HeartPlayed(trick)
  {
    highestValueInTrick := 0;
    trickHasQueenOfSpades := false;
    trickHasHearts := false;
    for k := 0 to |trick|
      invariant highestValueInTrick == HighestLed(trick[..k], led)
      invariant trickHasQueenOfSpades <==> QueenPlayed(trick[..k])
      invariant trickHasHearts <==> HeartPlayed(trick[..k])
    {
      var playedCard := trick[k];
      HighestLedStep(trick, k, led);
      PlayedStep(trick, k);
      highestValueInTrick :=
        if playedCard.card.suit == led && playedCard.card.value > highestValueInTrick
        then playedCard.card.value else highestValueInTrick;
      trickHasQueenOfSpades := trickHasQueenOfSpades || IsQueenOfSpades(playedCard.card);
      trickHasHearts := trickHasHearts || IsHeart(playedCard.card);
    }
    assert trick[..|trick|] == trick;
  }

  /** selectCardToFollow: refuses when nothing is valid, plays a single valid
      card, refuses when nothing has been led; otherwise scans the trick for
      the highest card of the led suit and for penalty cards, and chooses as
      FollowChoice says, with the first trick and the late game read off seat
      0's tricks. */
  method SelectCardToFollow(hand: seq<Card>, validPlays: seq<Card>, gs: GameState) returns (r: Result<Card>)
    requires |gs.players| > 0
    ensures validPlays == [] <==> r == Err(NoValidPlays)
    ensures |validPlays| == 1 ==> r == Ok(validPlays[0])
    ensures |validPlays| > 1 && gs.currentTrick == [] <==> r == Err(NoLedSuit)
    ensures r.Ok? ==> r.value in validPlays
    ensures |validPlays| > 1 && gs.currentTrick != [] ==>
      r == Ok(FollowChoice(validPlays, HighestLed(gs.currentTrick, gs.currentTrick[0].card.suit),
                           QueenPlayed(gs.currentTrick) || HeartPlayed(gs.currentTrick),
                           gs.players[0].tricksTaken == [], |gs.currentTrick|,
                           |gs.players[0].tricksTaken| >= 10))
  {
    if |validPlays| == 0 {
      return Err(NoValidPlays);
    }
    if |validPlays| == 1 {
      return Ok(validPlays[0]);
    }
    var ledSuit := GetLedSuit(gs);
    if ledSuit.None? {
      return Err(NoLedSuit);
    }
    var highestValueInTrick, trickHasQueenOfSpades, trickHasHearts := ScanTrick(gs.currentTrick, ledSuit.value);
    var tricksPlayed := |gs.players[0].tricksTaken|;
    var isFirstTrick := tricksPlayed == 0;
    var isLateGame := tricksPlayed >= 10;
    var trickIsDangerous := trickHasQueenOfSpades || trickHasHearts;
    return Ok(FollowChoice(validPlays, highestValueInTrick, trickIsDangerous, isFirstTrick, |gs.currentTrick|, isLateGame));
  }

  const AceOfHearts: Card := Card(Hearts, Ace)

  /** Some valid card is a heart of 10 or above. */
  predicate HasHighHeart(validPlays: seq<Card>) {
    exists x :: x in validPlays && x.suit == Hearts && x.value >= 10
  }

  lemma HighHeartsFilter(validPlays: seq<Card>)
    ensures forall x :: x in Filter(Filter(validPlays, Hearty()), ValueAbove(9)) <==>
                        x in validPlays && x.suit == Hearts && x.value >= 10
    ensures |Filter(Filter(validPlays, Hearty()), ValueAbove(9))| > 0 <==> HasHighHeart(validPlays)
  {
    var f := Filter(Filter(validPlays, Hearty()), ValueAbove(9));
    if |f| > 0 {
      assert f[0] in f;
    }
  }

  /** Some valid card is a heart above 4. */
  predicate HasNonLowHeart(validPlays: seq<Card>) {
    exists x :: x in validPlays && x.suit == Hearts && x.value > 4
  }

  /** Some valid card is above 4. */
  predicate HasAboveFour(validPlays: seq<Card>) {
    exists x :: x in validPlays && x.value > 4
  }

  /** What the first filter of the last slough rules keeps: the cards of Q or
      above that are not hearts. */
  lemma HighNonHeartsFilter(validPlays: seq<Card>)
    ensures forall x :: x in Filter(Filter(validPlays, ValueAbove(11)), NotHearty()) <==>
                        x in validPlays && x.suit != Hearts && x.value >= 12
    ensures |Filter(Filter(validPlays, ValueAbove(11)), NotHearty())| > 0 <==>
            exists x :: x in validPlays && x.suit != Hearts && x.value >= 12
    ensures forall x :: x in Filter(validPlays, ValueAbove(11)) <==> x in validPlays && x.value >= 12
  {
    var highNonHearts := Filter(Filter(validPlays, ValueAbove(11)), NotHearty());
    if |highNonHearts| > 0 {
      assert highNonHearts[0] in highNonHearts;
    }
  }

  /** The second one keeps the hearts above 4. */
  lemma NonLowHeartsFilter(validPlays: seq<Card>)
    ensures forall x :: x in Filter(Filter(validPlays, Hearty()), ValueAbove(4)) <==>
                        x in validPlays && x.suit == Hearts && x.value > 4
    ensures |Filter(Filter(validPlays, Hearty()), ValueAbove(4))| > 0 <==> HasNonLowHeart(validPlays)
  {
    var nonLowHearts := Filter(Filter(validPlays, Hearty()), ValueAbove(4));
    if |nonLowHearts| > 0 {
      assert nonLowHearts[0] in nonLowHearts;
    }
  }

  /** The third one keeps the cards above 4. */
  lemma NonVeryLowFilter(validPlays: seq<Card>)
    ensures forall x :: x in Filter(validPlays, ValueAbove(4)) <==> x in validPlays && x.value > 4
    ensures |Filter(validPlays, ValueAbove(4))| > 0 <==> HasAboveFour(validPlays)
  {
    var nonVeryLow := Filter(validPlays, ValueAbove(4));
    if |nonVeryLow| > 0 {
      assert nonVeryLow[0] in nonVeryLow;
    }
  }

  /** The last rules of selectCardToSlough, once neither the queen of spades
      nor the ace of hearts applies: the highest card of Q or above that is
      not a heart; else the highest card of Q or above; else the highest heart
      above 4; else the highest card above 4; else the highest card. After the
      high-heart rule the second of these finds no card, since every heart of
      Q or above is also a heart of 10 or above. */
  function SloughRest(validPlays: seq<Card>): (c: Card)
    requires |validPlays| > 0
    ensures c in validPlays
    ensures (exists x :: x in validPlays && x.suit != Hearts && x.value >= 12) ==>
              c.suit != Hearts && c.value >= 12 &&
              forall x :: x in validPlays && x.suit != Hearts && x.value >= 12 ==> x.value <= c.value
    ensures (!(exists x :: x in validPlays && x.suit != Hearts && x.value >= 12) && HasNonLowHeart(validPlays)) ==>
              c.suit == Hearts && c.value > 4 &&
              forall x :: x in validPlays && x.suit == Hearts && x.value > 4 ==> x.value <= c.value
    ensures HasAboveFour(validPlays) ==> c.value > 4
    ensures (!(exists x :: x in validPlays && x.suit != Hearts && x.value >= 12) && !HasNonLowHeart(validPlays) &&
             HasAboveFour(validPlays)) ==>
              forall x :: x in validPlays && x.value > 4 ==> x.value <= c.value
    ensures !HasAboveFour(validPlays) ==> forall x :: x in validPlays ==> x.value <= c.value
  {
    var hearts := Filter(validPlays, Hearty());
    var highCards := Filter(validPlays, ValueAbove(11));
    var highNonHearts := Filter(highCards, NotHearty());
    var nonLowHearts := Filter(hearts, ValueAbove(4));
    var nonVeryLow := Filter(validPlays, ValueAbove(4));
    HighNonHeartsFilter(validPlays);
    NonLowHeartsFilter(validPlays);
    NonVeryLowFilter(validPlays);
    if |highCards| > 0 && |highNonHearts| > 0 then MaxBy(highNonHearts, Value())
    else if |highCards| > 0 then MaxBy(highCards, Value())
    else if |hearts| > 0 && |nonLowHearts| > 0 then MaxBy(nonLowHearts, Value())
    else if |nonVeryLow| > 0 then MaxBy(nonVeryLow, Value())
    else MaxBy(validPlays, Value())
  }

  /** selectCardToSlough: refuses when nothing is valid and plays a single valid
      card; otherwise dumps the queen of spades; else the ace of hearts when
      last to play; else the highest heart of 10 or above; else SloughRest.
      The source's `find` for these two cards is a test of membership.
      Each "highest" is the first on ties. */
  function SelectCardToSlough(hand: seq<Card>, validPlays: seq<Card>, gs: GameState): (r: Result<Card>)
    ensures validPlays == [] <==> r == Err(NoValidPlays)
    ensures validPlays != [] ==> r.Ok? && r.value in validPlays
    ensures |validPlays| == 1 ==> r == Ok(validPlays[0])
    ensures |validPlays| > 1 && QueenOfSpades in validPlays ==> r == Ok(QueenOfSpades)
    ensures (|validPlays| > 1 && QueenOfSpades !in validPlays && AceOfHearts in validPlays &&
             |gs.currentTrick| == 3) ==> r == Ok(AceOfHearts)
    ensures (|validPlays| > 1 && QueenOfSpades !in validPlays &&
             !(AceOfHearts in validPlays && |gs.currentTrick| == 3) && HasHighHeart(validPlays)) ==>
              r.Ok? && r.value.suit == Hearts && r.value.value >= 10 &&
              forall x :: x in validPlays && x.suit == Hearts && x.value >= 10 ==> x.value <= r.value.value
    ensures (|validPlays| > 1 && QueenOfSpades !in validPlays &&
             !(AceOfHearts in validPlays && |gs.currentTrick| == 3) && !HasHighHeart(validPlays)) ==>
              r == Ok(SloughRest(validPlays))
  {
    if |validPlays| == 0 then Err(NoValidPlays)
    else if |validPlays| == 1 then Ok(validPlays[0])
    else
      var isLastToPlay := |gs.currentTrick| == 3;
      var hearts := Filter(validPlays, Hearty());
      var highHearts := Filter(hearts, ValueAbove(9));
      HighHeartsFilter(validPlays);
      if QueenOfSpades in validPlays then Ok(QueenOfSpades)
      else if AceOfHearts in validPlays && isLastToPlay then Ok(AceOfHearts)
      else if |hearts| > 0 && |highHearts| > 0 then Ok(MaxBy(highHearts, Value()))
      else Ok(SloughRest(validPlays))
  }

  /** selectAICardToPlay: refuses when there is no valid play (an empty hand)
      and plays a single valid card; otherwise leads when nothing has been led,
      follows when the hand holds the led suit and sloughs otherwise. Whatever
      it returns is a valid play: a card of the led suit when the hand has
      one, a card other than a heart on a lead whenever one is valid, and the
      slough choice when void in the led suit. */
  method SelectAICardToPlay(hand: seq<Card>, gs: GameState) returns (r: Result<Card>)
    requires |gs.players| > 0
    ensures hand == [] <==> r == Err(NoValidPlaysForAi)
    ensures hand != [] <==> r.Ok?
    ensures r.Ok? ==> r.value in GetValidPlays(hand, gs) && IsValidPlay(r.value, hand, gs)
    ensures |GetValidPlays(hand, gs)| == 1 ==> r == Ok(GetValidPlays(hand, gs)[0])
    ensures r.Ok? && gs.currentTrick != [] && HasSuit(hand, gs.currentTrick[0].card.suit) ==>
              r.value.suit == gs.currentTrick[0].card.suit
    ensures r.Ok? && gs.currentTrick != [] && !HasSuit(hand, gs.currentTrick[0].card.suit) ==>
              r == SelectCardToSlough(hand, GetValidPlays(hand, gs), gs)
    ensures r.Ok? && gs.currentTrick == [] && (exists c :: c in GetValidPlays(hand, gs) && c.suit != Hearts) ==>
              r.value.suit != Hearts
  {
    var validPlays := GetValidPlays(hand, gs);
    if |validPlays| == 0 {
      return Err(NoValidPlaysForAi);
    }
    if |validPlays| == 1 {
      return Ok(validPlays[0]);
    }
    var ledSuit := GetLedSuit(gs);
    if ledSuit.None? {
      r := SelectCardToLead(hand, validPlays, gs);
      return;
    }
    var canFollowSuit := HasSuit(hand, ledSuit.value);
    if canFollowSuit {
      MustFollowSuit(hand, gs, hand[0]);
      r := SelectCardToFollow(hand, validPlays, gs);
      return;
    }
    return SelectCardToSlough(hand, validPlays, gs);
  }
}
