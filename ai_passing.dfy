/** The AI's choice of three cards to pass: a danger score per card, a stable
    sort by danger, and a greedy scan that avoids some voids
    (src/logic/aiPassing.ts). */
module AiPassing {
  import opened Cards
  import opened Seqs
  import opened Errors
  import opened Game

  /** The number of cards of suit `s` in the hand. */
  function SuitLen(hand: seq<Card>, s: Suit): (n: nat)
    ensures n <= |hand|
  {
    |Filter(hand, SuitIs(s))|
  }

  /** The `suitCounts.get(suit) || 0` lookup: a missing suit counts 0. */
  function SuitLength(counts: map<Suit, int>, s: Suit): int {
    if s in counts then counts[s] else 0
  }

  /** `counts` maps every suit to its number of cards in the hand. */
  ghost predicate CountsOf(hand: seq<Card>, counts: map<Suit, int>) {
    forall s :: SuitLength(counts, s) == SuitLen(hand, s)
  }

  /** The `suitCounts` loop: after it, every suit maps to its number of cards in
      the hand, and exactly the suits present are keys. */
  method CountSuits(hand: seq<Card>) returns (counts: map<Suit, int>)
    ensures CountsOf(hand, counts)
    ensures forall s :: s in counts <==> SuitLen(hand, s) > 0
  {
    counts := map[];
    for i := 0 to |hand|
      invariant forall s :: SuitLength(counts, s) == |Filter(hand[..i], SuitIs(s))|
      invariant forall s :: s in counts <==> |Filter(hand[..i], SuitIs(s))| > 0
    {
      var card := hand[i];
      assert hand[..i + 1] == hand[..i] + [card];
      forall s ensures Filter(hand[..i + 1], SuitIs(s)) == Filter(hand[..i], SuitIs(s)) + Filter([card], SuitIs(s)) {
        FilterConcat(hand[..i], [card], SuitIs(s));
      }
      counts := counts[card.suit := SuitLength(counts, card.suit) + 1];
    }
    assert hand[..|hand|] == hand;
  }

  /** The danger of passing-worthiness of a card, as the sum of its terms: the
      queen of spades scores 100, any other card the terms for the ace and king
      of spades, hearts, high cards, very low cards, high cards in a short suit
      and low spades in a long spade suit. The queen is strictly the most
      dangerous card, and a very low card other than it always scores below 0. */
  function CardDanger(card: Card, hand: seq<Card>): (d: int)
    ensures d == 100 <==> card == QueenOfSpades
    ensures -30 <= d <= 100
    ensures card != QueenOfSpades && 2 <= card.value <= 4 ==> d < 0
  {
    if card == QueenOfSpades then 100
    else
      var len := SuitLen(hand, card.suit);
      (if card.suit == Spades && (card.rank == Ace || card.rank == King) then 40 else 0) +
      (if card.suit == Hearts then (if card.rank == Ace then 50 else 3 * card.value) else 0) +
      (if card.value >= 12 then card.value else 0) -
      (if 2 <= card.value <= 4 then 20 else 0) +
      (if len <= 3 && card.value >= 11 then (4 - len) * 8 else 0) -
      (if card.suit == Spades && len >= 5 && card.value <= 11 then 10 else 0)
  }

  /** evaluateCardDanger: accumulates the score term by term, returning 100 at
      once for the queen of spades. */
  method EvaluateCardDanger(card: Card, hand: seq<Card>) returns (dangerScore: int)
    ensures dangerScore == CardDanger(card, hand)
  {
    dangerScore := 0;
    if card.suit == Spades && card.rank == Queen {
      return 100;
    }
    if card.suit == Spades && (card.rank == Ace || card.rank == King) {
      dangerScore := dangerScore + 40;
    }
    if card.suit == Hearts {
      if card.rank == Ace {
        dangerScore := dangerScore + 50;
      } else {
        dangerScore := dangerScore + card.value * 3;
      }
    }
    if card.value >= 12 {
      dangerScore := dangerScore + card.value;
    }
    if card.value >= 2 && card.value <= 4 {
      dangerScore := dangerScore - 20;
    }
    var suitCards := Filter(hand, SuitIs(card.suit));
    var suitLength := |suitCards|;
    if suitLength <= 3 && card.value >= 11 {
      dangerScore := dangerScore + (4 - suitLength) * 8;
    }
    if card.suit == Spades && suitLength >= 5 && card.value <= 11 {
      dangerScore := dangerScore - 10;
    }
  }

  /** The order in which the candidates are scanned: the stable sort of the
      hand by decreasing danger (comparator `b.danger - a.danger`). */
  function DangerOrder(hand: seq<Card>): (o: seq<Card>)
    ensures |o| == |hand| && multiset(o) == multiset(hand)
  {
    SortByKey(hand, (c: Card) => -CardDanger(c, hand))
  }

  /** The scan order never increases in danger, and cards of equal danger stay
      in hand order. */
  lemma DangerOrderSorted(hand: seq<Card>, i: nat, j: nat, k: int)
    requires i < j < |hand|
    ensures CardDanger(DangerOrder(hand)[i], hand) >= CardDanger(DangerOrder(hand)[j], hand)
    ensures Filter(DangerOrder(hand), (c: Card) => CardDanger(c, hand) == k) ==
            Filter(hand, (c: Card) => CardDanger(c, hand) == k)
  {
    var key := (c: Card) => -CardDanger(c, hand);
    assert key(DangerOrder(hand)[i]) <= key(DangerOrder(hand)[j]);
    SortByKeyStable(hand, key, -k, (c: Card) => CardDanger(c, hand) == k);
  }

  /** A queen of spades in the hand comes first in the scan order. */
  lemma QueenScannedFirst(hand: seq<Card>)
    requires QueenOfSpades in hand
    ensures DangerOrder(hand)[0] == QueenOfSpades
  {
    var o := DangerOrder(hand);
    assert QueenOfSpades in multiset(o);
    var k :| 0 <= k < |o| && o[k] == QueenOfSpades;
    if k > 0 {
      var key := (c: Card) => -CardDanger(c, hand);
      assert key(o[0]) <= key(o[k]);
    }
  }

  /** The `hand.some` test of the greedy loop. */
  function HoldsQueenOfSpades(hand: seq<Card>): (b: bool)
    ensures b <==> QueenOfSpades in hand
  {
    exists c :: c in hand && c.suit == Spades && c.rank == Queen
  }

  /** The filter of the second skip rule: cards of a suit other than `suit`
      with danger above 20; the source also tests `selectedCards.length < 3`,
      here `n < 3`, inside it. */
  function HighDangerElsewhere(hand: seq<Card>, suit: Suit, n: int): Card -> bool {
    (c: Card) => CardDanger(c, hand) > 20 && c.suit != suit && n < 3
  }

  /** The greedy loop of selectAICardsToPass over the scan order `sorted`,
      from position i with the cards `sel` taken so far: stop at three cards;
      skip a card whose suit has a single card when it is a spade and the hand
      holds the queen of spades, or when it is 6 or lower and some card of
      another suit has danger above 20; take the rest. */
  ghost function Greedy(hand: seq<Card>, sorted: seq<Card>, i: nat, sel: seq<Card>): seq<Card>
    requires i <= |sorted|
    decreases |sorted| - i
  {
    if i == |sorted| || |sel| >= 3 then sel
    else
      var item := sorted[i];
      var wouldCreateVoid := SuitLen(hand, item.suit) == 1;
      if wouldCreateVoid && item.suit == Spades && QueenOfSpades in hand then
        Greedy(hand, sorted, i + 1, sel)
      else if wouldCreateVoid && item.value <= 6 &&
              |Filter(sorted, HighDangerElsewhere(hand, item.suit, |sel|))| > 0 then
        Greedy(hand, sorted, i + 1, sel)
      else Greedy(hand, sorted, i + 1, sel + [item])
  }

  /** A card that neither skip rule refuses. */
  ghost predicate Takeable(hand: seq<Card>, sorted: seq<Card>, x: Card) {
    !(SuitLen(hand, x.suit) == 1 && x.suit == Spades && QueenOfSpades in hand) &&
    !(SuitLen(hand, x.suit) == 1 && x.value <= 6 &&
      exists c :: c in sorted && CardDanger(c, hand) > 20 && c.suit != x.suit)
  }

  /** What the greedy scan takes: at most three cards, the cards taken before
      followed by cards of the rest of the scan order, each of them one that
      neither skip rule refuses. */
  lemma {:induction false} GreedyTakes(hand: seq<Card>, sorted: seq<Card>, i: nat, sel: seq<Card>)
    requires i <= |sorted| && |sel| <= 3
    ensures |sel| <= |Greedy(hand, sorted, i, sel)| <= 3
    ensures Greedy(hand, sorted, i, sel)[..|sel|] == sel
    ensures multiset(Greedy(hand, sorted, i, sel)) <= multiset(sel) + multiset(sorted[i..])
    ensures forall x :: x in Greedy(hand, sorted, i, sel) ==> x in sel || Takeable(hand, sorted, x)
    decreases |sorted| - i
  {
    if i < |sorted| && |sel| < 3 {
      var item := sorted[i];
      assert sorted[i..] == [item] + sorted[i + 1..];
      var wouldCreateVoid := SuitLen(hand, item.suit) == 1;
      var others := Filter(sorted, HighDangerElsewhere(hand, item.suit, |sel|));
      if wouldCreateVoid && item.suit == Spades && QueenOfSpades in hand {
        GreedyTakes(hand, sorted, i + 1, sel);
      } else if wouldCreateVoid && item.value <= 6 && |others| > 0 {
        GreedyTakes(hand, sorted, i + 1, sel);
      } else {
        assert Takeable(hand, sorted, item) by {
          forall c | c in sorted && CardDanger(c, hand) > 20 && c.suit != item.suit
            ensures |others| > 0
          {
            assert HighDangerElsewhere(hand, item.suit, |sel|)(c);
            assert c in others;
          }
        }
        GreedyTakes(hand, sorted, i + 1, sel + [item]);
        var g := Greedy(hand, sorted, i + 1, sel + [item]);
        assert g[..|sel|] == g[..|sel| + 1][..|sel|];
      }
    }
  }

  /** A queen of spades scanned first, with another spade in the hand, is taken. */
  lemma GreedyTakesLeadingQueen(hand: seq<Card>, sorted: seq<Card>)
    requires |sorted| > 0 && sorted[0] == QueenOfSpades && SuitLen(hand, Spades) >= 2
    ensures QueenOfSpades in Greedy(hand, sorted, 0, [])
  {
    var none: seq<Card> := [];
    assert QueenOfSpades.suit == Spades;
    assert none + [QueenOfSpades] == [QueenOfSpades];
    assert Greedy(hand, sorted, 0, none) == Greedy(hand, sorted, 1, none + [QueenOfSpades]);
    GreedyTakes(hand, sorted, 1, [QueenOfSpades]);
    var g := Greedy(hand, sorted, 1, [QueenOfSpades]);
    assert g[0] == g[..1][0];
  }

  /** The greedy choice over the danger order of the hand: at most three cards
      from distinct positions of the hand; a lone queen of spades is never
      taken and a queen with another spade always is. */
  lemma GreedyChoiceFacts(hand: seq<Card>)
    ensures |Greedy(hand, DangerOrder(hand), 0, [])| <= 3
    ensures multiset(Greedy(hand, DangerOrder(hand), 0, [])) <= multiset(hand)
    ensures QueenOfSpades in hand && SuitLen(hand, Spades) == 1 ==> QueenOfSpades !in Greedy(hand, DangerOrder(hand), 0, [])
    ensures QueenOfSpades in hand && SuitLen(hand, Spades) >= 2 ==> QueenOfSpades in Greedy(hand, DangerOrder(hand), 0, [])
  {
    var sorted := DangerOrder(hand);
    var none: seq<Card> := [];
    GreedyTakes(hand, sorted, 0, none);
    assert sorted[0..] == sorted;
    if QueenOfSpades in hand {
      QueenScannedFirst(hand);
      if SuitLen(hand, Spades) >= 2 {
        GreedyTakesLeadingQueen(hand, sorted);
      }
    }
  }

  /** The two skip rules as the greedy choice keeps them: a card alone in its
      suit is never a spade while the hand holds the queen of spades, and is 6
      or lower only when no card of another suit has danger above 20. */
  lemma GreedySkipRules(hand: seq<Card>)
    ensures forall x :: x in Greedy(hand, DangerOrder(hand), 0, []) && SuitLen(hand, x.suit) == 1 ==>
              !(x.suit == Spades && QueenOfSpades in hand)
    ensures forall x :: x in Greedy(hand, DangerOrder(hand), 0, []) && SuitLen(hand, x.suit) == 1 && x.value <= 6 ==>
              forall c :: c in hand && c.suit != x.suit ==> CardDanger(c, hand) <= 20
  {
    var sorted := DangerOrder(hand);
    var none: seq<Card> := [];
    GreedyTakes(hand, sorted, 0, none);
    forall c | c in hand ensures c in sorted {
      assert c in multiset(sorted);
    }
  }

  /** greedyPick's loop: it computes Greedy from the start of the scan order. */
  method GreedyPick(hand: seq<Card>, sorted: seq<Card>, counts: map<Suit, int>) returns (selectedCards: seq<Card>)
    requires CountsOf(hand, counts)
    ensures selectedCards == Greedy(hand, sorted, 0, [])
  {
    selectedCards := [];
    var passedSuits: set<Suit> := {};
    for i := 0 to |sorted|
      invariant Greedy(hand, sorted, i, selectedCards) == Greedy(hand, sorted, 0, [])
    {
      if |selectedCards| >= 3 {
        break;
      }
      var item := sorted[i];
      var wouldCreateVoid := SuitLength(counts, item.suit) == 1;
      var hasQueenOfSpades := HoldsQueenOfSpades(hand);
      if wouldCreateVoid && item.suit == Spades && hasQueenOfSpades {
        continue;
      }
      if wouldCreateVoid && item.value <= 6 {
        var otherHighDangerCards := Filter(sorted, HighDangerElsewhere(hand, item.suit, |selectedCards|));
        if |otherHighDangerCards| > 0 {
          continue;
        }
      }
      selectedCards := selectedCards + [item];
      passedSuits := passedSuits + {item.suit};
    }
  }

  /** What selectAICardsToPass passes from a hand of three cards or more: the
      greedy choice over the scan order, or the first three cards of that order
      when the greedy scan takes fewer than three. */
  ghost function PassChoice(hand: seq<Card>): seq<Card>
    requires |hand| >= 3
  {
    var greedy := Greedy(hand, DangerOrder(hand), 0, []);
    if |greedy| < 3 then DangerOrder(hand)[..3] else greedy
  }

  /** The body of selectAICardsToPass for a hand of three cards or more. The
      source's throw for a selection other than three cards is never reached:
      the greedy choice has at most three cards and the fallback exactly three. */
  method PickThree(hand: seq<Card>) returns (cards: seq<Card>)
    requires |hand| >= 3
    ensures cards == PassChoice(hand)
    ensures |cards| == 3 && multiset(cards) <= multiset(hand)
    ensures QueenOfSpades in hand && SuitLen(hand, Spades) >= 2 ==> QueenOfSpades in cards
    ensures QueenOfSpades in cards && SuitLen(hand, Spades) == 1 ==> cards == DangerOrder(hand)[..3]
  {
    var suitCounts := CountSuits(hand);
    var cardsWithDanger := DangerOrder(hand);
    var selectedCards := GreedyPick(hand, cardsWithDanger, suitCounts);
    GreedyChoiceFacts(hand);
    if |selectedCards| < 3 {
      PrefixSubMultiset(cardsWithDanger, 3);
      if QueenOfSpades in hand {
        QueenScannedFirst(hand);
        assert cardsWithDanger[..3][0] == QueenOfSpades;
      }
      return cardsWithDanger[..3];
    }
    if QueenOfSpades in selectedCards {
      assert QueenOfSpades in multiset(selectedCards);
    }
    return selectedCards;
  }

  /** selectAICardsToPass: nothing for a hand without passing; refuses a hand
      of fewer than three cards; otherwise PassChoice: three cards from
      distinct positions of the hand. A queen of spades with another spade
      beside it is always passed; a lone queen of spades only ever through the
      fallback. */
  method SelectAICardsToPass(hand: seq<Card>, direction: PassingDirection) returns (r: Result<seq<Card>>)
    ensures direction == NoPass ==> r == Ok([])
    ensures direction != NoPass ==> (|hand| < 3 <==> r == Err(HandTooSmall))
    ensures direction != NoPass && |hand| >= 3 ==> r == Ok(PassChoice(hand))
    ensures direction != NoPass && |hand| >= 3 ==> r.Ok? && |r.value| == 3 && multiset(r.value) <= multiset(hand)
    ensures direction != NoPass && r.Ok? && QueenOfSpades in hand && SuitLen(hand, Spades) >= 2 ==>
              QueenOfSpades in r.value
    ensures direction != NoPass && r.Ok? && QueenOfSpades in r.value && SuitLen(hand, Spades) == 1 ==>
              r.value == DangerOrder(hand)[..3]
  {
    if direction == NoPass {
      return Ok([]);
    }
    if |hand| < 3 {
      return Err(HandTooSmall);
    }
    var cards := PickThree(hand);
    return Ok(cards);
  }
}
