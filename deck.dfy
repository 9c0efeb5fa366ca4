/** The deck: building the 52 cards, the Fisher-Yates shuffle and the deal to
    four hands (src/models/Deck.ts). */
module Deck {
  import opened Cards
  import opened Seqs
  import opened Errors

  /** The deck createDeck builds: suit by suit in SuitOrder, and within a suit
      rank by rank from 2 to A. */
  function StandardDeck(): (d: seq<Card>)
    ensures |d| == 52
  {
    seq(52, i requires 0 <= i < 52 => Card(SuitOrder[i / 13], RankOrder[i % 13]))
  }

  /** The thirteen cards of one suit, from 2 to A. */
  function SuitBlock(s: Suit): (b: seq<Card>)
    ensures |b| == 13
  {
    seq(13, k requires 0 <= k < 13 => Card(s, RankOrder[k]))
  }

  lemma StandardDeckAt(si: nat, ri: nat)
    requires si < 4 && ri < 13
    ensures 13 * si + ri < 52
    ensures StandardDeck()[13 * si + ri] == Card(SuitOrder[si], RankOrder[ri])
  {
    var i := 13 * si + ri;
    assert i / 13 == si && i % 13 == ri;
  }

  lemma StandardDeckBlocks()
    ensures StandardDeck() == SuitBlock(Hearts) + SuitBlock(Diamonds) + SuitBlock(Clubs) + SuitBlock(Spades)
  {
    var d := StandardDeck();
    StandardDeckSlice(0);
    StandardDeckSlice(1);
    StandardDeckSlice(2);
    StandardDeckSlice(3);
    assert d == d[0..13] + d[13..26] + d[26..39] + d[39..52];
  }

  /** The cards 13 * si to 13 * si + 12 of the deck are the block of suit si. */
  lemma StandardDeckSlice(si: nat)
    requires si < 4
    ensures StandardDeck()[13 * si..13 * si + 13] == SuitBlock(SuitOrder[si])
  {
    var d, b := StandardDeck()[13 * si..13 * si + 13], SuitBlock(SuitOrder[si]);
    forall ri | 0 <= ri < 13 ensures d[ri] == b[ri] {
      StandardDeckAt(si, ri);
    }
  }

  /** Every card of the game is in the standard deck. */
  lemma StandardDeckComplete(c: Card)
    ensures c in StandardDeck()
  {
    StandardDeckAt(SuitIndex(c.suit), RankIndex(c.rank));
  }

  /** No card appears twice in the standard deck. */
  lemma StandardDeckDistinct(i: nat, j: nat)
    requires i < 52 && j < 52 && StandardDeck()[i] == StandardDeck()[j]
    ensures i == j
  {
    SuitOrderInjective(i / 13, j / 13);
    RankOrderInjective(i % 13, j % 13);
    assert i == 13 * (i / 13) + i % 13 && j == 13 * (j / 13) + j % 13;
  }

  /** The standard deck holds thirteen cards of each suit. */
  lemma StandardDeckSuitCount(s: Suit)
    ensures |Filter(StandardDeck(), SuitIs(s))| == 13
  {
    StandardDeckBlocks();
    var h, d, c, sp := SuitBlock(Hearts), SuitBlock(Diamonds), SuitBlock(Clubs), SuitBlock(Spades);
    var f := SuitIs(s);
    FilterConcat(h + d + c, sp, f);
    FilterConcat(h + d, c, f);
    FilterConcat(h, d, f);
    var n := |Filter(h, f)| + |Filter(d, f)| + |Filter(c, f)| + |Filter(sp, f)|;
    assert |Filter(StandardDeck(), f)| == n;
    BlockSuitFilter(Hearts, s);
    BlockSuitFilter(Diamonds, s);
    BlockSuitFilter(Clubs, s);
    BlockSuitFilter(Spades, s);
    match s
    case Hearts => assert n == 13 + 0 + 0 + 0;
    case Diamonds => assert n == 0 + 13 + 0 + 0;
    case Clubs => assert n == 0 + 0 + 13 + 0;
    case Spades => assert n == 0 + 0 + 0 + 13;
  }

  lemma BlockSuitFilter(t: Suit, s: Suit)
    ensures Filter(SuitBlock(t), SuitIs(s)) == if t == s then SuitBlock(t) else []
  {
    if t == s {
      FilterAll(SuitBlock(t), SuitIs(s));
    } else {
      FilterNone(SuitBlock(t), SuitIs(s));
    }
  }

  /** The standard deck holds four cards of each rank. */
  lemma StandardDeckRankCount(r: Rank)
    ensures |Filter(StandardDeck(), RankIs(r))| == 4
  {
    StandardDeckBlocks();
    var h, d, c, sp := SuitBlock(Hearts), SuitBlock(Diamonds), SuitBlock(Clubs), SuitBlock(Spades);
    FilterConcat(h + d + c, sp, RankIs(r));
    FilterConcat(h + d, c, RankIs(r));
    FilterConcat(h, d, RankIs(r));
    BlockRankFilter(Hearts, r);
    BlockRankFilter(Diamonds, r);
    BlockRankFilter(Clubs, r);
    BlockRankFilter(Spades, r);
  }

  lemma BlockRankFilter(t: Suit, r: Rank)
    ensures Filter(SuitBlock(t), RankIs(r)) == [Card(t, r)]
  {
    var b := SuitBlock(t);
    var k := RankIndex(r);
    forall j | 0 <= j < 13 && j != k ensures !RankIs(r)(b[j]) {
      if b[j].rank == r {
        RankOrderInjective(j, k);
      }
    }
    FilterSingle(b, RankIs(r), k);
  }

  /** createDeck: the two nested loops over suits and ranks. */
  method CreateDeck() returns (deck: seq<Card>)
    ensures deck == StandardDeck()
  {
    deck := [];
    var si := 0;
    while si < 4
      invariant 0 <= si <= 4
      invariant deck == StandardDeck()[..13 * si]
    {
      var ri := 0;
      while ri < 13
        invariant 0 <= ri <= 13
        invariant deck == StandardDeck()[..13 * si + ri]
      {
        StandardDeckAt(si, ri);
        PrefixSnoc(StandardDeck(), 13 * si + ri);
        deck := deck + [CreateCard(SuitOrder[si], RankOrder[ri])];
        ri := ri + 1;
      }
      si := si + 1;
    }
  }

  /** The random numbers of one shuffle: `picks[i]` stands for the
      `Math.floor(Math.random() * (i + 1))` drawn when position `i` is visited. */
  ghost predicate ValidPicks(picks: seq<int>, n: nat) {
    |picks| == n && forall i :: 0 <= i < n ==> 0 <= picks[i] <= i
  }

  function Swap<T>(s: seq<T>, i: nat, j: nat): (r: seq<T>)
    requires i < |s| && j < |s|
    ensures |r| == |s| && r[i] == s[j] && r[j] == s[i]
    ensures forall k :: 0 <= k < |s| && k != i && k != j ==> r[k] == s[k]
  {
    s[i := s[j]][j := s[i]]
  }

  lemma SwapPermutes<T>(s: seq<T>, i: nat, j: nat)
    requires i < |s| && j < |s|
    ensures multiset(Swap(s, i, j)) == multiset(s)
  {
    var t := s[i := s[j]];
    assert multiset(t) == multiset(s) - multiset{s[i]} + multiset{s[j]};
    assert multiset(t[j := s[i]]) == multiset(t) - multiset{t[j]} + multiset{s[i]};
  }

  /** The Fisher-Yates passes still to make: positions m-1 down to 1. */
  function ShuffleFrom<T>(s: seq<T>, picks: seq<int>, m: nat): (r: seq<T>)
    requires m <= |s| && ValidPicks(picks, |s|)
    ensures |r| == |s|
    decreases m
  {
    if m <= 1 then s else ShuffleFrom(Swap(s, m - 1, picks[m - 1]), picks, m - 1)
  }

  /** The shuffle of `s` that the random draws `picks` produce. */
  function FisherYates<T>(s: seq<T>, picks: seq<int>): (r: seq<T>)
    requires ValidPicks(picks, |s|)
    ensures |r| == |s|
  {
    ShuffleFrom(s, picks, |s|)
  }

  lemma {:induction false} ShuffleFromPermutes<T>(s: seq<T>, picks: seq<int>, m: nat)
    requires m <= |s| && ValidPicks(picks, |s|)
    ensures multiset(ShuffleFrom(s, picks, m)) == multiset(s)
    decreases m
  {
    if m > 1 {
      SwapPermutes(s, m - 1, picks[m - 1]);
      ShuffleFromPermutes(Swap(s, m - 1, picks[m - 1]), picks, m - 1);
    }
  }

  /** Whatever the random draws, a shuffle is a permutation of the deck. */
  lemma FisherYatesPermutes<T>(s: seq<T>, picks: seq<int>)
    requires ValidPicks(picks, |s|)
    ensures multiset(FisherYates(s, picks)) == multiset(s)
  {
    ShuffleFromPermutes(s, picks, |s|);
  }

  /** When every draw picks the position itself, nothing moves. */
  lemma {:induction false} FisherYatesIdentity<T>(s: seq<T>, picks: seq<int>, m: nat)
    requires m <= |s| && ValidPicks(picks, |s|)
    requires forall i :: 0 <= i < |s| ==> picks[i] == i
    ensures ShuffleFrom(s, picks, m) == s
    decreases m
  {
    if m > 1 {
      assert Swap(s, m - 1, picks[m - 1]) == s;
      FisherYatesIdentity(s, picks, m - 1);
    }
  }

  /** shuffle: copies the deck into a fresh array and swaps in place from the
      back; the input sequence is untouched. */
  method Shuffle(deck: seq<Card>, picks: seq<int>) returns (shuffled: seq<Card>)
    requires ValidPicks(picks, |deck|)
    ensures shuffled == FisherYates(deck, picks)
    ensures multiset(shuffled) == multiset(deck)
  {
    var a := new Card[|deck|](k requires 0 <= k < |deck| => deck[k]);
    assert a[..] == deck;
    var i := |deck|;
    while i > 1
      invariant 0 <= i <= a.Length == |deck|
      invariant ShuffleFrom(a[..], picks, i) == FisherYates(deck, picks)
      modifies a
    {
      var j := picks[i - 1];
      assert Swap(a[..], i - 1, j) == a[..][i - 1 := a[j]][j := a[i - 1]];
      a[i - 1], a[j] := a[j], a[i - 1];
      i := i - 1;
    }
    shuffled := a[..];
    FisherYatesPermutes(deck, picks);
  }

  /** The hands deal produces: card i goes to player i % 4, so player p's k-th
      card is card 4k + p of the deck. */
  ghost predicate DealtFrom(deck: seq<Card>, hands: seq<seq<Card>>) {
    |deck| == 52 && |hands| == 4 &&
    forall p :: 0 <= p < 4 ==>
      |hands[p]| == 13 && forall k :: 0 <= k < 13 ==> hands[p][k] == deck[4 * k + p]
  }

  lemma NoCardsDealt()
    ensures MultisetSum<Card>([[], [], [], []]) == multiset{}
  {
    var none: seq<Card> := [];
    MultisetSumFour([none, none, none, none]);
  }

  /** The state of deal after its first i cards: player p holds the cards
      p, p + 4, p + 8, ... below i, and together the hands hold deck[..i]. */
  ghost predicate DealInvariant(deck: seq<Card>, hands: seq<seq<Card>>, i: nat)
    requires i <= |deck|
  {
    |hands| == 4 &&
    (forall p :: 0 <= p < 4 ==> i <= 4 * |hands[p]| + p < i + 4) &&
    (forall p, k :: 0 <= p < 4 && 0 <= k < |hands[p]| ==> 4 * k + p < |deck| && hands[p][k] == deck[4 * k + p]) &&
    MultisetSum(hands) == multiset(deck[..i])
  }

  lemma DealStep(deck: seq<Card>, hands: seq<seq<Card>>, i: nat)
    requires i < |deck| && DealInvariant(deck, hands, i)
    ensures DealInvariant(deck, hands[i % 4 := hands[i % 4] + [deck[i]]], i + 1)
  {
    var p := i % 4;
    var h := hands[p := hands[p] + [deck[i]]];
    DealStepPlaces(deck, hands, i);
    MultisetSumAddTo(hands, p, deck[i]);
    assert deck[..i + 1] == deck[..i] + [deck[i]];
  }

  lemma DealStepPlaces(deck: seq<Card>, hands: seq<seq<Card>>, i: nat)
    requires i < |deck| && DealInvariant(deck, hands, i)
    ensures var h := hands[i % 4 := hands[i % 4] + [deck[i]]];
      (forall q :: 0 <= q < 4 ==> i + 1 <= 4 * |h[q]| + q < i + 5) &&
      (forall q, k :: 0 <= q < 4 && 0 <= k < |h[q]| ==> 4 * k + q < |deck| && h[q][k] == deck[4 * k + q])
  {
    var p := i % 4;
    var h := hands[p := hands[p] + [deck[i]]];
    assert 4 * |hands[p]| + p == i;
    forall q, k | 0 <= q < 4 && 0 <= k < |h[q]| ensures 4 * k + q < |deck| && h[q][k] == deck[4 * k + q] {
      if q == p && k == |hands[p]| {
      } else {
        assert h[q][k] == hands[q][k];
      }
    }
  }

  lemma DealDone(deck: seq<Card>, hands: seq<seq<Card>>)
    requires |deck| == 52 && DealInvariant(deck, hands, 52)
    ensures DealtFrom(deck, hands) && MultisetSum(hands) == multiset(deck)
  {
    assert deck[..52] == deck;
  }

  /** deal: refuses a deck that is not exactly 52 cards; otherwise deals one
      card at a time round the table. No card is lost or duplicated. */
  method Deal(deck: seq<Card>) returns (r: Result<seq<seq<Card>>>)
    ensures |deck| != 52 <==> r == Err(DeckNotFull)
    ensures |deck| == 52 <==> r.Ok?
    ensures r.Ok? ==> DealtFrom(deck, r.value) && MultisetSum(r.value) == multiset(deck)
  {
    if |deck| != 52 {
      return Err(DeckNotFull);
    }
    var hands: seq<seq<Card>> := [[], [], [], []];
    NoCardsDealt();
    var i := 0;
    while i < |deck|
      invariant 0 <= i <= 52 && DealInvariant(deck, hands, i)
    {
      DealStep(deck, hands, i);
      hands := hands[i % 4 := hands[i % 4] + [deck[i]]];
      i := i + 1;
    }
    DealDone(deck, hands);
    return Ok(hands);
  }
}
