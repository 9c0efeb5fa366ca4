/** Scoring a finished hand: penalty points from the tricks taken, shooting the
    moon and the running totals (src/logic/scoring.ts). The scoring functions
    of the source update the player objects of an array in place; here the
    players sit in an `array<Player>` whose elements the methods replace. */
module Scoring {
  import opened Cards
  import opened Seqs
  import opened Deck
  import opened Game

  /** The number of hearts among all the cards of the tricks. */
  function HeartCount(tricks: seq<seq<Card>>): nat {
    |Filter(Flatten(tricks), SuitIs(Hearts))|
  }

  /** Some trick holds the queen of spades. */
  predicate HoldsQueen(tricks: seq<seq<Card>>) {
    exists i :: 0 <= i < |tricks| && QueenOfSpades in tricks[i]
  }

  /** The penalty points of a set of tricks: one per heart, thirteen for the
      queen of spades. They are zero exactly when no trick holds a penalty
      card, and never exceed the number of cards plus thirteen. */
  function PenaltyPoints(tricks: seq<seq<Card>>): (s: nat)
    ensures s == 0 <==> forall i :: 0 <= i < |tricks| ==>
                          forall c :: c in tricks[i] ==> c.suit != Hearts && c != QueenOfSpades
    ensures s <= |Flatten(tricks)| + 13
  {
    HeartCountZero(tricks);
    HeartCount(tricks) + (if HoldsQueen(tricks) then 13 else 0)
  }

  lemma HeartCountZero(tricks: seq<seq<Card>>)
    ensures HeartCount(tricks) == 0 <==> forall c :: c in Flatten(tricks) ==> c.suit != Hearts
  {
    var hs := Filter(Flatten(tricks), SuitIs(Hearts));
    if hs != [] {
      assert hs[0] in hs;
    }
  }

  /** countHearts: counts, trick by trick and card by card, the hearts. */
  method CountHearts(tricks: seq<seq<Card>>) returns (count: nat)
    ensures count == HeartCount(tricks)
  {
    count := 0;
    for t := 0 to |tricks|
      invariant count == |Filter(Flatten(tricks[..t]), SuitIs(Hearts))|
    {
      var trick := tricks[t];
      var before := Flatten(tricks[..t]);
      for c := 0 to |trick|
        invariant count == |Filter(before, SuitIs(Hearts))| + |Filter(trick[..c], SuitIs(Hearts))|
      {
        FilterPrefixStep(trick, c, SuitIs(Hearts));
        if trick[c].suit == Hearts {
          count := count + 1;
        }
      }
      assert trick[..|trick|] == trick;
      FlattenPrefixStep(tricks, t);
      FilterConcat(before, trick, SuitIs(Hearts));
    }
    assert tricks[..|tricks|] == tricks;
  }

  /** hasQueenOfSpades: searches the tricks for the queen of spades and stops
      at the first one. */
  method HasQueenOfSpades(tricks: seq<seq<Card>>) returns (b: bool)
    ensures b <==> HoldsQueen(tricks)
  {
    for t := 0 to |tricks|
      invariant forall i :: 0 <= i < t ==> QueenOfSpades !in tricks[i]
    {
      var trick := tricks[t];
      for c := 0 to |trick|
        invariant forall k :: 0 <= k < c ==> trick[k] != QueenOfSpades
      {
        if trick[c].suit == Spades && trick[c].rank == Queen {
          return true;
        }
      }
    }
    return false;
  }

  /** calculateHandScore: the penalty points of the tricks a player took. */
  method CalculateHandScore(tricksTaken: seq<seq<Card>>) returns (s: nat)
    ensures s == PenaltyPoints(tricksTaken)
  {
    var heartsCount := CountHearts(tricksTaken);
    var hasQueen := HasQueenOfSpades(tricksTaken);
    s := heartsCount + (if hasQueen then 13 else 0);
  }

  /** hasShotTheMoon: a hand score of exactly 26. */
  function HasShotTheMoon(score: int): (b: bool)
    ensures b <==> score == 26
  {
    score == 26
  }

  /** The first seat whose hand score shoots the moon, or -1. */
  function FirstShooter(ps: seq<Player>): (s: int)
    ensures -1 <= s < |ps|
    ensures s == -1 <==> forall j :: 0 <= j < |ps| ==> ps[j].score != 26
    ensures s >= 0 ==> ps[s].score == 26 && forall j :: 0 <= j < s ==> ps[j].score != 26
  {
    if ps == [] then -1
    else if HasShotTheMoon(ps[0].score) then 0
    else
      var k := FirstShooter(ps[1..]);
      assert forall j :: 0 < j < |ps| ==> ps[j] == ps[1..][j - 1];
      if k == -1 then -1 else k + 1
  }

  /** The players after the moon adjustment: the first shooter scores -26 for
      the hand, and every other player, a later one at 26 included, keeps the
      hand score. */
  function MoonAdjusted(ps: seq<Player>): (r: seq<Player>)
    ensures |r| == |ps|
    ensures forall i :: 0 <= i < |ps| && i != FirstShooter(ps) ==> r[i] == ps[i]
    ensures FirstShooter(ps) >= 0 ==> r[FirstShooter(ps)] == ps[FirstShooter(ps)].(score := -26)
  {
    var s := FirstShooter(ps);
    if s == -1 then ps else ps[s := ps[s].(score := -26)]
  }

  /** The players once each has added the hand score to the total. */
  function WithTotals(ps: seq<Player>): (r: seq<Player>)
    ensures |r| == |ps|
  {
    seq(|ps|, i requires 0 <= i < |ps| => ps[i].(totalScore := ps[i].totalScore + ps[i].score))
  }

  /** The players once each hand score is the penalty points of the tricks taken. */
  function WithHandScores(ps: seq<Player>): (r: seq<Player>)
    ensures |r| == |ps|
  {
    seq(|ps|, i requires 0 <= i < |ps| => ps[i].(score := PenaltyPoints(ps[i].tricksTaken)))
  }

  /** The players after a complete scoring of the hand. */
  function Scored(ps: seq<Player>): (r: seq<Player>)
    ensures |r| == |ps|
  {
    WithTotals(MoonAdjusted(WithHandScores(ps)))
  }

  /** applyShootingTheMoon: the first player whose hand score is 26 gets -26. */
  method ApplyShootingTheMoon(players: array<Player>)
    modifies players
    ensures players[..] == MoonAdjusted(old(players[..]))
  {
    var shooterIndex := -1;
    var i := 0;
    while i < players.Length
      invariant 0 <= i <= players.Length
      invariant forall j :: 0 <= j < i ==> players[j].score != 26
      invariant shooterIndex == -1
    {
      if HasShotTheMoon(players[i].score) {
        shooterIndex := i;
        break;
      }
      i := i + 1;
    }
    assert shooterIndex == FirstShooter(players[..]);
    if shooterIndex != -1 {
      players[shooterIndex] := players[shooterIndex].(score := -26);
    }
  }

  /** updateCumulativeScores: every player adds the hand score to the total. */
  method UpdateCumulativeScores(players: array<Player>)
    modifies players
    ensures players[..] == WithTotals(old(players[..]))
  {
    for i := 0 to players.Length
      invariant players[..i] == WithTotals(old(players[..]))[..i]
      invariant players[i..] == old(players[..])[i..]
    {
      var player := players[i];
      assert player == old(players[..])[i];
      players[i] := player.(totalScore := player.totalScore + player.score);
    }
  }

  /** scoreHand: hand scores from the tricks, then the moon adjustment, then
      the totals. */
  method ScoreHand(players: array<Player>)
    modifies players
    ensures players[..] == Scored(old(players[..]))
  {
    for i := 0 to players.Length
      invariant players[..i] == WithHandScores(old(players[..]))[..i]
      invariant players[i..] == old(players[..])[i..]
    {
      var player := players[i];
      assert player == old(players[..])[i];
      var s := CalculateHandScore(player.tricksTaken);
      players[i] := player.(score := s);
    }
    assert players[..] == WithHandScores(old(players[..]));
    ApplyShootingTheMoon(players);
    UpdateCumulativeScores(players);
  }

  /** What scoring does to one player: the hand, the tricks and everything but
      the two scores are kept; the hand score is the penalty points, or -26
      for the first player who took 26, and the total grows by the hand score. */
  lemma ScoredPlayer(ps: seq<Player>, i: nat)
    requires i < |ps|
    ensures var sc := if i == FirstShooter(WithHandScores(ps)) then -26 else PenaltyPoints(ps[i].tricksTaken);
            Scored(ps)[i] == ps[i].(score := sc, totalScore := ps[i].totalScore + sc)
  {
    var h := WithHandScores(ps);
    assert h[i] == ps[i].(score := PenaltyPoints(ps[i].tricksTaken));
  }

  /** The cards taken by four players, player by player. */
  function TakenCards(ps: seq<Player>): seq<Card>
    requires |ps| == 4
  {
    Flatten(ps[0].tricksTaken) + Flatten(ps[1].tricksTaken) +
    Flatten(ps[2].tricksTaken) + Flatten(ps[3].tricksTaken)
  }

  lemma StandardDeckIsDistinct()
    ensures Distinct(StandardDeck())
  {
    var d := StandardDeck();
    forall i, j | 0 <= i < j < |d| ensures d[i] != d[j] {
      if d[i] == d[j] {
        StandardDeckDistinct(i, j);
      }
    }
  }

  /** A deck holds one queen of spades, so when the four players have taken
      the whole deck exactly one of them holds it. */
  lemma QueenTakenOnce(ps: seq<Player>)
    requires |ps| == 4 && multiset(TakenCards(ps)) == multiset(StandardDeck())
    ensures (if HoldsQueen(ps[0].tricksTaken) then 1 else 0) + (if HoldsQueen(ps[1].tricksTaken) then 1 else 0) +
            (if HoldsQueen(ps[2].tricksTaken) then 1 else 0) + (if HoldsQueen(ps[3].tricksTaken) then 1 else 0) == 1
  {
    StandardDeckIsDistinct();
    StandardDeckComplete(QueenOfSpades);
    DistinctOnce(StandardDeck(), QueenOfSpades);
    var f0, f1, f2, f3 := Flatten(ps[0].tricksTaken), Flatten(ps[1].tricksTaken),
                          Flatten(ps[2].tricksTaken), Flatten(ps[3].tricksTaken);
    assert QueenOfSpades in f0 <==> multiset(f0)[QueenOfSpades] > 0;
    assert QueenOfSpades in f1 <==> multiset(f1)[QueenOfSpades] > 0;
    assert QueenOfSpades in f2 <==> multiset(f2)[QueenOfSpades] > 0;
    assert QueenOfSpades in f3 <==> multiset(f3)[QueenOfSpades] > 0;
    assert multiset(TakenCards(ps))[QueenOfSpades] ==
           multiset(f0)[QueenOfSpades] + multiset(f1)[QueenOfSpades] +
           multiset(f2)[QueenOfSpades] + multiset(f3)[QueenOfSpades];
  }

  /** When the four players have taken the whole deck, their penalty points add
      up to 26: thirteen hearts and the queen. */
  lemma {:induction false} PenaltiesTotal26(ps: seq<Player>)
    requires |ps| == 4 && multiset(TakenCards(ps)) == multiset(StandardDeck())
    ensures PenaltyPoints(ps[0].tricksTaken) + PenaltyPoints(ps[1].tricksTaken) +
            PenaltyPoints(ps[2].tricksTaken) + PenaltyPoints(ps[3].tricksTaken) == 26
  {
    var f0, f1, f2, f3 := Flatten(ps[0].tricksTaken), Flatten(ps[1].tricksTaken),
                          Flatten(ps[2].tricksTaken), Flatten(ps[3].tricksTaken);
    var h := SuitIs(Hearts);
    FilterConcat(f0 + f1 + f2, f3, h);
    FilterConcat(f0 + f1, f2, h);
    FilterConcat(f0, f1, h);
    FilterLengthPermutation(TakenCards(ps), StandardDeck(), h);
    StandardDeckSuitCount(Hearts);
    QueenTakenOnce(ps);
  }

  /** When one player shot the moon, which needs the whole deck taken, every
      other player took no penalty point. */
  lemma MoonLeavesOthersClean(ps: seq<Player>, s: nat, j: nat)
    requires |ps| == 4 && multiset(TakenCards(ps)) == multiset(StandardDeck())
    requires s < 4 && j < 4 && s != j && PenaltyPoints(ps[s].tricksTaken) == 26
    ensures PenaltyPoints(ps[j].tricksTaken) == 0
  {
    PenaltiesTotal26(ps);
    var p := Penalties(ps);
    OneTakesAll(p, s, j);
  }

  /** The penalty points of the four players, seat by seat. */
  function Penalties(ps: seq<Player>): (p: seq<nat>)
    requires |ps| == 4
    ensures |p| == 4 && forall i :: 0 <= i < 4 ==> p[i] == PenaltyPoints(ps[i].tricksTaken)
  {
    [PenaltyPoints(ps[0].tricksTaken), PenaltyPoints(ps[1].tricksTaken),
     PenaltyPoints(ps[2].tricksTaken), PenaltyPoints(ps[3].tricksTaken)]
  }

  /** Four counts that add up to 26, one of which is 26, leave 0 for the others. */
  lemma OneTakesAll(p: seq<nat>, s: nat, j: nat)
    requires |p| == 4 && p[0] + p[1] + p[2] + p[3] == 26
    requires s < 4 && j < 4 && s != j && p[s] == 26
    ensures p[j] == 0
  {
  }

  /** After scoring a hand in which the four players took the whole deck, the
      hand scores add up to -26 when somebody shot the moon (everybody else
      has 0) and to 26 otherwise. */
  lemma ScoredHandTotal(ps: seq<Player>)
    requires |ps| == 4 && multiset(TakenCards(ps)) == multiset(StandardDeck())
    ensures var r := Scored(ps);
            r[0].score + r[1].score + r[2].score + r[3].score ==
            if exists i :: 0 <= i < 4 && PenaltyPoints(ps[i].tricksTaken) == 26 then -26 else 26
  {
    PenaltiesTotal26(ps);
    ScoredPlayer(ps, 0);
    ScoredPlayer(ps, 1);
    ScoredPlayer(ps, 2);
    ScoredPlayer(ps, 3);
    var h := WithHandScores(ps);
    assert forall i :: 0 <= i < 4 ==> h[i].score == PenaltyPoints(ps[i].tricksTaken);
  }
}
