/** Playing a card to the trick, deciding who wins it, awarding it and
    noticing the end of the hand (src/logic/trickResolution.ts). */
module TrickResolution {
  import opened Cards
  import opened Errors
  import opened Game
  import opened MoveValidation

  /** Among the first n plays of a trick, play w is the earliest of the highest
      cards of the led suit, the suit of the first play. */
  ghost predicate BestOfLed(trick: seq<PlayedCard>, n: nat, w: nat) {
    w < n <= |trick| &&
    trick[w].card.suit == trick[0].card.suit &&
    (forall j :: 0 <= j < n && trick[j].card.suit == trick[0].card.suit ==>
       trick[j].card.value <= trick[w].card.value) &&
    (forall j :: 0 <= j < w && trick[j].card.suit == trick[0].card.suit ==>
       trick[j].card.value < trick[w].card.value)
  }

  /** There is one such play at most. */
  lemma BestOfLedUnique(trick: seq<PlayedCard>, n: nat, a: nat, b: nat)
    requires BestOfLed(trick, n, a) && BestOfLed(trick, n, b)
    ensures a == b
  {
  }

  /** The winning play among the first n plays. */
  function WinnerAmong(trick: seq<PlayedCard>, n: nat): (w: nat)
    requires 1 <= n <= |trick|
    ensures BestOfLed(trick, n, w)
  {
    if n == 1 then 0
    else
      var w := WinnerAmong(trick, n - 1);
      var c := trick[n - 1].card;
      if c.suit == trick[0].card.suit && c.value > trick[w].card.value then n - 1 else w
  }

  /** The position of the play that wins a non-empty trick. */
  function TrickWinnerIndex(trick: seq<PlayedCard>): (w: nat)
    requires |trick| > 0
    ensures BestOfLed(trick, |trick|, w)
  {
    WinnerAmong(trick, |trick|)
  }

  /** A card of another suit than the led one never wins the trick, however high. */
  lemma OffSuitNeverWins(trick: seq<PlayedCard>, j: nat)
    requires j < |trick| && trick[j].card.suit != trick[0].card.suit
    ensures TrickWinnerIndex(trick) != j
  {
  }

  /** determineTrickWinner: refuses a trick that does not hold four plays, and
      otherwise returns the id of the player who played the winning card. */
  method DetermineTrickWinner(trick: seq<PlayedCard>) returns (r: Result<string>)
    ensures |trick| != 4 <==> r == Err(TrickNotFour)
    ensures |trick| == 4 <==> r.Ok?
    ensures r.Ok? ==> r.value == trick[TrickWinnerIndex(trick)].playerId
  {
    if |trick| != 4 {
      return Err(TrickNotFour);
    }
    var ledSuit := trick[0].card.suit;
    var winningPlay := trick[0];
    var highestValue := trick[0].card.value;
    ghost var w := 0;
    var i := 1;
    while i < |trick|
      invariant 1 <= i <= |trick|
      invariant BestOfLed(trick, i, w)
      invariant winningPlay == trick[w] && highestValue == trick[w].card.value
    {
      var currentPlay := trick[i];
      var currentCard := currentPlay.card;
      if currentCard.suit == ledSuit && currentCard.value > highestValue {
        highestValue := currentCard.value;
        winningPlay := currentPlay;
        w := i;
      }
      i := i + 1;
    }
    BestOfLedUnique(trick, |trick|, w, TrickWinnerIndex(trick));
    return Ok(winningPlay.playerId);
  }

  /** The number of tricks won by all players together. */
  function TotalTricks(players: seq<Player>): (n: nat)
    ensures players == [] ==> n == 0
  {
    if players == [] then 0
    else TotalTricks(players[..|players| - 1]) + |players[|players| - 1].tricksTaken|
  }

  /** Giving one more trick to one player raises the total by exactly one. */
  lemma {:induction false} TotalTricksAward(players: seq<Player>, w: nat, t: seq<Card>)
    requires w < |players|
    ensures TotalTricks(players[w := players[w].(tricksTaken := players[w].tricksTaken + [t])])
            == TotalTricks(players) + 1
  {
    var n := |players| - 1;
    var u := players[w := players[w].(tricksTaken := players[w].tricksTaken + [t])];
    if w < n {
      assert u[..n] == players[..n][w := players[..n][w].(tricksTaken := players[..n][w].tricksTaken + [t])];
      TotalTricksAward(players[..n], w, t);
    } else {
      assert u[..n] == players[..n];
    }
  }

  /** isHandComplete: thirteen tricks have been won in all. */
  function IsHandComplete(gs: GameState): (b: bool)
    ensures b <==> TotalTricks(gs.players) == 13
  {
    TotalTricks(gs.players) == 13
  }

  /** getPlayerIndex: the first seat with the given id, or -1. */
  function GetPlayerIndex(players: seq<Player>, id: string): (i: int)
    ensures -1 <= i < |players|
    ensures i == -1 <==> forall j :: 0 <= j < |players| ==> players[j].id != id
    ensures i >= 0 ==> players[i].id == id && forall j :: 0 <= j < i ==> players[j].id != id
  {
    if players == [] then -1
    else if players[0].id == id then 0
    else
      var k := GetPlayerIndex(players[1..], id);
      assert forall j :: 0 < j < |players| ==> players[j] == players[1..][j - 1];
      if k == -1 then -1 else k + 1
  }

  /** Seat j is the first seat with the id. */
  ghost predicate FirstWithId(players: seq<Player>, id: string, j: int) {
    0 <= j < |players| && players[j].id == id && forall k :: 0 <= k < j ==> players[k].id != id
  }

  /** The first seat with an id is unique, and it is the seat getPlayerIndex finds. */
  lemma FirstWithIdIsIndex(players: seq<Player>, id: string)
    ensures forall j :: FirstWithId(players, id, j) <==> j >= 0 && j == GetPlayerIndex(players, id)
  {
    var i := GetPlayerIndex(players, id);
    forall j | FirstWithId(players, id, j) ensures j == i {
      assert players[j].id == id;
    }
  }

  /** The cards of a trick in play order. */
  function TrickCards(trick: seq<PlayedCard>): (cs: seq<Card>)
    ensures |cs| == |trick| && forall i :: 0 <= i < |trick| ==> cs[i] == trick[i].card
  {
    seq(|trick|, i requires 0 <= i < |trick| => trick[i].card)
  }

  /** Some card of the trick is a heart played on a trick led in another suit. */
  ghost predicate TrickBreaksHearts(gs: GameState) {
    exists k :: 0 <= k < |gs.currentTrick| && WouldBreakHearts(gs.currentTrick[k].card, gs)
  }

  /** resolveTrick: refuses an incomplete trick and a winner who is not seated;
      otherwise the first seat with the winner's id takes the trick's cards as
      one more trick and leads next, the trick is cleared, hearts become broken
      when a heart was discarded on another suit, and the hand is complete once
      thirteen tricks have been taken. Nothing else changes. */
  method ResolveTrick(gs: GameState) returns (r: Result<GameState>)
    ensures |gs.currentTrick| != 4 ==> r == Err(TrickIncomplete)
    ensures |gs.currentTrick| == 4 ==>
      var w := GetPlayerIndex(gs.players, gs.currentTrick[TrickWinnerIndex(gs.currentTrick)].playerId);
      (w == -1 <==> r == Err(WinnerNotFound)) &&
      (r.Ok? ==>
        var players := gs.players[w := gs.players[w].(tricksTaken := gs.players[w].tricksTaken + [TrickCards(gs.currentTrick)])];
        r.value == gs.(players := players,
                       currentPlayerIndex := w,
                       currentTrick := [],
                       heartsBroken := gs.heartsBroken || TrickBreaksHearts(gs),
                       phase := if TotalTricks(players) == 13 then HandComplete else gs.phase))
  {
    if |gs.currentTrick| != 4 {
      return Err(TrickIncomplete);
    }
    var winner := DetermineTrickWinner(gs.currentTrick);
    var winnerId := winner.value;
    var winnerIndex := GetPlayerIndex(gs.players, winnerId);
    if winnerIndex == -1 {
      return Err(WinnerNotFound);
    }
    var newHeartsBroken := gs.heartsBroken;
    var k := 0;
    while k < |gs.currentTrick|
      invariant 0 <= k <= |gs.currentTrick|
      invariant forall m :: 0 <= m < k ==> !WouldBreakHearts(gs.currentTrick[m].card, gs)
      invariant newHeartsBroken == gs.heartsBroken
    {
      if WouldBreakHearts(gs.currentTrick[k].card, gs) {
        newHeartsBroken := true;
        break;
      }
      k := k + 1;
    }
    var trickCards := TrickCards(gs.currentTrick);
    var p := gs.players[winnerIndex];
    var updatedPlayers := gs.players[winnerIndex := p.(tricksTaken := p.tricksTaken + [trickCards])];
    var updatedState := gs.(players := updatedPlayers, currentPlayerIndex := winnerIndex,
                            currentTrick := [], heartsBroken := newHeartsBroken);
    if IsHandComplete(updatedState) {
      return Ok(updatedState.(phase := HandComplete));
    }
    return Ok(updatedState);
  }

  /** addCardToTrick: appends the play; the hand of the player is not touched.
      The first card sets the led suit, which later cards leave alone, and
      hearts once broken stay broken. */
  function AddCardToTrick(gs: GameState, c: Card, playerId: string): (r: GameState)
    ensures r.currentTrick == gs.currentTrick + [PlayedCard(c, playerId)]
    ensures r.heartsBroken <==> gs.heartsBroken || WouldBreakHearts(c, gs)
    ensures r == gs.(currentTrick := r.currentTrick, heartsBroken := r.heartsBroken)
    ensures GetLedSuit(r) == if gs.currentTrick == [] then Some(c.suit) else GetLedSuit(gs)
  {
    var newHeartsBroken := if WouldBreakHearts(c, gs) then true else gs.heartsBroken;
    gs.(currentTrick := gs.currentTrick + [PlayedCard(c, playerId)], heartsBroken := newHeartsBroken)
  }
}
