/** The end of the game: the 100-point limit, the winner with the lowest total
    and the switch to the game-over phase (src/logic/gameEnding.ts). */
module GameEnding {
  import opened Errors
  import opened Game

  /** The total at which the game ends. */
  const ScoreLimit: int := 100

  /** shouldGameEnd: some player has reached 100 points or more. */
  function ShouldGameEnd(players: seq<Player>): (b: bool)
    ensures b <==> exists i :: 0 <= i < |players| && players[i].totalScore >= ScoreLimit
  {
    exists p :: p in players && p.totalScore >= ScoreLimit
  }

  /** Seat w has the lowest total, and every earlier seat a strictly higher one. */
  ghost predicate LowestFirst(players: seq<Player>, w: nat) {
    w < |players| &&
    (forall j :: 0 <= j < |players| ==> players[w].totalScore <= players[j].totalScore) &&
    (forall j :: 0 <= j < w ==> players[w].totalScore < players[j].totalScore)
  }

  /** determineWinner: refuses an empty table; otherwise the id of the player
      with the lowest total, the earliest seat among equal lowest totals. */
  method DetermineWinner(players: seq<Player>) returns (r: Result<string>)
    ensures players == [] <==> r == Err(NoPlayers)
    ensures players != [] <==> r.Ok?
    ensures r.Ok? ==> exists w: nat :: LowestFirst(players, w) && r.value == players[w].id
  {
    if |players| == 0 {
      return Err(NoPlayers);
    }
    var winner := players[0];
    ghost var w := 0;
    for i := 1 to |players|
      invariant w < i && winner == players[w]
      invariant forall j :: 0 <= j < i ==> winner.totalScore <= players[j].totalScore
      invariant forall j :: 0 <= j < w ==> winner.totalScore < players[j].totalScore
    {
      if players[i].totalScore < winner.totalScore {
        winner := players[i];
        w := i;
      }
    }
    assert LowestFirst(players, w);
    return Ok(winner.id);
  }

  /** At most one seat is the earliest of the lowest totals. */
  lemma LowestFirstUnique(players: seq<Player>, a: nat, b: nat)
    requires LowestFirst(players, a) && LowestFirst(players, b)
    ensures a == b
  {
    assert players[a].totalScore == players[b].totalScore;
  }

  /** transitionToGameOver: the same state in the game-over phase. */
  function TransitionToGameOver(gs: GameState): (r: GameState)
    ensures r.phase == GameOver
    ensures r == gs.(phase := r.phase)
  {
    gs.(phase := GameOver)
  }

  /** checkAndTransitionToGameOver: the game is over once some total reaches
      the limit; otherwise the state is returned as it is. */
  function CheckAndTransitionToGameOver(gs: GameState): (r: GameState)
    ensures ShouldGameEnd(gs.players) ==> r == TransitionToGameOver(gs)
    ensures !ShouldGameEnd(gs.players) ==> r == gs
  {
    if ShouldGameEnd(gs.players) then TransitionToGameOver(gs) else gs
  }

  /** Checking twice changes nothing more than checking once, and a game is
      over after the check exactly when some total has reached the limit or it
      was over already. */
  lemma CheckIdempotent(gs: GameState)
    ensures CheckAndTransitionToGameOver(CheckAndTransitionToGameOver(gs)) == CheckAndTransitionToGameOver(gs)
    ensures CheckAndTransitionToGameOver(gs).phase == GameOver <==>
            ShouldGameEnd(gs.players) || gs.phase == GameOver
  {
  }
}
