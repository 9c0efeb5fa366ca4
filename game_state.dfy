/** The game state: players, played cards, phases and passing directions, and
    the queries on them (src/models/GameState.ts). */
module Game {
  import opened Cards
  import opened Errors

  datatype Phase = Passing | Playing | HandComplete | GameOver

  /** The four passing directions; `NoPass` is the source's 'none'. */
  datatype PassingDirection = Left | Right | Across | NoPass

  datatype PlayedCard = PlayedCard(card: Card, playerId: string)

  /** A player. `tricksTaken` holds one sequence of cards per trick won. */
  datatype Player = Player(id: string, name: string, isHuman: bool, hand: seq<Card>,
                           tricksTaken: seq<seq<Card>>, score: int, totalScore: int)

  /** The whole state of a game. The passing selections are keyed by player id. */
  datatype GameState = GameState(
    players: seq<Player>,
    currentPlayerIndex: int,
    dealerIndex: int,
    phase: Phase,
    passingDirection: PassingDirection,
    handNumber: int,
    currentTrick: seq<PlayedCard>,
    heartsBroken: bool,
    selectedCardsForPassing: map<string, seq<Card>>)

  const TwoOfClubs: Card := Card(Clubs, Two)
  const QueenOfSpades: Card := Card(Spades, Queen)

  /** createPlayer: a player with an empty hand, no tricks and zero scores. */
  function CreatePlayer(id: string, name: string, isHuman: bool): (p: Player)
    ensures p.id == id && p.name == name && p.isHuman == isHuman
    ensures p.hand == [] && p.tricksTaken == [] && p.score == 0 && p.totalScore == 0
  {
    Player(id, name, isHuman, [], [], 0, 0)
  }

  /** findPlayerWith2OfClubs: the first seat whose hand holds 2 of clubs, or -1. */
  method FindPlayerWith2OfClubs(players: seq<Player>) returns (i: int)
    ensures -1 <= i < |players|
    ensures i == -1 <==> forall j :: 0 <= j < |players| ==> TwoOfClubs !in players[j].hand
    ensures i >= 0 ==> TwoOfClubs in players[i].hand &&
                       forall j :: 0 <= j < i ==> TwoOfClubs !in players[j].hand
  {
    i := 0;
    while i < |players|
      invariant 0 <= i <= |players|
      invariant forall j :: 0 <= j < i ==> TwoOfClubs !in players[j].hand
    {
      if TwoOfClubs in players[i].hand {
        return i;
      }
      i := i + 1;
    }
    return -1;
  }

  const PassingCycle: seq<PassingDirection> := [Left, Right, Across, NoPass]

  /** getPassingDirection: hands 1, 2, 3, 4 pass left, right, across and not at
      all, and the cycle repeats. Hand numbers start at 1, so the dividend of
      the remainder is never negative and JavaScript's `%` agrees with Dafny's. */
  function GetPassingDirection(handNumber: int): (d: PassingDirection)
    requires handNumber >= 1
    ensures d == Left <==> handNumber % 4 == 1
    ensures d == Right <==> handNumber % 4 == 2
    ensures d == Across <==> handNumber % 4 == 3
    ensures d == NoPass <==> handNumber % 4 == 0
  {
    PassingCycle[(handNumber - 1) % 4]
  }

  /** The passing direction repeats every four hands. */
  lemma PassingDirectionPeriod(handNumber: int)
    requires handNumber >= 1
    ensures GetPassingDirection(handNumber + 4) == GetPassingDirection(handNumber)
  {
  }

  /** getCurrentPlayer: the player at the current index; `None` stands for the
      `undefined` of an index outside the player list. */
  function GetCurrentPlayer(gs: GameState): (p: Option<Player>)
    ensures p.Some? <==> 0 <= gs.currentPlayerIndex < |gs.players|
    ensures p.Some? ==> p.value == gs.players[gs.currentPlayerIndex] && p.value in gs.players
  {
    if 0 <= gs.currentPlayerIndex < |gs.players| then Some(gs.players[gs.currentPlayerIndex]) else None
  }

  /** isPlayerTurn: the current player has the given id. */
  function IsPlayerTurn(gs: GameState, playerId: string): (b: bool)
    requires 0 <= gs.currentPlayerIndex < |gs.players|
    ensures b <==> GetCurrentPlayer(gs).Some? && GetCurrentPlayer(gs).value.id == playerId
  {
    gs.players[gs.currentPlayerIndex].id == playerId
  }

  /** getTricksPlayed: the tricks taken by the player in seat 0, which the
      source uses as the count for the whole table. */
  function GetTricksPlayed(gs: GameState): (n: nat)
    requires |gs.players| > 0
    ensures n == |gs.players[0].tricksTaken|
  {
    |gs.players[0].tricksTaken|
  }

  /** isFirstTrick: seat 0 has taken no trick yet. */
  function IsFirstTrick(gs: GameState): (b: bool)
    requires |gs.players| > 0
    ensures b <==> gs.players[0].tricksTaken == []
  {
    GetTricksPlayed(gs) == 0
  }

  /** getLedSuit: the suit of the first card of the current trick, none when
      nothing has been played. */
  function GetLedSuit(gs: GameState): (s: Option<Suit>)
    ensures s.None? <==> gs.currentTrick == []
    ensures s.Some? ==> s.value == gs.currentTrick[0].card.suit
  {
    if |gs.currentTrick| == 0 then None else Some(gs.currentTrick[0].card.suit)
  }
}
