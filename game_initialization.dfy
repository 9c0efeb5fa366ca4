/** Starting a game and starting each later hand: a fresh deck, shuffled and
    dealt, and the first player found by the 2 of clubs
    (src/logic/gameInitialization.ts). The random draws of the shuffle are
    the parameter `picks`. */
module GameInitialization {
  import opened Cards
  import opened Seqs
  import opened Errors
  import opened Deck
  import opened Game

  const PlayerIds: seq<string> := ["player-0", "player-1", "player-2", "player-3"]
  const PlayerNames: seq<string> := ["You", "Alice AI", "Bob AI", "Charlie AI"]

  /** The hands of the players, seat by seat. */
  function Hands(ps: seq<Player>): (hs: seq<seq<Card>>)
    ensures |hs| == |ps| && forall i :: 0 <= i < |ps| ==> hs[i] == ps[i].hand
  {
    seq(|ps|, i requires 0 <= i < |ps| => ps[i].hand)
  }

  /** The four hands of a deal of a whole deck hold the 2 of clubs between them. */
  lemma DealHoldsTwoOfClubs(deck: seq<Card>, hands: seq<seq<Card>>)
    requires multiset(deck) == multiset(StandardDeck())
    requires |hands| == 4 && MultisetSum(hands) == multiset(deck)
    ensures exists p :: 0 <= p < 4 && TwoOfClubs in hands[p]
  {
    StandardDeckComplete(TwoOfClubs);
    assert TwoOfClubs in multiset(deck);
    MultisetSumFour(hands);
  }

  /** A deck created and shuffled with the draws `picks` and dealt into four hands. */
  method DealNewHands(picks: seq<int>) returns (hands: seq<seq<Card>>)
    requires ValidPicks(picks, 52)
    ensures DealtFrom(FisherYates(StandardDeck(), picks), hands)
    ensures MultisetSum(hands) == multiset(StandardDeck())
    ensures exists p :: 0 <= p < 4 && TwoOfClubs in hands[p]
  {
    var deck := CreateDeck();
    assert |deck| == 52;
    var shuffledDeck := Shuffle(deck, picks);
    assert |shuffledDeck| == 52;
    var dealt := Deal(shuffledDeck);
    hands := dealt.value;
    DealHoldsTwoOfClubs(shuffledDeck, hands);
  }

  /** The `forEach` of initializeGame: seat i receives hand i; nothing else changes. */
  method AssignHands(players: seq<Player>, hands: seq<seq<Card>>) returns (seated: seq<Player>)
    requires |hands| >= |players|
    ensures |seated| == |players|
    ensures forall i :: 0 <= i < |players| ==> seated[i] == players[i].(hand := hands[i])
  {
    seated := players;
    for index := 0 to |players|
      invariant |seated| == |players|
      invariant forall i :: 0 <= i < index ==> seated[i] == players[i].(hand := hands[i])
      invariant forall i :: index <= i < |players| ==> seated[i] == players[i]
    {
      seated := seated[index := seated[index].(hand := hands[index])];
    }
  }

  /** The four players initializeGame creates: the human "You" in seat 0 and
      three AI players, all without cards, tricks or points. */
  function StartingPlayers(): (ps: seq<Player>)
    ensures |ps| == 4
    ensures forall i :: 0 <= i < 4 ==>
              ps[i].id == PlayerIds[i] && ps[i].name == PlayerNames[i] && ps[i].isHuman == (i == 0) &&
              ps[i].hand == [] && ps[i].tricksTaken == [] && ps[i].score == 0 && ps[i].totalScore == 0
  {
    [CreatePlayer(PlayerIds[0], PlayerNames[0], true),
     CreatePlayer(PlayerIds[1], PlayerNames[1], false),
     CreatePlayer(PlayerIds[2], PlayerNames[2], false),
     CreatePlayer(PlayerIds[3], PlayerNames[3], false)]
  }

  /** The players of initializeGame with the new deal: seat i is starting
      player i holding hand i of the deal of the shuffled deck. */
  method SeatStartingPlayers(picks: seq<int>) returns (players: seq<Player>)
    requires ValidPicks(picks, 52)
    ensures |players| == 4
    ensures forall i :: 0 <= i < 4 ==> players[i] == StartingPlayers()[i].(hand := players[i].hand)
    ensures DealtFrom(FisherYates(StandardDeck(), picks), Hands(players))
    ensures MultisetSum(Hands(players)) == multiset(StandardDeck())
    ensures exists p :: 0 <= p < 4 && TwoOfClubs in players[p].hand
  {
    players := StartingPlayers();
    var hands := DealNewHands(picks);
    players := AssignHands(players, hands);
    assert Hands(players) == hands;
  }

  /** initializeGame: four players, the human "You" in seat 0 and three AI
      players, each dealt thirteen cards of a shuffled deck; the holder of the
      2 of clubs starts; dealer 0, hand 1, passing left, nothing played, hearts
      unbroken and no selections. */
  method InitializeGame(picks: seq<int>) returns (gs: GameState)
    requires ValidPicks(picks, 52)
    ensures |gs.players| == 4
    ensures forall i :: 0 <= i < 4 ==>
              gs.players[i].id == PlayerIds[i] && gs.players[i].name == PlayerNames[i] &&
              gs.players[i].isHuman == (i == 0) &&
              gs.players[i].tricksTaken == [] && gs.players[i].score == 0 && gs.players[i].totalScore == 0
    ensures DealtFrom(FisherYates(StandardDeck(), picks), Hands(gs.players))
    ensures MultisetSum(Hands(gs.players)) == multiset(StandardDeck())
    ensures 0 <= gs.currentPlayerIndex < 4 && TwoOfClubs in gs.players[gs.currentPlayerIndex].hand
    ensures forall j :: 0 <= j < gs.currentPlayerIndex ==> TwoOfClubs !in gs.players[j].hand
    ensures gs.dealerIndex == 0 && gs.phase == Passing && gs.passingDirection == Left && gs.handNumber == 1
    ensures gs.currentTrick == [] && !gs.heartsBroken && gs.selectedCardsForPassing == map[]
  {
    var players := SeatStartingPlayers(picks);
    var startingPlayerIndex := FindPlayerWith2OfClubs(players);
    gs := GameState(players, startingPlayerIndex, 0, Passing, GetPassingDirection(1), 1, [], false, map[]);
  }

  /** The `players.map` of initializeNewHand: seat i gets hand i, loses its
      tricks and its hand score, and keeps everything else. */
  function ResetPlayers(ps: seq<Player>, hands: seq<seq<Card>>): (r: seq<Player>)
    requires |ps| <= |hands|
    ensures |r| == |ps|
    ensures forall i :: 0 <= i < |ps| ==> r[i] == ps[i].(hand := hands[i], tricksTaken := [], score := 0)
  {
    seq(|ps|, i requires 0 <= i < |ps| => ps[i].(hand := hands[i], tricksTaken := [], score := 0))
  }

  /** The new deal of initializeNewHand and its `players.map`: every player
      gets a hand of the deal of the shuffled deck, and no tricks and a zero
      hand score; four players hold the 2 of clubs between them. */
  method DealToPlayers(ps: seq<Player>, picks: seq<int>) returns (players: seq<Player>)
    requires ValidPicks(picks, 52)
    requires |ps| <= 4
    ensures |players| == |ps|
    ensures forall i :: 0 <= i < |ps| ==>
              players[i] == ps[i].(hand := players[i].hand, tricksTaken := [], score := 0)
    ensures exists hands :: DealtFrom(FisherYates(StandardDeck(), picks), hands) &&
              forall i :: 0 <= i < |players| ==> players[i].hand == hands[i]
    ensures |ps| == 4 ==> exists p :: 0 <= p < 4 && TwoOfClubs in players[p].hand
  {
    var hands := DealNewHands(picks);
    players := ResetPlayers(ps, hands);
  }

  /** initializeNewHand: the next hand number, a new deal, every player keeping
      id, name, kind and total but with a new hand, no tricks and a zero hand
      score; the holder of the 2 of clubs starts (or -1 at a table without
      one), the dealer moves one seat on, and the hand begins with passing
      unless it is a hand without passing. */
  method InitializeNewHand(previousState: GameState, picks: seq<int>) returns (gs: GameState)
    requires ValidPicks(picks, 52)
    requires previousState.handNumber >= 0 && previousState.dealerIndex >= -1
    requires |previousState.players| <= 4
    ensures gs.handNumber == previousState.handNumber + 1
    ensures |gs.players| == |previousState.players|
    ensures forall i :: 0 <= i < |gs.players| ==>
              gs.players[i] == previousState.players[i].(hand := gs.players[i].hand, tricksTaken := [], score := 0)
    ensures exists hands :: DealtFrom(FisherYates(StandardDeck(), picks), hands) &&
              forall i :: 0 <= i < |gs.players| ==> gs.players[i].hand == hands[i]
    ensures -1 <= gs.currentPlayerIndex < |gs.players|
    ensures gs.currentPlayerIndex >= 0 ==> TwoOfClubs in gs.players[gs.currentPlayerIndex].hand
    ensures forall j :: 0 <= j < gs.currentPlayerIndex ==> TwoOfClubs !in gs.players[j].hand
    ensures gs.currentPlayerIndex == -1 <==> forall j :: 0 <= j < |gs.players| ==> TwoOfClubs !in gs.players[j].hand
    ensures |gs.players| == 4 ==> gs.currentPlayerIndex >= 0
    ensures gs.dealerIndex == (previousState.dealerIndex + 1) % 4 && 0 <= gs.dealerIndex < 4
    ensures gs.passingDirection == GetPassingDirection(gs.handNumber)
    ensures gs.phase == if gs.passingDirection == NoPass then Playing else Passing
    ensures gs.currentTrick == [] && !gs.heartsBroken && gs.selectedCardsForPassing == map[]
  {
    var handNumber := previousState.handNumber + 1;
    var players := DealToPlayers(previousState.players, picks);
    var startingPlayerIndex := FindPlayerWith2OfClubs(players);
    var passingDirection := GetPassingDirection(handNumber);
    gs := GameState(players, startingPlayerIndex, (previousState.dealerIndex + 1) % 4,
                    if passingDirection == NoPass then Playing else Passing,
                    passingDirection, handNumber, [], false, map[]);
  }
}
