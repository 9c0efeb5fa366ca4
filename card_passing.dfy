/** The passing phase: validating a selection of three cards, the seat each
    direction passes to, and the four-way exchange (src/logic/cardPassing.ts). */
module CardPassing {
  import opened Cards
  import opened Seqs
  import opened Errors
  import opened Game
  import opened TrickResolution

  /** validatePassingSelection: exactly three cards. */
  function ValidatePassingSelection(selected: seq<Card>): (b: bool)
    ensures b <==> |selected| == 3
  {
    |selected| == 3
  }

  /** validateCardsInHand: every selected card equals some card of the hand, so
      an empty selection is always in hand. */
  function ValidateCardsInHand(selected: seq<Card>, hand: seq<Card>): (b: bool)
    ensures b <==> forall c :: c in selected ==> c in hand
    ensures selected == [] ==> b
  {
    forall c :: c in selected ==> exists h :: h in hand && CardsEqual(c, h)
  }

  /** getPassingTargetIndex: the seat that receives the cards of seat i. Seats
      are never negative, so JavaScript's `%` agrees with Dafny's. */
  function GetPassingTargetIndex(i: int, direction: PassingDirection, numPlayers: int): (t: int)
    requires i >= 0 && numPlayers > 0
    ensures direction == NoPass ==> t == i
    ensures direction != NoPass ==> 0 <= t < numPlayers
    ensures i < numPlayers && direction == Left ==> t == if i == numPlayers - 1 then 0 else i + 1
    ensures i < numPlayers && direction == Right ==> t == if i == 0 then numPlayers - 1 else i - 1
    ensures 2 <= numPlayers && i < numPlayers && direction == Across ==>
              t == if i + 2 < numPlayers then i + 2 else i + 2 - numPlayers
  {
    ModBelowTwice(i + 1, numPlayers);
    ModBelowTwice(i - 1 + numPlayers, numPlayers);
    ModBelowTwice(i + 2, numPlayers);
    match direction
    case NoPass => i
    case Left => (i + 1) % numPlayers
    case Right => (i - 1 + numPlayers) % numPlayers
    case Across => (i + 2) % numPlayers
  }

  lemma ModBelowTwice(a: int, n: int)
    requires n > 0 && a >= 0
    ensures 0 <= a % n < n
    ensures a < n ==> a % n == a
    ensures n <= a < 2 * n ==> a % n == a - n
  {
    if a < n {
      assert a == n * 0 + a;
    } else if a < 2 * n {
      assert a == n * 1 + (a - n);
    }
  }

  /** The direction that undoes a direction. */
  function Reverse(d: PassingDirection): PassingDirection {
    match d
    case Left => Right
    case Right => Left
    case Across => Across
    case NoPass => NoPass
  }

  /** At a four-seat table each direction is a permutation of the seats, undone
      by its reverse: every seat receives from exactly one seat. */
  lemma PassingTargetInverse(i: int, d: PassingDirection)
    requires 0 <= i < 4
    ensures GetPassingTargetIndex(GetPassingTargetIndex(i, d, 4), Reverse(d), 4) == i
  {
  }

  lemma PassingTargetInjective(i: int, j: int, d: PassingDirection, n: int)
    requires 0 <= i < n && 0 <= j < n
    requires GetPassingTargetIndex(i, d, n) == GetPassingTargetIndex(j, d, n)
    ensures i == j
  {
  }

  /** The predicate of removeCardsFromHand: the card is not among those removed. */
  function NotAmong(removed: seq<Card>): Card -> bool {
    c => !(exists k :: 0 <= k < |removed| && CardsEqual(removed[k], c))
  }

  /** removeCardsFromHand: the hand without every card equal to a removed one. */
  function RemoveCardsFromHand(hand: seq<Card>, removed: seq<Card>): (r: seq<Card>)
    ensures forall c :: c in r <==> c in hand && c !in removed
    ensures |r| <= |hand|
  {
    Filter(hand, NotAmong(removed))
  }

  /** Removing a selection of distinct cards from a hand without repeats takes
      exactly those cards out. */
  lemma RemoveCardsExact(hand: seq<Card>, removed: seq<Card>)
    requires Distinct(hand) && Distinct(removed)
    requires forall c :: c in removed ==> c in hand
    ensures multiset(hand) == multiset(RemoveCardsFromHand(hand, removed)) + multiset(removed)
    ensures |RemoveCardsFromHand(hand, removed)| == |hand| - |removed|
  {
    var r := RemoveCardsFromHand(hand, removed);
    forall x ensures multiset(hand)[x] == multiset(r)[x] + multiset(removed)[x] {
      FilterCount(hand, NotAmong(removed), x);
      DistinctOnce(hand, x);
      DistinctOnce(removed, x);
    }
    assert multiset(hand) == multiset(r) + multiset(removed);
    assert |multiset(hand)| == |multiset(r)| + |multiset(removed)|;
  }

  /** addCardsToHand */
  function AddCardsToHand(hand: seq<Card>, added: seq<Card>): (r: seq<Card>)
    ensures |r| == |hand| + |added| && r[..|hand|] == hand
    ensures multiset(r) == multiset(hand) + multiset(added)
  {
    hand + added
  }

  /** Every seated player has a selection of three cards. */
  ghost predicate AllSelected(players: seq<Player>, sel: map<string, seq<Card>>) {
    forall j :: 0 <= j < |players| ==> players[j].id in sel && |sel[players[j].id]| == 3
  }

  /** allPlayersHaveSelected */
  function AllPlayersHaveSelected(gs: GameState): (b: bool)
    ensures b <==> AllSelected(gs.players, gs.selectedCardsForPassing)
  {
    forall j :: 0 <= j < |gs.players| ==>
      gs.players[j].id in gs.selectedCardsForPassing &&
      ValidatePassingSelection(gs.selectedCardsForPassing[gs.players[j].id])
  }

  /** selectCardsForPassing: checks the count, then that the player exists, then
      that the cards are in the first hand with that id; on success records the
      selection under the id and changes nothing else. */
  function SelectCardsForPassing(gs: GameState, playerId: string, cards: seq<Card>): (r: Result<GameState>)
    ensures |cards| != 3 ==> r == Err(SelectionNotThree)
    ensures |cards| == 3 && (forall j :: 0 <= j < |gs.players| ==> gs.players[j].id != playerId) ==>
              r == Err(PlayerNotFound(playerId))
    ensures |cards| == 3 &&
            (exists j :: FirstWithId(gs.players, playerId, j) && exists c :: c in cards && c !in gs.players[j].hand) ==>
              r == Err(SelectionNotInHand)
    ensures r.Ok? <==>
              |cards| == 3 &&
              exists j :: FirstWithId(gs.players, playerId, j) &&
                          forall c :: c in cards ==> c in gs.players[j].hand
    ensures r.Err? ==> r.error in {SelectionNotThree, PlayerNotFound(playerId), SelectionNotInHand}
    ensures r.Ok? ==>
              (playerId in r.value.selectedCardsForPassing && r.value.selectedCardsForPassing[playerId] == cards) &&
              (forall id :: id != playerId ==>
                 (id in r.value.selectedCardsForPassing <==> id in gs.selectedCardsForPassing) &&
                 (id in gs.selectedCardsForPassing ==>
                    r.value.selectedCardsForPassing[id] == gs.selectedCardsForPassing[id])) &&
              r.value == gs.(selectedCardsForPassing := r.value.selectedCardsForPassing)
  {
    if !ValidatePassingSelection(cards) then Err(SelectionNotThree)
    else
      var i := GetPlayerIndex(gs.players, playerId);
      FirstWithIdIsIndex(gs.players, playerId);
      if i == -1 then Err(PlayerNotFound(playerId))
      else if !ValidateCardsInHand(cards, gs.players[i].hand) then Err(SelectionNotInHand)
      else Ok(gs.(selectedCardsForPassing := gs.selectedCardsForPassing[playerId := cards]))
  }

  /** A successful selection never undoes another: once every player has
      selected, every player still has. */
  lemma SelectionKeepsAllSelected(gs: GameState, playerId: string, cards: seq<Card>)
    requires AllPlayersHaveSelected(gs)
    requires SelectCardsForPassing(gs, playerId, cards).Ok?
    ensures AllPlayersHaveSelected(SelectCardsForPassing(gs, playerId, cards).value)
  {
  }

  function Lookup(m: map<string, seq<Card>>, id: string): seq<Card> {
    if id in m then m[id] else []
  }

  /** The cards that the seats before k send to the player with this id, in
      seat order. */
  ghost function ReceivedBy(players: seq<Player>, d: PassingDirection, sel: map<string, seq<Card>>,
                            k: nat, id: string): (r: seq<Card>)
    requires k <= |players| && AllSelected(players, sel)
    ensures k == 0 ==> r == []
  {
    if k == 0 then []
    else
      var from := if players[GetPassingTargetIndex(k - 1, d, |players|)].id == id
                  then sel[players[k - 1].id] else [];
      ReceivedBy(players, d, sel, k - 1, id) + from
  }

  /** The selections of the seats before k are all in their own hands. */
  ghost predicate SelectionsInHand(players: seq<Player>, sel: map<string, seq<Card>>, k: nat)
    requires k <= |players| && AllSelected(players, sel)
  {
    forall j :: 0 <= j < k ==> ValidateCardsInHand(sel[players[j].id], players[j].hand)
  }

  /** The players after the exchange: each keeps its hand without its own
      selection, followed by what the others sent it. */
  ghost function Exchanged(players: seq<Player>, d: PassingDirection, sel: map<string, seq<Card>>): (r: seq<Player>)
    requires AllSelected(players, sel)
    ensures |r| == |players|
  {
    seq(|players|, i requires 0 <= i < |players| =>
      players[i].(hand := RemoveCardsFromHand(players[i].hand, sel[players[i].id]) +
                          ReceivedBy(players, d, sel, |players|, players[i].id)))
  }

  /** The `players.map` of executeCardPassing: each hand loses its selection
      and gains what it was sent. */
  function ApplyPasses(players: seq<Player>, sel: map<string, seq<Card>>, received: map<string, seq<Card>>): (r: seq<Player>)
    requires forall j :: 0 <= j < |players| ==> players[j].id in sel
    ensures |r| == |players|
  {
    seq(|players|, i requires 0 <= i < |players| =>
      players[i].(hand := AddCardsToHand(RemoveCardsFromHand(players[i].hand, sel[players[i].id]),
                                         Lookup(received, players[i].id))))
  }

  lemma ApplyPassesExchanges(players: seq<Player>, d: PassingDirection, sel: map<string, seq<Card>>,
                             received: map<string, seq<Card>>)
    requires AllSelected(players, sel)
    requires received == PilesAfter(players, d, sel, |players|)
    ensures ApplyPasses(players, sel, received) == Exchanged(players, d, sel)
  {
    forall i | 0 <= i < |players|
      ensures Lookup(received, players[i].id) == ReceivedBy(players, d, sel, |players|, players[i].id)
    {
      PilesAfterReceived(players, d, sel, |players|, players[i].id);
    }
  }

  /** One step of the `forEach` of executeCardPassing: an empty pile for an id
      not seen yet, then the cards appended to the id's pile. */
  function Pile(m: map<string, seq<Card>>, id: string, cards: seq<Card>): map<string, seq<Card>> {
    var m1 := if id !in m then m[id := []] else m;
    m1[id := m1[id] + cards]
  }

  /** Piling cards up for one id appends them to that id's pile and leaves
      every other pile as it was. */
  lemma PileLookup(m: map<string, seq<Card>>, id: string, cards: seq<Card>, other: string)
    ensures Lookup(Pile(m, id, cards), other) == if other == id then Lookup(m, id) + cards else Lookup(m, other)
  {
  }

  /** The piles after the first k seats of the `forEach` of executeCardPassing. */
  ghost function PilesAfter(players: seq<Player>, d: PassingDirection, sel: map<string, seq<Card>>, k: nat)
    : map<string, seq<Card>>
    requires k <= |players| && AllSelected(players, sel)
  {
    if k == 0 then map[]
    else Pile(PilesAfter(players, d, sel, k - 1),
              players[GetPassingTargetIndex(k - 1, d, |players|)].id, sel[players[k - 1].id])
  }

  /** After k seats the pile of an id holds what those seats send to it. */
  lemma {:induction false} PilesAfterReceived(players: seq<Player>, d: PassingDirection,
                                              sel: map<string, seq<Card>>, k: nat, id: string)
    requires k <= |players| && AllSelected(players, sel)
    ensures Lookup(PilesAfter(players, d, sel, k), id) == ReceivedBy(players, d, sel, k, id)
  {
    if k > 0 {
      PilesAfterReceived(players, d, sel, k - 1, id);
      var t := players[GetPassingTargetIndex(k - 1, d, |players|)].id;
      PileLookup(PilesAfter(players, d, sel, k - 1), t, sel[players[k - 1].id], id);
    }
  }

  /** The `forEach` of executeCardPassing: checks each seat's selection in seat
      order, stopping at the first one not in its hand, and piles each up for
      the target seat's id. */
  method CollectPasses(players: seq<Player>, d: PassingDirection, sel: map<string, seq<Card>>)
    returns (r: Result<map<string, seq<Card>>>)
    requires AllSelected(players, sel)
    ensures r.Ok? <==> SelectionsInHand(players, sel, |players|)
    ensures r.Err? ==> exists b :: 0 <= b < |players| &&
                         !ValidateCardsInHand(sel[players[b].id], players[b].hand) &&
                         SelectionsInHand(players, sel, b) && r.error == CardsNotInHand(players[b].id)
    ensures r.Ok? ==> r.value == PilesAfter(players, d, sel, |players|)
  {
    var cardsToReceive: map<string, seq<Card>> := map[];
    for index := 0 to |players|
      invariant cardsToReceive == PilesAfter(players, d, sel, index)
      invariant SelectionsInHand(players, sel, index)
    {
      var selectedCards := sel[players[index].id];
      var targetIndex := GetPassingTargetIndex(index, d, |players|);
      var targetPlayerId := players[targetIndex].id;
      if !ValidateCardsInHand(selectedCards, players[index].hand) {
        return Err(CardsNotInHand(players[index].id));
      }
      cardsToReceive := Pile(cardsToReceive, targetPlayerId, selectedCards);
    }
    return Ok(cardsToReceive);
  }

  /** executeCardPassing. With no passing this hand, only the phase changes to
      playing and the selections are cleared. Otherwise it refuses when some
      player lacks a selection of three cards, then refuses for the first seat
      whose selection is not in its hand, and else performs the exchange. */
  method ExecuteCardPassing(gs: GameState) returns (r: Result<GameState>)
    ensures gs.passingDirection == NoPass ==>
              r == Ok(gs.(phase := Playing, selectedCardsForPassing := map[]))
    ensures gs.passingDirection != NoPass && !AllSelected(gs.players, gs.selectedCardsForPassing) ==>
              r == Err(NotAllPlayersSelected)
    ensures gs.passingDirection != NoPass && AllSelected(gs.players, gs.selectedCardsForPassing) ==>
              var sel := gs.selectedCardsForPassing;
              (r.Ok? <==> SelectionsInHand(gs.players, sel, |gs.players|)) &&
              (r.Err? ==> exists b :: 0 <= b < |gs.players| &&
                            !ValidateCardsInHand(sel[gs.players[b].id], gs.players[b].hand) &&
                            SelectionsInHand(gs.players, sel, b) && r == Err(CardsNotInHand(gs.players[b].id))) &&
              (r.Ok? ==> r.value == gs.(players := Exchanged(gs.players, gs.passingDirection, sel),
                                        phase := Playing, selectedCardsForPassing := map[]))
  {
    var players, d, sel := gs.players, gs.passingDirection, gs.selectedCardsForPassing;
    if d == NoPass {
      return Ok(gs.(phase := Playing, selectedCardsForPassing := map[]));
    }
    if !AllPlayersHaveSelected(gs) {
      return Err(NotAllPlayersSelected);
    }
    var collected := CollectPasses(players, d, sel);
    if collected.Err? {
      return Err(collected.error);
    }
    var cardsToReceive := collected.value;
    var updatedPlayers := ApplyPasses(players, sel, cardsToReceive);
    ApplyPassesExchanges(players, d, sel, cardsToReceive);
    return Ok(gs.(players := updatedPlayers, phase := Playing, selectedCardsForPassing := map[]));
  }

  /** No two seats share an id. */
  ghost predicate DistinctIds(players: seq<Player>) {
    forall i, j :: 0 <= i < j < |players| ==> players[i].id != players[j].id
  }

  /** The seat whose cards seat i receives. */
  function SourceOf(i: int, d: PassingDirection): (s: int)
    requires 0 <= i < 4
    ensures 0 <= s < 4 && GetPassingTargetIndex(s, d, 4) == i
  {
    PassingTargetInverse(i, Reverse(d));
    assert Reverse(Reverse(d)) == d;
    GetPassingTargetIndex(i, Reverse(d), 4)
  }

  /** At a four-seat table with distinct ids, each player receives exactly the
      selection of the one seat that passes to it. */
  lemma ReceivedFromSource(players: seq<Player>, d: PassingDirection, sel: map<string, seq<Card>>, i: int)
    requires |players| == 4 && DistinctIds(players) && AllSelected(players, sel) && 0 <= i < 4
    ensures ReceivedBy(players, d, sel, 4, players[i].id) == sel[players[SourceOf(i, d)].id]
  {
    var s := SourceOf(i, d);
    var id := players[i].id;
    forall j | 0 <= j < 4 ensures (players[GetPassingTargetIndex(j, d, 4)].id == id) <==> j == s {
      var t := GetPassingTargetIndex(j, d, 4);
      if t == i {
        PassingTargetInjective(j, s, d, 4);
      }
    }
    var r1 := ReceivedBy(players, d, sel, 1, id);
    var r2 := ReceivedBy(players, d, sel, 2, id);
    var r3 := ReceivedBy(players, d, sel, 3, id);
    assert r1 == if s == 0 then sel[players[0].id] else [];
    assert r2 == if s <= 1 then sel[players[s].id] else [];
    assert r3 == if s <= 2 then sel[players[s].id] else [];
  }

  /** A player whose selection is three distinct cards of a hand without
      repeats ends the exchange with as many cards as before. */
  lemma PassingKeepsHandSize(players: seq<Player>, d: PassingDirection, sel: map<string, seq<Card>>, i: int)
    requires |players| == 4 && DistinctIds(players) && AllSelected(players, sel) && 0 <= i < 4
    requires Distinct(players[i].hand) && Distinct(sel[players[i].id])
    requires forall c :: c in sel[players[i].id] ==> c in players[i].hand
    ensures |Exchanged(players, d, sel)[i].hand| == |players[i].hand|
  {
    RemoveCardsExact(players[i].hand, sel[players[i].id]);
    ReceivedFromSource(players, d, sel, i);
  }

  /** Seat i ends the exchange with its hand less its own selection plus the
      selection of the seat that passes to it. */
  lemma SeatBalance(players: seq<Player>, d: PassingDirection, sel: map<string, seq<Card>>, i: int)
    requires |players| == 4 && DistinctIds(players) && AllSelected(players, sel) && 0 <= i < 4
    requires Distinct(players[i].hand) && Distinct(sel[players[i].id])
    requires forall c :: c in sel[players[i].id] ==> c in players[i].hand
    ensures multiset(Exchanged(players, d, sel)[i].hand) + multiset(sel[players[i].id]) ==
            multiset(players[i].hand) + multiset(sel[players[SourceOf(i, d)].id])
  {
    RemoveCardsExact(players[i].hand, sel[players[i].id]);
    ReceivedFromSource(players, d, sel, i);
  }

  /** When every selection is three distinct cards of its own hand and no hand
      repeats a card, the exchange loses and creates no card: the four hands
      together hold the same cards before and after. */
  lemma PassingConservesCards(players: seq<Player>, d: PassingDirection, sel: map<string, seq<Card>>)
    requires |players| == 4 && DistinctIds(players) && AllSelected(players, sel)
    requires forall i :: 0 <= i < 4 ==> Distinct(players[i].hand) && Distinct(sel[players[i].id])
    requires forall i, c :: 0 <= i < 4 && c in sel[players[i].id] ==> c in players[i].hand
    ensures var e := Exchanged(players, d, sel);
            multiset(e[0].hand) + multiset(e[1].hand) + multiset(e[2].hand) + multiset(e[3].hand) ==
            multiset(players[0].hand) + multiset(players[1].hand) + multiset(players[2].hand) + multiset(players[3].hand)
  {
    var e := Exchanged(players, d, sel);
    SeatBalance(players, d, sel, 0);
    SeatBalance(players, d, sel, 1);
    SeatBalance(players, d, sel, 2);
    SeatBalance(players, d, sel, 3);
    var m := [multiset(sel[players[0].id]), multiset(sel[players[1].id]),
              multiset(sel[players[2].id]), multiset(sel[players[3].id])];
    var s0, s1, s2, s3 := SourceOf(0, d), SourceOf(1, d), SourceOf(2, d), SourceOf(3, d);
    SumOfSources(d, m);
    Cancel4(multiset(e[0].hand), multiset(e[1].hand), multiset(e[2].hand), multiset(e[3].hand),
            multiset(players[0].hand), multiset(players[1].hand), multiset(players[2].hand), multiset(players[3].hand),
            m[0], m[1], m[2], m[3], m[s0], m[s1], m[s2], m[s3]);
  }

  /** The sources of a direction cover the four seats once each. */
  lemma SumOfSources(d: PassingDirection, m: seq<multiset<Card>>)
    requires |m| == 4
    ensures m[SourceOf(0, d)] + m[SourceOf(1, d)] + m[SourceOf(2, d)] + m[SourceOf(3, d)] == m[0] + m[1] + m[2] + m[3]
  {
    var a := m[SourceOf(0, d)] + m[SourceOf(1, d)] + m[SourceOf(2, d)] + m[SourceOf(3, d)];
    var b := m[0] + m[1] + m[2] + m[3];
    forall x ensures a[x] == b[x] {
      match d
      case Left => assert a[x] == m[3][x] + m[0][x] + m[1][x] + m[2][x];
      case Right => assert a[x] == m[1][x] + m[2][x] + m[3][x] + m[0][x];
      case Across => assert a[x] == m[2][x] + m[3][x] + m[0][x] + m[1][x];
      case NoPass => assert a[x] == m[0][x] + m[1][x] + m[2][x] + m[3][x];
    }
  }

  /** Four balances a_i + s_i == h_i + t_i whose t's add up to the s's add up to
      a == h. */
  lemma Cancel4(a0: multiset<Card>, a1: multiset<Card>, a2: multiset<Card>, a3: multiset<Card>,
                h0: multiset<Card>, h1: multiset<Card>, h2: multiset<Card>, h3: multiset<Card>,
                s0: multiset<Card>, s1: multiset<Card>, s2: multiset<Card>, s3: multiset<Card>,
                t0: multiset<Card>, t1: multiset<Card>, t2: multiset<Card>, t3: multiset<Card>)
    requires a0 + s0 == h0 + t0 && a1 + s1 == h1 + t1 && a2 + s2 == h2 + t2 && a3 + s3 == h3 + t3
    requires t0 + t1 + t2 + t3 == s0 + s1 + s2 + s3
    ensures a0 + a1 + a2 + a3 == h0 + h1 + h2 + h3
  {
    forall x ensures (a0 + a1 + a2 + a3)[x] == (h0 + h1 + h2 + h3)[x] {
      assert (a0 + s0)[x] == (h0 + t0)[x] && (a1 + s1)[x] == (h1 + t1)[x];
      assert (a2 + s2)[x] == (h2 + t2)[x] && (a3 + s3)[x] == (h3 + t3)[x];
      assert (t0 + t1 + t2 + t3)[x] == (s0 + s1 + s2 + s3)[x];
    }
  }
}
