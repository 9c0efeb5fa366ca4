/** The rules of play: following suit, leading hearts, the first-trick
    restrictions, and the list of legal plays (src/logic/moveValidation.ts). */
module MoveValidation {
  import opened Cards
  import opened Seqs
  import opened Game

  /** isHeart */
  function IsHeart(c: Card): (b: bool)
    ensures b <==> c.suit == Hearts
  {
    c.suit == Hearts
  }

  /** isQueenOfSpades */
  function IsQueenOfSpades(c: Card): (b: bool)
    ensures b <==> c == QueenOfSpades
  {
    c.suit == Spades && c.rank == Queen
  }

  /** isPenaltyCard: the cards that score, the hearts and the queen of spades. */
  function IsPenaltyCard(c: Card): (b: bool)
    ensures b <==> c.suit == Hearts || c == QueenOfSpades
  {
    IsHeart(c) || IsQueenOfSpades(c)
  }

  /** followsSuit */
  function FollowsSuit(c: Card, ledSuit: Suit): (b: bool)
    ensures b <==> c.suit == ledSuit
  {
    c.suit == ledSuit
  }

  /** hasSuit: some card of the hand is of the suit. */
  function HasSuit(hand: seq<Card>, s: Suit): (b: bool)
    ensures b <==> exists i :: 0 <= i < |hand| && hand[i].suit == s
    ensures b <==> Filter(hand, SuitIs(s)) != []
  {
    if hand == [] then false
    else
      var rest := HasSuit(hand[1..], s);
      assert forall i :: 0 < i < |hand| ==> hand[i] == hand[1..][i - 1];
      hand[0].suit == s || rest
  }

  /** hasOnlyHearts: a non-empty hand of hearts only. */
  function HasOnlyHearts(hand: seq<Card>): (b: bool)
    ensures b <==> |hand| > 0 && forall c :: c in hand ==> c.suit == Hearts
  {
    |hand| > 0 && forall i :: 0 <= i < |hand| ==> IsHeart(hand[i])
  }

  /** hasOnlyPenaltyCards: a non-empty hand of penalty cards only. */
  function HasOnlyPenaltyCards(hand: seq<Card>): (b: bool)
    ensures b <==> |hand| > 0 && forall c :: c in hand ==> c.suit == Hearts || c == QueenOfSpades
  {
    |hand| > 0 && forall i :: 0 <= i < |hand| ==> IsPenaltyCard(hand[i])
  }

  /** isValidFirstTrickPlay: no penalty card on the first trick, unless the
      hand holds nothing else. */
  function IsValidFirstTrickPlay(c: Card, hand: seq<Card>): (b: bool)
    ensures !IsPenaltyCard(c) ==> b
    ensures IsPenaltyCard(c) ==> (b <==> HasOnlyPenaltyCards(hand))
  {
    if !IsPenaltyCard(c) then true else HasOnlyPenaltyCards(hand)
  }

  /** canLeadHearts: once hearts are broken, or when the hand holds only hearts. */
  function CanLeadHearts(hand: seq<Card>, heartsBroken: bool): (b: bool)
    ensures b <==> heartsBroken || HasOnlyHearts(hand)
  {
    if heartsBroken then true else HasOnlyHearts(hand)
  }

  /** The filter getValidPlays applies to a lead that is not the 2 of clubs. */
  function LeadAllowed(hand: seq<Card>, isFirst: bool, heartsBroken: bool): Card -> bool {
    c => !(isFirst && !IsValidFirstTrickPlay(c, hand)) && !(IsHeart(c) && !CanLeadHearts(hand, heartsBroken))
  }

  /** The filter of a first-trick discard. */
  function FirstTrickAllowed(hand: seq<Card>): Card -> bool {
    c => IsValidFirstTrickPlay(c, hand)
  }

  /** getValidPlays: the cards of `hand` that may be played now. The first
      trick of a hand is recognised by seat 0 having no trick. Every valid play
      comes from the hand, and a non-empty hand always has one. */
  function GetValidPlays(hand: seq<Card>, gs: GameState): (r: seq<Card>)
    requires |gs.players| > 0
    ensures forall c :: c in r ==> c in hand
    ensures |hand| > 0 ==> |r| > 0
  {
    var isFirst := IsFirstTrick(gs);
    match GetLedSuit(gs)
    case None =>
      if isFirst && TwoOfClubs in hand then [TwoOfClubs]
      else
        var valid := Filter(hand, LeadAllowed(hand, isFirst, gs.heartsBroken));
        if |valid| > 0 then valid else hand
    case Some(led) =>
      if HasSuit(hand, led) then Filter(hand, SuitIs(led))
      else if isFirst then
        FirstTrickFilterNonEmpty(hand);
        Filter(hand, FirstTrickAllowed(hand))
      else hand
  }

  lemma FirstTrickFilterNonEmpty(hand: seq<Card>)
    ensures |hand| > 0 ==> |Filter(hand, FirstTrickAllowed(hand))| > 0
  {
    if |hand| > 0 {
      if HasOnlyPenaltyCards(hand) {
        assert FirstTrickAllowed(hand)(hand[0]);
      } else {
        var i :| 0 <= i < |hand| && !IsPenaltyCard(hand[i]);
        assert FirstTrickAllowed(hand)(hand[i]);
      }
    }
  }

  /** isValidPlay: the card is among the valid plays. */
  function IsValidPlay(c: Card, hand: seq<Card>, gs: GameState): (b: bool)
    requires |gs.players| > 0
    ensures b <==> c in GetValidPlays(hand, gs)
    ensures b ==> c in hand
  {
    exists v :: v in GetValidPlays(hand, gs) && CardsEqual(v, c)
  }

  /** wouldBreakHearts: a heart played to a trick that was led in another suit. */
  function WouldBreakHearts(c: Card, gs: GameState): (b: bool)
    ensures b <==> c.suit == Hearts && |gs.currentTrick| > 0 && gs.currentTrick[0].card.suit != Hearts
  {
    IsHeart(c) && GetLedSuit(gs).Some? && GetLedSuit(gs).value != Hearts
  }

  /** The 2 of clubs opens a hand: on the first lead, a hand that holds it has
      exactly that one valid play. */
  lemma TwoOfClubsOpens(hand: seq<Card>, gs: GameState)
    requires |gs.players| > 0 && IsFirstTrick(gs) && gs.currentTrick == []
    requires TwoOfClubs in hand
    ensures GetValidPlays(hand, gs) == [TwoOfClubs]
  {
  }

  /** A player able to follow suit must: the valid plays are exactly the hand's
      cards of the led suit, in hand order. */
  lemma MustFollowSuit(hand: seq<Card>, gs: GameState, c: Card)
    requires |gs.players| > 0 && gs.currentTrick != []
    requires HasSuit(hand, gs.currentTrick[0].card.suit)
    ensures GetValidPlays(hand, gs) == Filter(hand, SuitIs(gs.currentTrick[0].card.suit))
    ensures c in GetValidPlays(hand, gs) <==> c in hand && c.suit == gs.currentTrick[0].card.suit
  {
  }

  /** A player who cannot follow suit may play anything after the first trick. */
  lemma VoidPlaysAnything(hand: seq<Card>, gs: GameState)
    requires |gs.players| > 0 && gs.currentTrick != [] && !IsFirstTrick(gs)
    requires !HasSuit(hand, gs.currentTrick[0].card.suit)
    ensures GetValidPlays(hand, gs) == hand
  {
  }

  /** Hearts may not be led before they are broken, unless the hand holds
      nothing but hearts. */
  lemma NoHeartLeadBeforeBroken(hand: seq<Card>, gs: GameState, c: Card)
    requires |gs.players| > 0 && gs.currentTrick == [] && !gs.heartsBroken
    requires !HasOnlyHearts(hand) && |hand| > 0
    requires c in GetValidPlays(hand, gs)
    ensures c.suit != Hearts
  {
    var isFirst := IsFirstTrick(gs);
    if !(isFirst && TwoOfClubs in hand) {
      var p := LeadAllowed(hand, isFirst, gs.heartsBroken);
      var i :| 0 <= i < |hand| && hand[i].suit != Hearts;
      if isFirst && IsPenaltyCard(hand[i]) {
        assert hand[i] == QueenOfSpades;
        if !HasOnlyPenaltyCards(hand) {
          var j :| 0 <= j < |hand| && !IsPenaltyCard(hand[j]);
          assert p(hand[j]);
        } else {
          assert p(hand[i]);
        }
      } else {
        assert p(hand[i]);
      }
      assert |Filter(hand, p)| > 0;
    }
  }

  /** On the first trick no penalty card may be played, by a leader without
      the 2 of clubs or by a player who cannot follow suit, unless the hand
      holds only penalty cards. */
  lemma NoPenaltyOnFirstTrick(hand: seq<Card>, gs: GameState, c: Card)
    requires |gs.players| > 0 && IsFirstTrick(gs)
    requires gs.currentTrick == [] ==> TwoOfClubs !in hand
    requires gs.currentTrick != [] ==> !HasSuit(hand, gs.currentTrick[0].card.suit)
    requires |hand| > 0 && !HasOnlyPenaltyCards(hand)
    requires c in GetValidPlays(hand, gs)
    ensures !IsPenaltyCard(c)
  {
    if gs.currentTrick == [] {
      var p := LeadAllowed(hand, true, gs.heartsBroken);
      var j :| 0 <= j < |hand| && !IsPenaltyCard(hand[j]);
      assert p(hand[j]);
      assert |Filter(hand, p)| > 0;
    }
  }

  /** A player who cannot follow suit on the first trick may discard exactly
      the cards of the hand allowed on the first trick: every card that is
      not a penalty card, and anything from a hand of penalty cards only. */
  lemma VoidOnFirstTrick(hand: seq<Card>, gs: GameState, c: Card)
    requires |gs.players| > 0 && IsFirstTrick(gs) && gs.currentTrick != []
    requires !HasSuit(hand, gs.currentTrick[0].card.suit)
    ensures c in GetValidPlays(hand, gs) <==> c in hand && IsValidFirstTrickPlay(c, hand)
    ensures c in hand && !IsPenaltyCard(c) ==> c in GetValidPlays(hand, gs)
    ensures HasOnlyPenaltyCards(hand) ==> GetValidPlays(hand, gs) == hand
  {
    if HasOnlyPenaltyCards(hand) {
      FilterAll(hand, FirstTrickAllowed(hand));
    }
  }

  /** What a lead that is not the 2 of clubs must satisfy: on the first trick
      a card allowed there, and a heart only when hearts may be led. */
  ghost predicate LeadOk(c: Card, hand: seq<Card>, gs: GameState)
    requires |gs.players| > 0
  {
    (IsFirstTrick(gs) ==> IsValidFirstTrickPlay(c, hand)) &&
    (c.suit == Hearts ==> CanLeadHearts(hand, gs.heartsBroken))
  }

  /** A lead that is not the opening 2 of clubs: exactly the cards of the hand
      that satisfy LeadOk when there is one, and the whole hand otherwise. */
  lemma LeadWithoutTwoOfClubs(hand: seq<Card>, gs: GameState, c: Card)
    requires |gs.players| > 0 && gs.currentTrick == []
    requires !(IsFirstTrick(gs) && TwoOfClubs in hand)
    ensures (exists x :: x in hand && LeadOk(x, hand, gs)) ==>
              (c in GetValidPlays(hand, gs) <==> c in hand && LeadOk(c, hand, gs))
    ensures (forall x :: x in hand ==> !LeadOk(x, hand, gs)) ==> GetValidPlays(hand, gs) == hand
  {
    var p := LeadAllowed(hand, IsFirstTrick(gs), gs.heartsBroken);
    var valid := Filter(hand, p);
    assert |valid| > 0 ==> valid[0] in valid && p(valid[0]) && LeadOk(valid[0], hand, gs);
    if exists x :: x in hand && LeadOk(x, hand, gs) {
      var x :| x in hand && LeadOk(x, hand, gs);
      assert p(x);
    }
  }

  /** Playing a card breaks hearts exactly when it is a heart discarded on a
      trick led in another suit: leading a heart never does. */
  lemma LeadingNeverBreaksHearts(c: Card, gs: GameState)
    requires gs.currentTrick == []
    ensures !WouldBreakHearts(c, gs)
  {
  }
}
