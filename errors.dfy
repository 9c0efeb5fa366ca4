/** The errors the rules engine raises, and the result type that carries them.
    Every `throw new Error(...)` of the engine becomes an `Err` of one of these kinds. */
module Errors {

  datatype Error =
    | DeckNotFull              // deal: the deck does not hold exactly 52 cards
    | TrickNotFour             // determineTrickWinner: the trick does not hold exactly 4 plays
    | TrickIncomplete          // resolveTrick: the current trick does not hold exactly 4 plays
    | WinnerNotFound           // resolveTrick: the winner's id is not among the players
    | NotAllPlayersSelected    // executeCardPassing: a player lacks a 3-card selection
    | CardsNotInHand(playerId: string)  // executeCardPassing: a selection is not in that hand
    | SelectionNotThree        // selectCardsForPassing: the selection is not 3 cards
    | PlayerNotFound(id: string)        // selectCardsForPassing: no player has that id
    | SelectionNotInHand       // selectCardsForPassing: a selected card is not in the hand
    | NoPlayers                // determineWinner: the player list is empty
    | HandTooSmall             // selectAICardsToPass: fewer than 3 cards in hand
    | NoValidPlays             // selectCardToLead/Follow/Slough: no valid play
    | NoLedSuit                // selectCardToFollow: nothing has been led
    | NoValidPlaysForAi        // selectAICardToPlay: getValidPlays is empty

  datatype Result<T> = Ok(value: T) | Err(error: Error)

  /** A value that may be absent: JavaScript's `null`, `undefined` or `-1` for "not found". */
  datatype Option<T> = None | Some(value: T)
}
