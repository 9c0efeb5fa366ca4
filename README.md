# Hearts rules engine in Dafny

A model of the rules engine of a four-seat game of Hearts, with proofs about it.
The engine is the TypeScript under `src/models/` (cards, the deck, the game state)
and `src/logic/` (move validation, trick resolution, card passing, scoring, game
ending, initialisation, and the two computer-player policies: passing and playing).

The modules follow the source files:

| Dafny file | module | source |
|---|---|---|
| errors.dfy | Errors | the `throw new Error(...)` sites, as one `Error` datatype, with the `Result` and `Option` wrappers |
| seqs.dfy | Seqs | the JavaScript array idioms the engine uses: `filter`, `reduce` to a maximum or minimum (the first element wins ties), and the stable `sort` |
| cards.dfy | Cards | src/models/Card.ts |
| deck.dfy | Deck | src/models/Deck.ts |
| game_state.dfy | Game | src/models/GameState.ts |
| move_validation.dfy | MoveValidation | src/logic/moveValidation.ts |
| trick_resolution.dfy | TrickResolution | src/logic/trickResolution.ts |
| card_passing.dfy | CardPassing | src/logic/cardPassing.ts |
| scoring.dfy | Scoring | src/logic/scoring.ts |
| game_ending.dfy | GameEnding | src/logic/gameEnding.ts |
| game_initialization.dfy | GameInitialization | src/logic/gameInitialization.ts |
| ai_passing.dfy | AiPassing | src/logic/aiPassing.ts |
| ai_playing.dfy | AiPlaying | src/logic/aiPlaying.ts |

How each kind of source code is modelled:
- **Records.** Cards, players, played cards and the game state are datatypes. The
  source builds each new state by spreading the old one, so a datatype update is
  a faithful model.
- **Card value.** A card's `value` is a constant member computed from its rank.
  `createCard` is the only way the source makes a card, so a card's value always
  matches its rank.
- **Errors.** A function that throws returns an `Errors.Result`. The error names
  which check failed.
- **In-place scoring.** Scoring assigns `score` and `totalScore` in place, so its
  three operations are methods over an `array<Player>`. Each is specified by a
  function on sequences of players.
- **Loops.** Every loop of the source is a method with a loop and its invariants,
  and its `ensures` says the result equals a specification function. The greedy
  pass selection, for example, is proved equal to `AiPassing.Greedy`, the scan
  of the danger order with its two skip rules. This covers `createDeck`, `shuffle`,
  `deal`, `findPlayerWith2OfClubs`, `determineTrickWinner`, `resolveTrick`, the
  exchange loop of `executeCardPassing`, `countHearts`, `hasQueenOfSpades`, the
  three scoring methods, `determineWinner`, the two initialisers, the danger and
  safety scores, the suit counting, the greedy pass selection and the scan of
  the trick when following.
- **Shuffling.** The random draws of the shuffle are a parameter `picks`, where
  `picks[i]` is the index in `0..i` that position `i` is swapped with. The
  initialisers take the draws and create, shuffle and deal the deck themselves.
- **Sorting.** JavaScript's `sort` is stable, and so is `Seqs.SortByKey`. The
  three-way comparator of the lead choice becomes a single integer key, and a
  lemma shows the key orders cards exactly as the comparator does.

## Model

| member | source | states |
|---|---|---|
| Cards.CreateCard | src/models/Card.ts:13-24 | the card keeps the given suit and rank, and its value lies in 2..14 |
| Cards.RankValueOrder | src/models/Card.ts:14-17 | the value table gives the i-th rank of 2 < 3 < ... < A the value i + 2, so the values strictly increase along the rank order |
| Cards.RankValueInjective | src/models/Card.ts:14-17 | two ranks with the same value are the same rank |
| Cards.CardsEqual | src/models/Card.ts:29-31 | cards are equal exactly when they are the same suit and rank |
| Cards.CardsEqualReflexiveSymmetric | src/models/Card.ts:29-31 | card equality is reflexive and symmetric |
| Cards.CardToString | src/models/Card.ts:36-38 | the string is the rank's name followed by one letter, the upper-cased initial of the suit |
| Cards.CardToStringInjective | src/models/Card.ts:36-38 | different cards have different strings |
| Deck.StandardDeck | src/models/Deck.ts:8-21 | the deck createDeck builds holds 52 cards |
| Deck.StandardDeckComplete | src/models/Deck.ts:8-21 | every card of the game is in the deck |
| Deck.StandardDeckDistinct | src/models/Deck.ts:8-21 | no card appears twice in the deck |
| Deck.StandardDeckSuitCount | src/models/Deck.ts:8-21 | the deck holds 13 cards of each suit |
| Deck.StandardDeckRankCount | src/models/Deck.ts:8-21 | the deck holds 4 cards of each rank |
| Deck.StandardDeckSlice | src/models/Deck.ts:9-18 | the thirteen cards of the i-th suit block are that suit's cards in rank order |
| Deck.StandardDeckBlocks | src/models/Deck.ts:9-18 | the deck is the four suit blocks one after another |
| Deck.CreateDeck | src/models/Deck.ts:8-21 | the nested loops build the standard deck, suit by suit and rank by rank |
| Deck.Swap | src/models/Deck.ts:32 | the swap exchanges positions i and j and leaves every other position alone |
| Deck.SwapPermutes | src/models/Deck.ts:32 | a swap permutes the deck |
| Deck.FisherYates | src/models/Deck.ts:27-36 | the shuffle a sequence of draws produces has the deck's length |
| Deck.ShuffleFromPermutes | src/models/Deck.ts:30-33 | however many swaps of the loop remain, the result is a permutation of the sequence |
| Deck.FisherYatesPermutes | src/models/Deck.ts:27-36 | whatever the draws, the shuffle is a permutation of the deck |
| Deck.FisherYatesIdentity | src/models/Deck.ts:30-33 | when every draw picks the position itself, the shuffle moves nothing |
| Deck.Shuffle | src/models/Deck.ts:27-36 | the in-place swapping loop over a copy yields the Fisher-Yates shuffle for the draws, which is a permutation of the input |
| Deck.DealStep | src/models/Deck.ts:50-53 | one more dealt card goes to the next hand round the table, and the hands together hold one more card of the deck |
| Deck.DealDone | src/models/Deck.ts:42-56 | after the whole deck is dealt, the hands are the round-the-table deal and hold exactly the deck's cards |
| Deck.Deal | src/models/Deck.ts:42-56 | refuses a deck that is not 52 cards; otherwise card i goes to hand i % 4 in order, and together the hands are exactly the deck's cards |
| Game.CreatePlayer | src/models/GameState.ts:52-62 | a player with the given id, name and kind, an empty hand, no tricks and zero scores |
| Game.FindPlayerWith2OfClubs | src/models/GameState.ts:68-78 | the first seat whose hand holds the 2 of clubs, or -1 exactly when no hand holds it |
| Game.GetPassingDirection | src/models/GameState.ts:84-87 | hands 1, 2, 3 and 4 (mod 4) pass left, right, across and not at all, each if and only if |
| Game.PassingDirectionPeriod | src/models/GameState.ts:84-87 | the passing direction repeats every four hands |
| Game.GetCurrentPlayer | src/models/GameState.ts:92-94 | the player at the current index, absent exactly when the index is outside the table |
| Game.IsPlayerTurn | src/models/GameState.ts:106-108 | true exactly when the current player has the given id |
| Game.GetTricksPlayed | src/models/GameState.ts:113-116 | the number of tricks taken by seat 0 only |
| Game.IsFirstTrick | src/models/GameState.ts:121-123 | true exactly when seat 0 has taken no trick |
| Game.GetLedSuit | src/models/GameState.ts:128-133 | none exactly when the trick is empty, otherwise the suit of the trick's first card |
| MoveValidation.IsHeart | src/logic/moveValidation.ts:8-10 | true exactly for hearts |
| MoveValidation.IsQueenOfSpades | src/logic/moveValidation.ts:15-17 | true exactly for the queen of spades |
| MoveValidation.IsPenaltyCard | src/logic/moveValidation.ts:23-25 | true exactly for hearts and the queen of spades |
| MoveValidation.FollowsSuit | src/logic/moveValidation.ts:31-33 | true exactly for cards of the led suit |
| MoveValidation.HasSuit | src/logic/moveValidation.ts:39-41 | true exactly when some card of the hand is of the suit, that is when the suit's filter is not empty |
| MoveValidation.HasOnlyHearts | src/logic/moveValidation.ts:47-49 | true exactly for a non-empty hand of hearts only |
| MoveValidation.HasOnlyPenaltyCards | src/logic/moveValidation.ts:55-57 | true exactly for a non-empty hand of penalty cards only |
| MoveValidation.IsValidFirstTrickPlay | src/logic/moveValidation.ts:67-75 | a non-penalty card is always allowed; a penalty card only from a hand of penalty cards |
| MoveValidation.CanLeadHearts | src/logic/moveValidation.ts:84-92 | true exactly when hearts are broken or the hand holds only hearts |
| MoveValidation.GetValidPlays | src/logic/moveValidation.ts:98-145 | every valid play is a card of the hand, and a non-empty hand always has a valid play |
| MoveValidation.FirstTrickFilterNonEmpty | src/logic/moveValidation.ts:140-142 | a non-empty hand always keeps a first-trick discard |
| MoveValidation.IsValidPlay | src/logic/moveValidation.ts:156-161 | true exactly for the cards among the valid plays, which are cards of the hand |
| MoveValidation.WouldBreakHearts | src/logic/moveValidation.ts:169-177 | true exactly for a heart played to a trick that was led in another suit |
| MoveValidation.TwoOfClubsOpens | src/logic/moveValidation.ts:104-111 | leading the first trick with the 2 of clubs in hand, the only valid play is the 2 of clubs |
| MoveValidation.MustFollowSuit | src/logic/moveValidation.ts:132-136 | a player holding the led suit may play exactly the cards of that suit in the hand |
| MoveValidation.VoidPlaysAnything | src/logic/moveValidation.ts:137-143 | after the first trick, a player void in the led suit may play any card of the hand |
| MoveValidation.NoHeartLeadBeforeBroken | src/logic/moveValidation.ts:113-128 | before hearts are broken, a player whose hand is not all hearts never leads a heart |
| MoveValidation.NoPenaltyOnFirstTrick | src/logic/moveValidation.ts:113-128 | on the first trick, a player whose hand is not all penalty cards never plays one, whether leading without the 2 of clubs or discarding when void |
| MoveValidation.VoidOnFirstTrick | src/logic/moveValidation.ts:137-143 | void in the led suit on the first trick, the valid plays are exactly the hand's cards allowed on the first trick: every non-penalty card, and the whole hand when it holds only penalty cards |
| MoveValidation.LeadWithoutTwoOfClubs | src/logic/moveValidation.ts:113-128 | leading without the 2 of clubs to play, the valid plays are exactly the cards that pass both lead rules (no penalty card on the first trick, no heart unless hearts may be led) when some card does, and the whole hand otherwise |
| MoveValidation.LeadingNeverBreaksHearts | src/logic/moveValidation.ts:169-177 | a card led to an empty trick never breaks hearts |
| TrickResolution.BestOfLedUnique | src/logic/trickResolution.ts:19-37 | at most one play is the earliest of the highest cards of the led suit |
| TrickResolution.WinnerAmong | src/logic/trickResolution.ts:19-37 | the loop's choice after any prefix of the trick is the earliest highest play of the led suit in that prefix |
| TrickResolution.TrickWinnerIndex | src/logic/trickResolution.ts:19-37 | the winning play is of the led suit, at least as high as every other led-suit play and earlier than every equal one |
| TrickResolution.OffSuitNeverWins | src/logic/trickResolution.ts:31 | a card of another suit never wins the trick, however high |
| TrickResolution.DetermineTrickWinner | src/logic/trickResolution.ts:14-38 | refuses exactly the tricks without four plays, otherwise returns the id of the winning play |
| TrickResolution.TotalTricks | src/logic/trickResolution.ts:50-53 | no players have taken no tricks |
| TrickResolution.TotalTricksAward | src/logic/trickResolution.ts:110-118 | giving one player one more trick raises the total by exactly one |
| TrickResolution.IsHandComplete | src/logic/trickResolution.ts:47-56 | true exactly when thirteen tricks have been taken in all |
| TrickResolution.GetPlayerIndex | src/logic/trickResolution.ts:65-67 | the first seat with the id, or -1 exactly when no seat has it |
| TrickResolution.FirstWithIdIsIndex | src/logic/trickResolution.ts:65-67 | a seat is the first with an id exactly when it is the index that the lookup returns |
| TrickResolution.TrickCards | src/logic/trickResolution.ts:107 | the trick's cards in play order |
| TrickResolution.ResolveTrick | src/logic/trickResolution.ts:84-138 | refuses an incomplete trick and an unseated winner; otherwise the first seat with the winner's id takes the cards as one more trick and leads, the trick is cleared, hearts are broken when they were or a heart was discarded, the phase is hand-complete exactly when 13 tricks are taken, and nothing else changes |
| TrickResolution.AddCardToTrick | src/logic/trickResolution.ts:148-166 | appends exactly the one play; hearts stay broken once broken and break on a discarded heart; the led suit is set by the first card only; nothing else changes |
| CardPassing.ValidatePassingSelection | src/logic/cardPassing.ts:9-11 | true exactly for three cards |
| CardPassing.ValidateCardsInHand | src/logic/cardPassing.ts:17-21 | true exactly when every selected card is in the hand, so an empty selection is valid |
| CardPassing.GetPassingTargetIndex | src/logic/cardPassing.ts:27-46 | no passing keeps the seat; left is the next seat and right the previous one, wrapping around; across is two seats on; every target is a seat of the table |
| CardPassing.PassingTargetInverse | src/logic/cardPassing.ts:27-46 | at four seats, passing in the reverse direction undoes every direction |
| CardPassing.PassingTargetInjective | src/logic/cardPassing.ts:27-46 | no two seats pass to the same seat |
| CardPassing.RemoveCardsFromHand | src/logic/cardPassing.ts:51-55 | the hand keeps exactly the cards that were not removed |
| CardPassing.RemoveCardsExact | src/logic/cardPassing.ts:51-55 | removing distinct cards of a hand without repeats takes away exactly those cards |
| CardPassing.AddCardsToHand | src/logic/cardPassing.ts:60-62 | the hand followed by the added cards, with both sets of cards kept |
| CardPassing.AllPlayersHaveSelected | src/logic/cardPassing.ts:181-186 | true exactly when every seated player has a selection of three cards |
| CardPassing.SelectCardsForPassing | src/logic/cardPassing.ts:146-175 | refuses, in this order, a count other than three, an unknown player and a card not in that player's hand (each refusal pinned to its own error); it succeeds exactly when none of these applies, and then only that player's selection changes |
| CardPassing.SelectionKeepsAllSelected | src/logic/cardPassing.ts:167-174 | once every player has selected, a further successful selection keeps it so |
| CardPassing.ReceivedBy | src/logic/cardPassing.ts:96-111 | a player receives nothing before any seat has passed |
| CardPassing.PileLookup | src/logic/cardPassing.ts:106-110 | adding cards to one pile (creating it when missing) appends them to that id's pile and leaves every other id's pile alone |
| CardPassing.PilesAfterReceived | src/logic/cardPassing.ts:96-111 | after the first k seats, the pile of each id is the selections of those seats that target it, in seat order |
| CardPassing.Exchanged | src/logic/cardPassing.ts:113-126 | the exchange keeps the number of players |
| CardPassing.ApplyPasses | src/logic/cardPassing.ts:113-126 | the update of the hands keeps the number of players |
| CardPassing.ApplyPassesExchanges | src/logic/cardPassing.ts:113-126 | each hand loses its own selection and gains what was sent to its id |
| CardPassing.CollectPasses | src/logic/cardPassing.ts:96-111 | succeeds exactly when every seat's selection is in its hand; otherwise refuses naming the first seat whose selection is not; on success the piles are those after all seats, so each id is sent the selections of the seats that target it, in seat order |
| CardPassing.ExecuteCardPassing | src/logic/cardPassing.ts:71-135 | with no passing, only the phase becomes playing and the selections are cleared; otherwise it refuses when a selection is missing or not three cards, refuses for the first seat whose selection is not in its hand, and else performs the exchange, sets the phase to playing and clears the selections |
| CardPassing.SourceOf | src/logic/cardPassing.ts:27-46 | each seat has a seat that passes to it |
| CardPassing.ReceivedFromSource | src/logic/cardPassing.ts:96-126 | at four seats with distinct ids, each player receives exactly the selection of the seat that passes to it |
| CardPassing.SeatBalance | src/logic/cardPassing.ts:113-126 | at four seats, a hand after the exchange plus what it passed is the hand before plus what its source seat passed |
| CardPassing.PassingKeepsHandSize | src/logic/cardPassing.ts:113-126 | a hand without repeats passing three distinct cards of its own keeps its size |
| CardPassing.PassingConservesCards | src/logic/cardPassing.ts:71-135 | when every selection is distinct cards of its own hand and no hand repeats a card, the exchange keeps the cards of the table as a whole |
| Scoring.PenaltyPoints | src/logic/scoring.ts:40-45 | zero exactly when no trick holds a heart or the queen of spades, and never more than the cards taken plus 13 |
| Scoring.HeartCountZero | src/logic/scoring.ts:8-18 | there are no hearts to count exactly when no card taken is a heart |
| Scoring.CountHearts | src/logic/scoring.ts:8-18 | the counting loops count the hearts of all the tricks |
| Scoring.HasQueenOfSpades | src/logic/scoring.ts:24-33 | true exactly when some trick holds the queen of spades |
| Scoring.CalculateHandScore | src/logic/scoring.ts:40-45 | one point per heart and thirteen for the queen of spades |
| Scoring.HasShotTheMoon | src/logic/scoring.ts:51-53 | true exactly for a score of 26 |
| Scoring.FirstShooter | src/logic/scoring.ts:65-71 | the first seat with a hand score of 26, or -1 exactly when there is none |
| Scoring.MoonAdjusted | src/logic/scoring.ts:63-78 | the first player with 26 scores -26 instead, and every other player is unchanged |
| Scoring.WithTotals | src/logic/scoring.ts:84-88 | the update keeps the number of players |
| Scoring.WithHandScores | src/logic/scoring.ts:97-99 | the update keeps the number of players |
| Scoring.Scored | src/logic/scoring.ts:95-106 | scoring keeps the number of players |
| Scoring.ApplyShootingTheMoon | src/logic/scoring.ts:63-78 | the array afterwards is the moon adjustment of the array before |
| Scoring.UpdateCumulativeScores | src/logic/scoring.ts:84-88 | every player adds the hand score to the total, and nothing else changes |
| Scoring.ScoreHand | src/logic/scoring.ts:95-106 | the array afterwards is the complete scoring of the array before |
| Scoring.ScoredPlayer | src/logic/scoring.ts:95-106 | after scoring, a player's score is the penalty points of their tricks, or -26 for the first who shot the moon; the total grows by that score; hand, tricks, id and name are untouched |
| Scoring.StandardDeckIsDistinct | src/models/Deck.ts:8-21 | the standard deck repeats no card |
| Scoring.QueenTakenOnce | src/logic/scoring.ts:24-33 | when the four players have taken the whole deck, exactly one of them holds the queen of spades |
| Scoring.PenaltiesTotal26 | src/logic/scoring.ts:40-45 | when the four players have taken the whole deck, their penalty points add up to 26 |
| Scoring.MoonLeavesOthersClean | src/logic/scoring.ts:63-78 | when one player took 26 points of the whole deck, every other player took none |
| Scoring.ScoredHandTotal | src/logic/scoring.ts:95-106 | after scoring a hand that dealt out the whole deck, the four hand scores add up to -26 when someone shot the moon and to 26 otherwise |
| GameEnding.ShouldGameEnd | src/logic/gameEnding.ts:7-9 | true exactly when some player's total has reached 100 |
| GameEnding.DetermineWinner | src/logic/gameEnding.ts:16-29 | refuses exactly the empty table; otherwise the id of a player with the lowest total, every earlier seat having a strictly higher one |
| GameEnding.LowestFirstUnique | src/logic/gameEnding.ts:21-28 | the winner's seat is unique |
| GameEnding.TransitionToGameOver | src/logic/gameEnding.ts:36-41 | the phase becomes game over and nothing else changes |
| GameEnding.CheckAndTransitionToGameOver | src/logic/gameEnding.ts:48-53 | game over when some total has reached 100, otherwise the state unchanged |
| GameEnding.CheckIdempotent | src/logic/gameEnding.ts:48-53 | checking twice is checking once; the game is over afterwards exactly when a total has reached 100 or it was over already |
| GameInitialization.Hands | src/logic/gameInitialization.ts:28-30 | the hands of the players, seat by seat |
| GameInitialization.DealHoldsTwoOfClubs | src/logic/gameInitialization.ts:23-33 | four hands dealt from a whole deck hold the 2 of clubs between them |
| GameInitialization.StartingPlayers | src/logic/gameInitialization.ts:15-20 | four players "player-0".."player-3" named "You", "Alice AI", "Bob AI" and "Charlie AI", only the first human, all without cards, tricks or points |
| GameInitialization.DealNewHands | src/logic/gameInitialization.ts:23-25 | the hands are the deal of the shuffled standard deck; together they are the whole deck, and one of them holds the 2 of clubs |
| GameInitialization.AssignHands | src/logic/gameInitialization.ts:28-30 | seat i receives hand i and nothing else changes |
| GameInitialization.SeatStartingPlayers | src/logic/gameInitialization.ts:15-30 | seat i is starting player i holding hand i of the deal of the shuffled deck; the hands are the whole deck and one holds the 2 of clubs |
| GameInitialization.InitializeGame | src/logic/gameInitialization.ts:13-49 | four players "player-0".."player-3", only the first human, named as in the source, with no tricks and zero scores; their hands are the deal of the shuffled deck; the first holder of the 2 of clubs starts; dealer 0, passing, left, hand 1, an empty trick, hearts unbroken and no selections |
| GameInitialization.ResetPlayers | src/logic/gameInitialization.ts:64-69 | seat i gets hand i, no tricks and a zero hand score, and keeps everything else |
| GameInitialization.DealToPlayers | src/logic/gameInitialization.ts:58-69 | every player keeps everything but gets hand i of the deal of the shuffled deck, no tricks and a zero hand score; at four players one of them holds the 2 of clubs |
| GameInitialization.InitializeNewHand | src/logic/gameInitialization.ts:55-91 | the next hand number; every player keeps id, name, kind and total and gets a new hand from a fresh deal, no tricks and a zero score; the first holder of the 2 of clubs starts; the dealer moves one seat on; the direction follows the hand number, and the phase is playing exactly when there is no passing; empty trick, hearts unbroken, no selections |
| AiPassing.SuitLen | src/logic/aiPassing.ts:43-45 | a suit never has more cards than the hand |
| AiPassing.CountSuits | src/logic/aiPassing.ts:99-103 | every suit is mapped to its number of cards in the hand (CountsOf), and exactly the suits present are keys |
| AiPassing.CardDanger | src/logic/aiPassing.ts:20-69 | 100 exactly for the queen of spades, every score between -30 and 100, and a card of 2 to 4 other than the queen scores below 0 |
| AiPassing.EvaluateCardDanger | src/logic/aiPassing.ts:20-69 | the step-by-step score equals the sum of terms of CardDanger |
| AiPassing.DangerOrder | src/logic/aiPassing.ts:106-113 | the scan order is a permutation of the hand |
| AiPassing.DangerOrderSorted | src/logic/aiPassing.ts:113 | the scan order never increases in danger, and cards of equal danger keep their hand order |
| AiPassing.QueenScannedFirst | src/logic/aiPassing.ts:113 | a queen of spades in the hand is scanned first |
| AiPassing.HoldsQueenOfSpades | src/logic/aiPassing.ts:126 | true exactly when the hand holds the queen of spades |
| AiPassing.GreedyTakes | src/logic/aiPassing.ts:116-145 | the greedy scan keeps what it has chosen, ends with at most three cards taken from distinct positions of the rest of the scan order, and takes only cards neither skip rule refuses |
| AiPassing.GreedyTakesLeadingQueen | src/logic/aiPassing.ts:116-145 | a queen of spades scanned first, with another spade in the hand, is taken |
| AiPassing.GreedyChoiceFacts | src/logic/aiPassing.ts:116-145 | the greedy choice over the danger order has at most three cards of the hand; a queen that is the only spade is never taken, and a queen with another spade always is |
| AiPassing.GreedySkipRules | src/logic/aiPassing.ts:123-141 | a card the greedy choice takes that is alone in its suit is not a spade while the queen is held, and if it is 6 or lower no card of another suit in the hand scores above 20 |
| AiPassing.GreedyPick | src/logic/aiPassing.ts:116-145 | the loop computes exactly Greedy, the scan of the danger order with its two skip rules and its stop at three cards |
| AiPassing.PickThree | src/logic/aiPassing.ts:104-157 | exactly PassChoice: the greedy choice when it has three cards, else the first three of the danger order; so three cards from distinct positions of the hand, a queen of spades with another spade among them, and a lone queen only when they are the first three of the scan order |
| AiPassing.SelectAICardsToPass | src/logic/aiPassing.ts:88-158 | nothing with no passing; refuses exactly the hands of fewer than three cards; otherwise exactly PassChoice of the hand, three cards from distinct positions of the hand; a queen of spades with another spade is always passed, and a lone queen only through the top-three fallback |
| AiPlaying.CardSafety | src/logic/aiPlaying.ts:18-38 | between 0 and 62, 62 exactly for the queen of spades, and 0 for a card that is neither a heart nor a high card |
| AiPlaying.EvaluateCardSafety | src/logic/aiPlaying.ts:18-38 | the step-by-step score equals CardSafety, whatever the hand and state |
| AiPlaying.LeadKeyAgrees | src/logic/aiPlaying.ts:120-131 | the key orders two cards below, equal and above exactly as the source's comparator does |
| AiPlaying.FirstOfLongestSuit | src/logic/aiPlaying.ts:104-109 | a card of the choices whose suit is as long in the hand as any other choice's, and the first such card in the choices (every earlier choice is of a shorter suit), as the stable sort by descending suit length gives |
| AiPlaying.LeadSortFirst | src/logic/aiPlaying.ts:112-133 | the head of the key-sorted choices is a choice that the comparator puts before or level with every choice, and every choice before it in the choices is strictly worse by the comparator |
| AiPlaying.LeadByComparator | src/logic/aiPlaying.ts:112-133 | the card the comparator sort puts first: no choice sorts before it, and it is the first in the choices of those that tie with it |
| AiPlaying.LowSpadesFilter | src/logic/aiPlaying.ts:88-92 | the low spades are exactly the spades of J or below among the choices, and there are some exactly when such a spade exists |
| AiPlaying.VeryLowFilter | src/logic/aiPlaying.ts:101-102 | the very low cards are exactly the choices of 2 to 4, and there are some exactly when such a card exists |
| AiPlaying.SecondLowest | src/logic/aiPlaying.ts:140-144 | a low heart of the choices; when there are several, some other one is no higher and every remaining one is at least as high, so the card led is a second lowest and the lowest is kept |
| AiPlaying.SortedSecond | src/logic/aiPlaying.ts:143-144 | in a list of two or more sorted by value, the first is no higher than the second and every other element is at least as high as the second |
| AiPlaying.LeadNonHeart | src/logic/aiPlaying.ts:82-134 | a non-heart of the choices; early, without the queen and with a spade of J or lower, the lowest such spade; otherwise, with a card of 2 to 4 before the late game, the first card of 2 to 4 of a longest suit (FirstOfLongestSuit of the very low cards); otherwise exactly the comparator's first card (LeadByComparator) |
| AiPlaying.LeadHeart | src/logic/aiPlaying.ts:137-151 | a heart of the choices; the highest unless in the late game with a heart of 7 or lower; then exactly the SecondLowest of the hearts of 7 or lower |
| AiPlaying.SelectCardToLead | src/logic/aiPlaying.ts:56-156 | refuses exactly when nothing is valid; a valid card; the single valid card; never a heart when a non-heart is valid; the smoke-out spade early without the queen; the highest heart when only hearts are valid and it is not the late game; with two or more valid cards, exactly LeadNonHeart of the valid non-hearts for the hand's suit counts when some valid card is not a heart, and exactly LeadHeart of the valid cards otherwise |
| AiPlaying.NoNonHeartsAllHearts | src/logic/aiPlaying.ts:137 | when no valid card is a non-heart, every valid card is a heart |
| AiPlaying.HighestLed | src/logic/aiPlaying.ts:190-204 | at least 0, no led-suit card of the trick is higher, and a non-zero result is the value of some led-suit card |
| AiPlaying.WinFilters | src/logic/aiPlaying.ts:247-260 | the winning cards are not empty when some card beats the trick; the winning cards above 4 are exactly the cards that beat it and are above 4; the penalty-trick rule applies exactly when such a card exists |
| AiPlaying.WinCheaply | src/logic/aiPlaying.ts:246-266 | a card that beats the trick: the lowest such card among those above 4 when the trick holds a penalty card and such a card exists, otherwise the lowest of all winning cards |
| AiPlaying.FollowFilters | src/logic/aiPlaying.ts:207-244 | the losing cards are exactly those that do not beat the trick, those above 4 exactly the losing cards above 4; all cards lose exactly when none beats the trick |
| AiPlaying.FollowLater | src/logic/aiPlaying.ts:222-266 | a valid card; the highest losing card above 4 when there is one; else, with a losing card and in the late game or when every card loses, the highest losing card; else WinCheaply |
| AiPlaying.HighestLedStep | src/logic/aiPlaying.ts:194-197 | one more play raises the highest led value exactly when it is of the led suit and higher |
| AiPlaying.PlayedStep | src/logic/aiPlaying.ts:198-203 | one more play adds its own queen of spades or heart to those seen and keeps the others |
| AiPlaying.FollowChoice | src/logic/aiPlaying.ts:206-275 | a valid card; the highest on the first trick while it is open; otherwise FollowLater |
| AiPlaying.ScanTrick | src/logic/aiPlaying.ts:189-204 | the loop finds the highest led-suit value of the trick and whether the queen of spades or a heart was played |
| AiPlaying.SelectCardToFollow | src/logic/aiPlaying.ts:174-276 | refuses exactly when nothing is valid, or when nothing has been led with two or more valid cards; the single valid card; otherwise FollowChoice of the trick's highest led card, whether it holds a penalty card, and seat 0's trick count |
| AiPlaying.HighHeartsFilter | src/logic/aiPlaying.ts:317-325 | the high hearts are exactly the valid hearts of 10 or above |
| AiPlaying.HighNonHeartsFilter | src/logic/aiPlaying.ts:336-338 | the high cards are exactly the choices of Q or above, and those that are not hearts exactly the high non-hearts |
| AiPlaying.NonLowHeartsFilter | src/logic/aiPlaying.ts:350-352 | the remaining hearts kept are exactly the hearts above 4, and there are some exactly when such a heart exists |
| AiPlaying.NonVeryLowFilter | src/logic/aiPlaying.ts:360-361 | the cards kept are exactly those above 4, and there are some exactly when such a card exists |
| AiPlaying.SloughRest | src/logic/aiPlaying.ts:335-371 | a valid card; the highest non-heart of Q or above when there is one; else, with a heart above 4, the highest heart above 4; else, with a card above 4, the highest card above 4; with no card above 4, the highest card |
| AiPlaying.SelectCardToSlough | src/logic/aiPlaying.ts:295-372 | refuses exactly when nothing is valid; a valid card; the single valid card; the queen of spades when valid; else the ace of hearts when last to play; else the highest heart of 10 or above; else SloughRest |
| AiPlaying.SelectAICardToPlay | src/logic/aiPlaying.ts:385-413 | refuses exactly an empty hand; the card played is always a valid play; the single valid play; a card of the led suit when the hand holds it; the slough choice when void; never a heart lead when a non-heart is valid |
| Seqs.MaxBy | src/logic/aiPlaying.ts:149-151 | `reduce` to the highest element: an element of the sequence, no element higher, and every earlier element lower |
| Seqs.MinBy | src/logic/aiPlaying.ts:93-95 | `reduce` to the lowest element: an element of the sequence, no element lower, and every earlier element higher |
| Seqs.SortByKey | src/logic/aiPassing.ts:113 | the sort is a permutation of its input, in non-decreasing key order |
| Seqs.SortByKeyFirst | src/logic/aiPlaying.ts:104-109 | the head of the sort is an element of least key, and the first of the input with that key |
| Seqs.SortByKeyStable | src/logic/aiPassing.ts:113 | the sort is stable: the elements of each key keep their order |

## Left out

- The React hooks, the components, the persistence to `localStorage` and the test
  setup are not part of this model. The turn sequence of the game hook is not
  modelled either.
- `Math.random` in `shuffle` becomes the parameter `picks`. The model says nothing
  about how the draws are distributed.
- `shuffle` copies its argument. Sequences are values in Dafny, so the argument
  is unchanged by construction and no contract states it.
- Scoring works on an `array<Player>` of player values. The source's player
  objects can be aliased, the same object at two positions of the array; the
  model cannot express that.
- `getCurrentPhase` is a field read, `gs.phase`, and has no member of its own.
- `passedSuits` in the greedy pass selection is written but never read. The model
  keeps it; no contract mentions it.
- `evaluateCardSafety` is never called by the play selectors. It is modelled on
  its own.
- The source's unreachable throws and fallbacks are not written out. The doc
  comment or body of the member that models each one says why it is dead:
  - the "not exactly 3 cards" throw after the greedy pass selection, in
    AiPassing.PickThree;
  - the `validPlays[0]` fallback of `selectCardToLead`, in
    AiPlaying.SelectCardToLead;
  - the two closing fallbacks of `selectCardToFollow`, in AiPlaying.FollowLater.
- Game.GetPassingDirection: requires a hand number of at least 1. For lower
  numbers the source indexes its cycle with a negative remainder and yields
  `undefined`.
- CardPassing.GetPassingTargetIndex: requires a seat index of at least 0 and a
  positive number of players. JavaScript's `%` is modelled exactly only for those.
- GameInitialization.InitializeNewHand: requires at most four players, a hand
  number of at least 0 and a dealer index of at least -1. The source deals four
  hands, so a fifth player would get `undefined`. The rotated dealer index
  matches JavaScript's `%` only when the dealer index plus one is not negative.
- Game.GetTricksPlayed: requires at least one player.
- Game.IsFirstTrick: requires at least one player.
- MoveValidation.GetValidPlays: requires at least one player.
- MoveValidation.IsValidPlay: requires at least one player.
- AiPlaying.SelectCardToLead: requires at least one player.
- AiPlaying.SelectCardToFollow: requires at least one player.
- AiPlaying.SelectAICardToPlay: requires at least one player.
- The players[0] requirement on the members above exists because the source reads
  `players[0].tricksTaken`, which throws on an empty table. The model requires
  the seat instead of modelling that `TypeError`.
- Game.IsPlayerTurn: requires the current index to be a seat. Outside the table
  the source reads `undefined.id` and throws.
- Scoring.QueenTakenOnce: the facts about the table as a whole are proved only
  for four players who have taken the whole deck between them.
- Scoring.PenaltiesTotal26: the same four-player, whole-deck restriction.
- Scoring.MoonLeavesOthersClean: the same four-player, whole-deck restriction.
- Scoring.ScoredHandTotal: the same four-player, whole-deck restriction.
- CardPassing.PassingConservesCards: proved for four seats with distinct ids and
  hands without repeats. The source never builds any other table.
