# A verified model of the game.js rule engine

game.js runs a six-seat, two-team trick-taking card game. One participant
hosts the game: that process holds the authoritative `gameState` and applies
every move. This project models that host-side rule engine in Dafny and
proves its rules and invariants.

The model covers:

- **Cards and seats.** The 48-card deck (four suits, twelve faces, no 2) and the
  trick ranks. The fixed teams (seats 1, 3, 5 against 2, 4, 6). Clockwise rotation
  `(s % 6) + 1`.
- **The deal.** `distributeCards` deals the deck one card at a time, clockwise from
  the seat after the distributor.
- **Setting up a game.** `startGame` takes out one face-down "hidden" card from the
  first player's hand, decides which team moves first and resets the round.
- **A trick.** The follow-suit rule (`canPlayCard`). When the hidden card may be
  revealed (`canOpenHiddenCard`), and the reveal itself: the hidden card's suit
  becomes the super suit and the card goes back to the first player (`openHiddenCard`).
  Playing a card (`saveSelectedCard`). The trick winner (`calculateRoundWinner`). Closing
  a trick (`completeRound`).
- **The end of a game.** The asymmetric target: the team that moved first needs
  five tricks, the other four. The points ladder: a flat bonus of 5, or up to 10
  points taken from the loser, then a rollover at 32. The choice of the next
  distributor (`determineNextDistributor`, `rotateDistributor`, `startNextGame`).
- **Sorting a hand** for display (`sortHand`).

Modules, in dependency order:

- `Options`: `Option`, standing for a field that may be `null`.
- `Cards`: suits, faces, ranks, the suit display order, the constants.
- `Seats`: seats, teams, clockwise steps.
- `Deal`: the deal, as a method with a loop and as a specification function,
  and the card counts of the six hands.
- `Rules`: the pure rules: follow suit, revealing, trick winner, game winner.
- `Scoring`: the points ladder and distributor succession.
- `Game`: the host state.
  - As a value, `State`, with one transition function per operation
    (`Started`, `Play`, `Reveal`, `Ended`, `Credited`/`Advance`/`Complete`) and the
    invariants `Consistent` and `CardsAccounted`.
  - As an object, the class `GameState`, whose fields are those of `gameState`.
    Each state-changing method that models a whole operation ensures
    `Abstract() == F(old(Abstract()), …)` for its transition function `F`. The
    exceptions are the helpers `SetRandomDistributor`, `DealAndHide`,
    `ResetForNewGame`, `RotateDistributor`, `UpdateRoundsWon`,
    `CalculateGamePoints` and `RecordWinner`. Each of them states its new fields
    one by one. The invariants are proved as lemmas about the transition
    functions.
- `HandSort`: the display order of a hand.

The class has three ghost fields that game.js does not store:

- `leader`, the seat that led the current trick;
- `trickSize`, the number of cards on the table;
- `tricks`, the completed tricks of the game, which game.js drops when it clears the table.

They exist only to state the invariants "the trick went clockwise from its
leader" and "every card of the deck is in a hand, face down, on the table or in
a completed trick".

## Model

| member | source | states |
|---|---|---|
| Cards.FaceRank | game.js:55 | ranks run 1..12; A is the only 12 and 3 the only 1 |
| Cards.FaceRankInjective | game.js:55 | no two faces share a rank |
| Cards.SameSuitSameRankSameCard | game.js:54-55 | within one suit, equal rank means the same card, so a trick never has a rank tie in a suit |
| Cards.SuitOrder | game.js:53 | the display order of a suit is in 0..3 |
| Cards.SuitOrderInjective | game.js:53 | distinct suits have distinct display positions |
| Seats.TeamOf | game.js:5-6 | team 1 is exactly seats 1, 3, 5 and team 2 exactly seats 2, 4, 6 |
| Seats.SeatAfterClosedForm | game.js:195 | `k` clockwise steps `(s % 6) + 1` from `s` reach `(s - 1 + k) % 6 + 1` |
| Seats.SeatAfterFullCircle | game.js:195 | six clockwise steps return to the same seat |
| Seats.SeatAfterPeriodic | game.js:195 | only the number of steps modulo six matters |
| Seats.SeatAfterInjective | game.js:195 | fewer than six steps from one seat never visit a seat twice |
| Seats.SeatAfterSurjective | game.js:195 | every seat is reached from every seat in fewer than six steps |
| Seats.NeighboursAreOpponents | game.js:5-6 | the next seat clockwise always belongs to the other team |
| Seats.ClockwiseSteps | game.js:686 | the number of clockwise steps between two seats is below six and reaches the target |
| Deal.DealSeatClockwise | game.js:193-197 | card `i` goes `i + 1` steps after the distributor; card 0 goes to the seat after the distributor, and each next card to the seat after the previous receiver |
| Deal.RemoveAt | game.js:243 | `splice(i, 1)` shortens the hand by one, keeps the other cards in order and removes exactly the card at `i` |
| Deal.HandsMultisetUpdate | game.js:195 | replacing one hand changes the cards of all hands by exactly what that hand lost and gained |
| Deal.HandsMultisetPush | game.js:196 | pushing a card onto one hand adds exactly that card to the hands |
| Deal.HandsMultisetRemove | game.js:243 | splicing a card out of one hand removes exactly that card from the hands |
| Deal.DealtReceiver | game.js:195 | after `n` cards, card `n` goes to the one seat that is owed it next |
| Deal.DealtStep | game.js:193-197 | one iteration of the deal loop keeps the hand sizes, the per-seat order of cards and the dealt multiset in step with `deck[..n]` |
| Deal.DealtSizesFull | game.js:189-200 | after the 48 cards every seat holds exactly 8 |
| Deal.EmptyHands | game.js:191 | the deal starts with an empty hand for each of the six seats |
| Deal.DealtHand | game.js:189-200 | a seat's dealt hand has 8 cards |
| Deal.DealtHands | game.js:189-200 | the dealt hands cover all six seats, each with its own every-sixth-card hand |
| Deal.DealtHandsPlaced | game.js:189-200 | `deck[i]` goes to seat `((distributor + i) % 6) + 1`, at position `i / 6` of its hand |
| Deal.DealtOnlyTo | game.js:189-200 | with a deck of distinct cards, a card is in one hand only: the seat it was dealt to |
| Deal.DealtAllEqual | game.js:189-200 | hands that satisfy the dealt order and sizes for all 48 cards are exactly the dealt hands |
| Deal.DealtHandsMultiset | game.js:189-200 | the six dealt hands together are exactly the deck |
| Deal.DistributeCards | game.js:189-200 | the loop's hands are the dealt hands, and together they hold exactly the deck |
| Rules.CanPlayCard | game.js:659-665 | `canPlayCard`: a card of the led suit is always playable; a card of another suit is playable only for a player who holds none of the led suit |
| Rules.FollowSuitForced | game.js:659-665 | a player holding the led suit may play a card exactly when it is of that suit |
| Rules.FreePlay | game.js:659-665 | with no led suit, or a player void in it, every card is playable |
| Rules.SomeCardPlayable | game.js:659-665 | a non-empty hand always has a playable card |
| Rules.CanOpenHiddenCard | game.js:666-670 | a reveal is allowed only with a hidden card not yet revealed, once a suit has been led, and only to a player whom follow suit leaves free to play any card |
| Rules.CanOpenExactlyWhenUnconstrained | game.js:659-670 | once a suit is led and the card is face down, a player may reveal exactly when follow suit leaves them free to play any card |
| Rules.OpenerPlaysFreely | game.js:659-670 | a player allowed to reveal may play any card |
| Rules.BestOfSuit | game.js:621-627 | the seat with the highest card of a suit among seats 1..k, none exactly when that suit was not played; ties keep the lower seat |
| Rules.FirstSeat | game.js:626 | the lowest seat that played, the first key in JavaScript's ascending integer-key order |
| Rules.RoundWinner | game.js:611-628 | the winner played in the trick; holds the top super-suit card if one was played, else the top card of the led suit if one was played |
| Rules.RoundWinnerTakesTopCard | game.js:611-628 | when the led suit is the leader's suit, the fallback is never reached: the winner holds the top super-suit card or the top led-suit card |
| Rules.TopOfSuitUnique | game.js:611-628 | with distinct cards, only one seat holds the top card of a suit, so tie-breaking never matters |
| Rules.GameWinner | game.js:275-287 | a team is declared only with at least 5 tricks (first mover) or 4 (other team); no winner exactly when both are below target |
| Rules.WinnerByEightTricks | game.js:275-287 | after eight tricks some team has always won |
| Rules.UndecidedBound | game.js:275-287 | while undecided, fewer than eight tricks were played and both teams are below target |
| Rules.OnlyTrickTakerCanWin | game.js:343-352 | crediting one trick can only declare the team that took it |
| Scoring.StealFlatBonus | game.js:290-300 | a loser at 0 points gives the winner +5 and stays at 0 |
| Scoring.StealTransfer | game.js:290-300 | otherwise exactly min(10, loser's points) moves from loser to winner and the sum is unchanged |
| Scoring.SettleSum | game.js:289-305 | after the settlement the sum of points has gained the bonus and lost 32 exactly when a rollover happened |
| Scoring.SettleInRange | game.js:302-305 | points in [0,32) stay in [0,32); only the winner can roll over, by exactly 32, and the loser keeps what the steal left |
| Scoring.DetermineNextDistributor | game.js:261-267 | two seats clockwise after a rollover, one seat clockwise when the distributor's team won, else unchanged |
| Scoring.NextDistributorTeam | game.js:261-267 | without a rollover the losing team deals next; a rollover gives the deal to the distributor's partner |
| Scoring.RolloverSignalAsWrittenFalsePositive | game.js:335 | the popup test as written fires for distributor 6, team 2 winning from 0-0 without a rollover |
| Scoring.RolloverSignalExact | game.js:335 | the corrected test fires exactly when the settlement rolled over |
| Scoring.RolloverSignalAsWrittenCovers | game.js:335 | the test as written never misses a rollover: a move of two seats clockwise always changes the seat number by more than one |
| Game.TrickCardsInsert | game.js:677 | recording a card for a seat that had not played adds exactly that card to the trick |
| Game.TrickShapeStep | game.js:683-688 | the seat whose turn it is has not played, and playing extends the clockwise trick by that seat |
| Game.TrickShapeFull | game.js:683 | in a trick of six plays every seat has played |
| Game.NewRound | game.js:246 | a fresh trick is the empty clockwise trick from its leader, the leader is on turn, and any card may be led |
| Game.InitialConsistent | game.js:17-50 | the initial state satisfies the invariant |
| Game.HiddenCardFromDeck | game.js:237-243 | the hidden card is deck card `6 * hiddenIndex`, from the hand of the seat after the distributor |
| Game.StartedDeal | game.js:213-253 | after `startGame` the first player holds 7 cards and the others 8, and the hands plus the hidden card are exactly the deck |
| Game.StartedConsistent | game.js:213-253 | starting a game from points in range gives a consistent state |
| Game.StartedAccounted | game.js:213-253 | a fresh game accounts for every card of the new deck |
| Game.PlayMovesOneCard | game.js:671-691 | on one's turn the player has not played yet; one card moves from the hand to the table, so hand size plus cards played is unchanged |
| Game.PlayConsistent | game.js:671-691 | a play on one's turn keeps the state consistent |
| Game.PlayAdvances | game.js:676-688 | the led suit changes only if unset; the trick completes exactly when all six seats have played, the turn then clears, and otherwise passes to `playerId % 6 + 1` |
| Game.PlayMovesCard | game.js:677-678 | an accepted play changes only the player's hand and the table |
| Game.PlayAccounted | game.js:671-691 | a play by a seat not yet on the table keeps every card accounted for |
| Game.PlayIfLegalKeepsInvariants | game.js:692-701 | through `nextPlayer` any request keeps both invariants, and changes the state only on the player's turn with a card that follows suit |
| Game.RevealReturnsHiddenCard | game.js:702-712 | revealing sets the super suit to the hidden card's suit and marks it opened; only the first player's hand changes, growing by exactly that card |
| Game.RevealConsistent | game.js:702-712 | revealing when `canOpenHiddenCard` allows it keeps the state consistent |
| Game.RevealAccounted | game.js:702-712 | revealing the face-down card keeps every card accounted for |
| Game.RevealOncePerGame | game.js:666-670 | after a reveal `canOpenHiddenCard` is false for every hand and led suit |
| Game.HiddenCardOpenedPersists | game.js:230 | playing, crediting and advancing keep the hidden card and its revealed flag; only a new deal turns it face down again |
| Game.RevealTwiceDuplicates | game.js:372-373 | a second reveal request, which the host applies without checking `hiddenCardOpened` once its user accepts the prompt, leaves a second copy of the hidden card in a hand, so the cards no longer add up to the deck |
| Game.HostReveal | game.js:372-373 | the host's reveal with a guard against a second reveal: afterwards the card is revealed and is the same card |
| Game.HostRevealAccounted | game.js:372-373 | the guarded reveal keeps every card accounted for, and a repeated request changes nothing |
| Game.CompleteTrickFull | game.js:683-684 | a complete trick holds six cards, including the leader's, whose suit is the led suit |
| Game.CompleteCreditsWinner | game.js:343-346 | completing a trick credits the team of the top super-suit or top led-suit card, and exactly one counter grows by one |
| Game.CompleteDecides | game.js:343-356 | the table is cleared; the game ends exactly when a winner is declared, with the settled points and successor; otherwise fewer than eight rounds were played, so the round limit at 353 is never reached, and the winner leads |
| Game.CompleteConsistent | game.js:343-361 | completing a trick keeps the state consistent, whether or not the game ends |
| Game.AdvanceKeepsCards | game.js:352-356 | the second half of `completeRound` moves no card and leaves the trick counters as credited |
| Game.CompleteAccounted | game.js:343-350 | completing a trick moves its cards from the table to the completed tricks, keeping every card accounted for |
| Game.EndedPopupExact | game.js:335 | with the corrected test, the clients' popup follows exactly the settlement's rollover |
| Game.ClientPopupAsWritten | game.js:335 | the popup message as written is sent after every rollover (it may also be sent without one) |
| Game.EndedPopupAsWrittenFalsePositive | game.js:335 | with the test as written, the clients are sent the popup after a game with no rollover |
| Game.GameState.constructor | game.js:17-50 | the new state is the initial `gameState` |
| Game.GameState.SetRandomDistributor | game.js:255 | the distributor becomes the drawn seat |
| Game.GameState.DealAndHide | game.js:221-244 | the hands are the deal of the new deck minus the hidden card, taken from the seat after the distributor |
| Game.GameState.ResetForNewGame | game.js:223-246 | round 1, started, not completed, no winner, trick counters 0, no super suit, first mover's team set, a fresh trick led by the first player |
| Game.GameState.DealNewGame | game.js:221-246 | the new state is `Started` of the old one with the current distributor |
| Game.GameState.StartGame | game.js:213-253 | the new state is `Started` of the old one with the current (or drawn) distributor |
| Game.GameState.RotateDistributor | game.js:256-259 | the distributor moves one seat clockwise, or is drawn when unset |
| Game.GameState.StartNextGame | game.js:202-211 | the chosen successor deals (else the distributor rotates), the successor is cleared, and a new game starts |
| Game.GameState.SaveSelectedCard | game.js:671-691 | the new state is `Play` of the old one |
| Game.GameState.NextPlayer | game.js:692-701 | the new state is `PlayIfLegal` of the old one |
| Game.GameState.OpenHiddenCard | game.js:702-712 | the new state is `Reveal` of the old one |
| Game.GameState.UpdateRoundsWon | game.js:269-273 | exactly the winning team's trick counter grows by one |
| Game.GameState.CalculateGamePoints | game.js:289-309 | the points are the settlement's and the successor is chosen from its rollover flag |
| Game.GameState.RecordWinner | game.js:319-321 | the game is completed with the given winner, and the trick is marked complete with nothing else of it changed |
| Game.GameState.EndGame | game.js:318-341 | the new state is `Ended` of the old one |
| Game.GameState.CreditTrick | game.js:343-350 | the new state is `Credited` of the old one |
| Game.GameState.AdvanceRound | game.js:352-356 | the new state is `Advance` of the old one |
| Game.GameState.CompleteRound | game.js:343-361 | the new state is `Complete` of the old one |
| HandSort.Compare | game.js:408-412 | the comparator passed to `sort`: by suit display order, then from the highest rank down |
| HandSort.CompareByKey | game.js:406-413 | the comparator orders cards as their display key does, and returns 0 only for the same card |
| HandSort.KeyInjective | game.js:406-413 | distinct cards have distinct display keys |
| HandSort.Insert | game.js:406-413 | inserting into a sorted hand gives a sorted hand with exactly one card more |
| HandSort.SortHand | game.js:406-413 | the result is sorted and a permutation of the hand |
| HandSort.SortedUnique | game.js:406-413 | any two sorted arrangements of the same cards are equal, so the sort algorithm does not matter |
| HandSort.SortedByComparator | game.js:406-413 | in a sorted hand the comparator never puts a later card before an earlier one |
| HandSort.SortHandSorted | game.js:406-413 | sorting a sorted hand leaves it unchanged |

## Left out

- Networking and message dispatch (`createHost`, `joinHost`, `handleHostMessage`, `handleClientMessage`, `broadcastToAll`, …) are transport, not rules. The dispatch at game.js:367-373 forwards client moves to `saveSelectedCard` and `openHiddenCard` without the turn, follow-suit or reveal guards. So the model's invariant lemmas for those two operations require the guards the local UI applies (game.js:694-699, 427); `Game.PlayIfLegalKeepsInvariants` covers the path that applies them itself. The missing reveal guard lets a repeated request duplicate the hidden card; it is listed under "## Findings", and `Game.HostReveal` is the guarded dispatch.
- The DOM, the setup modal, the player names (`config`, `players`), sounds, `setTimeout` delays and the clients' `confirm` prompt are UI and timing; they change no rule state. On the host, the `confirm` prompt of `openHiddenCard` (game.js:704) decides whether the reveal happens at all: `OpenHiddenCard` models an accepted prompt, and a cancelled one leaves the state unchanged. The host's own popup (`showWinnerPopup`, game.js:307) is UI; the popup flag sent to the clients is modelled as the value `Game.ClientPopupAsWritten`, with the corrected test as `Game.ClientPopup`.
- Randomness becomes parameters: the shuffled deck of `createDeck` (game.js:182-185) is `newDeck`, the random hidden-card index (game.js:241) is `hiddenIndex`, and the seat of `setRandomDistributor` is `randomSeat`.
- Test mode (`isTestMode`, `switchTestPlayer`) and the "not the host" and "fewer than six connections" early returns (game.js:203, 214-215) are left out; the model is the host with six players.
- Game.GameState.StartGame: requires a 48-card deck and a hidden index below 8, which `createDeck` and the random index always give. The `hands[firstPlayer].length > 0` guard (game.js:240) therefore always holds and its false branch is not modelled.
- Game.GameState.SaveSelectedCard: requires the card index to be inside the hand, as the callers (game.js:370-371, 696-698) ensure. The class methods state their new state through the transition functions; `Consistent` and `CardsAccounted` are proved about those functions rather than as method postconditions.
- Game.PlayAccounted: requires that the player has not yet played in this trick. game.js would overwrite a second card from the same seat (game.js:677) and lose the first from the count; `Consistent` with the turn rules this out.
- Game.GameState.OpenHiddenCard: requires a hidden card and a distributor. Without a hidden card game.js throws (game.js:706). The distributor is always set by then, because `startGame` sets the distributor (game.js:216) before it sets the hidden card (game.js:242).
- Game.GameState.CompleteRound: requires a non-empty trick; game.js calls it only after the sixth card (game.js:683-684).
- `startGame`, `endGame` and `completeRound` are each split into a few methods (`SetRandomDistributor`, `DealNewGame`, `DealAndHide`, `ResetForNewGame`; `RecordWinner`; `CreditTrick`, `AdvanceRound`). Within `startGame` the independent field writes are regrouped; each read still follows the write it depends on.
- HandSort.SortHand: works on sequences, so the in-place update of `cards.sort` is not modelled. Nor is the possible aliasing with `gameState.hands` or the null-input branch (game.js:407).
- Card ids (`${rank}-${suit}`) are not modelled: a card is its suit and face, so the `findIndex` by id at game.js:370 is a lookup by value.
- game.js has no rule that forces a super-suit play right after a reveal: play is restricted only by following suit (game.js:659-665). It also counts every super-suit card of the trick, whenever it was played (game.js:614-616). The model does the same.

## Findings

| source | as written | input that shows it | evidently intended | confidence | as-written member | corrected member |
|---|---|---|---|---|---|---|
| game.js:335 | `endGame` sends the rollover popup to the clients when `Math.abs(nextDistributor - currentDistributor) > 1` | The distributor is seat 6 (team 2) and team 2 wins from 0-0. It gets +5 with no rollover, so the deal moves one seat to seat 1, and `abs(1 - 6) = 5 > 1` fires the popup. | signal exactly the rollover, when the deal moved two seats clockwise | not executed | Game.EndedPopupAsWrittenFalsePositive | Game.EndedPopupExact |
| game.js:372-373 | the host applies a client's `openHiddenCard` request with no check of `hiddenCardOpened`; the only gate is the host user's confirm prompt (game.js:704), after which `openHiddenCard` pushes the hidden card into the first player's hand again | A player void in the led suit sends the reveal request twice before the host's new state reaches them (the button stays visible until then). The host's user accepts the second prompt, and the second request pushes the same card into the hand again. | reveal at most once per game, as the `!hiddenCardOpened` conjunct of `canOpenHiddenCard` (game.js:669) intends | not executed | Game.RevealTwiceDuplicates | Game.HostRevealAccounted |
