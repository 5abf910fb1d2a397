# Spaldellino: the game engine and the browser client's reconciler

Spaldellino is a trick-taking card game played in phases with the 40-card Italian deck. It has
two cores, and this project models both, along with how they meet.

- **The server engine** (`src/models/card.py`, `player.py`, `game.py`):
  - `Card` is a card with an order; `Deck` is the 40-card deck that deals from its end.
  - `Player` holds lives, a hand, a guess and the hands won.
  - `Game` is the phase state machine: WAITING → GUESSING → PLAYING → (PHASE_END) → GUESSING or
    GAME_OVER. It covers the constrained guess rule, the turn order, trick resolution, life loss,
    elimination and the six-phase sequence of cards per player.
  - Each of these classes is kept as a `class` whose methods update its fields in place. Every
    method is proved against a function on values:
    - `Cards.Deck.Deal` against `Dealt`/`Kept`;
    - `Players.Player.*` against `PlayerState` transformers;
    - `Games.Game.*` against the `GameRules` functions on `GameState`.
  - What the engine promises is proved about those functions. The main promise is
    `GameRules.Inv`: at most 8 players with distinct ids, a phase index in range, lives in
    0..5, eliminated exactly at 0 lives, `len(turn_results) == current_turn`, and never
    resting in PHASE_END. Every operation preserves it.
- **The browser client's presentation reconciler** (`src/static/script.js`):
  - This is the `gameState` record's busy flags and de-duplication markers. They are driven by
    polls, by the two `setTimeout` callbacks (the turn-result banner and the phase-result
    overlay), by the polling interval's life cycle and by the session actions.
  - Module `Reconciler` models one client function per state-machine function on `ClientState`.
    `Step` applies one `Event`, and `Run` applies a sequence of them.
  - `ClientShell.Client` is the same client as a class with the record's fields. Each method is
    proved to change those fields exactly as the corresponding `Reconciler` function says.
  - Module `Presentation` holds the pure helpers:
    - the phase-result message derivation;
    - `getItalianNumberDisplay`;
    - `getItalianSeedInfo`.
- **Interop**:
  - It builds the client's `Snapshot` from the engine's `to_dict`.
  - It proves what follows for the client: the engine never serves a `phase_end` snapshot. So
    a client fed by the engine never shows the phase-result overlay, and never shows the banner
    for the last hand of a phase.

Randomness enters as parameters:
- the arrangement `random.shuffle` produced, which must be a permutation of the deck;
- the reshuffled 40-card deck `_start_new_phase` uses when the deck runs short.

Fetch results enter as `Option<Snapshot>` (`None` when `getGameState` fails). Game and player
ids are opaque strings given to the constructors.

The model follows the code as written, including these behaviours one might not expect:
- `add_player` has no phase check, so a player may join a running game. `AddPlayerKeepsInv`
  states exactly when it succeeds.
- A requester id of `''` is falsy in `to_dict`, so it sees no hand (`GameRules.Truthy`).
- Seat counters can point outside the active players after `remove_player`. A join only
  appends a new active player and moves no counter (`GameRules.AddPlayerKeepsSeats`). The list
  lookups at `game.py:114, 175, 201, 291, 313` then raise `IndexError`. The model
  returns `Raised` or `Err` there instead of assuming the case away.
- The client has code to show a hand's banner and then the phase overlay for a `phase_end`
  snapshot. That code never runs against this engine. The engine leaves PHASE_END within the
  same call (`game.py:256-273`), so no served snapshot is ever `phase_end`:
  - the overlay is never shown (`Interop.ServerFedClientShowsNoOverlay`);
  - the last hand of a phase never gets a banner (`Interop.LastHandGetsNoBanner`).
- Ephemeral events may overlap. The turn-banner guard checks only `showingTurnResult`, so a
  banner can start while the overlay is up (`Reconciler.BannerOverOverlay`).
- Polls are not held back while a banner is up. A poll during a banner still repaints the board
  (`Reconciler.PollDuringBannerPaints`).
- Leaving a game does not clear the de-duplication markers; `leaveGame` keeps them
  (`Reconciler.Leave`).
- `lastPhaseIndex` is written by `updateGameScreenNormal`, the paint after a banner or overlay
  comes down, and read nowhere
  (`Reconciler.LastPhaseIndexUnread`).
- The chained "banner, then overlay" branch of `showPhaseEndSequence` cannot be reached from
  `updateGameScreen` (`Reconciler.ChainedBranchUnreachable`).

## Model

| member | source | states |
|---|---|---|
| Cards.SeedFromName | src/models/card.py:5-9 | the seed enum lookup by name finds the seed with that name, and only it |
| Cards.SeedValueInjective | src/models/card.py:5-9 | the four seeds have four distinct values |
| Cards.NewCard | src/models/card.py:13-17 | a card is built exactly when its number is in 1..10, with that number and seed |
| Cards.Equal | src/models/card.py:25-28 | `==` holds exactly when number and seed are both equal |
| Cards.LessIsStrictTotalOrder | src/models/card.py:30-32 | `<`, lexicographic on number then seed value, is irreflexive, asymmetric, transitive and total on distinct cards |
| Cards.ComparisonsAgree | src/models/card.py:34-44 | `>` and `>=` are the converses of `<` and `<=`; for distinct cards exactly one of `a > b` and `b > a` holds |
| Cards.FromDict | src/models/card.py:50-54 | a card read back from a dictionary is always valid |
| Cards.DictRoundTrip | src/models/card.py:46-54 | `from_dict(to_dict(c)) == c` for every valid card |
| Cards.DictInverse | src/models/card.py:46-54 | a dictionary that reads back as a card is exactly that card's dictionary |
| Cards.FullDeckIsEveryCardOnce | src/models/card.py:62-67 | the created deck holds 40 distinct cards, one for each valid number and seed |
| Cards.Reverse | src/models/card.py:74-83 | the cards in pop order are the end of the deck, last card first |
| Cards.ReversePreservesMultiset | src/models/card.py:74-83 | popping the end of the deck in order loses and gains no card |
| Cards.PopStep | src/models/card.py:80-82 | one more pop appends the next card from the end to the dealt cards |
| Cards.DealConserves | src/models/card.py:74-83 | the cards dealt plus the cards kept are the cards before the deal |
| Cards.Deck.constructor | src/models/card.py:58-60 | a new deck is the full 40-card deck |
| Cards.Deck.CreateDeck | src/models/card.py:62-67 | the nested loops fill the deck with the full 40-card deck, in seed-then-number order |
| Cards.Deck.Shuffle | src/models/card.py:69-72 | the deck becomes the given arrangement, a permutation of its cards |
| Cards.Deck.Deal | src/models/card.py:74-83 | asking for more cards than remain fails and leaves the deck; otherwise the deal returns the n end cards in pop order, keeps the rest and conserves the cards |
| Cards.Deck.Reset | src/models/card.py:89-91 | a reset deck is the full deck again, 40 cards remaining |
| Players.CardDicts | src/models/player.py:60-76 | a hand is serialised card by card and in order |
| Players.CardsFromDicts | src/models/player.py:78-91 | a serialised hand reads back exactly when every card does, card by card |
| Players.PlayerDictRoundTrip | src/models/player.py:60-91 | `from_dict(to_dict(include_hand=True))` reproduces id, name, lives, guess, hands won, elimination and hand |
| Players.PlayerDictHiddenHand | src/models/player.py:60-91 | without the hand, the round trip reproduces everything but the hand, which reads back empty |
| Players.FirstMatch | src/models/player.py:29-36 | the index found is the first card matching number and seed name; none is found only when no card matches |
| Players.FindCard | src/models/player.py:31-34 | the search loop finds exactly the first matching card |
| Players.FirstMatchIs | src/models/player.py:29-36 | a matching card with no match before it is the one found |
| Players.Player.constructor | src/models/player.py:6-13 | a new player has 5 lives, an empty hand, no guess, no hands won and is not eliminated |
| Players.Player.AddCard | src/models/player.py:15-17 | the card is appended to the hand and nothing else changes |
| Players.Player.AddCards | src/models/player.py:19-21 | the cards are appended to the hand in order and nothing else changes |
| Players.Player.PlayCard | src/models/player.py:23-27 | an index outside the hand fails and changes nothing; otherwise that card is returned and removed, the rest kept in order |
| Players.Player.PlayCardByValue | src/models/player.py:29-36 | the first matching card is returned and removed, the others kept in order; with no match it fails and the hand is unchanged |
| Players.Player.MakeGuess | src/models/player.py:38-42 | a negative guess is rejected and changes nothing; otherwise the guess is recorded |
| Players.Player.WinTurn | src/models/player.py:44-46 | the hands won rise by exactly one |
| Players.Player.LoseLife | src/models/player.py:48-52 | lives drop by exactly one; the player is eliminated exactly when already eliminated or at 0 lives or fewer, so elimination is never cleared |
| Players.Player.ResetForNewPhase | src/models/player.py:54-58 | the hand is emptied, the guess cleared and the hands won zeroed; lives and elimination are kept |
| Players.Player.FromDict | src/models/player.py:78-91 | a player object is built exactly when the dictionary reads back, holding what it reads back as |
| GameRules.FindId | src/models/game.py:275-280 | the lookup finds the first player with that id, and none only when the id is absent |
| GameRules.FindIdIs | src/models/game.py:275-280 | an id with no earlier occurrence is found at its position |
| GameRules.PyIndex | src/models/game.py:114 | Python list indexing succeeds exactly for indices in [-len, len), and counts from the end for negative ones |
| GameRules.ActiveIndices | src/models/game.py:71 | the active players are positions of non-eliminated players |
| GameRules.ActiveIndicesIncreasing | src/models/game.py:71 | the active players keep their table order |
| GameRules.ActiveIndicesComplete | src/models/game.py:71 | every non-eliminated player is active |
| GameRules.ActiveStates | src/models/game.py:71 | the active player list is the non-eliminated players at those positions |
| GameRules.ActiveIndicesFollowElimination | src/models/game.py:71 | the active players depend only on elimination flags |
| GameRules.ActivePositionUnique | src/models/game.py:71 | no player appears twice among the active players |
| GameRules.GuessAllowedExceptForbidden | src/models/game.py:137-163 | a guess is refused exactly when it is the one value making the running total equal the cards in the phase; the first guesser and an overshot total allow anything |
| GameRules.ValidUpToMembers | src/models/game.py:183-187 | the candidate loop keeps exactly the allowed guesses below its bound |
| GameRules.ValidUpToIncreasing | src/models/game.py:183-187 | the kept guesses are in increasing order |
| GameRules.ValidUpToSize | src/models/game.py:183-187 | at most one candidate is dropped |
| GameRules.ValidGuessesCharacterised | src/models/game.py:181-188 | the valid guesses are exactly the allowed values in 0..cards, increasing, and never fewer than the cards in the phase: never empty |
| GameRules.SomesPrefix | src/models/game.py:126 | recording bids one by one builds the guesses in order |
| GameRules.SumSomes | src/models/game.py:143-147 | the running total is the sum of the bids so far, one per guesser |
| GameRules.BidsNeverTotalCards | src/models/game.py:137-163 | when every bid of two or more guessers was allowed, the guesses never add up to the cards in the phase |
| GameRules.ResetAll | src/models/game.py:73-75 | resetting the players keeps the table size |
| GameRules.DealFirst | src/models/game.py:78-81 | each active player gets the phase's card count from the deck, and the deck shrinks by that many per player |
| GameRules.DealRoundConserves | src/models/game.py:78-81 | one player's deal moves cards from the deck to the hands and loses none |
| GameRules.DealFirstConserves | src/models/game.py:78-81 | dealing every active player conserves the cards of the deck |
| GameRules.GiveHands | src/models/game.py:78-81 | giving out hands keeps the table size |
| GameRules.GiveHandsPointwise | src/models/game.py:78-81 | each active player receives its own hand at the end of its cards and every other player is untouched |
| GameRules.NextSeat | src/models/game.py:97 | the next seat is a valid seat among the active players |
| GameRules.NextPhaseIndex | src/models/game.py:272 | the next phase index is a valid phase index |
| GameRules.DealFits | src/models/game.py:17 | every phase deals 2 to 5 cards per player, so eight players of any phase fit in a 40-card deck |
| GameRules.StartNewPhaseFits | src/models/game.py:77-81 | the (refilled) deck always has enough cards to deal the phase |
| GameRules.StartNewPhaseUnfolds | src/models/game.py:69-100 | a new phase resets the active players, refills a short deck, deals, zeroes the turn counters, empties the table and the results, advances the guessing order and opens the guessing |
| GameRules.StartNewPhaseDeals | src/models/game.py:69-100 | after a new phase each active player holds exactly the phase's cards with no guess and no hands won; eliminated players are untouched; ids, lives and elimination are kept |
| GameRules.StartNewPhaseRound | src/models/game.py:84-100 | a new phase is in GUESSING with turn and seat 0, empty table and results, the guessing order start advanced by one modulo the active count, and the first guesser at that start |
| GameRules.DealtPlayers | src/models/game.py:73-81 | dealt players keep id, lives and elimination, eliminated ones are untouched and active ones hold the dealt count with no guess |
| GameRules.StartNewPhaseKeepsInv | src/models/game.py:69-100 | starting a phase keeps the engine invariant |
| GameRules.NewGameInv | src/models/game.py:19-33 | a new game is WAITING with a full deck and satisfies the invariant |
| GameRules.AddPlayerKeepsInv | src/models/game.py:35-45 | adding succeeds exactly when fewer than 8 players sit and the id is new, appending one player at the end; the invariant is kept |
| GameRules.AddPlayerKeepsSeats | src/models/game.py:35-45 | a join leaves both seat counters as they were and extends the active list by the newcomer's position at its end, so counters in range stay in range |
| GameRules.RemovalShifts | src/models/game.py:47-53 | removing a player shifts the later players down by one |
| GameRules.RemovalKeepsIdsDistinct | src/models/game.py:47-53 | removing a player keeps the ids distinct and leaves none equal to the removed player's |
| GameRules.RemovePlayerKeepsInv | src/models/game.py:47-53 | removing succeeds exactly when the id is present, drops one player, leaves no player with that id and keeps the invariant |
| GameRules.StartGameKeepsInv | src/models/game.py:55-67 | the game starts exactly when it can (two players or more, WAITING), then it is GUESSING; the invariant is kept |
| GameRules.SeatFor | src/models/game.py:106-116 | a seat is granted only to a present, non-eliminated player |
| GameRules.SeatIsTheDesignatedPlayer | src/models/game.py:106-116 | a granted seat is the active player the seat counter points at, in the expected phase |
| GameRules.MakeGuessAccepted | src/models/game.py:102-135 | an accepted guess is recorded for the player whose turn it is |
| GameRules.RecordGuessUnfolds | src/models/game.py:126-135 | recording a guess sets it, moves the guessing seat to (i-1) mod the active count, and switches to PLAYING when every active player has guessed |
| GameRules.ValidGuessesAgreeWithMakeGuess | src/models/game.py:102-124 | `get_valid_guesses` raises exactly when `make_guess` does, lists g exactly when `make_guess` accepts g, and is never empty on the player's turn |
| GameRules.MakeGuessEffect | src/models/game.py:102-135 | a refused guess changes nothing; an accepted one is by the designated guesser, within 0..cards and allowed, changes only that player's guess, the guessing seat and the phase, and enters PLAYING exactly when all active players have guessed |
| GameRules.MakeGuessKeepsInv | src/models/game.py:102-135 | guessing keeps the engine invariant |
| GameRules.StrongestUpTo | src/models/game.py:225-230 | the scan names a play among those seen, and one exactly when there was one |
| GameRules.StrongestIsFirstMaximum | src/models/game.py:225-230 | the play picked is not beaten by any play and beats every earlier one: the first maximum |
| GameRules.WinningPlay | src/models/game.py:225-230 | the winning play is one of the plays |
| GameRules.WinnerHoldsStrongest | src/models/game.py:219-233 | the hand's winner played the maximum card under the card order, the first such play |
| GameRules.SettleAll | src/models/game.py:258-262 | settling keeps the table size |
| GameRules.CreditWinner | src/models/game.py:232-234 | crediting keeps the table size |
| GameRules.CreditWinnerKeeps | src/models/game.py:232-234 | crediting keeps ids, lives and elimination |
| GameRules.CreditWinnerPointwise | src/models/game.py:232-234 | only the winner's hands won rise, by one |
| GameRules.LeaderIsWinner | src/models/game.py:246-250 | the next hand is led from the winner's active seat |
| GameRules.ResolveTurnContinues | src/models/game.py:219-252 | within a phase, resolving appends exactly the winner's id to the results, empties the table, advances the turn by one, credits only the winner, and seats the winner to lead |
| GameRules.ResolveTurnKeepsInv | src/models/game.py:219-252 | resolving a hand keeps the invariant, so `len(turn_results) == current_turn` in every phase |
| GameRules.PlaceCardKeepsInv | src/models/game.py:205-210 | placing a card keeps the invariant and the active players |
| GameRules.PlayCardAccepted | src/models/game.py:190-217 | an accepted play is by the designated player with a matching card, and the hand is resolved exactly when the table holds one card per active player |
| GameRules.PlayCardEffect | src/models/game.py:190-217 | a refused play changes nothing; an accepted one is in PLAYING by the player at the seat counter with a matching card, removes that card, puts it on the table and moves the seat on |
| GameRules.PlayCardKeepsInv | src/models/game.py:190-217 | playing a card keeps the engine invariant |
| GameRules.SettleKeepsLivesInvariant | src/models/game.py:258-262 | settling costs a life exactly to an active player whose guess missed its hands won, and keeps lives in range with elimination at 0 |
| GameRules.EndPhaseLives | src/models/game.py:254-273 | ending a phase costs each active player with a missed guess exactly one life, and no one else |
| GameRules.EndPhaseLivesNextPhase | src/models/game.py:254-273 | the life settlement survives the deal of the next phase |
| GameRules.EndPhaseStartsNextPhase | src/models/game.py:264-273 | with two survivors or more, the phase index advances modulo 6 and a new phase starts |
| GameRules.EndPhaseEndsGame | src/models/game.py:264-270 | with at most one survivor, the game is over and the survivor, if any, wins |
| GameRules.EndPhaseGameOver | src/models/game.py:264-270 | a game ending keeps the phase index and the settled players |
| GameRules.EndPhaseNextPhase | src/models/game.py:264-273 | a next phase is GUESSING at the next index with no results and turn 0, the winner unchanged |
| GameRules.EndPhaseKeepsInv | src/models/game.py:254-273 | ending a phase keeps the invariant and never rests in PHASE_END |
| GameRules.GameToDictShows | src/models/game.py:293-336 | a served game is never `phase_end`, shows only the requester's own hand, lists the requester's valid guesses, and names the players the seat counters point at |
| Games.Game.constructor | src/models/game.py:19-33 | a new game is WAITING with a full deck, no players and the given id |
| Games.Game.AddPlayer | src/models/game.py:35-45 | the object changes exactly as `add_player` on values says and stays valid |
| Games.Game.RemovePlayer | src/models/game.py:47-53 | the object changes exactly as `remove_player` on values says and stays valid |
| Games.Game.GetPlayer | src/models/game.py:275-280 | the search loop finds the first player with that id |
| Games.Game.ActivePlayers | src/models/game.py:71 | the filter loop yields exactly the active players |
| Games.Game.CanStart | src/models/game.py:55-58 | the game can start exactly when two players or more sit in WAITING |
| Games.Game.CheckSeat | src/models/game.py:106-116 | the phase, player and turn checks give the seat the rules give |
| Games.Game.IsGuessValid | src/models/game.py:137-163 | the summing loop decides exactly the guess rule |
| Games.Game.ValidGuessList | src/models/game.py:183-187 | the candidate loop builds exactly the valid guesses |
| Games.Game.GetValidGuesses | src/models/game.py:165-188 | the answer is the valid guess list of the rules, or the same error |
| Games.Game.AllHaveGuessed | src/models/game.py:131-132 | the loop decides exactly whether every active player has guessed |
| Games.Game.MakeGuess | src/models/game.py:102-135 | the object changes and answers exactly as `make_guess` on values says and stays valid |
| Games.Game.RecordGuess | src/models/game.py:126-135 | the guess, the guessing seat and the phase change as the rules say |
| Games.Game.ResetActive | src/models/game.py:73-75 | each active player is reset in place |
| Games.Game.DealHands | src/models/game.py:78-81 | the dealing loop gives each active player its hand from the deck, as the rules' deal says |
| Games.Game.RefillDeck | src/models/game.py:77-79 | a deck too short for the phase is replaced by the reshuffled full deck |
| Games.Game.OpenGuessing | src/models/game.py:84-100 | the turn counters, table, results, guessing order and phase are set for the new phase |
| Games.Game.StartNewPhase | src/models/game.py:69-100 | the object changes exactly as the rules' new phase says |
| Games.Game.StartGame | src/models/game.py:60-67 | the object changes and answers exactly as `start_game` on values says and stays valid |
| Games.Game.SettleScores | src/models/game.py:258-262 | the settlement loop costs the missed players their lives |
| Games.Game.EndPhase | src/models/game.py:254-273 | the object changes exactly as the rules' phase end says |
| Games.Game.Strongest | src/models/game.py:225-230 | the scan returns the id of the hand's winner |
| Games.Game.CreditHand | src/models/game.py:232-236 | the winner is credited, the id appended, the table emptied and the turn advanced |
| Games.Game.LeadNext | src/models/game.py:246-250 | the seat counter moves to the winner's active seat |
| Games.Game.ResolveTurn | src/models/game.py:219-252 | the object changes exactly as the rules' hand resolution says |
| Games.Game.PlaceCard | src/models/game.py:205-210 | the card leaves the hand, joins the table and the seat moves on |
| Games.Game.PlayCard | src/models/game.py:190-217 | the object changes and answers exactly as `play_card` on values says and stays valid |
| Games.Game.GetCurrentPlayer | src/models/game.py:282-291 | the answer is the rules' current player, or the same error |
| Games.Game.ToDict | src/models/game.py:293-336 | the dictionary is the rules' serialisation of the game for that requester |
| Snapshots.LastTurnResult | src/static/script.js:278-279 | the tail of `turn_results` exists exactly when the list is non-empty, and is its last entry |
| Snapshots.FindPlayer | src/static/script.js:331-333 | the player found has that id; none is found only when no player has it |
| Presentation.PartitionMembers | src/static/script.js:377-384 | the eliminated list holds exactly the eliminated players, the lost list exactly the active players with a missed guess, and no player is in both |
| Presentation.PartitionPlayers | src/static/script.js:377-384 | the `forEach` loop builds exactly those two lists |
| Presentation.Names | src/static/script.js:386-404 | the names listed are the players' names, in order |
| Presentation.PhaseMessageCases | src/static/script.js:386-404 | the message numbers the phase from 1, is "Players Eliminated!" exactly when some player is eliminated, and says "All players guessed correctly!" exactly when nobody is eliminated or missed |
| Presentation.NotAllCorrect | src/static/script.js:386-404 | a list of names with an ending is never the all-correct message |
| Presentation.VerbAgrees | src/static/script.js:386-404 | the verb is singular exactly when one player is named |
| Presentation.EliminatedVerb | src/static/script.js:393-396 | the elimination message ends in "has been" exactly for one player |
| Presentation.HaveIsNotHas | src/static/script.js:393-396 | the plural elimination ending is not the singular one |
| Presentation.LostVerb | src/static/script.js:397-400 | the life-loss message ends in "lost a life" exactly for one player |
| Presentation.NatToString | src/static/script.js:744-759 | a number's decimal form is never empty |
| Presentation.NatToStringRoundTrip | src/static/script.js:744-759 | a number's decimal form is made of digits and reads back as the number |
| Presentation.NumberDisplayFaces | src/static/script.js:744-759 | the faces of 1..10 are single, distinct characters; 2..7 and numbers outside the table show as their decimal form |
| Presentation.SeedInfoTable | src/static/script.js:713-742 | an unknown seed falls back to the Bastoni style, and the Bastoni style is shown exactly for BASTONI or an unknown seed |
| Reconciler.ShouldShowTurnResult | src/static/script.js:272-292 | false during a banner; otherwise true exactly when the tail of `turn_results` is new and the game is either playing with an empty table or at `phase_end` |
| Reconciler.ShouldShowPhaseResult | src/static/script.js:294-306 | false while either busy flag is set; true only at `phase_end`, exactly when that phase index has not been handled |
| Reconciler.WinnerName | src/static/script.js:330-335 | the banner names the player with the tail id, or "Unknown" |
| Reconciler.ShowTurnResult | src/static/script.js:327-354 | the banner flag is set, the tail recorded at once, the winner's name shown and the timer armed with the snapshot; board, overlay and phase markers are untouched |
| Reconciler.ShowPhaseResult | src/static/script.js:370-425 | the overlay flag is set, the derived message shown and the timer armed; banner, board and turn markers are untouched |
| Reconciler.ShowPhaseEndSequence | src/static/script.js:308-325 | the phase is marked as handled; with a new tail, the snapshot is held back behind a phase-end banner, otherwise the overlay is shown |
| Reconciler.Render | src/static/script.js:435-449 | the board is painted from the snapshot |
| Reconciler.RenderNormal | src/static/script.js:435-449 | the steady render is the board painted from the snapshot, with `lastPhaseIndex` set to its phase index |
| Reconciler.RemoveBanner | src/static/script.js:355-358 | the banner, its timer and its flag are gone |
| Reconciler.RemoveOverlay | src/static/script.js:426-429 | the overlay, its timer and its flag are gone |
| Reconciler.OnTurnTimer | src/static/script.js:355-367 | the banner goes with its flag, then either the held-back phase result is shown and released, or the steady render runs on the snapshot the banner captured |
| Reconciler.OnPhaseTimer | src/static/script.js:426-432 | the overlay goes with its flag and the steady render runs on the captured snapshot; the banner is untouched |
| Reconciler.StartPolling | src/static/script.js:871-896 | any old interval is cleared before a new one with a fresh handle is created |
| Reconciler.StopPolling | src/static/script.js:898-903 | the running interval is cleared and the handle forgotten; without one nothing happens |
| Reconciler.Tick | src/static/script.js:871-896 | a tick without a game or a fetch does nothing; on the game screen it reconciles; in the lobby it reconciles and switches screens once the game leaves `waiting` |
| Reconciler.Leave | src/static/script.js:850-856 | the session ids go, polling stops and the main menu shows; the markers and flags are kept |
| Reconciler.Entered | src/static/script.js:126-135 | after creating or joining, the session ids are set, the lobby shows and polling runs; the previous game's turn and phase markers, pending phase result and both busy flags are kept |
| Reconciler.Started | src/static/script.js:171-183 | after starting, the returned snapshot is reconciled, the game screen shows, and polling restarts exactly as `startGameStatePolling` does |
| Reconciler.Continue | src/static/script.js:858-866 | continuing without a game or a fetch does nothing; otherwise the fetched snapshot is reconciled |
| Reconciler.InitialInv | src/static/script.js:2-13 | the page as loaded satisfies the client invariant |
| Reconciler.ChainedBranchUnreachable | src/static/script.js:315-320 | when the phase check fires the tail is never new, so the banner-then-overlay branch is dead |
| Reconciler.UpdateGameScreenKeepsInv | src/static/script.js:247-270 | reconciling keeps flags, timers and what is shown in step |
| Reconciler.TickKeepsInv | src/static/script.js:871-896 | a polling tick keeps the client invariant |
| Reconciler.StepKeepsInv | src/static/script.js:247-449 | every event keeps the client invariant: flags match timers and elements, at most one interval is alive |
| Reconciler.RunKeepsInv | src/static/script.js:247-449 | any sequence of events keeps the client invariant |
| Reconciler.UpdateGameScreenOneEffect | src/static/script.js:247-270 | one reconciliation starts at most one ephemeral event, the turn check first, and paints the board only when neither fires |
| Reconciler.TimersNeverOverwritten | src/static/script.js:327-433 | an armed timer is replaced or dropped only by its own firing |
| Reconciler.SameWinnerNoBanner | src/static/script.js:278-279 | a tail equal to the recorded one raises no banner |
| Reconciler.BannerRemembersWinner | src/static/script.js:328-333 | after a banner, the same tail raises none, while it is up or after it goes |
| Reconciler.ConsecutiveWinsOneBanner | src/static/script.js:278-279 | two consecutive hands won by the same player raise one banner, the second is just painted |
| Reconciler.PhaseResultOncePerIndex | src/static/script.js:296-312 | after a phase end is handled, no snapshot with that phase index raises the overlay |
| Reconciler.PhaseMarkerKept | src/static/script.js:308-312 | once set, the phase marker is never cleared, and it changes only to the index of the `phase_end` snapshot whose overlay is then up |
| Reconciler.UpdateIgnoresLastPhaseIndex | src/static/script.js:247-270 | a reconciliation does the same whatever `lastPhaseIndex` holds |
| Reconciler.TurnTimerIgnoresLastPhaseIndex | src/static/script.js:355-367 | the banner callback does the same whatever `lastPhaseIndex` holds |
| Reconciler.PhaseTimerIgnoresLastPhaseIndex | src/static/script.js:426-432 | the overlay callback does the same whatever `lastPhaseIndex` holds |
| Reconciler.TickIgnoresLastPhaseIndex | src/static/script.js:871-896 | a polling tick does the same whatever `lastPhaseIndex` holds |
| Reconciler.StartedIgnoresLastPhaseIndex | src/static/script.js:171-183 | starting a game does the same whatever `lastPhaseIndex` holds |
| Reconciler.ContinueIgnoresLastPhaseIndex | src/static/script.js:858-866 | continuing a game does the same whatever `lastPhaseIndex` holds |
| Reconciler.LastPhaseIndexUnread | src/static/script.js:437 | `lastPhaseIndex` is write-only: apart from that field, every event does the same whatever it holds |
| Reconciler.LastPhaseIndexUnreadOnRuns | src/static/script.js:437 | apart from `lastPhaseIndex`, any sequence of events ends in the same client whatever it held at the start |
| Reconciler.BannerOverOverlay | src/static/script.js:274 | a new hand result raises a banner while the overlay is still up |
| Reconciler.PollDuringBannerPaints | src/static/script.js:261-269 | a poll during a banner paints the board and leaves the banner |
| Reconciler.TimersOnReachableClient | src/static/script.js:355-432 | on a reachable client the banner timer always takes the steady-render path, and the overlay timer paints its snapshot |
| Reconciler.OneIntervalAlive | src/static/script.js:871-903 | after starting, exactly one interval is alive and the old one is cleared; after stopping none is |
| Reconciler.LeftClientIgnoresTicks | src/static/script.js:850-856 | after leaving, ticks do nothing |
| ClientShell.Client.constructor | src/static/script.js:2-13 | the page loads in the initial client state |
| ClientShell.Client.ShowScreen | src/static/script.js:67-73 | only the current screen changes |
| ClientShell.Client.ShowTurnResult | src/static/script.js:327-368 | the fields change exactly as the reconciler's banner start says |
| ClientShell.Client.ShowPhaseResult | src/static/script.js:370-433 | the fields change exactly as the reconciler's overlay start says |
| ClientShell.Client.ShowPhaseEndSequence | src/static/script.js:308-325 | the fields change exactly as the reconciler's phase-end handling says |
| ClientShell.Client.UpdateGameScreenNormal | src/static/script.js:435-449 | the fields change exactly as the steady render says |
| ClientShell.Client.UpdateGameScreen | src/static/script.js:247-270 | the fields change exactly as one reconciliation says |
| ClientShell.Client.TakeDownBanner | src/static/script.js:355-358 | the banner, its timer and flag go |
| ClientShell.Client.TakeDownOverlay | src/static/script.js:426-429 | the overlay, its timer and flag go |
| ClientShell.Client.TurnTimerFires | src/static/script.js:355-367 | the fields change exactly as the banner callback says |
| ClientShell.Client.PhaseTimerFires | src/static/script.js:426-432 | the fields change exactly as the overlay callback says |
| ClientShell.Client.StartGameStatePolling | src/static/script.js:871-896 | the interval fields change exactly as the reconciler's polling start says |
| ClientShell.Client.StopGameStatePolling | src/static/script.js:898-903 | the interval fields change exactly as the reconciler's polling stop says |
| ClientShell.Client.PollTick | src/static/script.js:871-896 | the fields change exactly as one tick says |
| ClientShell.Client.LeaveGame | src/static/script.js:850-856 | the fields change exactly as leaving says |
| ClientShell.Client.EnterGame | src/static/script.js:126-135 | the fields change exactly as entering a game says |
| ClientShell.Client.GameStarted | src/static/script.js:171-183 | the fields change exactly as the game start says |
| ClientShell.Client.ContinueGame | src/static/script.js:858-866 | the fields change exactly as continuing says |
| Interop.SnapshotOf | src/models/game.py:293-336 | the client's snapshot carries the served phase, index, results, table size and players' fields |
| Interop.ServedIsNotPhaseEnd | src/models/game.py:254-273 | no served snapshot is a phase-end one |
| Interop.NoPhaseEndNoOverlay | src/static/script.js:294-306 | a snapshot that is not a phase-end one never raises the overlay |
| Interop.ServerFedClientShowsNoOverlay | src/static/script.js:294-325 | a client fed only by served snapshots never shows the phase-result overlay |
| Interop.LastHandEndsPhase | src/models/game.py:240-252 | resolving the last hand of a phase leaves a finished game or a new phase with no results |
| Interop.LastHandGetsNoBanner | src/static/script.js:272-292 | the snapshot served after the last hand of a phase never raises a banner |
| Interop.ServedCardFaces | src/static/script.js:713-759 | every card the engine deals shows a single-character number face, distinct per number, and its own seed style |

## Left out

- HTTP routes, JSON and the global `games` dictionary in `src/routes/game.py` are plumbing over
  `Game` and are not part of this model.
- `apiCall` and `fetch`: a fetch result is a parameter (`Option<Snapshot>`, `None` on failure).
  `createGame`, `joinGame`, `startGame`, `makeGuess` and `playCard` are modelled only by what
  they do to the client state once the server answers (`Entered`, `Started`, `ActionAnswered`).
  Their failure paths call `showError`, which only paints. The failure paths of `createGame`,
  `joinGame` and `startGame` then call `showScreen` with the screen the action started from
  (`script.js:137, 168, 181`). The model has no failure event and leaves `currentScreen` as it
  was, which is the same screen, since the loading screen shown in between is left out.
- `showLoading` and the loading screen shown while a request is awaited are left out. Only the
  screen shown afterwards is kept.
- DOM painting is left out: `showScreen`'s class toggling (only `currentScreen` is kept),
  `updateGameLobby`, `updatePlayersStatus`, `showGamePhase` and its painters,
  `createCardElement`, banner and overlay markup and CSS. The board is recorded as the snapshot
  it was painted from.
- Real time: the 2000/3000/4000 ms delays are constants. The timers fire only as events.
- Polling ticks are atomic. The source's tick awaits the fetch, and a `clearInterval` during
  that await does not stop the tick already running. The model applies each fetch result as one
  step, so it does not capture interleavings across an `await`.
- `seedMap`/`numberMap` lookups are plain table lookups. Inherited JavaScript object keys such as
  `"constructor"` are not modelled.
- Entered: a session id is `Option<string>`, so `Some("")` counts as a live session, while the
  source's `if (gameState.gameId)` treats `''` as none. No caller stores `''`: `joinGame`
  rejects an empty id (`script.js:150-153`) and `createGame` stores the id the server returns.
- `copyGameId`, the clipboard and event-listener wiring are browser APIs and are left out.
- `random.shuffle`: any permutation can be passed in (`Cards.Deck.Shuffle`, `StartGame`'s
  arrangement). `uuid.uuid4()` ids are parameters.
- The `ValueError` handler around `play_card_by_value` in `Game.play_card` is not modelled.
  `PlayOutcome` accepts only when `FirstMatch` finds the card, so the handler never runs.
- `Card.__str__`/`__repr__` and the heart strings (`script.js:241, 472`) are cosmetic and left out. The four seed symbols of `seedMap` are kept (`Presentation.SeedInfoTable`).
- Players inside a `Game` are held as `PlayerState` values rather than shared `Player` objects.
  The engine reaches players through `_get_player` and the `active_players` lists, which alias
  elements of `self.players` (`game.py:78-89, 107-132, 234`). The model addresses players by
  their position in the table and recomputes the active list, so every update lands on the same
  player, the first with that id when ids repeat. The `Player` class is modelled on its own.
- Client methods (`ClientShell.Client.*`): their `ensures` tie the new fields to the
  `Reconciler` functions but do not restate the client invariant. That invariant is proved once,
  on `Reconciler.StepKeepsInv`/`RunKeepsInv`.
