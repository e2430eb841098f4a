# Memory-match game engine (index.js) in Dafny

The page of this repository is a Pokémon memory game: `generateCards` picks a number of
distinct species by difficulty, lays out every species twice in a random order, and the
handlers of `setup` run the turns. A click flips a card. The first card of a turn is
remembered; the second card locks the board and is compared with the first. A match marks
both cards and unbinds their handlers, counts a pair and clears the turn at once; a mismatch
leaves both face up until a one-second timeout turns them face down and clears the turn.
The matched counter reaching the number of pairs, or the countdown reaching the time limit,
unbinds every card. A power-up
button shows every card for one second.

The model strips the DOM away and keeps that bookkeeping:

- `Deck.dfy` (module `Deck`): the id-selection loop of `generateCards` as a `while` loop
  specified by the recursive reference `Pick`, the doubled deck, and the random-comparator sort as
  an in-place sequence of exchanges on an array. Random draws, the species lookup and the
  sort's choices are inputs.
- `Engine.dfy` (module `Engine`): the whole page state as a value `GameState` (the grid of
  cards, `firstCard`, `secondCard`, `lockBoard`, `matchedPairs`, `clickCount`, `timeLimit`, the
  scheduled interval and timeouts, `selectedDifficulty`), one transition function per handler,
  the game invariant `Inv`, runs of page events, and the lemmas about them.
- `Game.dfy` (module `MatchGame`): class `Game`, the handlers as methods updating an
  `array<Card>` and the fields in place. Each handler method (`SelectDifficulty`, `Start`,
  `Begin`, `ShuffleCards`, `StartTimer`, `Click`, `ResolveMismatch`, `Tick`, `PowerUp`,
  `PowerUpEnd`) is specified by its transition, `State() == <transition>(old(State()))`, and
  keeps `Inv`. `ResetGame` performs `GameReset` and establishes `Inv` from the pair shape
  alone. The sub-steps `Reveal`, `Compare`, `UpdateMatchedCount` and `ResetTurn` are specified
  by their transitions only, and `EditAll`/`EditOne` by `Edited`/`EditAt` on the array.
- `Scenarios.dfy`: concrete plays on small boards, proved from the class contracts alone.

A card is named by its position in the generated grid, the `<i>` in its front face's element
id `img<i>`. Every later lookup goes by that id (`$('#img' + i)`) or by the clicked element, so
the reordering `shuffleCards` does on the page changes where cards are drawn and nothing else.
The remembered `firstCard`/`secondCard` hold that position and the face's `data-id`.

The timeouts and the countdown interval are explicit steps (`ResolveMismatch`, `PowerUpEnd`,
`Tick`) that may be taken while the callback is scheduled; `Tick` receives the whole seconds
elapsed since `startTimer`.

Modelled as the code does it, where a tidier design would differ:

- `resetGame` does not clear `firstCard`, `secondCard` or `lockBoard`, and a scheduled mismatch
  timeout is not cancelled. A new round therefore stays locked until that timeout fires, and
  the timeout then turns face down whatever cards of the new grid sit at the old positions
  (`Scenarios.PendingMismatchSurvivesRestart`). A first card remembered before a restart makes
  the first click of the new round the second card of the old turn
  (`Scenarios.StaleFirstCardAfterRestart`). When that click's species is the remembered
  `data-id`, a pair is counted and the card now at the old position, if the new grid has one,
  is marked matched too, whatever its species. When that card is face down and of another
  species, the two partners left over can never be matched with each other
  (`Scenarios.StaleFirstCardMatchesOtherSpecies`).
- A power-up timeout firing while a mismatch is pending turns the two pending cards face down,
  but the board stays locked until the mismatch timeout (`Engine.PowerUpTimeoutHidesPending`,
  `Scenarios.PowerUpDuringMismatch`).
- A click on a position outside the grid cannot happen: clicks only reach bound card elements.
  `Click` requires the position to be on the grid; there is no error result.
- Expiry and winning unbind every card, so no click is taken afterwards. The power-up button is
  never unbound, though: it still turns every card face up, and its timeout turns the
  unmatched ones face down again.
- The power-up timeout also turns a remembered first card face down. Clicking that card again
  then compares it with itself and counts a pair with its partner still unmatched
  (`Scenarios.PowerUpSelfMatch`). `matchedPairs` still never exceeds the number of pairs,
  because reaching it unbinds everything (`Engine.RunKeepsInv`).
- The source's selection loop never gives up; it draws until `pairCount` species have
  artwork. The model's draws are a finite input, so it can run out (see `Deck.GenerateCards`
  under "Left out").
- The counter used is the closure variable `matchedPairs` of `setup` (index.js:49). The global
  of the same name (index.js:2) is never read or written after its declaration.

## Model

| member | source | states |
|---|---|---|
| `Deck.SelectPokemons` | index.js:14-29 | the loop's result is exactly `Pick` of the draws; at most `pairCount` species, pairwise distinct ids, each id in [1, 898] and carrying the artwork URL the lookup returned |
| `Deck.PickSound` | index.js:18-29 | the selection never exceeds `pairCount`, never repeats an id and keeps only ids in range with non-empty artwork |
| `Deck.PickExtends` | index.js:26 | the selection only appends: the species picked so far stay a prefix of the result |
| `Deck.PickKeepsGood` | index.js:18-28 | the converse of `PickSound`: while fewer than `pairCount` species are kept, every drawn id that was not used before and has artwork is among the kept ids |
| `Deck.PickFills` | index.js:18-29 | when the draws name at least `pairCount` distinct ids with artwork, exactly `pairCount` species are selected, so `GenerateCards` produces its deck |
| `Deck.Shuffle` | index.js:32 | the in-place shuffle leaves the array equal to `Shuffled` of its old contents under the chosen exchanges |
| `Deck.ShuffledPermutes` | index.js:32 | shuffling keeps the length, the multiset of cards and the multiset of their ids |
| `Deck.DoubledIsPaired` | index.js:32 | `[...pokemons, ...pokemons]` in any order has `2 * |pokemons|` cards, the multiset of the doubled list, and every id exactly twice when the species are distinct |
| `Deck.PairCount` | index.js:9-12 | the pair count is 0 (an undefined count, so the loop never runs) exactly for a name other than easy, medium, hard, and otherwise one of 3, 6, 12 |
| `Deck.GenerateCards` | index.js:9-32 | a deck exists exactly when `pairCount` (3, 6, 12 for easy, medium, hard, else 0) species were accepted; it is the shuffled doubled selection, has `2 * pairCount` cards, the pair invariant, and only ids in [1, 898] with artwork |
| `Engine.Initial` | index.js:46-49 | the state after `setup` (with `clickCount` from index.js:3 and `timeLimit` from index.js:113): empty grid, no remembered card, board unlocked, nothing scheduled, both counters zero, no difficulty, time limit 100, countdown not running; it satisfies the invariant |
| `Engine.DifficultySelected` | index.js:147-152 | the time limit becomes 100, 200 or 300 for easy, medium or hard and is kept for any other name; only the difficulty and the limit change |
| `Engine.Grid` | index.js:34-40 | one card per deck entry, in deck order, carrying that entry's id |
| `Engine.MatchCountUpdated` | index.js:167-181 | when `matchedPairs` equals `length / 2` every card is unbound and the countdown cleared, with nothing else changed; otherwise nothing changes |
| `Engine.Clicked` | index.js:80-92 | a click keeps the grid size and every card's id (its effect on flags, counters and the turn is stated by `ClickIgnored`, `ClickTaken`, `ClickMatches`) |
| `Engine.Revealed` | index.js:87-92 | remembering a face keeps the grid size and every card's id |
| `Engine.Compared` | index.js:93-107 | comparing the remembered faces keeps the grid size and every card's id |
| `Engine.ClickIgnored` | index.js:81 | a click on an unbound card, on a flipped card, or while the board is locked changes nothing at all |
| `Engine.ClickTaken` | index.js:83-92 | a taken click flips that card and adds one to `clickCount`; as first card it is remembered with the board open and no other card touched; as a second card of another id it is remembered, the board locked and the mismatch timeout scheduled, no other card touched |
| `Engine.ClickMatches` | index.js:93-99 | a second card with the first card's id: both cards matched and unbound, `matchedPairs` up by exactly one, turn and lock cleared at once; on the last pair every card unbound and the countdown stopped, otherwise every other card unchanged |
| `Engine.MismatchResolved` | index.js:102-106 | the timeout turns exactly the two remembered cards face down, leaves every other card and every counter unchanged, and clears the turn and the lock |
| `Engine.Ticked` | index.js:123-133 | at or after the time limit the countdown is cleared and every card unbound, nothing else changed; before it nothing changes |
| `Engine.PoweredUp` | index.js:140-141 | every card turns face up and one more power-up timeout is scheduled; nothing else changes |
| `Engine.PowerUpEnded` | index.js:141-143 | every unmatched card turns face down, matched cards stay as they are, one timeout fewer |
| `Engine.GameReset` | index.js:191-204 | both counters zero, every card face down and unbound, matched marks and the whole turn state (first, second, lock, pending mismatch) unchanged |
| `Engine.CardsShuffled` | index.js:159-164 | every card is bound again; nothing else changes |
| `Engine.Begun` | index.js:58-62 | after a start: the new deck's cards, all face down, unmatched and bound; counters zero; countdown running; turn state and time limit carried over |
| `Engine.TurnReset` | index.js:184-188 | no first or second card remembered and the board unlocked; nothing else changes |
| `Engine.TimerStarted` | index.js:119-122 | the countdown is scheduled; nothing else changes |
| `Engine.Step` | index.js:52-156 | the page's dispatch of one event to its handler: a click off the grid, a mismatch timeout with none pending, a countdown tick after it was cleared, a power-up timeout with none pending, and a start from a deck without the pair invariant all leave the state unchanged; only a start changes the grid's size or ids |
| `Engine.Run` | index.js:52-156 | a sequence of events delivered one after another; without a start the grid keeps its size and every card's id |
| `Engine.ClickedKeepsInv` | index.js:80-109 | a click keeps the invariant (pair invariant, lock held exactly while a mismatch is pending, `matchedPairs <= totalPairs`, equality only with every card unbound, matched cards unbound) |
| `Engine.MismatchResolvedKeepsInv` | index.js:102-106 | a pending mismatch has both faces remembered, and the timeout keeps the invariant |
| `Engine.BegunKeepsInv` | index.js:191-204 | a start from a deck with the pair invariant establishes the invariant |
| `Engine.StepKeepsInv` | index.js:80-204 | every page event keeps the invariant |
| `Engine.RunKeepsInv` | index.js:167-180 | after any sequence of events the invariant holds, so `matchedPairs` never exceeds the number of pairs |
| `Engine.FrozenStep` | index.js:128-132 | with every card unbound, any event other than a start keeps every card unbound, the counters and the matched marks |
| `Engine.FrozenRun` | index.js:128-132 | with every card unbound, no sequence of events without a start takes a click: counters and matched marks stay, every card stays unbound |
| `Engine.ExpiryIsFinal` | index.js:128-132 | once the countdown reaches the limit, no later click is taken and the countdown never runs again until a new round |
| `Engine.StoppedTimerRun` | index.js:119-134 | only a new round restarts a cleared countdown |
| `Engine.WinIsFinal` | index.js:174-180 | once `matchedPairs` reaches the number of pairs, no later click is taken until a new round |
| `Engine.AtMostOneExpiry` | index.js:128-131 | within a round "Game Over" is reached at most once, and never once the countdown is cleared |
| `Engine.AtMostOneWin` | index.js:174-178 | within a round the win is announced at most once, and never again once `matchedPairs` has reached the number of pairs |
| `Engine.MismatchHeld` | index.js:81-106 | while a mismatch is pending, clicks, ticks, power-ups and difficulty changes never turn a card face down nor change the turn or the counters |
| `Engine.LockHeld` | index.js:91-106 | the lock and the remembered first and second cards of a pending mismatch persist through any events other than its timeout, restarts and power-up timeouts included |
| `Engine.PowerUpTimeoutHidesPending` | index.js:141-143 | a power-up timeout during a pending mismatch turns every unmatched card face down while the board stays locked on the same turn |
| `MatchGame.BuildGrid` | index.js:34-40 | the loop allocates a new array holding `Grid(deck)` |
| `MatchGame.Game.constructor` | index.js:46-49 | the object starts in `Initial()` |
| `MatchGame.Game.EditAll` | index.js:202-203 | one edit applied to every card in place, as each `$(".card")` call does (index.js:131, 140, 142, 163, 179, 202-203): the array becomes `Edited` of its old contents |
| `MatchGame.Game.EditOne` | index.js:94-95 | one edit applied in place to the card of `#img<j>`, if the grid has it, as at index.js:83, 94-95, 103-104: the array becomes `EditAt` of its old contents |
| `MatchGame.Game.SelectDifficulty` | index.js:147-156 | the handler performs `DifficultySelected` |
| `MatchGame.Game.Start` | index.js:52-76 | no difficulty: nothing changes; a deck exists exactly when enough species were accepted, and then the game is in `Begun` of that deck on a fresh array; otherwise nothing changes |
| `MatchGame.Game.Begin` | index.js:58-62 | the new grid, `resetGame`, `shuffleCards`, `startTimer` together perform `Begun` and keep the invariant |
| `MatchGame.Game.ResetGame` | index.js:191-204 | performs `GameReset` and establishes the invariant from a grid with the pair invariant |
| `MatchGame.Game.ShuffleCards` | index.js:159-164 | performs `CardsShuffled` and keeps the invariant on a fresh, reset grid |
| `MatchGame.Game.StartTimer` | index.js:119-122 | the countdown is scheduled; nothing else changes |
| `MatchGame.Game.Click` | index.js:80-109 | the handler performs `Clicked` in place and keeps the invariant |
| `MatchGame.Game.Reveal` | index.js:87-92 | the `firstCard` branch performs `Revealed` |
| `MatchGame.Game.Compare` | index.js:93-107 | the comparison performs `Compared` |
| `MatchGame.Game.UpdateMatchedCount` | index.js:167-181 | performs `MatchCountUpdated` |
| `MatchGame.Game.ResetTurn` | index.js:184-188 | `firstCard` and `secondCard` cleared and the board unlocked; nothing else changes |
| `MatchGame.Game.ResolveMismatch` | index.js:102-106 | both faces were remembered; performs `MismatchResolved` and keeps the invariant |
| `MatchGame.Game.Tick` | index.js:123-133 | reports "Game Over" exactly when `elapsed >= timeLimit`, performs `Ticked` and keeps the invariant |
| `MatchGame.Game.PowerUp` | index.js:137-141 | performs `PoweredUp` and keeps the invariant |
| `MatchGame.Game.PowerUpEnd` | index.js:141-143 | performs `PowerUpEnded` and keeps the invariant |
| `Scenarios.MismatchThenTimeout` | index.js:100-106 | on {A, B, A, B}, clicking A then B leaves both up and the board locked; the timeout turns both down and unlocks; two clicks, no pair |
| `Scenarios.MatchAtOnce` | index.js:93-99 | clicking both A cards matches both at once: one pair, no lock, no remembered card |
| `Scenarios.LockedClickIgnored` | index.js:81 | a third click while a mismatch is pending is not counted and flips nothing |
| `Scenarios.TimeRunsOutOnce` | index.js:128-132 | with the easy limit a tick at 99 does nothing, a tick at 150 ends the game and clears the countdown, and a later click is not taken |
| `Scenarios.WinFreezesBoard` | index.js:174-180 | matching the last pair stops the countdown and unbinds every card; a later click is not counted, even after a power-up |
| `Scenarios.StaleFirstCardAfterRestart` | index.js:191-204 | a first card remembered before a restart makes the first click of the new round lock the board as a second card |
| `Scenarios.StaleFirstCardMatchesOtherSpecies` | index.js:93-96 | a first card remembered across a restart onto another layout matches the new card of its species, marking the face-down card of another species at the old position as matched; one pair counted |
| `Scenarios.PowerUpDuringMismatch` | index.js:140-143 | a power-up and its timeout during a pending mismatch leave both pending cards face down with the board still locked |
| `Scenarios.PendingMismatchSurvivesRestart` | index.js:191-204 | a pending mismatch keeps the new round locked (clicks not counted) until its timeout fires and unlocks |
| `Scenarios.PowerUpSelfMatch` | index.js:140-143 | a power-up mid-turn lets the first card be clicked again and matched with itself: one pair, its partner unmatched |

## Left out

- The species lookup (`fetch` and the JSON and sprite extraction, index.js:22-27) is network I/O; it is the oracle `artwork`, which gives an optional URL per id.
- A failing species lookup is not modelled: a rejected `fetch`, a body that is not JSON, or a response without `sprites.other` (index.js:22-24) throws, so `generateCards` rejects after index.js:7 has already emptied the grid, and `resetGame`, `shuffleCards` and `startTimer` never run. In the model the oracle `artwork` always answers (a URL or none), and an id without a URL is skipped as at index.js:25.
- Engine.MismatchHeld: the faces-up half holds only over clicks, ticks, power-up clicks and difficulty changes. A power-up timeout turns the pending cards face down while the board stays locked (`Engine.PowerUpTimeoutHidesPending`), and a restart replaces those cards; the lock and the turn persist through both (`Engine.LockHeld`).
- `Math.random` in the id draws and in both random-comparator sorts is replaced by inputs: the draw sequence `rolls` and the exchange sequence `swaps`. No distribution is modelled.
- `Deck.GenerateCards`: when the supplied draws run out before `pairCount` species are accepted it returns `None`, and `Start` then leaves the game unchanged; the source keeps drawing indefinitely.
- Real time (`Date.now`, `setInterval`, `setTimeout`, and the floor division to seconds at index.js:124) is not modelled; `Tick` takes whole elapsed seconds and the timeouts are explicit steps.
- Interleaving with the asynchronous `generateCards` is not modelled: a start or reset is one atomic step. The source empties the grid before its first `await`, and two overlapping starts could append two decks; neither is captured.
- The page reordering in `shuffleCards` (index.js:160-162) only changes where cards are drawn, so the model keeps grid positions fixed.
- Presentation is left out: building the card HTML, the text of the counters and the timer, `alert` (including the delayed "You win!"), `fadeIn`/`hide`, the `active` class of the difficulty buttons, and the theme toggle (index.js:207-209).
- `matchedSinceStart` (index.js:97, 115) and `powerUpTriggered` (index.js:116) are written or declared but never read.
- A missing `selectedDifficulty` (`null`) and the empty string are both falsy at index.js:53 and are both the empty string here; jQuery's conversion of `data-diff` values to other types is not modelled.
- The string comparison of `data-id` values (index.js:93) is an integer comparison here; ids are integers rendered as strings, so the two agree.
