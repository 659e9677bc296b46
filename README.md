# Tiang EV calculator: the card-counting session

The page keeps a running count of the cards left in a shoe of `deckCount` decks.
Ranks run from 1 to 13. The state is:

- `cardCounter`: the copies left of each rank;
- `discardHistory`: the cards seen played by others;
- `calculatorHistory`: the completed two-card pairs ("tiangs") of earlier rounds;
- `tiangs`: the selection in progress;
- `mode`: discard or calculator.

Four user actions change the state:

- a card button (select a rank);
- the undo button;
- the reset button;
- the mode banner (toggle).

When the second card of a pair is selected in calculator mode, the page shows an expected
value. It is the number of cards strictly between the two ranks, doubled, less the cards of
the two ranks, over the cards not yet seen, minus 1. Then it moves the pair into the
history.

The model has five modules:

- `Deck` (`deck.dfy`): the count table, a map from rank to count, and sums over a range of
  ranks.
- `Ev` (`ev.dfy`): the EV arithmetic as an exact `real`. A zero denominator is the explicit
  result `DivisionUndefined`.
- `Machine` (`machine.dfy`):
  - the whole state as a value (`Snapshot`);
  - one transition function per action;
  - the completion step of `updateText` (`Settle`);
  - the session invariant `Inv`.
- `Laws` (`laws.dfy`): what each action does to the state, and the invariant each keeps.
  Its "deficit" is the conservation gap: the cards in play less the remaining, discarded,
  paired and selected cards.
- `Tiang` (`tiang.dfy`): class `Session`.
  - The page's globals are its fields.
  - The load step, `resetCounter`, `calculateEV`, `updateText`, `reset`, `undo` and the
    two click handlers are its methods, with loops where the source has them.
  - Every command method is proved to produce the snapshot its `Machine` function
    prescribes, and to keep the invariant.
- `Runs` (`runs.dfy`): sequences of actions. The invariant holds after any run. Without a
  reset, the balance moves only at undos that reopen a pair.

The model follows the code of `script.js` in three places where a reader may expect
otherwise:

- Undo with an empty selection reopens the last pair. The pair's first card becomes the
  selection again. The second card disappears without its count being restored, so until
  the next reset the cards no longer add up to the cards in play.
- Reset keeps the current mode.
- The EV is computed after both selected cards were taken from the counts. One fresh
  deck, cards 5 then 10, gives 26/50 - 1 = -0.48. Counts taken before either card was
  removed would give -0.52.

The value-level model of each part of the source is a function of `Machine` or `Ev`,
and the "## Model" rows below state their properties:

- `Machine.SelectBody` is the card-click handler up to its call of `updateText` (script.js:157-165).
  `Machine.Select` adds the zero-count refusal and the completion step (script.js:152-167).
- `Machine.UndoBody` is the undo handler up to its call of `updateText` (script.js:57-78).
  `Machine.Undo` adds the completion step (script.js:79).
- `Machine.Toggle` is the mode-banner handler (script.js:131-143).
- `Machine.Reset` is `reset` with `resetCounter` (script.js:26-31, 47-54).
- `Machine.Settle` is the two-card branch of `updateText` (script.js:95-99).
- `Ev.Expected` is `calculateEV` (script.js:105-126). Its parts are:
  - `Ev.WinOuts`: the loop at script.js:111-113;
  - `Ev.TiangOuts`: script.js:115-119;
  - `Ev.TotalOuts`: script.js:121-125.

The completion step in `updateText` runs after every action that reaches `updateText`:
select, undo, toggle and reset. The actions that stop at an alert skip it, as in the
source.

## Model

| member | source | states |
|---|---|---|
| Tiang.Session.constructor | script.js:20-24 | the page starts with 4·deckCount copies of every rank, empty histories and selection, discard mode, and satisfies the invariant |
| Tiang.Session.ResetCounter | script.js:26-31 | the loop leaves exactly the thirteen ranks in the table, each with 4·deckCount copies; nothing else changes |
| Tiang.Session.CalculateEV | script.js:105-126 | the accumulator loop computes the sum of the counts strictly between the two ranks; the method returns the EV of the current pair with the history lengths from before the push, or `DivisionUndefined` when no card is unseen |
| Tiang.Session.UpdateText | script.js:83-103 | with two cards selected in calculator mode the EV is shown, the pair is appended to the history and the selection emptied; otherwise no EV is shown and the state is unchanged |
| Tiang.Session.Reset | script.js:47-54 | the state becomes the reset snapshot (full table, empty histories and selection, mode kept) and the invariant holds |
| Tiang.Session.Undo | script.js:56-81 | the state becomes the undo snapshot of the old state, the "Something wrong" alert is never raised, and the invariant holds |
| Tiang.Session.ToggleMode | script.js:130-145 | the switch is refused exactly while cards are selected in calculator mode; the new state is the toggle snapshot and the invariant holds |
| Tiang.Session.SelectCard | script.js:147-170 | refused exactly when no copy of the rank is left; otherwise the select snapshot, with the EV shown exactly when the click completes a pair; the invariant holds |
| Laws.InitialInv | script.js:12-24 | the loaded state satisfies the invariant and owes no card |
| Laws.ResetFresh | script.js:47-54 | from any state, reset gives the initial state with the old mode, every count 4·deckCount, the invariant and a zero deficit |
| Laws.SettleInv | script.js:95-99 | pushing a full pair and emptying the selection turns a state of at most two selected cards into one of at most one, keeping the counts and the balance |
| Laws.SelectInv | script.js:147-170 | a select keeps the invariant and the balance of cards |
| Laws.UndoInv | script.js:56-81 | undo keeps the invariant, never reaches its alert branch, and raises the deficit by one exactly when it reopens a pair |
| Laws.ToggleInv | script.js:130-145 | a toggle keeps the invariant and the balance |
| Laws.CountsInRange | script.js:152-164 | under the invariant every count lies in 0..4·deckCount and the remaining, discarded, paired and selected cards never exceed 52·deckCount |
| Laws.SelectEmptyRefused | script.js:152-155 | selecting a rank with no copy left changes nothing and shows nothing, in either mode |
| Laws.DiscardSelect | script.js:157-159 | in discard mode a select lowers that rank's count by one and appends it to the discard history, nothing else |
| Laws.DiscardRoundTrip | script.js:56-61 | a discard followed by undo restores the state exactly |
| Laws.UndoDiscardEmpty | script.js:57-61 | undo in discard mode with an empty history changes nothing |
| Laws.CalculatorFirstCard | script.js:160-164 | the first card of a pair is taken from the counts into the selection, no EV is shown, and undo restores the state exactly |
| Laws.CalculatorSecondCard | script.js:160-167 | the second card is taken from the counts, the pair is pushed onto the history, the selection is emptied, and the EV shown uses the decremented counts and the history lengths from before the push |
| Laws.UndoCalculatorCases | script.js:62-74 | calculator undo returns a single selected card to its count, reopens the last pair keeping only its first card, or does nothing with no history |
| Laws.CompleteThenReopen | script.js:63-65 | completing a pair and undoing restores the selection and history but leaves the second card taken, so one more card is owed |
| Laws.UndoSingle | script.js:66-74 | undo with one card selected returns it to its count, empties the selection and keeps the balance |
| Laws.ToggleCases | script.js:130-142 | discard to calculator always; calculator to discard only without a selection; otherwise nothing changes |
| Laws.ToggleRoundTrip | script.js:130-142 | with no selection, two toggles give back the state |
| Laws.EvOfBounds | script.js:121-126 | under the invariant the EV of a taken pair lies in [-2, 1] and is undefined only when no card remains |
| Laws.SelectReportBounds | script.js:161-167 | any EV a select shows lies in [-2, 1], and the undefined case arises only when the pair took the last cards |
| Laws.FiveTenExample | script.js:105-126 | one fresh deck, calculator mode, select 5 then 10: the EV shown is -0.48 |
| Ev.OutsWithinTotal | script.js:111-119 | the win outs and tiang outs are non-negative and together at most the remaining cards |
| Ev.ExpectedBounds | script.js:121-126 | when the remaining cards do not exceed the unseen ones, the EV lies in [-2, 1] and is undefined only with no card left |
| Ev.ExpectedSymmetric | script.js:108-119 | the EV does not depend on the order of the two selected ranks |
| Deck.TotalFull | script.js:26-31 | a freshly reset table holds 52·deckCount cards |
| Runs.StepInv | script.js:47-170 | each action keeps the invariant; reset zeroes the deficit, a reopening undo raises it by one, everything else keeps it |
| Runs.Run | script.js:47-170 | the invariant holds after every sequence of actions |
| Runs.RunBalance | script.js:121-125 | over a run without reset, the deficit grows by exactly the number of reopening undos |
| Runs.BalanceKept | script.js:121-125 | a run, resets included, from a state owing no card and without reopening undos ends owing no card |
| Runs.FreshRunBalanced | script.js:121-125 | from page load, resets included, until an undo reopens a pair, remaining + discarded + 2·pairs + selected cards equal 52·deckCount |

## Left out

- Everything on the page itself is left out: element lookups, `updateView`, the mode and status texts, and highlighting (script.js:1-7, 33-45, 68-73, 84-94). They are presentation only.
- `alert` calls are modelled as refused commands that leave the state unchanged, or as an `alerted` result that is proved false.
- The keybindings (script.js:175-189) are left out. They only dispatch to `reset` and `undo`.
- The `localStorage` reads (script.js:9-10) are left out. `deckCount` is a constructor parameter, at least 1.
- `cardOrder` is used only for labels and is left out.
- Conversions between the strings of `dataset.value` and numbers are left out. Ranks are the integers 1..13.
- The result string and `toFixed(2)` rounding (script.js:127) are left out. The EV is an exact `real`.
- Tiang.Session.CalculateEV: the IEEE `Infinity`/`NaN` that the browser produces on a zero denominator is the explicit result `DivisionUndefined`.
- A card button outside 1..13 cannot occur on the page, so `SelectCard` requires a rank.
