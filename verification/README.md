# Tic-tac-toe rules engine, in Dafny

This project models the game-rules engine of a two-player, one-device
tic-tac-toe web component. The engine is a small deterministic state machine:

- the **board** is nine cells, row-major, each empty or holding `X` or `O`
  (`Rules.Board`, a `seq<Option<Mark>>` of length 9);
- the **state** is the board together with `xIsNext` (`Game.State`);
- the **winner** is found by scanning eight fixed triples: three rows, three
  columns, two diagonals, in that order. It is the mark of the first triple
  whose three cells are equal and non-empty (`Rules.Winner`);
- **draw** means a full board with no winner, and **game over** means a winner or a
  draw (`Rules.IsDraw`, `Rules.GameOver`). The status line puts a win ahead of a
  draw, and a draw ahead of the turn (`Game.StatusOf`, `Game.StatusText`);
- a **click** on cell `i` is ignored when the game is over or the cell is
  filled. Otherwise it writes the current player's mark into that cell and
  passes the turn (`Game.Click`);
- **restart** restores nine empty cells with X to move (`Game.Reset`).

A run of user intents (`Game.Event`: a cell click or a restart) is folded
over the state by `Game.Run`. Module `Invariants` proves the properties that
hold along any run:

- X's count equals O's count or exceeds it by one;
- X is to move exactly when the counts are equal;
- under legal play every uniform line carries the same mark, so the scan order
  never changes the winner;
- a finished game absorbs clicks until a restart;
- placed marks never move.

Module `Scenarios` works through concrete plays: the component's own tests,
a diagonal win followed by a restart, a play ending in a draw, and a full
board that is a win.

The cell index is a precondition (`0 <= i < 9`) of `Click`. The component never
checks the range: a click outside it would write outside the nine cells.

The clicks 0, 1, 2, 3, 4, 5, 7, 6, 8 fill the whole board, but they do not
end in a draw. The last mark completes the 0-4-8 diagonal, so the game is a
win for X. `Scenarios.FullAndWonRun` proves which board those clicks leave,
and `Scenarios.FullAndWonIsWin` proves that the board is a win.

## Model

| member | source | states |
|---|---|---|
| Rules.WinnerFrom | tic_tac_toe_frontend/src/App.js:17-22 | From line `k` on, a result `Some(m)` means some later line holds `m` in all three cells and no earlier line from `k` is uniform. `None` holds exactly when no line from `k` on is uniform. |
| Rules.Winner | tic_tac_toe_frontend/src/App.js:8-23 | Returns mark `m` only if some triple holds `m` in all three cells and every triple before it in the row, column, diagonal order is not uniform. Returns null exactly when no triple is uniformly filled. |
| Rules.UniformIsLineOf | tic_tac_toe_frontend/src/App.js:18 | The scan's truthy-and-equal test on a triple holds exactly when all three cells hold one and the same mark. |
| Rules.WinnerIsFirstUniform | tic_tac_toe_frontend/src/App.js:9-20 | When several triples are uniform, the winner is the mark of the first one in scan order. |
| Rules.FirstUniformFrom | tic_tac_toe_frontend/src/App.js:17-21 | A scan that starts at `k` returns the mark of the first uniform triple at or after `k`. |
| Rules.IsDraw | tic_tac_toe_frontend/src/App.js:36 | A draw holds exactly when all nine cells are filled and no triple is uniform. |
| Rules.GameOver | tic_tac_toe_frontend/src/App.js:37 | The game is over exactly when some triple is uniform or the board is full. |
| Game.CurrentPlayer | tic_tac_toe_frontend/src/App.js:32 | The player to move is X exactly when `xIsNext`, and O otherwise. |
| Game.Click | tic_tac_toe_frontend/src/App.js:40-51 | When the game is over or cell `i` is filled, the state is returned unchanged. Otherwise cell `i` gets X iff `xIsNext`, and `xIsNext` flips. No other cell changes, and a filled cell never changes. |
| Game.Reset | tic_tac_toe_frontend/src/App.js:65-71 | Whatever the prior state, all nine cells become empty and X is to move. |
| Game.StatusOf | tic_tac_toe_frontend/src/App.js:35-77 | The status is Won exactly when a triple is uniform. It then names the scan's winner, the mark of the first uniform triple. It is Draw exactly when the board is full with no uniform triple. It is InProgress exactly when the game is not over, with the turn X iff `xIsNext`. |
| Game.StatusText | tic_tac_toe_frontend/src/App.js:73-77 | The text starts with "Winner: " exactly for a win and then names the winner. It is the draw notice exactly for a draw. It starts with "Turn: " exactly while in progress and then names the player to move. |
| Invariants.CountFill | tic_tac_toe_frontend/src/App.js:47-48 | Writing a mark into an empty cell adds one to that mark's count and leaves the other mark's count unchanged. |
| Invariants.InitialBalanced | tic_tac_toe_frontend/src/App.js:30-31 | The initial state has no marks, and X is to move with equal counts. |
| Invariants.ClickKeepsBalance | tic_tac_toe_frontend/src/App.js:46-50 | A click, accepted or ignored, keeps two facts: the X count is the O count plus one when O is to move, and the counts are equal when X is to move. |
| Invariants.RunKeepsBalance | tic_tac_toe_frontend/src/App.js:46-71 | Any run of clicks and restarts keeps that balance. |
| Invariants.ReachableBalanced | tic_tac_toe_frontend/src/App.js:30-50 | From the initial state, after any run, the X count minus the O count is 0 or 1, and `xIsNext` holds exactly when it is 0. |
| Invariants.ClickKeepsSingleWinner | tic_tac_toe_frontend/src/App.js:37-48 | If every uniform triple carries the same mark before a click, the same holds after it. |
| Invariants.RunKeepsSingleWinner | tic_tac_toe_frontend/src/App.js:37-71 | Any run of clicks and restarts keeps all uniform triples on one mark. |
| Invariants.ReachableWinnerIsAnyLine | tic_tac_toe_frontend/src/App.js:9-20 | In any state reached by play, the winner equals the mark of any uniform triple, so the scan order does not affect the result. |
| Invariants.GameOverAbsorbs | tic_tac_toe_frontend/src/App.js:46 | Once there is a winner or a draw, any run of clicks leaves the state unchanged. |
| Invariants.AbsorbedUntilRestart | tic_tac_toe_frontend/src/App.js:46-71 | After a finished game, clicks, then a restart, then further events reach the same state as those further events from the initial state. |
| Invariants.MarksPersist | tic_tac_toe_frontend/src/App.js:46-48 | Without a restart, a filled cell keeps its mark through any run of clicks. |
| Invariants.WinBeatsDraw | tic_tac_toe_frontend/src/App.js:73-77 | A full board with a uniform triple is reported as a win for the winner, and it is not a draw. |
| Invariants.ResetStartsFresh | tic_tac_toe_frontend/src/App.js:65-77 | After a restart the status is in progress, with X to move and the text "Turn: X". |
| Scenarios.FirstTwoClicks | tic_tac_toe_frontend/src/App.test.js:10-19 | The first click places X, the second places O, and then it is X's turn. |
| Scenarios.ClickOnFilledCellIgnored | tic_tac_toe_frontend/src/App.js:46 | A second click on cell 0 after X took it changes nothing, and O is still to move. |
| Scenarios.DiagonalRun | tic_tac_toe_frontend/src/App.js:40-51 | Clicks 0, 1, 4, 2, 8 from the start give X on 0, 4 and 8 and O on 1 and 2. |
| Scenarios.DiagonalWinThenRestart | tic_tac_toe_frontend/src/App.js:46-77 | On that board X has won. A click on 3 is ignored, and a restart gives an in-progress game with X to move. |
| Scenarios.DrawRun | tic_tac_toe_frontend/src/App.js:40-51 | The clicks 0, 1, 2, 4, 3, 5, 7, 6, 8 are all accepted and leave X on 0, 2, 3, 7, 8 and O on 1, 4, 5, 6. |
| Scenarios.DrawnBoardIsDraw | tic_tac_toe_frontend/src/App.js:36 | A full board with no uniform triple is a draw and shows the draw notice. |
| Scenarios.RestartClearsBoard | tic_tac_toe_frontend/src/App.test.js:21-28 | After X takes cell 0, a restart leaves all nine cells empty. |
| Scenarios.FullAndWonRun | tic_tac_toe_frontend/src/App.js:40-51 | The clicks 0, 1, 2, 3, 4, 5, 7, 6, 8 are all accepted and leave X on 0, 2, 4, 7, 8 and O on 1, 3, 5, 6. |
| Scenarios.FullAndWonIsWin | tic_tac_toe_frontend/src/App.js:73-77 | A full board whose last mark completes a diagonal is a win for X, not a draw. |

## Left out

- Rendering and hooks (`useState`, `useMemo`, the `App`, `Board` and `Cell`
  markup): the state is passed explicitly between pure functions instead.
  Recomputing the status from the board on each read stands for the memoised
  values.
- `handleKeyDown`: it forwards Enter and Space to the click handler. `Game.Step`
  models the click it forwards. Keyboard events are not modelled.
- Accessibility labels, CSS class strings and the status badge: presentation only.
- Out-of-range cell indices: the component has no guard, and such a click
  would write outside the nine cells. An index of 9 or more grows the array.
  A negative index places no mark on the board but still passes the turn.
  `Game.Click` therefore requires `0 <= i < 9`.
- React's batching of the two state setters: both updates of one click are
  applied together, as one transition.
- The test harness in App.test.js. `Scenarios.FirstTwoClicks` and
  `Scenarios.RestartClearsBoard` state what its click and restart tests assert
  about the board. The title and button test checks rendering only and is not
  modelled.
