# Gomoku engine, modelled and verified in Dafny

This project models the game engine of a browser Gomoku (five in a row) game
written in JavaScript (`game.js`). Two players, or a player and a greedy AI,
take turns putting black and white stones on a 15 x 15 board. A stone that
completes five in a row on a row, a column or a diagonal wins. Each player has
a small budget of undos.

Modules, in dependency order:

- `Board` (`board.dfy`) holds the board as a value (`Grid`), the move log and
  the central invariant `Consistent`: the board is exactly what replaying the
  log onto an empty board gives. Every stone is a logged move, and every
  logged move is a stone.
- `WinCheck` (`win.dfy`) defines the win check as the source computes it: one
  cell plus the runs walked outward in both directions of an axis. It proves
  that this means five stones in an unbroken row, with no wrap-around at the
  edges.
- `Evaluate` (`evaluate.dfy`) defines the AI's positional score: per axis, a
  tally of stones and empty cells at most four steps away, six weight rules,
  and a centre bonus. It proves the bounds of the score.
- `Scan` (`scan.dfy`) defines the AI's row-major argmax scan for any scoring
  that is never negative. It proves that the scan finds the first empty cell
  of highest score, and finds nothing exactly when the board is full.
- `Engine` (`engine.dfy`) holds the class `Game`: the `array2<int>` board,
  the log, the flags and the undo counters. Every operation is a method, with
  loops where the source loops. Each method is proved against the functions
  above and keeps `Valid()`: board and log agree, and it is black's or
  white's turn. The ghost field `cells` mirrors the array as a `Grid`.
  `AvailableUndos` is `getAvailableUndoCount`: the shared counter against the
  AI, otherwise the counter of the player to move.
- `Scenario` (`scenario.dfy`) is a concrete two-player game. In it, black's
  undo counter reaches -1.

The source's centre bonus `(7.5 - |x - 7.5|) * 2` is modelled as the integer
`15 - |2x - 15|`, which is equal to it.

The AI's move is split in two. `SelectMove` is the scan, which reads the
board. `ApplyAiMove` is the body of the delayed callback. Between the two, the
caller stands in for the timer.

Three behaviours of game.js are easy to get wrong, and the model keeps
each as written:

- Undo counters can go below zero. A two-player undo is checked against
  the counter of the player to move (game.js:294, 302-303) but charged to
  the player whose move is taken back (game.js:337-341). One might expect a
  counter to stop at zero; `Scenario.NegativeAllowance` is a game in which
  black's counter reaches -1.
- Against the AI, a confirmed undo with a single logged move is accepted.
  It takes nothing back and charges nothing, but it clears the AI-turn flag
  (game.js:318, 344). `UndoMove` reports it as `Undone`.
- `makeMove` itself does not refuse a move after game over or during the
  AI's turn. Only the click handler checks these (game.js:156), so
  `MakeMove` has no such guard and `Click` does.

## Model

| member | source | states |
|---|---|---|
| Board.Other | game.js:144 | the turn passes to the other player, and the result is again black or white |
| Board.Backward | game.js:255-260 | each axis's second direction is the exact opposite of its first, and both are unit steps |
| Board.Place | game.js:135 | setting a cell gives a well-formed board in which that cell changed and no other |
| Board.EmptyGrid | game.js:7 | the fresh board has every cell empty and agrees with the empty log |
| Board.ConsistentExact | game.js:129-135 | under the invariant, every logged move is on the board with its player, and every stone on the board is a logged move |
| Board.PlaceKeepsConsistent | game.js:127-135 | putting the mover's stone on an empty cell and logging it keeps board and log in agreement |
| Board.PopKeepsConsistent | game.js:320-325 | popping the last move and clearing its cell keeps board and log in agreement |
| WinCheck.RunLengthCovers | game.js:264-273 | a walk counts at least k exactly when the first k cells on its line are on the board and hold the player; the walk stops at the edge |
| WinCheck.AxisCountIffFive | game.js:262-275 | from a stone of p, one axis counts at least five exactly when five stones of p lie in an unbroken row through that stone on that axis |
| WinCheck.WinsIffFiveInRow | game.js:254-277 | the win test holds exactly when some axis has an unbroken row of five of the player through the cell |
| WinCheck.NoNeighbourNoWin | game.js:262-276 | a stone with no stone of its player next to it on any axis does not win |
| Evaluate.AxisScore | game.js:110-115 | one axis weighs between 0 and 25000; an axis with no stones weighs 0; four white stones weigh at least 15000 and four black at least 10000 |
| Evaluate.CenterBonus | game.js:119-120 | on the board a coordinate's bonus lies in 0..14 and equals 14 exactly on the two middle lines |
| Evaluate.CountStepsBound | game.js:99-106 | black, white and empty counts over steps s..k add up to at most k - s + 1 |
| Evaluate.AxisTallyBound | game.js:98-107 | per axis, black + white + empty is at most 8 |
| Evaluate.AxesScoreBound | game.js:93-116 | the axes from a onwards weigh between 0 and 25000 each |
| Evaluate.ScoreBound | game.js:83-123 | a cell's score lies between 0 and 4 * 25000 + 28 |
| Evaluate.ScoresNonNegative | game.js:83-123 | no cell of the board scores below 0 |
| Scan.ScanStep | game.js:64-70 | looking at one more cell keeps the scan invariant: the best so far is the first seen empty cell of highest score |
| Scan.ScanFromScans | game.js:62-72 | continuing the scan to the end keeps the scan invariant |
| Scan.ScanComplete | game.js:59-74 | at the end of the scan, nothing found means the board is full, and a found cell is the first empty cell of highest score |
| Scan.ScanAllFindsFirstBest | game.js:59-74 | for scores that are never negative, the whole scan finds nothing exactly when the board is full, and otherwise the first best empty cell |
| Engine.AiChoosesFirstBest | game.js:59-74 | under the evaluator's scores, the scan finds nothing exactly when the board is full, and otherwise the first empty cell of highest score |
| Engine.Game.constructor | game.js:6-18 | the initial state: empty board, empty log, black to move, two-player mode, no AI turn, undo counters 1, 1 and 2 |
| Engine.Game.Walk | game.js:265-272 | the loop counts the player's run from the neighbouring cell, stopping at the edge or at another cell |
| Engine.Game.CheckWin | game.js:254-277 | the result is true exactly when some axis counts five or more for the player to move |
| Engine.Game.TallyDirection | game.js:99-106 | the loop adds the black, white and empty cells 1..4 steps away and on the board to the counters |
| Engine.Game.AxisPoints | game.js:110-115 | the six rules give the axis weight of the tally |
| Engine.Game.AxisValue | game.js:94-115 | both directions of an axis are tallied into the same counters, then weighted |
| Engine.Game.AxesValue | game.js:93-116 | the loop sums the weights of the four axes |
| Engine.Game.EvaluatePosition | game.js:83-123 | the result is the cell's score: axis weights plus both centre bonuses |
| Engine.Game.ScanCell | game.js:64-70 | an empty cell that strictly beats the best score so far becomes the best; otherwise nothing changes |
| Scan.ScanRowSplits | game.js:62-72 | the row-major scan from a cell is the rest of that row followed by the scan from the start of the next row |
| Engine.Game.ScanRow | game.js:63-71 | the inner loop ends in exactly the state of scanning row i left to right from the given best cell and score |
| Engine.Game.ScanRows | game.js:62-72 | the outer loop scans the remaining rows top to bottom |
| Engine.Game.SelectMove | game.js:55-74 | no move once the game is over; otherwise no move exactly when the board is full, and else the first empty cell of highest score |
| Engine.Game.PushMove | game.js:129-135 | logs the mover's stone and puts it on the empty cell; nothing else changes |
| Engine.Game.MakeMove | game.js:126-152 | an occupied cell changes nothing; otherwise the move is logged and placed; a win ends the game with the winner still to move; otherwise the turn passes; the AI's turn starts when, in AI mode, play passes from black to white |
| Engine.Game.ApplyAiMove | game.js:75-78 | the delayed AI reply plays the chosen cell and ends the AI's turn |
| Engine.Game.Click | game.js:155-168 | ignored after game over, during the AI's turn, off the board and on an occupied cell; otherwise a move by the player to move |
| Engine.Game.RestartGame | game.js:280-287 | empty board and log, black to move, game not over, no AI turn; mode and undo counters kept |
| Engine.Game.StartGame | game.js:32-47 | the mode is AI exactly for "pve"; the chosen mode's undo counters are reset and the other mode's are kept; then the game restarts |
| Engine.Game.PopMove | game.js:332-333 | takes the last move off the log and clears its cell; nothing else changes |
| Engine.Game.UndoCount | game.js:337-341 | a player's own two-player counter: the one checked when that player is to move, and the one `UndoMove` charges when that player's move is taken back |
| Engine.Game.AvailableUndos | game.js:290-296 | the shared counter against the AI, otherwise the counter of the player to move; `UndoMove`'s `Exhausted` clause is the contract that uses it |
| Engine.Game.UndoMove | game.js:299-354 | refused, with nothing changed, after game over, with an empty log, with the counter checked now at 0 or below, or without confirmation; against the AI with two or more moves, the last two are taken back, black moves, and the shared counter drops by one; two-player: the last move is taken back, its player moves and is charged; the AI turn ends; board and log still agree |
| Scenario.LoneStone | game.js:262-276 | a stone with no stone of its player among its eight neighbours does not win |
| Scenario.NegativeAllowance | game.js:290-342 | black, white, black; undo; black again; undo: black's counter is -1 while white's is still 1 |

## Left out

- Drawing (`drawBoard`, `drawPiece`, the redraw after undo at game.js:347-350): presentation only.
- DOM work (`showGameMode`, `backToMenu`, the style toggles in `startGame`, `updateUndoButtonStatus`): presentation only. The button's disabled state is just `AvailableUndos() <= 0`, so it has no member of its own.
- `alert` and `window.confirm`: the confirmation is the `confirmed` parameter of `UndoMove`. The prompt and message texts are not modelled.
- The 500 ms timer in `aiMove`: selection (`SelectMove`) and application (`ApplyAiMove`) are separate calls. A callback that fires after a restart or undo is not modelled. In the source, `makeMove` calls `aiMove` directly; here `MakeMove` just sets the AI-turn flag, and the caller runs the two steps.
- Converting pixel coordinates to a cell with `Math.round` in the click handler: floating point from the DOM event. `Click` takes the cell directly and keeps the handler's guards.
- Each loop of `evaluatePosition` and `aiMove` is its own method. `TallyDirection` is the step loop, `AxesValue` the loop over axes, `ScanRow` the loop over columns and `ScanRows` the loop over rows. The two-element loop over the directions of an axis (game.js:98) is unrolled into two `TallyDirection` calls in `AxisValue`. `ScanCell` is the body of the column loop (game.js:64-70). Cells are visited in the same order and the same values are computed.
- JavaScript numbers are modelled as unbounded integers. Every value involved is a small integer, so nothing is lost.
