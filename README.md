# Tic-tac-toe on 3×3, 6×6 and 8×8 boards: outcome and opponent core

This project models the game logic of a browser tic-tac-toe game and proves
properties of it in Dafny. The game is played on an N×N board stored row by
row in a flat array. One run of `requiredInRow` equal marks in a row, a
column or either diagonal wins. That run length is 3 on 3×3, 4 on 6×6 and
5 on 8×8. The human plays 'X' and the computer plays 'O'. The computer picks
a random cell on easy. On medium and hard it runs a depth-bounded minimax
search of depth 2 and 4 below the candidate 'O' move.

Modules, one per component of `script.js`:

- `Types`: the cell contents (`Empty`, `X`, `O`) and `Option`, which stands
  for `null`.
- `Lines`: the win-line generator `getLines`. It is an imperative method
  (`GetLines`, with `EmitRow`, `EmitCell` and `Run` for the nested loops).
  It is proved equal to the specification function `AllLines`. The module
  also holds the lemmas on line shape, completeness and count.
- `Outcome`: the read-only line tests. `LineHas` is `line.every(...)`,
  `HasWon` is what `checkWin` computes, and `FirstWinner` is what
  `checkWinSimple` computes.
- `Search`: minimax and the top-level move choice as functions of the board
  (`MinimaxValue`, `BestMove`), with their range, extremum and arg-max
  lemmas.
- `Game`: class `Game` with the game's globals as fields (`board` array,
  scores, turn, settings). It holds the imperative `CheckWin`,
  `CheckWinSimple`, `Minimax` and `SmartMove`, which mark a cell, search,
  and clear it again. It also holds `RandomMove`, `MakeMove`, `SwitchTurn`,
  `OnCellClick`, `AutoPlayerMove`, `BotMove`, `Timeout` and `StartGame`.
- `Scenarios`: whole-board facts. An empty board has no winner. The 3×3
  board has exactly eight lines. Two concrete positions are proved won or not won.

Modelling notes (the model follows the code wherever a described design differs):

- `minimax` takes `newBoard` but calls `checkWinSimple()`, which reads the
  global `board`. They are always the same array, so the model has one
  board.
- `checkWinSimple` returns the mark of the first uniform line in generator
  order, testing 'X' before 'O' on each line. It does not check the
  opponent first.
- Medium difficulty is always `smartMove(2)`. There is no random branch.
- The `-Infinity`/`Infinity` sentinels are the integers -11 and 11
  (`NegInf`, `PosInf`). Every position value lies strictly between them.
- `isGameActive` is only ever set to `true`. Its guards are modelled but
  never fail after construction.
- The game does not stop after a win. A completed line stays completed
  (`Outcome.HasWonPersists`), so in the code as written every later move of
  the same mark scores another point. The model keeps that behaviour.
- `botMove` on a full board reaches `makeMove(null, 'O')`. That call sets a
  non-index property of the array and then throws, because no cell element
  exists for `null`. No cell, score or turn changes. `BotMove` models this
  as "nothing changes".
- The scheduled `setTimeout(botMove, 500)` is the out-parameter `botDue` of
  `SwitchTurn`, `MakeMove`, `OnCellClick` and `StartGame`. The timer's
  expiry (script.js:116-119) is the method `Timeout`.
- `Math.random()` is a nondeterministic choice (`:|`) of an empty cell.

## Model

| member | source | states |
|---|---|---|
| `Lines.Run` | script.js:241-244 | building a run index by index gives the k indices start, start+step, ..., start+(k-1)·step |
| `Lines.EmitCell` | script.js:237-273 | the cell at row r, column c appends one line per direction whose guard passes, in the order horizontal, vertical, down-right, down-left, each starting at index r·n+c |
| `Lines.EmitRow` | script.js:236-274 | the column loop appends the lines of every cell of row r, in column order |
| `Lines.GetLines` | script.js:232-277 | the generator returns exactly `AllLines(n, k)`: the lines of every cell, row by row |
| `Lines.PlacementCells` | script.js:239-272 | cell i of a line that passes its guard has a row and a column on the board, and index row·n + column |
| `Lines.IndexDecomposes` | script.js:237 | index r·n + c lies in [0, n²), and division and remainder by n recover r and c |
| `Lines.LineOnBoard` | script.js:235-276 | every generated line has exactly k indices, all in [0, n²), for every n and k |
| `Lines.ConsecutiveCells` | script.js:239-272 | consecutive indices of a line differ by the direction's step and move by the direction's row and column deltas |
| `Lines.LineShape` | script.js:239-272 | every generated line is an arithmetic progression with step 1, n, n+1 or n−1, and each step moves (0,+1), (+1,0), (+1,+1) or (+1,−1) in (row, column), so a line never wraps across a row edge |
| `Lines.PlacementGenerated` | script.js:235-276 | conversely, every run of k cells that passes the guards is among the generated lines |
| `Lines.RowPrefixCount` | script.js:236-274 | closed-form number of lines emitted by the first c cells of a row |
| `Lines.GridPrefixCount` | script.js:235-275 | closed-form number of lines emitted by the first r rows |
| `Lines.LineCount` | script.js:235-276 | for 1 ≤ k ≤ n there are 2·n·(n−k+1) + 2·(n−k+1)² lines |
| `Outcome.LineHas` | script.js:214 | a line with an index off the board never matches, an empty line always matches, and a matching non-empty line starts on a cell holding the mark |
| `Outcome.HasWon` | script.js:211-220 | the result is true iff some line of the list is entirely the mark, and it is false for an empty list |
| `Outcome.FirstWinner` | script.js:223-230 | the result is None iff no line is uniformly 'X' or 'O', and otherwise the mark of the first such line, 'X' if that line is all 'X' |
| `Outcome.FirstWinnerShift` | script.js:225-228 | skipping a first line that is neither all 'X' nor all 'O' changes neither the winners nor the first winning line |
| `Outcome.HasWonPersists` | script.js:82-84 | marking an empty cell keeps every completed line completed, so a mark that has won keeps winning on its later moves |
| `Search.MinimaxValue` | script.js:179-207 | a position's value is always −10, 0 or 10 |
| `Search.SearchFrom` | script.js:186-206 | folding the children into the running best gives a position value, or leaves the sentinel only when no empty cell remains |
| `Search.SearchFromIsExtremum` | script.js:186-206 | the fold's result bounds every child of an empty cell from the right side and is attained by one of them unless it equals the start value |
| `Search.MinimaxIsExtremum` | script.js:186-206 | with no winner, an empty cell and depth left, the value is the largest child value when 'O' moves and the smallest when 'X' moves, and some empty cell attains it |
| `Search.Scores` | script.js:165-169 | the score of cell j is the value after 'O' is placed on j and 'X' is to move, and it is −10, 0 or 10 |
| `Search.BestFrom` | script.js:165-175 | the loop from cell i keeps its current move, or ends on an empty cell at or after i whose score beats the running best |
| `Search.BestFromCorrect` | script.js:165-176 | the top-level loop with strict `>` ends on an empty cell of greatest score that is the lowest-numbered such cell, or on None when no cell is empty |
| `Search.BestMove` | script.js:160-177 | the chosen move is None iff the board has no empty cell; otherwise it is an empty cell whose score is maximal, and every earlier empty cell scores strictly less |
| `Game.RequiredInRow` | script.js:32 | the run length is 4 on size 6, 5 on size 8 and 3 for every other size; it is at most the size for sizes 3, 6 and 8 |
| `Game.Lookahead` | script.js:142-146 | medium searches at depth 2 and hard at depth 4 |
| `Game.EmptyCellsBelow` | script.js:155 | the empty cells among the first m cells, exactly and in increasing order |
| `Game.EmptyCells` | script.js:129 | the empty-cell list holds exactly the indices of empty cells, in increasing order, and is empty iff the board is full |
| `Game.Game.constructor` | script.js:15-26 | the initial globals: no cells, both scores 0, size 3, run length 3, easy, player first, active, player's turn |
| `Game.Game.StartGame` | script.js:28-66 | a new game reads the settings, resets both scores to 0, allocates an all-empty board of size² cells, gives the turn to the configured first mover and reports that the computer is due when it moves first |
| `Game.Game.ConfiguredLinesOnBoard` | script.js:28-32 | once a game is configured, every win line has `requiredInRow` indices and each of them is a cell of the board |
| `Game.Game.CheckWin` | script.js:209-221 | the result is true iff some generated line is entirely the given mark |
| `Game.Game.CheckWinSimple` | script.js:223-230 | the result is `FirstWinner` of the current board and lines |
| `Game.Game.Minimax` | script.js:179-207 | the board is as it was on entry, and the result is `MinimaxValue` of the entry board |
| `Game.Game.SmartMove` | script.js:160-177 | the board is as it was on entry, and the result is `BestMove` of the entry board |
| `Game.Game.RandomMove` | script.js:154-158 | the result is None iff no cell is empty, and otherwise an empty cell |
| `Game.Game.SwitchTurn` | script.js:95-102 | the turn flips, and the computer's move is due iff it is now the computer's turn and the game is active |
| `Game.Game.MakeMove` | script.js:76-93 | only cell `index` changes, and it becomes the mark; the player's score grows by one iff the mark is 'X' and 'X' now has a line, the computer's by one iff the mark is 'O' and 'O' now has a line; the turn flips; nothing else changes |
| `Game.Game.OnCellClick` | script.js:68-74 | when the game is inactive, it is not the player's turn or the cell is not empty, nothing changes; otherwise 'X' is placed as by `MakeMove` and the computer is due |
| `Game.Game.AutoPlayerMove` | script.js:128-134 | on a full board nothing changes; otherwise 'X' is placed on one empty cell, scored as by `MakeMove`, and the turn flips |
| `Game.Game.BotMove` | script.js:136-152 | on a full board or an inactive game nothing changes; otherwise 'O' is placed on one empty cell, scored, and the turn flips; on medium and hard that cell is `BestMove` at depth 2 or 4 |
| `Game.Game.Timeout` | script.js:116-119 | settings and board array are kept; on the player's turn, a full board changes nothing, and otherwise 'X' is placed on one empty cell, the player's score grows iff 'X' now has a line, and the computer becomes due; on the computer's turn, an inactive game or full board changes nothing, and otherwise 'O' is placed on one empty cell (the `BestMove` cell on medium and hard), the computer's score grows iff 'O' now has a line, and the turn returns to the player |
| `Scenarios.EmptyBoardNoWin` | script.js:209-230 | with a run length of at least one, neither mark has won on an empty board, and the search sees no winner |
| `Scenarios.TopRowOfThree` | script.js:235-276 | the top row of the 3×3 board emits [0,1,2], [0,3,6], [0,4,8], [1,4,7], [2,5,8], [2,4,6] |
| `Scenarios.LowerRowsOfThree` | script.js:235-276 | the other two rows of the 3×3 board emit [3,4,5] and [6,7,8] |
| `Scenarios.ThreeByThreeLines` | script.js:232-277 | the 3×3 board has exactly the eight lines: three rows, three columns and two diagonals, in generator order |
| `Scenarios.TopRowOnThreeLines` | script.js:213-218 | on the eight 3×3 lines, X X _ is no win and X X X is one |
| `Scenarios.TopRowCompletes` | script.js:209-221 | on the 3×3 board, two 'X' at 0 and 1 are no win, and a third at 2 is |
| `Scenarios.RunWins` | script.js:209-221 | a generated run that is all one mark is a win for that mark |
| `Scenarios.SixBySixTopRun` | script.js:209-221 | on 6×6 with run length 4, 'O' on indices 2, 3, 4 and 5 is a win for 'O' |

## Left out

- DOM reads and writes, cell text and `highlightWinningCells` are not part of this model (script.js:1-13, 55-63, 78-79, 279-288). `CheckWin` therefore only computes the boolean.
- `updateScores`, `triggerConfetti` and `shakeBoard` are left out: rendering and a third-party effects library.
- The timers are left out: `setTimeout`, `setInterval`, `startTimer`/`resetTimer` and the 20-second countdown `timeLeft`. Only the expiry action (`Timeout`) and the "computer is due" flag are modelled. These are event-loop behaviour.
- `Math.random` is left out. `RandomMove` may return any empty cell; the uniform distribution is not modelled.
- `currentPlayer` is left out: it is assigned and never read.
- Button wiring and menu navigation are left out (script.js:310-315).
- Search cost on large boards is not modelled and is not a correctness property.
- The two 3×3 search claims of the design are not proved: that full-depth minimax never loses, and that the first move on an empty board is a corner or the centre. Both need the whole game tree to be evaluated.
