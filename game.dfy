/** The game state and the operations that change it: one board array, the
    two scores and whose turn it is, with the in-place search that marks a
    cell, searches and clears the cell again. */
module Game {
  import opened Types
  import opened Lines
  import opened Outcome
  import opened Search

  datatype Difficulty = Easy | Medium | Hard

  datatype FirstMove = PlayerFirst | BotFirst

  /** The run length that wins on a board of the given size:
      4 on 6 by 6, 5 on 8 by 8, 3 otherwise. */
  function RequiredInRow(size: int): (k: nat)
    ensures size == 6 ==> k == 4
    ensures size == 8 ==> k == 5
    ensures k == 3 || k == 4 || k == 5
    ensures (size == 3 || size == 6 || size == 8) ==> 3 <= k <= size
    ensures k == 3 <==> size != 6 && size != 8
  {
    if size == 6 then 4 else if size == 8 then 5 else 3
  }

  /** How many plies the search looks ahead: 2 for medium, 4 for hard. */
  function Lookahead(d: Difficulty): (depth: nat)
    ensures d == Medium ==> depth == 2
    ensures d == Hard ==> depth == 4
  {
    if d == Medium then 2 else 4
  }

  /** The empty cells among the first `m` cells, in increasing order. */
  function EmptyCellsBelow(b: seq<Cell>, m: nat): (cells: seq<nat>)
    requires m <= |b|
    ensures forall x: nat :: x in cells <==> x < m && b[x] == Empty
    ensures forall p, q :: 0 <= p < q < |cells| ==> cells[p] < cells[q]
  {
    if m == 0 then []
    else
      var rest := EmptyCellsBelow(b, m - 1);
      assert forall p :: 0 <= p < |rest| ==> rest[p] in rest;
      if b[m - 1] == Empty then rest + [m - 1] else rest
  }

  /** The indices of all empty cells, in increasing order. */
  function EmptyCells(b: seq<Cell>): (cells: seq<nat>)
    ensures forall x: nat :: x in cells <==> x < |b| && b[x] == Empty
    ensures forall p, q :: 0 <= p < q < |cells| ==> cells[p] < cells[q]
    ensures |cells| == 0 <==> Empty !in b
  {
    var cells := EmptyCellsBelow(b, |b|);
    if |cells| == 0 then
      assert forall x :: 0 <= x < |b| ==> x !in cells && b[x] != Empty;
      cells
    else
      assert cells[0] in cells && b[cells[0]] == Empty;
      cells
  }

  /** Cell `i` was empty in `before` and `after` is `before` with `s` placed there. */
  ghost predicate Moved(before: seq<Cell>, after: seq<Cell>, i: int, s: Cell) {
    0 <= i < |before| && before[i] == Empty && after == before[i := s]
  }

  class Game {
    var board: array<Cell>
    var playerScore: nat
    var botScore: nat
    var boardSize: nat
    var difficulty: Difficulty
    var firstMove: FirstMove
    var requiredInRow: nat
    var isGameActive: bool
    var isPlayerTurn: bool

    /** The candidate lines for the current board size and run length. */
    function WinLines(): seq<seq<int>>
      reads this
    {
      AllLines(boardSize, requiredInRow)
    }

    /** The state a started game keeps: a board of boardSize^2 cells and the
        run length that goes with the size. */
    ghost predicate Configured()
      reads this
    {
      board.Length == boardSize * boardSize && requiredInRow == RequiredInRow(boardSize)
    }

    /** In a started game every index of every line is a cell of the board,
        so the off-board case of the line test never arises. */
    lemma ConfiguredLinesOnBoard()
      requires Configured()
      ensures forall line :: line in WinLines() ==>
        |line| == requiredInRow && forall i :: 0 <= i < |line| ==> 0 <= line[i] < board.Length
    {
      forall line | line in WinLines()
        ensures |line| == requiredInRow && forall i :: 0 <= i < |line| ==> 0 <= line[i] < board.Length
      {
        LineOnBoard(boardSize, requiredInRow, line);
      }
    }

    /** The state before the first game: an empty board array and the
        initial settings. */
    constructor ()
      ensures board.Length == 0 && playerScore == 0 && botScore == 0
      ensures boardSize == 3 && requiredInRow == 3
      ensures difficulty == Easy && firstMove == PlayerFirst
      ensures isGameActive && isPlayerTurn
    {
      board := new Cell[0];
      playerScore, botScore := 0, 0;
      boardSize, requiredInRow := 3, 3;
      difficulty, firstMove := Easy, PlayerFirst;
      isGameActive, isPlayerTurn := true, true;
    }

    /** A new game (also a rematch): the settings are taken, the scores reset
        and the board cleared; `botDue` says that the computer moves first. */
    method StartGame(size: nat, diff: Difficulty, first: FirstMove) returns (botDue: bool)
      modifies this
      ensures fresh(board) && board[..] == seq(size * size, _ => Empty)
      ensures boardSize == size && requiredInRow == RequiredInRow(size)
      ensures difficulty == diff && firstMove == first
      ensures playerScore == 0 && botScore == 0
      ensures isGameActive == old(isGameActive)
      ensures isPlayerTurn == (first == PlayerFirst)
      ensures botDue == !isPlayerTurn
      ensures Configured()
    {
      boardSize := size;
      difficulty := diff;
      firstMove := first;
      requiredInRow := RequiredInRow(size);
      playerScore, botScore := 0, 0;
      board := new Cell[size * size](_ => Empty);
      isPlayerTurn := first == PlayerFirst;
      botDue := !isPlayerTurn;
    }

    // -------------------------------------------------------------------
    // Outcome checks on the current board

    /** Whether some line is entirely `symbol`. Every line is inspected. */
    method CheckWin(symbol: Cell) returns (found: bool)
      ensures found == HasWon(board[..], WinLines(), symbol)
    {
      var lines := GetLines(boardSize, requiredInRow);
      found := false;
      for j := 0 to |lines|
        invariant found == exists j' :: 0 <= j' < j && LineHas(board[..], lines[j'], symbol)
      {
        if LineHas(board[..], lines[j], symbol) {
          found := true;
        }
      }
    }

    /** The mark of the first line that is all 'X' or all 'O', 'X' tested
        first on each line, or None. */
    method CheckWinSimple() returns (winner: Option<Cell>)
      ensures winner == FirstWinner(board[..], WinLines())
    {
      var lines := GetLines(boardSize, requiredInRow);
      for j := 0 to |lines|
        invariant FirstWinner(board[..], lines) == FirstWinner(board[..], lines[j..])
      {
        assert lines[j..][1..] == lines[j + 1..];
        if LineHas(board[..], lines[j], X) {
          return Some(X);
        }
        if LineHas(board[..], lines[j], O) {
          return Some(O);
        }
      }
      assert lines[|lines|..] == [];
      return None;
    }

    // -------------------------------------------------------------------
    // The search, in place on the board

    /** Depth-bounded minimax on the board itself: each empty cell is marked,
        searched and cleared again, so the board is as it was on return. */
    method Minimax(depth: nat, isMaximizing: bool) returns (v: int)
      modifies board
      ensures board[..] == old(board[..])
      ensures v == MinimaxValue(old(board[..]), WinLines(), depth, isMaximizing)
      decreases depth
    {
      ghost var b := board[..];
      ghost var lines := WinLines();
      var winner := CheckWinSimple();
      if winner == Some(O) {
        return 10;
      }
      if winner == Some(X) {
        return -10;
      }
      if Empty !in board[..] {
        return 0;
      }
      if depth == 0 {
        return 0;
      }
      var mover := if isMaximizing then O else X;
      var best := if isMaximizing then NegInf else PosInf;
      for i := 0 to board.Length
        invariant board[..] == b
        invariant IsScore(best) || best == Start(isMaximizing)
        invariant SearchFrom(b, lines, depth, isMaximizing, 0, Start(isMaximizing))
                  == SearchFrom(b, lines, depth, isMaximizing, i, best)
      {
        if board[i] == Empty {
          board[i] := mover;
          assert board[..] == b[i := Mover(isMaximizing)];
          var score := Minimax(depth - 1, !isMaximizing);
          board[i] := Empty;
          assert board[..] == b;
          best := Better(isMaximizing, best, score);
        }
      }
      v := best;
    }

    /** The top-level search: the empty cell whose score, with 'O' placed
        there, is strictly greater than every earlier one's; None if there is
        no empty cell. The board is as it was on return. */
    method SmartMove(depth: nat) returns (move: Option<nat>)
      modifies board
      ensures board[..] == old(board[..])
      ensures move == BestMove(old(board[..]), WinLines(), depth)
    {
      ghost var b := board[..];
      ghost var scores := Scores(b, WinLines(), depth);
      var bestScore := NegInf;
      move := None;
      for i := 0 to board.Length
        invariant board[..] == b
        invariant BestFrom(b, scores, 0, NegInf, None) == BestFrom(b, scores, i, bestScore, move)
      {
        if board[i] == Empty {
          board[i] := O;
          var score := Minimax(depth, false);
          board[i] := Empty;
          assert board[..] == b;
          if score > bestScore {
            bestScore := score;
            move := Some(i);
          }
        }
      }
    }

    /** Some empty cell, or None when there is none. Any empty cell may be
        chosen: the random draw is not modelled. */
    method RandomMove() returns (move: Option<nat>)
      ensures move.None? <==> Empty !in board[..]
      ensures move.Some? ==> move.value < board.Length && board[move.value] == Empty
    {
      var cells := EmptyCells(board[..]);
      if |cells| == 0 {
        assert forall x :: 0 <= x < board.Length ==> board[x] != Empty;
        return None;
      }
      var j :| 0 <= j < |cells|;
      assert cells[j] in cells;
      move := Some(cells[j]);
    }

    // -------------------------------------------------------------------
    // Moves and turns

    /** Hands the turn to the other side; `botDue` says the computer's move
        is now scheduled. */
    method SwitchTurn() returns (botDue: bool)
      modifies this`isPlayerTurn
      ensures isPlayerTurn == !old(isPlayerTurn)
      ensures botDue == (!isPlayerTurn && isGameActive)
    {
      isPlayerTurn := !isPlayerTurn;
      botDue := !isPlayerTurn && isGameActive;
    }

    /** Places `symbol` on cell `index`; a completed line scores a point for
        the side that placed it; then the turn passes. */
    method MakeMove(index: nat, symbol: Cell) returns (botDue: bool)
      requires index < board.Length && IsMark(symbol)
      modifies this, board
      ensures board == old(board) && board[..] == old(board[..])[index := symbol]
      ensures boardSize == old(boardSize) && requiredInRow == old(requiredInRow)
      ensures difficulty == old(difficulty) && firstMove == old(firstMove)
      ensures playerScore == old(playerScore) + (if symbol == X && HasWon(board[..], WinLines(), symbol) then 1 else 0)
      ensures botScore == old(botScore) + (if symbol == O && HasWon(board[..], WinLines(), symbol) then 1 else 0)
      ensures isGameActive && isPlayerTurn == !old(isPlayerTurn)
      ensures botDue == !isPlayerTurn
    {
      board[index] := symbol;
      isGameActive := true;
      var won := CheckWin(symbol);
      if won {
        if symbol == X {
          playerScore := playerScore + 1;
        } else {
          botScore := botScore + 1;
        }
      }
      botDue := SwitchTurn();
    }

    /** A click on cell `idx`: ignored unless the game is active, it is the
        player's turn and the cell is empty; otherwise the player's 'X' is placed. */
    method OnCellClick(idx: int) returns (botDue: bool)
      modifies this, board
      ensures board == old(board)
      ensures boardSize == old(boardSize) && requiredInRow == old(requiredInRow)
      ensures difficulty == old(difficulty) && firstMove == old(firstMove)
      ensures botScore == old(botScore)
      ensures !old(isGameActive) || !old(isPlayerTurn) || !(0 <= idx < board.Length) || old(board[idx]) != Empty ==>
        && board[..] == old(board[..]) && playerScore == old(playerScore)
        && isGameActive == old(isGameActive) && isPlayerTurn == old(isPlayerTurn) && !botDue
      ensures old(isGameActive) && old(isPlayerTurn) && 0 <= idx < board.Length && old(board[idx]) == Empty ==>
        && board[..] == old(board[..])[idx := X]
        && playerScore == old(playerScore) + (if HasWon(board[..], WinLines(), X) then 1 else 0)
        && isGameActive && !isPlayerTurn && botDue
    {
      if !isGameActive || !isPlayerTurn {
        return false;
      }
      if !(0 <= idx < board.Length) || board[idx] != Empty {
        return false;
      }
      botDue := MakeMove(idx, X);
    }

    /** The move forced on the player when the clock runs out: 'X' on some
        empty cell, or nothing when the board is full. */
    method AutoPlayerMove() returns (botDue: bool)
      modifies this, board
      ensures board == old(board)
      ensures boardSize == old(boardSize) && requiredInRow == old(requiredInRow)
      ensures difficulty == old(difficulty) && firstMove == old(firstMove)
      ensures botScore == old(botScore)
      ensures Empty !in old(board[..]) ==>
        && board[..] == old(board[..]) && playerScore == old(playerScore)
        && isGameActive == old(isGameActive) && isPlayerTurn == old(isPlayerTurn) && !botDue
      ensures Empty in old(board[..]) ==>
        && (exists i :: Moved(old(board[..]), board[..], i, X))
        && playerScore == old(playerScore) + (if HasWon(board[..], WinLines(), X) then 1 else 0)
        && isGameActive && isPlayerTurn == !old(isPlayerTurn) && botDue == !isPlayerTurn
    {
      var move := RandomMove();
      botDue := false;
      if move.Some? {
        botDue := MakeMove(move.value, X);
        assert Moved(old(board[..]), board[..], move.value, X);
      }
    }

    /** The computer's move: random on easy, the top-level search two or four
        plies deep on medium or hard, falling back to a random cell when the
        search finds none. On a full board no cell changes. */
    method BotMove() returns (botDue: bool)
      modifies this, board
      ensures board == old(board)
      ensures boardSize == old(boardSize) && requiredInRow == old(requiredInRow)
      ensures difficulty == old(difficulty) && firstMove == old(firstMove)
      ensures playerScore == old(playerScore)
      ensures !old(isGameActive) || Empty !in old(board[..]) ==>
        && board[..] == old(board[..]) && botScore == old(botScore)
        && isGameActive == old(isGameActive) && isPlayerTurn == old(isPlayerTurn) && !botDue
      ensures old(isGameActive) && Empty in old(board[..]) ==>
        && (exists i :: Moved(old(board[..]), board[..], i, O))
        && botScore == old(botScore) + (if HasWon(board[..], WinLines(), O) then 1 else 0)
        && isGameActive && isPlayerTurn == !old(isPlayerTurn) && botDue == !isPlayerTurn
      ensures old(isGameActive) && Empty in old(board[..]) && difficulty != Easy ==>
        board[..] == old(board[..])[BestMove(old(board[..]), WinLines(), Lookahead(difficulty)).value := O]
    {
      if !isGameActive {
        return false;
      }
      var move: Option<nat>;
      if difficulty == Easy {
        move := RandomMove();
      } else if difficulty == Medium {
        move := SmartMove(2);
      } else {
        move := SmartMove(4);
      }
      if move == None {
        move := RandomMove();
      }
      if move == None {
        return false;
      }
      botDue := MakeMove(move.value, O);
      assert Moved(old(board[..]), board[..], move.value, O);
    }

    /** What the turn clock does when it runs out: the player's forced move
        on the player's turn, the computer's move otherwise. */
    method Timeout() returns (botDue: bool)
      modifies this, board
      ensures board == old(board)
      ensures boardSize == old(boardSize) && requiredInRow == old(requiredInRow)
      ensures difficulty == old(difficulty) && firstMove == old(firstMove)
      // the player's turn: the forced move of AutoPlayerMove
      ensures old(isPlayerTurn) ==> botScore == old(botScore)
      ensures old(isPlayerTurn) && Empty !in old(board[..]) ==>
        && board[..] == old(board[..]) && playerScore == old(playerScore)
        && isGameActive == old(isGameActive) && isPlayerTurn == old(isPlayerTurn) && !botDue
      ensures old(isPlayerTurn) && Empty in old(board[..]) ==>
        && (exists i :: Moved(old(board[..]), board[..], i, X))
        && playerScore == old(playerScore) + (if HasWon(board[..], WinLines(), X) then 1 else 0)
        && isGameActive && !isPlayerTurn && botDue
      // the computer's turn: the move of BotMove
      ensures !old(isPlayerTurn) ==> playerScore == old(playerScore)
      ensures !old(isPlayerTurn) && (!old(isGameActive) || Empty !in old(board[..])) ==>
        && board[..] == old(board[..]) && botScore == old(botScore)
        && isGameActive == old(isGameActive) && isPlayerTurn == old(isPlayerTurn) && !botDue
      ensures !old(isPlayerTurn) && old(isGameActive) && Empty in old(board[..]) ==>
        && (exists i :: Moved(old(board[..]), board[..], i, O))
        && botScore == old(botScore) + (if HasWon(board[..], WinLines(), O) then 1 else 0)
        && isGameActive && isPlayerTurn && !botDue
      ensures !old(isPlayerTurn) && old(isGameActive) && Empty in old(board[..]) && difficulty != Easy ==>
        board[..] == old(board[..])[BestMove(old(board[..]), WinLines(), Lookahead(difficulty)).value := O]
    {
      if isPlayerTurn {
        botDue := AutoPlayerMove();
      } else {
        botDue := BotMove();
      }
    }
  }
}
