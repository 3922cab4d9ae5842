/** Facts about whole boards: an empty board has no winner, the eight lines
    of the 3 by 3 game, and two concrete positions. */
module Scenarios {
  import opened Types
  import opened Lines
  import opened Outcome

  /** With a run length of at least one, no mark has a line on an empty
      board, so the search sees no winner there either. */
  lemma EmptyBoardNoWin(b: seq<Cell>, n: nat, k: nat)
    requires 1 <= k
    requires forall i :: 0 <= i < |b| ==> b[i] == Empty
    ensures !HasWon(b, AllLines(n, k), X) && !HasWon(b, AllLines(n, k), O)
    ensures FirstWinner(b, AllLines(n, k)) == None
  {
    var lines := AllLines(n, k);
    forall j | 0 <= j < |lines|
      ensures !LineHas(b, lines[j], X) && !LineHas(b, lines[j], O)
    {
      LineOnBoard(n, k, lines[j]);
      var line := lines[j];
      assert |line| >= 1;
      assert !(0 <= line[0] < |b|) || b[line[0]] == Empty;
    }
  }

  /** The eight lines of the 3 by 3 board, in the order the generator emits them. */
  const ThreeLines: seq<seq<int>> :=
    [[0, 1, 2], [0, 3, 6], [0, 4, 8], [1, 4, 7], [2, 5, 8], [2, 4, 6], [3, 4, 5], [6, 7, 8]]

  lemma TopRowOfThree()
    ensures RowPrefix(3, 3, 0, 3) == [[0, 1, 2], [0, 3, 6], [0, 4, 8], [1, 4, 7], [2, 5, 8], [2, 4, 6]]
  {
    assert LineOf(3, 3, Placement(0, 0, Horizontal)) == [0, 1, 2];
    assert LineOf(3, 3, Placement(0, 0, Vertical)) == [0, 3, 6];
    assert LineOf(3, 3, Placement(0, 0, DiagRight)) == [0, 4, 8];
    assert CellLines(3, 3, 0, 0) == [[0, 1, 2], [0, 3, 6], [0, 4, 8]];
    assert LineOf(3, 3, Placement(0, 1, Vertical)) == [1, 4, 7];
    assert CellLines(3, 3, 0, 1) == [[1, 4, 7]];
    assert LineOf(3, 3, Placement(0, 2, Vertical)) == [2, 5, 8];
    assert LineOf(3, 3, Placement(0, 2, DiagLeft)) == [2, 4, 6];
    assert CellLines(3, 3, 0, 2) == [[2, 5, 8], [2, 4, 6]];
  }

  lemma LowerRowsOfThree()
    ensures RowPrefix(3, 3, 1, 3) == [[3, 4, 5]]
    ensures RowPrefix(3, 3, 2, 3) == [[6, 7, 8]]
  {
    assert LineOf(3, 3, Placement(1, 0, Horizontal)) == [3, 4, 5];
    assert CellLines(3, 3, 1, 0) == [[3, 4, 5]];
    assert CellLines(3, 3, 1, 1) == [] && CellLines(3, 3, 1, 2) == [];
    assert LineOf(3, 3, Placement(2, 0, Horizontal)) == [6, 7, 8];
    assert CellLines(3, 3, 2, 0) == [[6, 7, 8]];
    assert CellLines(3, 3, 2, 1) == [] && CellLines(3, 3, 2, 2) == [];
  }

  /** The lines of the 3 by 3 board: its three rows, three columns and two
      diagonals, in generator order. */
  lemma ThreeByThreeLines()
    ensures AllLines(3, 3) == ThreeLines
  {
    TopRowOfThree();
    LowerRowsOfThree();
  }

  /** On the 3 by 3 board, two 'X' in the top row are not a win, and a
      third one at index 2 is. */
  lemma TopRowCompletes()
    ensures !HasWon([X, X, Empty, Empty, Empty, Empty, Empty, Empty, Empty], AllLines(3, 3), X)
    ensures HasWon([X, X, X, Empty, Empty, Empty, Empty, Empty, Empty], AllLines(3, 3), X)
  {
    ThreeByThreeLines();
    TopRowOnThreeLines();
  }

  lemma TopRowOnThreeLines()
    ensures !HasWon([X, X, Empty, Empty, Empty, Empty, Empty, Empty, Empty], ThreeLines, X)
    ensures HasWon([X, X, X, Empty, Empty, Empty, Empty, Empty, Empty], ThreeLines, X)
  {
    var b := [X, X, Empty, Empty, Empty, Empty, Empty, Empty, Empty];
    forall j | 0 <= j < |ThreeLines|
      ensures !LineHas(b, ThreeLines[j], X)
    {
      assert 2 <= ThreeLines[j][2] < 9;
    }
    assert LineHas([X, X, X, Empty, Empty, Empty, Empty, Empty, Empty], ThreeLines[0], X);
  }

  /** The line of a valid placement, once it is all `s`, is a win for `s`. */
  lemma RunWins(b: seq<Cell>, n: nat, k: nat, p: Placement, s: Cell)
    requires ValidPlacement(n, k, p)
    requires LineHas(b, LineOf(n, k, p), s)
    ensures HasWon(b, AllLines(n, k), s)
  {
    PlacementGenerated(n, k, p);
    var lines := AllLines(n, k);
    var j :| 0 <= j < |lines| && lines[j] == LineOf(n, k, p);
  }

  /** On the 6 by 6 board with run length 4, four 'O' at indices 2 .. 5 of
      the top row are a win for 'O'. */
  lemma SixBySixTopRun(b: seq<Cell>)
    requires |b| == 36 && b[2] == O && b[3] == O && b[4] == O && b[5] == O
    ensures HasWon(b, AllLines(6, 4), O)
  {
    var p := Placement(0, 2, Horizontal);
    assert LineOf(6, 4, p) == [2, 3, 4, 5];
    assert LineHas(b, [2, 3, 4, 5], O);
    RunWins(b, 6, 4, p, O);
  }
}
