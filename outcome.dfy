/** The outcome checks: whether a mark has completed a line, and which mark
    the search sees as the winner. */
module Outcome {
  import opened Types

  /** Every index of the line holds `s`. An index off the board reads as `undefined`, which is never `s`. */
  predicate LineHas(b: seq<Cell>, line: seq<int>, s: Cell): (r: bool)
    ensures (exists i :: 0 <= i < |line| && !(0 <= line[i] < |b|)) ==> !r
    ensures |line| == 0 ==> r
    ensures r && |line| > 0 ==> b[line[0]] == s
  {
    forall i :: 0 <= i < |line| ==> 0 <= line[i] < |b| && b[line[i]] == s
  }

  /** Some line is entirely `s`. */
  predicate HasWon(b: seq<Cell>, lines: seq<seq<int>>, s: Cell): (r: bool)
    ensures r <==> exists line :: line in lines && LineHas(b, line, s)
    ensures lines == [] ==> !r
  {
    exists j :: 0 <= j < |lines| && LineHas(b, lines[j], s)
  }

  /** Line `j` is the first line that is uniformly 'X' or 'O', and `s` is the
      mark reported for it: 'X' whenever the line is all 'X', else 'O'. */
  predicate IsFirstWin(b: seq<Cell>, lines: seq<seq<int>>, j: int, s: Cell) {
    && 0 <= j < |lines|
    && IsMark(s)
    && LineHas(b, lines[j], s)
    && (s == O ==> !LineHas(b, lines[j], X))
    && forall j' :: 0 <= j' < j ==> !LineHas(b, lines[j'], X) && !LineHas(b, lines[j'], O)
  }

  /** The winner as the search sees it: the lines are tested in order, and
      for each line 'X' is tested before 'O'. */
  function FirstWinner(b: seq<Cell>, lines: seq<seq<int>>): (w: Option<Cell>)
    ensures w == None <==> !HasWon(b, lines, X) && !HasWon(b, lines, O)
    ensures w.Some? ==> exists j :: IsFirstWin(b, lines, j, w.value)
  {
    if lines == [] then None
    else if LineHas(b, lines[0], X) then
      assert IsFirstWin(b, lines, 0, X);
      Some(X)
    else if LineHas(b, lines[0], O) then
      assert IsFirstWin(b, lines, 0, O);
      Some(O)
    else
      var w := FirstWinner(b, lines[1..]);
      FirstWinnerShift(b, lines, w);
      w
  }

  /** Dropping a first line that is neither all 'X' nor all 'O' changes
      neither who has won nor which line is the first winning one. */
  lemma FirstWinnerShift(b: seq<Cell>, lines: seq<seq<int>>, w: Option<Cell>)
    requires lines != []
    requires !LineHas(b, lines[0], X) && !LineHas(b, lines[0], O)
    requires w == None <==> !HasWon(b, lines[1..], X) && !HasWon(b, lines[1..], O)
    requires w.Some? ==> exists j :: IsFirstWin(b, lines[1..], j, w.value)
    ensures w == None <==> !HasWon(b, lines, X) && !HasWon(b, lines, O)
    ensures w.Some? ==> exists j :: IsFirstWin(b, lines, j, w.value)
  {
    var rest := lines[1..];
    forall s | s == X || s == O
      ensures HasWon(b, lines, s) <==> HasWon(b, rest, s)
    {
      if HasWon(b, lines, s) {
        var j :| 0 <= j < |lines| && LineHas(b, lines[j], s);
        assert j > 0 && rest[j - 1] == lines[j];
      }
      if HasWon(b, rest, s) {
        var j :| 0 <= j < |rest| && LineHas(b, rest[j], s);
        assert lines[j + 1] == rest[j];
      }
    }
    if w.Some? {
      var j :| IsFirstWin(b, rest, j, w.value);
      forall j' | 0 <= j' < j + 1
        ensures !LineHas(b, lines[j'], X) && !LineHas(b, lines[j'], O)
      {
        if j' > 0 {
          assert lines[j'] == rest[j' - 1];
        }
      }
      assert IsFirstWin(b, lines, j + 1, w.value);
    }
  }

  /** A completed line stays completed when an empty cell is marked: so once
      a mark has a line, every later move by that mark finds a win again. */
  lemma HasWonPersists(b: seq<Cell>, lines: seq<seq<int>>, s: Cell, i: int, t: Cell)
    requires HasWon(b, lines, s) && IsMark(s)
    requires 0 <= i < |b| && b[i] == Empty
    ensures HasWon(b[i := t], lines, s)
  {
    var j :| 0 <= j < |lines| && LineHas(b, lines[j], s);
    assert LineHas(b[i := t], lines[j], s);
  }
}
