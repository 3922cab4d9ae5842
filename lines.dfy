/** The win-line generator: every run of `k` cells in a row, a column or one
    of the two diagonal directions of an `n` by `n` board whose cells are
    numbered row by row (cell `r * n + c` is row `r`, column `c`). */
module Lines {

  /** The four directions in which a winning run can lie. */
  datatype Dir = Horizontal | Vertical | DiagRight | DiagLeft

  /** A candidate line: its first cell and its direction. */
  datatype Placement = Placement(row: int, col: int, dir: Dir)

  /** How far one index of a line is from the next. */
  function Step(n: nat, d: Dir): int {
    match d
    case Horizontal => 1
    case Vertical => n
    case DiagRight => n + 1
    case DiagLeft => n - 1
  }

  /** How the row changes from one cell of a line to the next. */
  function RowDelta(d: Dir): int {
    if d == Horizontal then 0 else 1
  }

  /** How the column changes from one cell of a line to the next. */
  function ColDelta(d: Dir): int {
    match d
    case Horizontal => 1
    case Vertical => 0
    case DiagRight => 1
    case DiagLeft => -1
  }

  /** The test the generator makes before emitting a line of direction `d`
      from row `r`, column `c`. */
  predicate Fits(n: nat, k: nat, r: int, c: int, d: Dir) {
    match d
    case Horizontal => c <= n - k
    case Vertical => r <= n - k
    case DiagRight => r <= n - k && c <= n - k
    case DiagLeft => r <= n - k && c >= k - 1
  }

  /** A placement the generator emits: it starts on the board and passes the test. */
  predicate ValidPlacement(n: nat, k: nat, p: Placement) {
    0 <= p.row < n && 0 <= p.col < n && Fits(n, k, p.row, p.col, p.dir)
  }

  /** `k` indices, starting at `start`, each `step` after the previous one. */
  function LineFrom(start: int, step: int, k: nat): seq<int> {
    seq(k, i => start + i * step)
  }

  /** The indices of the line that a placement describes. */
  function LineOf(n: nat, k: nat, p: Placement): seq<int> {
    LineFrom(p.row * n + p.col, Step(n, p.dir), k)
  }

  /** The line emitted in direction `d` from cell (r, c), if its test passes. */
  function LineIf(n: nat, k: nat, r: int, c: int, d: Dir): seq<seq<int>> {
    if Fits(n, k, r, c, d) then [LineOf(n, k, Placement(r, c, d))] else []
  }

  /** The lines emitted for one cell, in the order: horizontal, vertical,
      down-right, down-left. */
  function CellLines(n: nat, k: nat, r: int, c: int): seq<seq<int>> {
    LineIf(n, k, r, c, Horizontal) + LineIf(n, k, r, c, Vertical)
      + LineIf(n, k, r, c, DiagRight) + LineIf(n, k, r, c, DiagLeft)
  }

  /** The lines emitted for columns 0 .. c-1 of row r. */
  function RowPrefix(n: nat, k: nat, r: int, c: nat): seq<seq<int>> {
    if c == 0 then [] else RowPrefix(n, k, r, c - 1) + CellLines(n, k, r, c - 1)
  }

  /** The lines emitted for rows 0 .. r-1. */
  function GridPrefix(n: nat, k: nat, r: nat): seq<seq<int>> {
    if r == 0 then [] else GridPrefix(n, k, r - 1) + RowPrefix(n, k, r - 1, n)
  }

  /** Every line of the board, in the order the generator emits them. */
  function AllLines(n: nat, k: nat): seq<seq<int>> {
    GridPrefix(n, k, n)
  }

  /** One run of `k` indices, built by appending one index at a time. */
  method Run(start: int, step: int, k: nat) returns (line: seq<int>)
    ensures line == LineFrom(start, step, k)
  {
    line := [];
    for i := 0 to k
      invariant line == LineFrom(start, step, i)
    {
      line := line + [start + i * step];
    }
  }

  /** The generator: for every cell, row by row, the lines that start there. */
  method GetLines(n: nat, k: nat) returns (lines: seq<seq<int>>)
    ensures lines == AllLines(n, k)
  {
    lines := [];
    for r := 0 to n
      invariant lines == GridPrefix(n, k, r)
    {
      lines := EmitRow(lines, n, k, r);
      GridPrefixStep(n, k, r);
    }
  }

  /** The generator's inner loop: the lines of every cell of row `r`,
      column by column, appended to `lines`. */
  method EmitRow(lines0: seq<seq<int>>, n: nat, k: nat, r: nat) returns (lines: seq<seq<int>>)
    ensures lines == lines0 + RowPrefix(n, k, r, n)
  {
    lines := lines0;
    for c := 0 to n
      invariant lines == lines0 + RowPrefix(n, k, r, c)
    {
      ghost var row := RowPrefix(n, k, r, c);
      lines := EmitCell(lines, n, k, r, c, r * n + c);
      assert lines == lines0 + (row + CellLines(n, k, r, c));
      RowPrefixStep(n, k, r, c);
    }
  }

  lemma RowPrefixStep(n: nat, k: nat, r: int, c: nat)
    ensures RowPrefix(n, k, r, c + 1) == RowPrefix(n, k, r, c) + CellLines(n, k, r, c)
  {
  }

  lemma GridPrefixStep(n: nat, k: nat, r: nat)
    ensures GridPrefix(n, k, r + 1) == GridPrefix(n, k, r) + RowPrefix(n, k, r, n)
  {
  }

  /** The body of the generator's inner loop: the lines that start at
      cell (r, c), whose index is `idx`, appended to `lines`. */
  method EmitCell(lines0: seq<seq<int>>, n: nat, k: nat, r: int, c: int, idx: int)
    returns (lines: seq<seq<int>>)
    requires idx == r * n + c
    ensures lines == lines0 + CellLines(n, k, r, c)
  {
    lines := lines0;
    if c <= n - k {
      var row := Run(idx, 1, k);
      lines := lines + [row];
    }
    assert lines == lines0 + LineIf(n, k, r, c, Horizontal);
    if r <= n - k {
      var col := Run(idx, n, k);
      lines := lines + [col];
    }
    assert lines == lines0 + LineIf(n, k, r, c, Horizontal) + LineIf(n, k, r, c, Vertical);
    if r <= n - k && c <= n - k {
      var diag1 := Run(idx, n + 1, k);
      lines := lines + [diag1];
    }
    assert lines == lines0 + LineIf(n, k, r, c, Horizontal) + LineIf(n, k, r, c, Vertical)
                    + LineIf(n, k, r, c, DiagRight);
    if r <= n - k && c >= k - 1 {
      var diag2 := Run(idx, n - 1, k);
      lines := lines + [diag2];
    }
  }

  // ---------------------------------------------------------------------
  // Shape of the lines

  /** The row of cell `i` of a placement's line. */
  function RowAt(p: Placement, i: int): int {
    if p.dir == Horizontal then p.row else p.row + i
  }

  /** The column of cell `i` of a placement's line. */
  function ColAt(p: Placement, i: int): int {
    match p.dir
    case Horizontal => p.col + i
    case Vertical => p.col
    case DiagRight => p.col + i
    case DiagLeft => p.col - i
  }

  lemma Distrib(a: int, b: int, n: int)
    ensures (a + b) * n == a * n + b * n
  {
  }

  /** A placement the generator emits stays on the board for all `k` of its
      cells, and the index of cell `i` is its row times `n` plus its column. */
  lemma PlacementCells(n: nat, k: nat, p: Placement, i: int)
    requires ValidPlacement(n, k, p)
    requires 0 <= i < k
    ensures 0 <= RowAt(p, i) < n
    ensures 0 <= ColAt(p, i) < n
    ensures |LineOf(n, k, p)| == k
    ensures LineOf(n, k, p)[i] == RowAt(p, i) * n + ColAt(p, i)
  {
    var line := LineOf(n, k, p);
    assert line[i] == p.row * n + p.col + i * Step(n, p.dir);
    match p.dir
    case Horizontal =>
    case Vertical =>
      Distrib(p.row, i, n);
    case DiagRight =>
      Distrib(p.row, i, n);
      Distrib(n, 1, i);
    case DiagLeft =>
      Distrib(p.row, i, n);
      Distrib(n, -1, i);
  }

  /** A positive multiple of a non-negative number is at least that number. */
  lemma MulAtLeast(a: int, n: nat)
    requires a >= 1
    ensures a * n >= n
  {
    if a > 1 {
      MulAtLeast(a - 1, n);
      assert a * n == (a - 1) * n + n;
    }
  }

  /** Row and column of an index are recovered by division and remainder. */
  lemma IndexDecomposes(n: nat, r: int, c: int)
    requires 0 <= r < n && 0 <= c < n
    ensures 0 <= r * n + c < n * n
    ensures (r * n + c) / n == r && (r * n + c) % n == c
  {
    var x := r * n + c;
    var q, m := x / n, x % n;
    assert x == q * n + m;
    assert (r - q) * n == m - c by {
      assert (r - q) * n == r * n - q * n;
    }
    if r > q {
      MulAtLeast(r - q, n);
    } else if r < q {
      MulAtLeast(q - r, n);
    }
    assert r * n <= (n - 1) * n by {
      if r < n - 1 {
        MulAtLeast(n - 1 - r, n);
        assert (n - 1) * n - r * n == (n - 1 - r) * n;
      }
    }
    assert (n - 1) * n == n * n - n;
  }

  /** Each line a cell emits comes from a valid placement at that cell. */
  lemma CellLinesFromPlacements(n: nat, k: nat, r: int, c: int, line: seq<int>)
    requires 0 <= r < n && 0 <= c < n
    requires line in CellLines(n, k, r, c)
    ensures exists p :: ValidPlacement(n, k, p) && line == LineOf(n, k, p)
  {
    if line in LineIf(n, k, r, c, Horizontal) {
      assert ValidPlacement(n, k, Placement(r, c, Horizontal));
    } else if line in LineIf(n, k, r, c, Vertical) {
      assert ValidPlacement(n, k, Placement(r, c, Vertical));
    } else if line in LineIf(n, k, r, c, DiagRight) {
      assert ValidPlacement(n, k, Placement(r, c, DiagRight));
    } else {
      assert line in LineIf(n, k, r, c, DiagLeft);
      assert ValidPlacement(n, k, Placement(r, c, DiagLeft));
    }
  }

  lemma {:induction false} RowPrefixFromPlacements(n: nat, k: nat, r: int, c: nat, line: seq<int>)
    requires 0 <= r < n && c <= n
    requires line in RowPrefix(n, k, r, c)
    ensures exists p :: ValidPlacement(n, k, p) && line == LineOf(n, k, p)
  {
    if line in RowPrefix(n, k, r, c - 1) {
      RowPrefixFromPlacements(n, k, r, c - 1, line);
    } else {
      CellLinesFromPlacements(n, k, r, c - 1, line);
    }
  }

  lemma {:induction false} GridPrefixFromPlacements(n: nat, k: nat, r: nat, line: seq<int>)
    requires r <= n
    requires line in GridPrefix(n, k, r)
    ensures exists p :: ValidPlacement(n, k, p) && line == LineOf(n, k, p)
  {
    if line in GridPrefix(n, k, r - 1) {
      GridPrefixFromPlacements(n, k, r - 1, line);
    } else {
      RowPrefixFromPlacements(n, k, r - 1, n, line);
    }
  }

  /** Every generated line has exactly `k` indices, all in [0, n*n). */
  lemma LineOnBoard(n: nat, k: nat, line: seq<int>)
    requires line in AllLines(n, k)
    ensures |line| == k
    ensures forall i :: 0 <= i < k ==> 0 <= line[i] < n * n
  {
    GridPrefixFromPlacements(n, k, n, line);
    var p :| ValidPlacement(n, k, p) && line == LineOf(n, k, p);
    forall i | 0 <= i < k
      ensures 0 <= line[i] < n * n
    {
      PlacementCells(n, k, p, i);
      IndexDecomposes(n, RowAt(p, i), ColAt(p, i));
    }
  }

  /** Two consecutive indices of a valid placement's line: one step apart,
      and one row delta and one column delta apart on the board. */
  lemma ConsecutiveCells(n: nat, k: nat, p: Placement, i: int)
    requires ValidPlacement(n, k, p)
    requires 0 <= i < k - 1
    ensures var line := LineOf(n, k, p);
      && line[i + 1] == line[i] + Step(n, p.dir)
      && line[i + 1] / n == line[i] / n + RowDelta(p.dir)
      && line[i + 1] % n == line[i] % n + ColDelta(p.dir)
  {
    var line := LineOf(n, k, p);
    assert line[i + 1] == line[i] + Step(n, p.dir) by {
      Distrib(i, 1, Step(n, p.dir));
    }
    PlacementCells(n, k, p, i);
    IndexDecomposes(n, RowAt(p, i), ColAt(p, i));
    PlacementCells(n, k, p, i + 1);
    IndexDecomposes(n, RowAt(p, i + 1), ColAt(p, i + 1));
  }

  /** Every generated line is an arithmetic progression of step 1, n, n+1
      or n-1 whose cells move one row down and one column right, left or not
      at all at each step (row = index / n, column = index % n), so it never
      wraps across the edge of a row. */
  lemma LineShape(n: nat, k: nat, line: seq<int>)
    requires line in AllLines(n, k)
    ensures |line| == k
    ensures exists d: Dir :: forall i :: 0 <= i < k - 1 ==>
              && line[i + 1] == line[i] + Step(n, d)
              && line[i + 1] / n == line[i] / n + RowDelta(d)
              && line[i + 1] % n == line[i] % n + ColDelta(d)
  {
    GridPrefixFromPlacements(n, k, n, line);
    var p :| ValidPlacement(n, k, p) && line == LineOf(n, k, p);
    forall i | 0 <= i < k - 1
      ensures line[i + 1] == line[i] + Step(n, p.dir)
      ensures line[i + 1] / n == line[i] / n + RowDelta(p.dir)
      ensures line[i + 1] % n == line[i] % n + ColDelta(p.dir)
    {
      ConsecutiveCells(n, k, p, i);
    }
  }

  // ---------------------------------------------------------------------
  // Completeness: every run of k cells is generated

  lemma {:induction false} RowPrefixGrows(n: nat, k: nat, r: int, c: nat, c': nat, line: seq<int>)
    requires c <= c'
    requires line in RowPrefix(n, k, r, c)
    ensures line in RowPrefix(n, k, r, c')
  {
    if c' > c {
      RowPrefixGrows(n, k, r, c, c' - 1, line);
      assert RowPrefix(n, k, r, c') == RowPrefix(n, k, r, c' - 1) + CellLines(n, k, r, c' - 1);
    }
  }

  lemma {:induction false} GridPrefixGrows(n: nat, k: nat, r: nat, r': nat, line: seq<int>)
    requires r <= r'
    requires line in GridPrefix(n, k, r)
    ensures line in GridPrefix(n, k, r')
  {
    if r' > r {
      GridPrefixGrows(n, k, r, r' - 1, line);
      var earlier := GridPrefix(n, k, r' - 1);
      assert line in earlier;
      assert GridPrefix(n, k, r') == earlier + RowPrefix(n, k, r' - 1, n);
    }
  }

  /** Conversely, every valid placement's line is among the generated lines. */
  lemma PlacementGenerated(n: nat, k: nat, p: Placement)
    requires ValidPlacement(n, k, p)
    ensures LineOf(n, k, p) in AllLines(n, k)
  {
    var line := LineOf(n, k, p);
    assert line in LineIf(n, k, p.row, p.col, p.dir);
    assert line in CellLines(n, k, p.row, p.col);
    assert RowPrefix(n, k, p.row, p.col + 1) == RowPrefix(n, k, p.row, p.col) + CellLines(n, k, p.row, p.col);
    RowPrefixGrows(n, k, p.row, p.col + 1, n, line);
    assert GridPrefix(n, k, p.row + 1) == GridPrefix(n, k, p.row) + RowPrefix(n, k, p.row, n);
    GridPrefixGrows(n, k, p.row + 1, n, line);
  }

  // ---------------------------------------------------------------------
  // Number of lines

  function Min(a: int, b: int): int { if a <= b then a else b }
  function Max0(a: int): int { if a >= 0 then a else 0 }

  lemma CellLinesCount(n: nat, k: nat, r: int, c: int)
    ensures |CellLines(n, k, r, c)| ==
      (if c <= n - k then 1 else 0) + (if r <= n - k then 1 else 0)
      + (if r <= n - k && c <= n - k then 1 else 0) + (if r <= n - k && c >= k - 1 then 1 else 0)
  {
  }

  lemma {:induction false} RowPrefixCount(n: nat, k: nat, r: int, c: nat)
    requires 1 <= k <= n && c <= n
    ensures |RowPrefix(n, k, r, c)| ==
      Min(c, n - k + 1) + (if r <= n - k then c + Min(c, n - k + 1) + Max0(c - k + 1) else 0)
  {
    if c > 0 {
      RowPrefixCount(n, k, r, c - 1);
      CellLinesCount(n, k, r, c - 1);
    }
  }

  /** The arithmetic of one row's step in GridPrefixCount. */
  lemma CountStep(r: int, m: int, w: int, a: int, t: int)
    ensures ((r - 1) * m + a * w) + (m + t * w) == r * m + (a + t) * w
  {
    assert (r - 1) * m + m == r * m;
    assert a * w + t * w == (a + t) * w;
  }

  lemma {:induction false} GridPrefixCount(n: nat, k: nat, r: nat)
    requires 1 <= k <= n && r <= n
    ensures |GridPrefix(n, k, r)| == r * (n - k + 1) + Min(r, n - k + 1) * (3 * n - 2 * k + 2)
  {
    if r > 0 {
      var m := n - k + 1;
      var w := 3 * n - 2 * k + 2;
      GridPrefixCount(n, k, r - 1);
      RowPrefixCount(n, k, r - 1, n);
      var t := if r - 1 <= n - k then 1 else 0;
      assert |RowPrefix(n, k, r - 1, n)| == m + t * w;
      assert Min(r, m) == Min(r - 1, m) + t;
      CountStep(r, m, w, Min(r - 1, m), t);
    }
  }

  /** An n by n board with run length k (1 <= k <= n) has
      2 n (n-k+1) + 2 (n-k+1)^2 candidate lines: n (n-k+1) rows, as many
      columns and (n-k+1)^2 in each diagonal direction. */
  lemma LineCount(n: nat, k: nat)
    requires 1 <= k <= n
    ensures |AllLines(n, k)| == 2 * n * (n - k + 1) + 2 * (n - k + 1) * (n - k + 1)
  {
    GridPrefixCount(n, k, n);
    var m := n - k + 1;
    assert Min(n, m) == m;
    assert 3 * n - 2 * k + 2 == n + 2 * m;
    assert m * (n + 2 * m) == n * m + 2 * m * m;
  }
}
