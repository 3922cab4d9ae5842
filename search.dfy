/** The computer opponent's search, as functions of the board: the value
    that depth-bounded minimax assigns to a position and the move that the
    top-level search picks. The in-place versions in module Game are proved
    to compute exactly these. */
module Search {
  import opened Types
  import opened Outcome

  /** Integer stand-ins for the search's `-Infinity` and `Infinity`: below and
      above every value a position can have. */
  const NegInf: int := -11
  const PosInf: int := 11

  /** The values a position can have: a win for 'O', a draw or undecided,
      a win for 'X'. */
  predicate IsScore(v: int) {
    v == -10 || v == 0 || v == 10
  }

  /** The mark placed at a ply: 'O' maximizes, 'X' minimizes. */
  function Mover(maximizing: bool): Cell {
    if maximizing then O else X
  }

  /** The value a ply starts from before any child is seen. */
  function Start(maximizing: bool): int {
    if maximizing then NegInf else PosInf
  }

  /** `Math.max(best, v)` on a maximizing ply, `Math.min(best, v)` otherwise. */
  function Better(maximizing: bool, best: int, v: int): int {
    if maximizing then (if v > best then v else best)
    else (if v < best then v else best)
  }

  /** The value of a position, searched `depth` plies deep: +10 if the first
      winning line belongs to 'O', -10 if to 'X', 0 on a full board or when
      the depth is spent, and otherwise the best child for the mover. */
  function MinimaxValue(b: seq<Cell>, lines: seq<seq<int>>, depth: nat, maximizing: bool): (v: int)
    ensures IsScore(v)
    decreases depth, 1
  {
    var w := FirstWinner(b, lines);
    if w == Some(O) then 10
    else if w == Some(X) then -10
    else if Empty !in b then 0
    else if depth == 0 then 0
    else SearchFrom(b, lines, depth, maximizing, 0, Start(maximizing))
  }

  /** The children of a ply from cell `i` on, folded into `best`: each empty
      cell is tried with the mover's mark, one ply shallower, the other side
      moving next. */
  function SearchFrom(b: seq<Cell>, lines: seq<seq<int>>, depth: nat, maximizing: bool, i: nat, best: int): (v: int)
    requires 0 < depth && i <= |b|
    requires IsScore(best) || best == Start(maximizing)
    ensures IsScore(v) || (v == best && forall j :: i <= j < |b| ==> b[j] != Empty)
    decreases depth, 0, |b| - i
  {
    if i == |b| then best
    else if b[i] != Empty then SearchFrom(b, lines, depth, maximizing, i + 1, best)
    else
      var child := MinimaxValue(b[i := Mover(maximizing)], lines, depth - 1, !maximizing);
      SearchFrom(b, lines, depth, maximizing, i + 1, Better(maximizing, best, child))
  }

  /** The value of the child reached by marking empty cell `i`. */
  function Child(b: seq<Cell>, lines: seq<seq<int>>, depth: nat, maximizing: bool, i: nat): int
    requires 0 < depth && i < |b|
  {
    MinimaxValue(b[i := Mover(maximizing)], lines, depth - 1, !maximizing)
  }

  lemma {:induction false} SearchFromIsExtremum(b: seq<Cell>, lines: seq<seq<int>>, depth: nat, maximizing: bool, i: nat, best: int)
    requires 0 < depth && i <= |b|
    requires IsScore(best) || best == Start(maximizing)
    ensures var v := SearchFrom(b, lines, depth, maximizing, i, best);
      && (maximizing ==> best <= v) && (!maximizing ==> v <= best)
      && (forall j :: i <= j < |b| && b[j] == Empty ==>
            if maximizing then Child(b, lines, depth, maximizing, j) <= v
            else v <= Child(b, lines, depth, maximizing, j))
      && (v == best || exists j :: i <= j < |b| && b[j] == Empty && v == Child(b, lines, depth, maximizing, j))
    decreases |b| - i
  {
    if i < |b| {
      if b[i] != Empty {
        SearchFromIsExtremum(b, lines, depth, maximizing, i + 1, best);
      } else {
        var child := Child(b, lines, depth, maximizing, i);
        SearchFromIsExtremum(b, lines, depth, maximizing, i + 1, Better(maximizing, best, child));
      }
    }
  }

  /** On a position with no winner yet, an empty cell and depth left, the
      value is the largest child value when 'O' is to move and the smallest
      when 'X' is to move, and some empty cell attains it. */
  lemma MinimaxIsExtremum(b: seq<Cell>, lines: seq<seq<int>>, depth: nat, maximizing: bool)
    requires FirstWinner(b, lines) == None && Empty in b && depth > 0
    ensures var v := MinimaxValue(b, lines, depth, maximizing);
      && (forall j :: 0 <= j < |b| && b[j] == Empty ==>
            if maximizing then Child(b, lines, depth, maximizing, j) <= v
            else v <= Child(b, lines, depth, maximizing, j))
      && (exists j :: 0 <= j < |b| && b[j] == Empty && v == Child(b, lines, depth, maximizing, j))
  {
    SearchFromIsExtremum(b, lines, depth, maximizing, 0, Start(maximizing));
  }

  // ---------------------------------------------------------------------
  // The top-level move choice

  /** What the top-level search scores cell `i` with: 'O' placed there, then
      `depth` plies of search with 'X' to move. */
  function Score(b: seq<Cell>, lines: seq<seq<int>>, depth: nat, i: nat): int
    requires i < |b|
  {
    MinimaxValue(b[i := O], lines, depth, false)
  }

  /** The score of every cell, in cell order. */
  function Scores(b: seq<Cell>, lines: seq<seq<int>>, depth: nat): (s: seq<int>)
    ensures |s| == |b|
    ensures forall j :: 0 <= j < |b| ==> s[j] == Score(b, lines, depth, j) && IsScore(s[j])
  {
    seq(|b|, j requires 0 <= j < |b| => Score(b, lines, depth, j))
  }

  /** The top-level loop from cell `i` on, given the cells' scores: a cell
      replaces the current choice only when its score is strictly greater. */
  function BestFrom(b: seq<Cell>, scores: seq<int>, i: nat, bestScore: int, move: Option<nat>): (m: Option<nat>)
    requires i <= |b| == |scores|
    ensures m == move || (m.Some? && i <= m.value < |b| && b[m.value] == Empty && scores[m.value] > bestScore)
    decreases |b| - i
  {
    if i == |b| then move
    else if b[i] == Empty && scores[i] > bestScore then BestFrom(b, scores, i + 1, scores[i], Some(i))
    else BestFrom(b, scores, i + 1, bestScore, move)
  }

  /** `m` is an empty cell of greatest score, and the lowest-numbered one
      among those; or there is no empty cell and `m` is None. */
  predicate IsBestMove(b: seq<Cell>, scores: seq<int>, m: Option<nat>)
    requires |b| == |scores|
  {
    match m
    case None => forall j :: 0 <= j < |b| ==> b[j] != Empty
    case Some(c) =>
      && c < |b| && b[c] == Empty
      && (forall j :: 0 <= j < |b| && b[j] == Empty ==> scores[j] <= scores[c])
      && (forall j :: 0 <= j < c && b[j] == Empty ==> scores[j] < scores[c])
  }

  /** What the top-level loop knows after seeing cells 0 .. i-1. */
  predicate BestSoFar(b: seq<Cell>, scores: seq<int>, i: nat, bestScore: int, move: Option<nat>)
    requires i <= |b| == |scores|
  {
    match move
    case None => bestScore == NegInf && forall j :: 0 <= j < i ==> b[j] != Empty
    case Some(c) =>
      && c < i && b[c] == Empty && bestScore == scores[c]
      && (forall j :: 0 <= j < i && b[j] == Empty ==> scores[j] <= bestScore)
      && (forall j :: 0 <= j < c && b[j] == Empty ==> scores[j] < bestScore)
  }

  lemma {:induction false} BestFromCorrect(b: seq<Cell>, scores: seq<int>, i: nat, bestScore: int, move: Option<nat>)
    requires i <= |b| == |scores|
    requires forall j :: 0 <= j < |b| ==> scores[j] > NegInf
    requires BestSoFar(b, scores, i, bestScore, move)
    ensures IsBestMove(b, scores, BestFrom(b, scores, i, bestScore, move))
    decreases |b| - i
  {
    if i < |b| {
      if b[i] == Empty && scores[i] > bestScore {
        BestFromCorrect(b, scores, i + 1, scores[i], Some(i));
      } else {
        BestFromCorrect(b, scores, i + 1, bestScore, move);
      }
    }
  }

  /** The move the top-level search returns for a board: an empty cell of
      greatest score, the lowest-numbered among equals, or None exactly when
      no cell is empty. */
  function BestMove(b: seq<Cell>, lines: seq<seq<int>>, depth: nat): (m: Option<nat>)
    ensures m.None? <==> Empty !in b
    ensures m.Some? ==> m.value < |b| && b[m.value] == Empty
    ensures m.Some? ==> forall j :: 0 <= j < |b| && b[j] == Empty ==>
              Score(b, lines, depth, j) <= Score(b, lines, depth, m.value)
    ensures m.Some? ==> forall j :: 0 <= j < m.value && b[j] == Empty ==>
              Score(b, lines, depth, j) < Score(b, lines, depth, m.value)
  {
    var scores := Scores(b, lines, depth);
    BestFromCorrect(b, scores, 0, NegInf, None);
    BestFrom(b, scores, 0, NegInf, None)
  }
}
