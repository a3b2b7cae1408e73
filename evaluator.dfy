/** The heuristic that scores a candidate resting placement: four board
    features, combined linearly with the genome's four weights. */
module Evaluator {
  import opened Shapes
  import opened Board

  function Abs(n: int): nat {
    if n < 0 then -n else n
  }

  /** First row at or below r whose cell in column c is occupied; rows when there is none. */
  function TopFrom(t: Grid, rows: nat, cols: nat, c: nat, r: nat): (top: nat)
    requires IsGrid(t, rows, cols) && c < cols && r <= rows
    ensures r <= top <= rows
    ensures top < rows ==> t[top][c] != 0
    ensures forall k :: r <= k < top ==> t[k][c] == 0
    decreases rows - r
  {
    if r == rows then r
    else if t[r][c] != 0 then r
    else TopFrom(t, rows, cols, c, r + 1)
  }

  /** Height of column c: rows minus the index of its topmost occupied cell, 0 if empty. */
  function ColumnHeight(t: Grid, rows: nat, cols: nat, c: nat): (h: nat)
    requires IsGrid(t, rows, cols) && c < cols
    ensures h <= rows
    ensures h == 0 <==> forall k :: 0 <= k < rows ==> t[k][c] == 0
    ensures h > 0 ==> t[rows - h][c] != 0 && forall k :: 0 <= k < rows - h ==> t[k][c] == 0
  {
    rows - TopFrom(t, rows, cols, c, 0)
  }

  /** Number of empty cells of column c among rows [lo, hi). */
  function ZerosIn(t: Grid, rows: nat, cols: nat, c: nat, lo: nat, hi: nat): (n: nat)
    requires IsGrid(t, rows, cols) && c < cols && hi <= rows
    ensures lo <= hi ==> n <= hi - lo
    ensures hi <= lo ==> n == 0
    decreases hi
  {
    if hi <= lo then 0
    else ZerosIn(t, rows, cols, c, lo, hi - 1) + (if t[hi - 1][c] == 0 then 1 else 0)
  }

  /** Holes of column c: empty cells below its topmost occupied cell. */
  function ColumnHoles(t: Grid, rows: nat, cols: nat, c: nat): (n: nat)
    requires IsGrid(t, rows, cols) && c < cols
    ensures ColumnHeight(t, rows, cols, c) == 0 ==> n == 0
    ensures ColumnHeight(t, rows, cols, c) > 0 ==> n < ColumnHeight(t, rows, cols, c)
  {
    ZerosIn(t, rows, cols, c, TopFrom(t, rows, cols, c, 0) + 1, rows)
  }

  function Heights(t: Grid, rows: nat, cols: nat): (h: seq<nat>)
    requires IsGrid(t, rows, cols)
    ensures |h| == cols
  {
    seq(cols, c requires 0 <= c < cols => ColumnHeight(t, rows, cols, c))
  }

  function HoleCounts(t: Grid, rows: nat, cols: nat): (h: seq<nat>)
    requires IsGrid(t, rows, cols)
    ensures |h| == cols
  {
    seq(cols, c requires 0 <= c < cols => ColumnHoles(t, rows, cols, c))
  }

  function Sum(s: seq<nat>): nat {
    if s == [] then 0 else Sum(s[..|s| - 1]) + s[|s| - 1]
  }

  /** Sum of absolute differences between neighbouring entries. */
  function Bumpiness(h: seq<nat>): nat {
    if |h| <= 1 then 0 else Bumpiness(h[..|h| - 1]) + Abs(h[|h| - 2] as int - h[|h| - 1])
  }

  /** The four features, in the order the weights use them. */
  datatype Features = Features(height: nat, lines: nat, holes: nat, bumpiness: nat)

  function FeaturesOf(t: Grid, rows: nat, cols: nat): Features
    requires IsGrid(t, rows, cols)
  {
    Features(Sum(Heights(t, rows, cols)), FullCount(t), Sum(HoleCounts(t, rows, cols)), Bumpiness(Heights(t, rows, cols)))
  }

  /** Dot product of the weights with [height, lines, holes, bumpiness]. */
  function Weighted(w: seq<real>, f: Features): real
    requires |w| == 4
  {
    w[0] * f.height as real + w[1] * f.lines as real + w[2] * f.holes as real + w[3] * f.bumpiness as real
  }

  /** Score of shape s resting at (px, py): the features of the board with
      the shape's cells merged in (as 1s, off-board cells skipped). */
  function Evaluate(g: Grid, rows: nat, cols: nat, s: Shape, px: int, py: int, w: seq<real>): (score: real)
    requires IsGrid(g, rows, cols) && |w| == 4
    ensures var f := FeaturesOf(Paint(g, rows, cols, s, px, py, 1), rows, cols);
      && score == Weighted(w, f)
      && f.height <= rows * cols && f.lines <= rows && f.holes <= f.height
  {
    FeatureBounds(Paint(g, rows, cols, s, px, py, 1), rows, cols);
    Weighted(w, FeaturesOf(Paint(g, rows, cols, s, px, py, 1), rows, cols))
  }

  // ---------------------------------------------------------------------
  // The evaluator as the game runs it

  method EvaluateState(g: Grid, rows: nat, cols: nat, s: Shape, px: int, py: int, w: seq<real>) returns (score: real)
    requires IsGrid(g, rows, cols) && |w| == 4
    ensures score == Evaluate(g, rows, cols, s, px, py, w)
  {
    var t := MergePiece(g, rows, cols, s, px, py);
    var heights, aggregateHeight, holes := ScanColumns(t, rows, cols);
    var bumpiness := SumBumpiness(heights);
    var lines := CountFullRows(t);
    var features := Features(aggregateHeight, lines, holes, bumpiness);
    assert features == FeaturesOf(t, rows, cols);
    score := Weighted(w, features);
  }

  /** The column scan of the evaluator: every column's height, their sum,
      and the total number of holes. */
  method ScanColumns(t: Grid, rows: nat, cols: nat) returns (heights: seq<nat>, aggregateHeight: nat, holes: nat)
    requires IsGrid(t, rows, cols)
    ensures heights == Heights(t, rows, cols)
    ensures aggregateHeight == Sum(heights)
    ensures holes == Sum(HoleCounts(t, rows, cols))
  {
    ghost var hs := Heights(t, rows, cols);
    ghost var hc := HoleCounts(t, rows, cols);
    heights := [];
    aggregateHeight, holes := 0, 0;
    var c := 0;
    while c < cols
      invariant 0 <= c <= cols
      invariant heights == hs[..c]
      invariant aggregateHeight == Sum(heights)
      invariant holes == Sum(hc[..c])
    {
      var colHeight, colHoles := ScanColumn(t, rows, cols, c);
      assert colHeight == hs[c] && colHoles == hc[c];
      assert hc[..c + 1] == hc[..c] + [hc[c]];
      assert hs[..c + 1] == hs[..c] + [hs[c]];
      heights := heights + [colHeight];
      aggregateHeight := aggregateHeight + colHeight;
      holes := holes + colHoles;
      c := c + 1;
    }
    assert hc[..cols] == hc;
    assert heights == hs;
  }

  /** Copy of the grid with 1 written under every filled shape cell that lands on the board. */
  method MergePiece(g: Grid, rows: nat, cols: nat, s: Shape, px: int, py: int) returns (t: Grid)
    requires IsGrid(g, rows, cols)
    ensures IsGrid(t, rows, cols)
    ensures forall r, c :: 0 <= r < rows && 0 <= c < cols ==> t[r][c] == if Covers(s, px, py, r, c) then 1 else g[r][c]
    ensures t == Paint(g, rows, cols, s, px, py, 1)
  {
    t := g;
    var y := 0;
    while y < |s|
      invariant 0 <= y <= |s|
      invariant PaintedBefore(g, t, rows, cols, s, px, py, 1, y, 0)
    {
      var x := 0;
      while x < |s[y]|
        invariant 0 <= x <= |s[y]|
        invariant PaintedBefore(g, t, rows, cols, s, px, py, 1, y, x)
      {
        PaintStep(g, t, rows, cols, s, px, py, 1, y, x);
        if s[y][x] != 0 && 0 <= py + y < rows && 0 <= px + x < cols {
          t := t[py + y := t[py + y][px + x := 1]];
        }
        x := x + 1;
      }
      PaintNextRow(g, t, rows, cols, s, px, py, 1, y);
      y := y + 1;
    }
    PaintedCellwise(g, t, rows, cols, s, px, py, 1);
  }

  /** One pass down column c: its height and its holes. */
  method ScanColumn(t: Grid, rows: nat, cols: nat, c: nat) returns (colHeight: nat, holes: nat)
    requires IsGrid(t, rows, cols) && c < cols
    ensures colHeight == ColumnHeight(t, rows, cols, c)
    ensures holes == ColumnHoles(t, rows, cols, c)
  {
    ghost var top := TopFrom(t, rows, cols, c, 0);
    colHeight, holes := 0, 0;
    var holeFound := false;
    var r := 0;
    while r < rows
      invariant 0 <= r <= rows
      invariant holeFound <==> top < r
      invariant colHeight == if holeFound then rows - top else 0
      invariant holes == if holeFound then ZerosIn(t, rows, cols, c, top + 1, r) else 0
    {
      if t[r][c] != 0 {
        if colHeight == 0 {
          colHeight := rows - r;
        }
        holeFound := true;
      } else if holeFound {
        holes := holes + 1;
      }
      r := r + 1;
    }
  }

  method SumBumpiness(heights: seq<nat>) returns (bumpiness: nat)
    ensures bumpiness == Bumpiness(heights)
  {
    bumpiness := 0;
    var i := 0;
    while i + 1 < |heights|
      invariant |heights| == 0 ==> i == 0 && bumpiness == 0
      invariant |heights| > 0 ==> i < |heights| && bumpiness == Bumpiness(heights[..i + 1])
    {
      assert heights[..i + 2][..i + 1] == heights[..i + 1];
      bumpiness := bumpiness + Abs(heights[i] as int - heights[i + 1]);
      i := i + 1;
    }
    assert |heights| > 0 ==> heights[..i + 1] == heights;
  }

  method CountFullRows(t: Grid) returns (lines: nat)
    ensures lines == FullCount(t)
  {
    lines := 0;
    var k := 0;
    while k < |t|
      invariant 0 <= k <= |t|
      invariant lines == FullCount(t[..k])
    {
      FullCountConcat(t[..k], [t[k]]);
      assert t[..k + 1] == t[..k] + [t[k]];
      if FullRow(t[k]) {
        lines := lines + 1;
      }
      k := k + 1;
    }
    assert t[..|t|] == t;
  }

  // ---------------------------------------------------------------------
  // Properties of the features

  lemma {:induction false} SumAtMost(s: seq<nat>, b: nat)
    requires forall i :: 0 <= i < |s| ==> s[i] <= b
    ensures Sum(s) <= |s| * b
  {
    if s != [] {
      var n := |s| - 1;
      SumAtMost(s[..n], b);
      assert Sum(s) <= n * b + b;
      assert n * b + b == |s| * b;
    }
  }

  lemma {:induction false} SumMonotone(a: seq<nat>, b: seq<nat>)
    requires |a| == |b| && forall i :: 0 <= i < |a| ==> a[i] <= b[i]
    ensures Sum(a) <= Sum(b)
  {
    if a != [] {
      SumMonotone(a[..|a| - 1], b[..|b| - 1]);
    }
  }

  lemma {:induction false} BumpinessAtMost(h: seq<nat>, b: nat)
    requires |h| > 0 && forall i :: 0 <= i < |h| ==> h[i] <= b
    ensures Bumpiness(h) <= (|h| - 1) * b
  {
    if |h| > 1 {
      var n := |h| - 1;
      var front := h[..n];
      BumpinessAtMost(front, b);
      assert Bumpiness(front) <= (n - 1) * b;
      assert Bumpiness(h) == Bumpiness(front) + Abs(h[n - 1] as int - h[n]);
      assert Abs(h[n - 1] as int - h[n]) <= b;
      assert (n - 1) * b + b == n * b;
    }
  }

  /** Aggregate height is at most rows * cols, complete lines at most rows,
      every hole lies under a column top so holes never exceed aggregate
      height, and each neighbouring pair adds at most rows to bumpiness. */
  lemma FeatureBounds(t: Grid, rows: nat, cols: nat)
    requires IsGrid(t, rows, cols)
    ensures FeaturesOf(t, rows, cols).height <= rows * cols
    ensures FeaturesOf(t, rows, cols).lines <= rows
    ensures FeaturesOf(t, rows, cols).holes <= FeaturesOf(t, rows, cols).height
    ensures cols > 0 ==> FeaturesOf(t, rows, cols).bumpiness <= rows * (cols - 1)
  {
    var hs := Heights(t, rows, cols);
    SumAtMost(hs, rows);
    FullCountAtMostLength(t);
    SumMonotone(HoleCounts(t, rows, cols), hs);
    if cols > 0 {
      BumpinessAtMost(hs, rows);
    }
  }
}
