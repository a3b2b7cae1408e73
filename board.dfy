/** The board: a rows-by-cols grid of piece ids, the collision test, the
    resting row of a falling shape, and line clearing. */
module Board {
  import opened Shapes

  /** Row-major grid; grid[r][c] is 0 for an empty cell, a piece id otherwise. */
  type Grid = seq<seq<int>>

  predicate IsGrid(g: Grid, rows: nat, cols: nat) {
    |g| == rows && forall r :: 0 <= r < |g| ==> |g[r]| == cols
  }

  /** Every cell is empty or holds a piece id. */
  ghost predicate CellsInRange(g: Grid) {
    forall r, c :: 0 <= r < |g| && 0 <= c < |g[r]| ==> 0 <= g[r][c] <= 7
  }

  function EmptyRow(cols: nat): (row: seq<int>)
    ensures |row| == cols && forall c :: 0 <= c < cols ==> row[c] == 0
  {
    seq(cols, _ => 0)
  }

  function Empties(k: nat, cols: nat): (g: Grid)
    ensures IsGrid(g, k, cols) && CellsInRange(g)
    ensures forall r :: 0 <= r < k ==> g[r] == EmptyRow(cols)
  {
    seq(k, _ => EmptyRow(cols))
  }

  // ---------------------------------------------------------------------
  // Collision test

  /** The test one filled shape cell landing on column nx, row ny must pass:
      inside the side walls, above the floor, and on an empty cell unless it
      is still above the top row. */
  ghost predicate CellFits(g: Grid, rows: nat, cols: nat, nx: int, ny: int)
    requires IsGrid(g, rows, cols)
  {
    0 <= nx < cols && ny < rows && (ny >= 0 ==> g[ny][nx] == 0)
  }

  /** Shape s with its top-left corner at column ox, row oy is a legal position. */
  ghost predicate Fits(g: Grid, rows: nat, cols: nat, s: Shape, ox: int, oy: int)
    requires IsGrid(g, rows, cols)
  {
    forall y, x :: 0 <= y < |s| && 0 <= x < |s[y]| && s[y][x] != 0 ==> CellFits(g, rows, cols, ox + x, oy + y)
  }

  /** Scan of one shape row, cell by cell, stopping at the first offending cell. */
  function RowFits(g: Grid, rows: nat, cols: nat, row: seq<int>, ox: int, ny: int, x: nat): (ok: bool)
    requires IsGrid(g, rows, cols) && x <= |row|
    ensures ok <==> forall i :: x <= i < |row| && row[i] != 0 ==> CellFits(g, rows, cols, ox + i, ny)
    decreases |row| - x
  {
    if x == |row| then true
    else if row[x] != 0 && (ox + x < 0 || ox + x >= cols || ny >= rows) then false
    else if row[x] != 0 && ny >= 0 && g[ny][ox + x] != 0 then false
    else RowFits(g, rows, cols, row, ox, ny, x + 1)
  }

  /** Scan of the shape rows from row y down. */
  function FitsFrom(g: Grid, rows: nat, cols: nat, s: Shape, ox: int, oy: int, y: nat): (ok: bool)
    requires IsGrid(g, rows, cols) && y <= |s|
    ensures ok <==> forall k, x :: y <= k < |s| && 0 <= x < |s[k]| && s[k][x] != 0 ==> CellFits(g, rows, cols, ox + x, oy + k)
    decreases |s| - y
  {
    y == |s| || (RowFits(g, rows, cols, s[y], ox, oy + y, 0) && FitsFrom(g, rows, cols, s, ox, oy, y + 1))
  }

  /** The game's collision and bounds test. */
  function IsValid(g: Grid, rows: nat, cols: nat, s: Shape, ox: int, oy: int): (ok: bool)
    requires IsGrid(g, rows, cols)
    ensures ok == Fits(g, rows, cols, s, ox, oy)
  {
    FitsFrom(g, rows, cols, s, ox, oy, 0)
  }

  /** A legal position of a shape with a filled cell is above the floor. */
  lemma FitsAboveFloor(g: Grid, rows: nat, cols: nat, s: Shape, ox: int, oy: int)
    requires IsGrid(g, rows, cols) && WellFormed(s) && Fits(g, rows, cols, s, ox, oy)
    ensures oy < rows
  {
    var y, x :| 0 <= y < |s| && 0 <= x < |s[y]| && s[y][x] != 0;
    assert CellFits(g, rows, cols, ox + x, oy + y);
  }

  /** The row a shape comes to rest on when it falls from row y in column x. */
  ghost function RestRow(g: Grid, rows: nat, cols: nat, s: Shape, x: int, y: int): (r: int)
    requires IsGrid(g, rows, cols) && WellFormed(s) && Fits(g, rows, cols, s, x, y)
    ensures y <= r < rows
    ensures Fits(g, rows, cols, s, x, r) && !Fits(g, rows, cols, s, x, r + 1)
    ensures forall k :: y <= k <= r ==> Fits(g, rows, cols, s, x, k)
    decreases rows - y
  {
    FitsAboveFloor(g, rows, cols, s, x, y);
    if Fits(g, rows, cols, s, x, y + 1) then
      FitsAboveFloor(g, rows, cols, s, x, y + 1);
      RestRow(g, rows, cols, s, x, y + 1)
    else y
  }

  // ---------------------------------------------------------------------
  // Writing a shape into a grid

  /** Board cell (r, c) lies under a filled cell of shape s placed at (px, py). */
  predicate Covers(s: Shape, px: int, py: int, r: int, c: int) {
    0 <= r - py < |s| && 0 <= c - px < |s[r - py]| && s[r - py][c - px] != 0
  }

  /** Covers, restricted to the shape cells a row-by-row scan visits before
      it reaches shape cell (y, x). */
  predicate CoversBefore(s: Shape, px: int, py: int, r: int, c: int, y: int, x: int) {
    Covers(s, px, py, r, c) && (r - py < y || (r - py == y && c - px < x))
  }

  /** The grid with value v written under every filled cell of the placed
      shape; cells that fall outside the board are skipped. */
  function Paint(g: Grid, rows: nat, cols: nat, s: Shape, px: int, py: int, v: int): (t: Grid)
    requires IsGrid(g, rows, cols)
    ensures IsGrid(t, rows, cols)
    ensures forall r, c :: 0 <= r < rows && 0 <= c < cols && Covers(s, px, py, r, c) ==> t[r][c] == v
    ensures forall r, c :: 0 <= r < rows && 0 <= c < cols && !Covers(s, px, py, r, c) ==> t[r][c] == g[r][c]
  {
    seq(rows, r requires 0 <= r < rows =>
      seq(cols, c requires 0 <= c < cols => if Covers(s, px, py, r, c) then v else g[r][c]))
  }

  /** Painting only touches the rows the shape spans. */
  lemma PaintOutsideRows(g: Grid, rows: nat, cols: nat, s: Shape, px: int, py: int, v: int, r: int)
    requires IsGrid(g, rows, cols) && 0 <= r < rows && !(py <= r < py + |s|)
    ensures Paint(g, rows, cols, s, px, py, v)[r] == g[r]
  {
    var t := Paint(g, rows, cols, s, px, py, v);
    assert forall c :: 0 <= c < cols ==> t[r][c] == g[r][c];
  }

  /** t is g with v written under the shape cells a row-by-row scan visits
      before shape cell (y, x). */
  ghost predicate PaintedBefore(g: Grid, t: Grid, rows: nat, cols: nat, s: Shape, px: int, py: int, v: int, y: int, x: int)
  {
    && IsGrid(g, rows, cols) && IsGrid(t, rows, cols)
    && forall r, c :: 0 <= r < rows && 0 <= c < cols ==>
      t[r][c] == if CoversBefore(s, px, py, r, c, y, x) then v else g[r][c]
  }

  /** One cell of the scan: writing v under shape cell (y, x) when it is
      filled and on the board extends the painted part by that cell. */
  lemma PaintStep(g: Grid, t: Grid, rows: nat, cols: nat, s: Shape, px: int, py: int, v: int, y: nat, x: nat)
    requires y < |s| && x < |s[y]| && PaintedBefore(g, t, rows, cols, s, px, py, v, y, x)
    ensures var t' := if s[y][x] != 0 && 0 <= py + y < rows && 0 <= px + x < cols
                      then t[py + y := t[py + y][px + x := v]] else t;
      PaintedBefore(g, t', rows, cols, s, px, py, v, y, x + 1)
  {
  }

  /** The end of a shape row is the start of the next. */
  lemma PaintNextRow(g: Grid, t: Grid, rows: nat, cols: nat, s: Shape, px: int, py: int, v: int, y: nat)
    requires y < |s| && PaintedBefore(g, t, rows, cols, s, px, py, v, y, |s[y]|)
    ensures PaintedBefore(g, t, rows, cols, s, px, py, v, y + 1, 0)
  {
  }

  /** A grid that agrees with the painted one cell by cell, once every shape
      cell has been visited, is the painted grid. */
  lemma PaintedCellwise(g: Grid, t: Grid, rows: nat, cols: nat, s: Shape, px: int, py: int, v: int)
    requires PaintedBefore(g, t, rows, cols, s, px, py, v, |s|, 0)
    ensures t == Paint(g, rows, cols, s, px, py, v)
  {
    var painted := Paint(g, rows, cols, s, px, py, v);
    forall r | 0 <= r < rows ensures t[r] == painted[r] {
      assert forall c :: 0 <= c < cols ==> t[r][c] == painted[r][c];
    }
  }

  lemma PaintCellsInRange(g: Grid, rows: nat, cols: nat, s: Shape, px: int, py: int, v: int)
    requires IsGrid(g, rows, cols) && CellsInRange(g) && 0 <= v <= 7
    ensures CellsInRange(Paint(g, rows, cols, s, px, py, v))
  {
  }

  // ---------------------------------------------------------------------
  // Line clearing

  predicate FullRow(row: seq<int>) {
    forall c :: 0 <= c < |row| ==> row[c] != 0
  }

  ghost predicate NoFullRow(g: Grid) {
    forall r :: 0 <= r < |g| ==> !FullRow(g[r])
  }

  /** Number of full rows. */
  function FullCount(g: Grid): nat {
    if g == [] then 0 else (if FullRow(g[0]) then 1 else 0) + FullCount(g[1..])
  }

  /** The rows that are not full, in their original order. */
  function Keep(g: Grid): (k: Grid)
    ensures |k| + FullCount(g) == |g|
  {
    if g == [] then [] else (if FullRow(g[0]) then [] else [g[0]]) + Keep(g[1..])
  }

  /** The grid after clearing: one empty row on top for each full row removed,
      then the remaining rows in their original order. */
  function Cleared(g: Grid, cols: nat): (c: Grid)
    ensures |c| == |g| == FullCount(g) + |Keep(g)|
    ensures forall i :: 0 <= i < FullCount(g) ==> c[i] == EmptyRow(cols)
    ensures forall i :: FullCount(g) <= i < |g| ==> c[i] == Keep(g)[i - FullCount(g)]
  {
    Empties(FullCount(g), cols) + Keep(g)
  }

  lemma {:induction false} FullCountConcat(a: Grid, b: Grid)
    ensures FullCount(a + b) == FullCount(a) + FullCount(b)
  {
    if a != [] {
      assert (a + b)[1..] == a[1..] + b;
      FullCountConcat(a[1..], b);
    } else {
      assert a + b == b;
    }
  }

  lemma {:induction false} KeepConcat(a: Grid, b: Grid)
    ensures Keep(a + b) == Keep(a) + Keep(b)
  {
    if a != [] {
      assert (a + b)[1..] == a[1..] + b;
      KeepConcat(a[1..], b);
    } else {
      assert a + b == b;
    }
  }

  /** Removing the full rows loses exactly FullCount rows, keeps only rows
      of g, and keeps none that is full. */
  lemma {:induction false} KeepProperties(g: Grid)
    ensures |Keep(g)| + FullCount(g) == |g|
    ensures forall i :: 0 <= i < |Keep(g)| ==> Keep(g)[i] in g && !FullRow(Keep(g)[i])
  {
    if g != [] {
      var rest := Keep(g[1..]);
      KeepProperties(g[1..]);
      if FullRow(g[0]) {
        assert Keep(g) == rest;
        forall i | 0 <= i < |rest| ensures rest[i] in g {
          assert rest[i] in g[1..];
        }
      } else {
        assert Keep(g) == [g[0]] + rest;
        forall i | 0 <= i < |Keep(g)| ensures Keep(g)[i] in g && !FullRow(Keep(g)[i]) {
          if i > 0 {
            assert Keep(g)[i] == rest[i - 1];
            assert rest[i - 1] in g[1..];
          }
        }
      }
    }
  }

  lemma {:induction false} FullCountAtMostLength(g: Grid)
    ensures FullCount(g) <= |g|
  {
    if g != [] {
      FullCountAtMostLength(g[1..]);
    }
  }

  /** When every full row lies in rows [lo, hi), at most hi - lo rows are full. */
  lemma {:induction false} FullCountWithin(g: Grid, lo: nat, hi: nat)
    requires lo <= hi
    requires forall r :: 0 <= r < |g| && FullRow(g[r]) ==> lo <= r < hi
    ensures FullCount(g) <= hi - lo
  {
    if hi == 0 {
      ClearedWithoutFullRows(g, 0);
    } else if g != [] {
      var t := g[1..];
      if FullRow(g[0]) {
        assert lo == 0;
        forall r | 0 <= r < |t| && FullRow(t[r]) ensures 0 <= r < hi - 1 {
          assert g[r + 1] == t[r];
        }
        FullCountWithin(t, 0, hi - 1);
      } else {
        var lo' := if lo == 0 then 0 else lo - 1;
        forall r | 0 <= r < |t| && FullRow(t[r]) ensures lo' <= r < hi - 1 {
          assert g[r + 1] == t[r];
        }
        FullCountWithin(t, lo', hi - 1);
      }
    }
  }

  /** A grid without full rows is left as it is by clearing. */
  lemma {:induction false} ClearedWithoutFullRows(g: Grid, cols: nat)
    requires NoFullRow(g)
    ensures FullCount(g) == 0 && Keep(g) == g && Cleared(g, cols) == g
  {
    if g != [] {
      assert !FullRow(g[0]);
      ClearedWithoutFullRows(g[1..], cols);
      assert [g[0]] + g[1..] == g;
    }
  }

  /** Clearing keeps the dimensions and the cell range and leaves no full row. */
  lemma ClearedIsGrid(g: Grid, rows: nat, cols: nat)
    requires IsGrid(g, rows, cols) && 0 < cols
    ensures IsGrid(Cleared(g, cols), rows, cols)
    ensures NoFullRow(Cleared(g, cols))
    ensures CellsInRange(g) ==> CellsInRange(Cleared(g, cols))
  {
    KeepProperties(g);
    var k := FullCount(g);
    var t := Cleared(g, cols);
    forall r | 0 <= r < rows ensures |t[r]| == cols && !FullRow(t[r]) && (CellsInRange(g) ==> forall c :: 0 <= c < cols ==> 0 <= t[r][c] <= 7) {
      if r < k {
        assert t[r] == EmptyRow(cols);
        assert t[r][0] == 0;
      } else {
        assert t[r] == Keep(g)[r - k];
        var i :| 0 <= i < |g| && g[i] == t[r];
      }
    }
  }

  /** Clearing twice is clearing once. */
  lemma ClearIdempotent(g: Grid, rows: nat, cols: nat)
    requires IsGrid(g, rows, cols) && 0 < cols
    ensures Cleared(Cleared(g, cols), cols) == Cleared(g, cols)
  {
    ClearedIsGrid(g, rows, cols);
    ClearedWithoutFullRows(Cleared(g, cols), cols);
  }

  // ---------------------------------------------------------------------
  // Scoring

  /** Points for clearing k rows at once, before multiplying by the level. */
  function LineScore(k: nat): (p: nat)
    requires k <= 4
    ensures (k == 0) == (p == 0)
    ensures forall j :: 0 <= j < k ==> LineScore(j) < p
  {
    [0, 40, 100, 300, 1200][k]
  }

  /** Level reached after `lines` cleared rows: one more every ten rows. */
  function LevelFor(lines: nat): (lv: nat)
    ensures lv >= 1
  {
    lines / 10 + 1
  }
}
