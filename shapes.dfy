/** Piece shapes: the seven fixed 0/1 matrices and the clockwise rotation. */
module Shapes {

  /** A shape is a matrix of cells; a non-zero cell is filled. */
  type Shape = seq<seq<int>>

  /** Number of columns, read from the first row as the game does. */
  function Width(s: Shape): nat {
    if |s| == 0 then 0 else |s[0]|
  }

  predicate Rectangular(s: Shape) {
    && |s| > 0
    && |s[0]| > 0
    && forall y :: 0 <= y < |s| ==> |s[y]| == |s[0]|
  }

  /** The shapes the game ever handles: rectangular, at most 4 by 4, with a filled cell. */
  ghost predicate WellFormed(s: Shape) {
    && Rectangular(s)
    && |s| <= 4
    && |s[0]| <= 4
    && exists y, x :: 0 <= y < |s| && 0 <= x < |s[y]| && s[y][x] != 0
  }

  /** Piece ids run from 1 to 7 (I, T, L, J, Z, S, O); 0 marks an empty board cell. */
  predicate IsPieceId(id: int) {
    1 <= id <= 7
  }

  /** The shape table, indexed by piece id; entry 0 is a placeholder. */
  const Table: seq<Shape> := [
    [],
    [[1, 1, 1, 1]],
    [[1, 1, 1], [0, 1, 0]],
    [[1, 1, 1], [1, 0, 0]],
    [[1, 1, 1], [0, 0, 1]],
    [[1, 1, 0], [0, 1, 1]],
    [[0, 1, 1], [1, 1, 0]],
    [[1, 1], [1, 1]]]

  lemma TableWellFormed(id: int)
    requires IsPieceId(id)
    ensures WellFormed(Table[id]) && 1 <= |Table[id]| <= 2
  {
    assert Table[id][0][1] != 0;
  }

  /** The shape of a piece id. */
  function ShapeOf(id: int): (s: Shape)
    requires IsPieceId(id)
    ensures WellFormed(s) && 1 <= |s| <= 2
  {
    TableWellFormed(id);
    Table[id]
  }

  /** Clockwise quarter turn: an N-by-M shape becomes M-by-N, and the cell
      at (y, x) moves to (x, N-1-y); read from the result's side, cell
      (x, j) comes from (N-1-j, x). */
  function Rotate(s: Shape): (r: Shape)
    requires Rectangular(s)
    ensures |r| == Width(s) && Width(r) == |s| && Rectangular(r)
    ensures forall x, j :: 0 <= x < Width(s) && 0 <= j < |s| ==> r[x][j] == s[|s| - 1 - j][x]
  {
    var n, m := |s|, |s[0]|;
    seq(m, x requires 0 <= x < m => seq(n, j requires 0 <= j < n => s[n - 1 - j][x]))
  }

  /** The shape after n successive quarter turns, each applied to the previous result. */
  function RotateN(s: Shape, n: nat): (r: Shape)
    requires Rectangular(s)
    ensures Rectangular(r)
    ensures WellFormed(s) ==> WellFormed(r)
  {
    if n == 0 then s
    else
      var p := RotateN(s, n - 1);
      RotatePreservesWellFormed(p);
      Rotate(p)
  }

  /** A quarter turn keeps a shape within 4 by 4 and keeps its filled cell. */
  lemma RotatePreservesWellFormed(s: Shape)
    requires Rectangular(s)
    ensures WellFormed(s) ==> WellFormed(Rotate(s))
  {
    if WellFormed(s) {
      var y, x :| 0 <= y < |s| && 0 <= x < |s[y]| && s[y][x] != 0;
      var r := Rotate(s);
      assert r[x][|s| - 1 - y] != 0;
    }
  }

  /** Two quarter turns: the cell at (y, x) lands at (N-1-y, M-1-x). */
  lemma RotateTwiceAt(s: Shape, y: int, x: int)
    requires Rectangular(s) && 0 <= y < |s| && 0 <= x < Width(s)
    ensures |Rotate(Rotate(s))| == |s| && Width(Rotate(Rotate(s))) == Width(s)
    ensures Rotate(Rotate(s))[|s| - 1 - y][Width(s) - 1 - x] == s[y][x]
  {
    var r := Rotate(s);
    assert r[x][|s| - 1 - y] == s[y][x];
    assert Rotate(r)[|s| - 1 - y][Width(s) - 1 - x] == r[x][|s| - 1 - y];
  }

  /** Four quarter turns give back the original shape. */
  lemma RotateFourIsIdentity(s: Shape)
    requires Rectangular(s)
    ensures Rotate(Rotate(Rotate(Rotate(s)))) == s
  {
    var r2 := Rotate(Rotate(s));
    var r4 := Rotate(Rotate(r2));
    assert |r4| == |s|;
    forall y | 0 <= y < |s| ensures r4[y] == s[y] {
      assert |r4[y]| == Width(s);
      forall x | 0 <= x < Width(s) ensures r4[y][x] == s[y][x] {
        RotateTwiceAt(s, y, x);
        RotateTwiceAt(r2, |s| - 1 - y, Width(s) - 1 - x);
      }
    }
  }

  lemma RotateNFour(s: Shape)
    requires Rectangular(s)
    ensures RotateN(s, 4) == s
  {
    assert RotateN(s, 1) == Rotate(s);
    assert RotateN(s, 2) == Rotate(Rotate(s));
    assert RotateN(s, 3) == Rotate(Rotate(Rotate(s)));
    RotateFourIsIdentity(s);
  }
}
