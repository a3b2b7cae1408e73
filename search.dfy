/** The greedy move search: every orientation of the current piece at every
    column from -2 to cols - 1, dropped to its resting row and scored; the
    first best-scoring placement wins. */
module Search {
  import opened Wrappers
  import opened Shapes
  import opened Board
  import opened Evaluator

  /** One (orientation, column) pair the search visits. */
  datatype Slot = Slot(shape: Shape, x: int)

  /** A placement: a shape and the board position of its top-left cell. */
  datatype Placement = Placement(shape: Shape, x: int, y: int)

  /** The columns tried for one orientation, -2 up to cols - 1, in increasing order. */
  function SlotsOf(s: Shape, cols: nat): (r: seq<Slot>)
    ensures |r| == cols + 2
    ensures forall i :: 0 <= i < |r| ==> r[i] == Slot(s, i - 2)
  {
    seq(cols + 2, i => Slot(s, i - 2))
  }

  /** The slots of the first n orientations, orientation after orientation. */
  function SlotsUpTo(s0: Shape, cols: nat, n: nat): seq<Slot>
    requires Rectangular(s0)
  {
    if n == 0 then [] else SlotsUpTo(s0, cols, n - 1) + SlotsOf(RotateN(s0, n - 1), cols)
  }

  /** The full search order: four orientations, each over all columns. */
  function SearchOrder(s0: Shape, cols: nat): seq<Slot>
    requires Rectangular(s0)
  {
    SlotsUpTo(s0, cols, 4)
  }

  lemma {:induction false} SlotsUpToLength(s0: Shape, cols: nat, n: nat)
    requires Rectangular(s0)
    ensures |SlotsUpTo(s0, cols, n)| == n * (cols + 2)
  {
    if n > 0 {
      SlotsUpToLength(s0, cols, n - 1);
    }
  }

  /** Slot number r * (cols + 2) + x + 2 is orientation r at column x: the
      search runs through the orientations in turn and, within one, through
      the columns from left to right. */
  lemma {:induction false} SlotsUpToAt(s0: Shape, cols: nat, n: nat, r: nat, x: int)
    requires Rectangular(s0) && r < n && -2 <= x < cols
    ensures 0 <= r * (cols + 2) + x + 2 < |SlotsUpTo(s0, cols, n)|
    ensures SlotsUpTo(s0, cols, n)[r * (cols + 2) + x + 2] == Slot(RotateN(s0, r), x)
  {
    var w := cols + 2;
    SlotsUpToLength(s0, cols, n - 1);
    SlotsUpToLength(s0, cols, n);
    if r < n - 1 {
      SlotsUpToAt(s0, cols, n - 1, r, x);
    } else {
      assert r * w == (n - 1) * w;
    }
  }

  /** Where the slot's shape comes to rest when dropped from row py. */
  ghost function Rest(g: Grid, rows: nat, cols: nat, py: int, slot: Slot): (p: Placement)
    requires IsGrid(g, rows, cols) && WellFormed(slot.shape) && Fits(g, rows, cols, slot.shape, slot.x, py)
  {
    Placement(slot.shape, slot.x, RestRow(g, rows, cols, slot.shape, slot.x, py))
  }

  /** The slot's score, or None when its shape does not fit at row py. */
  ghost function ScoreOf(g: Grid, rows: nat, cols: nat, py: int, w: seq<real>, slot: Slot): (o: Option<real>)
    requires IsGrid(g, rows, cols) && |w| == 4
    ensures o.Some? <==> WellFormed(slot.shape) && Fits(g, rows, cols, slot.shape, slot.x, py)
  {
    if WellFormed(slot.shape) && Fits(g, rows, cols, slot.shape, slot.x, py)
    then Some(Evaluate(g, rows, cols, slot.shape, slot.x, RestRow(g, rows, cols, slot.shape, slot.x, py), w))
    else None
  }

  /** The scores of the slots, in order. */
  ghost function ScoresOf(g: Grid, rows: nat, cols: nat, py: int, w: seq<real>, slots: seq<Slot>): (r: seq<Option<real>>)
    requires IsGrid(g, rows, cols) && |w| == 4
    ensures |r| == |slots| && forall i :: 0 <= i < |slots| ==> r[i] == ScoreOf(g, rows, cols, py, w, slots[i])
  {
    seq(|slots|, i requires 0 <= i < |slots| => ScoreOf(g, rows, cols, py, w, slots[i]))
  }

  /** Index the scan keeps: going in order, an entry with a score replaces
      the kept one when nothing is kept yet or when it is strictly larger. */
  function FirstMax(scores: seq<Option<real>>): (b: Option<nat>)
    ensures b.Some? ==> b.value < |scores| && scores[b.value].Some?
  {
    if scores == [] then None
    else
      var prev := FirstMax(scores[..|scores| - 1]);
      var last := scores[|scores| - 1];
      if last.Some? && (prev.None? || last.value > scores[prev.value].value)
      then Some(|scores| - 1)
      else prev
  }

  /** The kept entry is the first among those of highest score; nothing is
      kept exactly when no entry has a score. */
  lemma {:induction false} FirstMaxIsFirstMaximum(scores: seq<Option<real>>)
    ensures FirstMax(scores).None? <==> forall i :: 0 <= i < |scores| ==> scores[i].None?
    ensures FirstMax(scores).Some? ==>
      var b := FirstMax(scores).value;
      forall i :: 0 <= i < |scores| && scores[i].Some? ==>
        && scores[i].value <= scores[b].value
        && (i < b ==> scores[i].value < scores[b].value)
  {
    if scores != [] {
      var init := scores[..|scores| - 1];
      FirstMaxIsFirstMaximum(init);
      assert forall i :: 0 <= i < |init| ==> init[i] == scores[i];
    }
  }

  /** The placement the search commits to, if any. */
  ghost function BestPlacement(g: Grid, rows: nat, cols: nat, s0: Shape, py: int, w: seq<real>): (r: Option<Placement>)
    requires IsGrid(g, rows, cols) && WellFormed(s0) && |w| == 4
    ensures r.Some? ==> py <= r.value.y && Fits(g, rows, cols, r.value.shape, r.value.x, r.value.y)
  {
    var order := SearchOrder(s0, cols);
    match FirstMax(ScoresOf(g, rows, cols, py, w, order))
    case None => None
    case Some(b) => Some(Rest(g, rows, cols, py, order[b]))
  }

  /** What the search loop has kept agrees with FirstMax on the slots visited. */
  ghost predicate Tracks(g: Grid, rows: nat, cols: nat, py: int, w: seq<real>, slots: seq<Slot>, best: Option<Placement>, bestScore: real)
    requires IsGrid(g, rows, cols) && |w| == 4
  {
    var scores := ScoresOf(g, rows, cols, py, w, slots);
    match FirstMax(scores)
    case None => best.None?
    case Some(b) => best == Some(Rest(g, rows, cols, py, slots[b])) && bestScore == scores[b].value
  }

  /** The drop of one candidate: from row py down while the next row still fits. */
  method DropAndScore(g: Grid, rows: nat, cols: nat, shape: Shape, x: int, py: int, w: seq<real>) returns (y: int, score: real)
    requires IsGrid(g, rows, cols) && WellFormed(shape) && |w| == 4 && Fits(g, rows, cols, shape, x, py)
    ensures y == RestRow(g, rows, cols, shape, x, py)
    ensures Some(score) == ScoreOf(g, rows, cols, py, w, Slot(shape, x))
  {
    y := py;
    while IsValid(g, rows, cols, shape, x, y + 1)
      invariant Fits(g, rows, cols, shape, x, y)
      invariant RestRow(g, rows, cols, shape, x, y) == RestRow(g, rows, cols, shape, x, py)
      decreases rows - y
    {
      FitsAboveFloor(g, rows, cols, shape, x, y + 1);
      y := y + 1;
    }
    score := EvaluateState(g, rows, cols, shape, x, y, w);
  }

  /** The search loop of the AI move: scans the slots in order, drops each
      fitting shape to its resting row, and keeps the first best score. */
  method SearchBest(g: Grid, rows: nat, cols: nat, s0: Shape, py: int, w: seq<real>) returns (best: Option<Placement>)
    requires IsGrid(g, rows, cols) && WellFormed(s0) && |w| == 4
    ensures best == BestPlacement(g, rows, cols, s0, py, w)
  {
    var shape := s0;
    var bestScore: real := 0.0;
    best := None;
    ghost var done: seq<Slot> := [];
    TracksEmpty(g, rows, cols, py, w);
    var r := 0;
    while r < 4
      invariant 0 <= r <= 4
      invariant shape == RotateN(s0, r)
      invariant done == SlotsUpTo(s0, cols, r)
      invariant Tracks(g, rows, cols, py, w, done, best, bestScore)
    {
      best, bestScore := SearchOrientation(g, rows, cols, shape, py, w, done, best, bestScore);
      assert SlotsUpTo(s0, cols, r + 1) == done + SlotsOf(shape, cols);
      done := done + SlotsOf(shape, cols);
      shape := Rotate(shape);
      r := r + 1;
    }
    TracksAll(g, rows, cols, s0, py, w, best, bestScore);
  }

  lemma TracksAll(g: Grid, rows: nat, cols: nat, s0: Shape, py: int, w: seq<real>, best: Option<Placement>, bestScore: real)
    requires IsGrid(g, rows, cols) && WellFormed(s0) && |w| == 4
    requires Tracks(g, rows, cols, py, w, SlotsUpTo(s0, cols, 4), best, bestScore)
    ensures best == BestPlacement(g, rows, cols, s0, py, w)
  {
  }

  /** The inner loop of the search: one orientation over columns -2 to cols - 1. */
  method SearchOrientation(g: Grid, rows: nat, cols: nat, shape: Shape, py: int, w: seq<real>, ghost done: seq<Slot>,
                           best0: Option<Placement>, bestScore0: real)
    returns (best: Option<Placement>, bestScore: real)
    requires IsGrid(g, rows, cols) && WellFormed(shape) && |w| == 4
    requires Tracks(g, rows, cols, py, w, done, best0, bestScore0)
    ensures Tracks(g, rows, cols, py, w, done + SlotsOf(shape, cols), best, bestScore)
  {
    best, bestScore := best0, bestScore0;
    ghost var row := SlotsOf(shape, cols);
    ghost var seen := done;
    assert done + row[..0] == done;
    var x := -2;
    while x < cols
      invariant -2 <= x <= cols
      invariant seen == done + row[..x + 2]
      invariant Tracks(g, rows, cols, py, w, seen, best, bestScore)
    {
      PrefixStep(done, row, x + 2);
      best, bestScore := ScanSlot(g, rows, cols, shape, x, py, w, seen, best, bestScore);
      seen := seen + [Slot(shape, x)];
      x := x + 1;
    }
    assert row[..cols + 2] == row;
    assert seen == done + row;
  }

  /** The loop body of the search for one slot: if the shape fits at row py,
      drop it, score it, and keep it when it beats what is kept. */
  method ScanSlot(g: Grid, rows: nat, cols: nat, shape: Shape, x: int, py: int, w: seq<real>, ghost seen: seq<Slot>,
                  best0: Option<Placement>, bestScore0: real)
    returns (best: Option<Placement>, bestScore: real)
    requires IsGrid(g, rows, cols) && WellFormed(shape) && |w| == 4
    requires Tracks(g, rows, cols, py, w, seen, best0, bestScore0)
    ensures Tracks(g, rows, cols, py, w, seen + [Slot(shape, x)], best, bestScore)
  {
    best, bestScore := best0, bestScore0;
    TracksStep(g, rows, cols, py, w, seen, Slot(shape, x), best, bestScore);
    if IsValid(g, rows, cols, shape, x, py) {
      var y, score := DropAndScore(g, rows, cols, shape, x, py, w);
      if best.None? || score > bestScore {
        bestScore := score;
        best := Some(Placement(shape, x, y));
      }
    }
  }

  lemma PrefixStep<T>(a: seq<T>, b: seq<T>, k: nat)
    requires k < |b|
    ensures a + b[..k + 1] == (a + b[..k]) + [b[k]]
  {
    assert b[..k + 1] == b[..k] + [b[k]];
  }

  lemma TracksEmpty(g: Grid, rows: nat, cols: nat, py: int, w: seq<real>)
    requires IsGrid(g, rows, cols) && |w| == 4
    ensures Tracks(g, rows, cols, py, w, [], None, 0.0)
  {
    assert ScoresOf(g, rows, cols, py, w, []) == [];
  }

  /** One step of the scan: appending a slot updates the kept entry exactly as the loop body does. */
  lemma TracksStep(g: Grid, rows: nat, cols: nat, py: int, w: seq<real>, seen: seq<Slot>, slot: Slot, best: Option<Placement>, bestScore: real)
    requires IsGrid(g, rows, cols) && |w| == 4
    requires Tracks(g, rows, cols, py, w, seen, best, bestScore)
    ensures var o := ScoreOf(g, rows, cols, py, w, slot);
      if o.Some? && (best.None? || o.value > bestScore) then
        Tracks(g, rows, cols, py, w, seen + [slot], Some(Rest(g, rows, cols, py, slot)), o.value)
      else
        Tracks(g, rows, cols, py, w, seen + [slot], best, bestScore)
  {
    var all := seen + [slot];
    var before := ScoresOf(g, rows, cols, py, w, seen);
    var o := ScoreOf(g, rows, cols, py, w, slot);
    assert all[..|all| - 1] == seen;
    var after := ScoresOf(g, rows, cols, py, w, all);
    assert after == before + [o];
    FirstMaxAppend(before, o);
    var prev := FirstMax(before);
    if prev.Some? {
      assert all[prev.value] == seen[prev.value];
    }
    assert all[|seen|] == slot;
  }

  lemma FirstMaxAppend(scores: seq<Option<real>>, o: Option<real>)
    ensures var prev := FirstMax(scores);
      FirstMax(scores + [o]) ==
        if o.Some? && (prev.None? || o.value > scores[prev.value].value) then Some(|scores|) else prev
  {
    assert (scores + [o])[..|scores|] == scores;
  }

  /** Every slot of the first n orientations is some orientation r < n at some column in [-2, cols). */
  lemma {:induction false} SlotsUpToMembers(s0: Shape, cols: nat, n: nat, i: nat)
    requires Rectangular(s0) && i < |SlotsUpTo(s0, cols, n)|
    ensures exists r :: 0 <= r < n && SlotsUpTo(s0, cols, n)[i].shape == RotateN(s0, r)
    ensures -2 <= SlotsUpTo(s0, cols, n)[i].x < cols
  {
    var prev := SlotsUpTo(s0, cols, n - 1);
    if i < |prev| {
      SlotsUpToMembers(s0, cols, n - 1, i);
    } else {
      assert SlotsUpTo(s0, cols, n)[i] == SlotsOf(RotateN(s0, n - 1), cols)[i - |prev|];
    }
  }

  lemma ScoreAt(g: Grid, rows: nat, cols: nat, s0: Shape, py: int, w: seq<real>, r: nat, x: int, k: int)
    requires IsGrid(g, rows, cols) && WellFormed(s0) && |w| == 4 && r < 4 && -2 <= x < cols
    requires k == r * (cols + 2) + x + 2
    ensures 0 <= k < |SearchOrder(s0, cols)|
    ensures ScoresOf(g, rows, cols, py, w, SearchOrder(s0, cols))[k]
      == ScoreOf(g, rows, cols, py, w, Slot(RotateN(s0, r), x))
  {
    SlotsUpToAt(s0, cols, 4, r, x);
    ScoresAt(g, rows, cols, py, w, SearchOrder(s0, cols), k);
  }

  lemma ScoresAt(g: Grid, rows: nat, cols: nat, py: int, w: seq<real>, slots: seq<Slot>, k: nat)
    requires IsGrid(g, rows, cols) && |w| == 4 && k < |slots|
    ensures ScoresOf(g, rows, cols, py, w, slots)[k] == ScoreOf(g, rows, cols, py, w, slots[k])
  {
  }

  /** The AI move finds no placement exactly when no orientation fits at
      any column from the piece's row. */
  lemma BestPlacementNone(g: Grid, rows: nat, cols: nat, s0: Shape, py: int, w: seq<real>)
    requires IsGrid(g, rows, cols) && WellFormed(s0) && |w| == 4
    ensures BestPlacement(g, rows, cols, s0, py, w).None? <==>
      forall r, x :: 0 <= r < 4 && -2 <= x < cols ==> !Fits(g, rows, cols, RotateN(s0, r), x, py)
  {
    var order := SearchOrder(s0, cols);
    var scores := ScoresOf(g, rows, cols, py, w, order);
    FirstMaxIsFirstMaximum(scores);
    if FirstMax(scores).None? {
      forall r, x | 0 <= r < 4 && -2 <= x < cols
        ensures !Fits(g, rows, cols, RotateN(s0, r), x, py)
      {
        var k := r * (cols + 2) + x + 2;
        ScoreAt(g, rows, cols, s0, py, w, r, x, k);
        assert scores[k].None?;
      }
    } else {
      var b := FirstMax(scores).value;
      SlotsUpToMembers(s0, cols, 4, b);
    }
  }

  /** A placement the AI move chooses is one of the four orientations at a searched column. */
  lemma BestPlacementIsCandidate(g: Grid, rows: nat, cols: nat, s0: Shape, py: int, w: seq<real>)
    requires IsGrid(g, rows, cols) && WellFormed(s0) && |w| == 4
    requires BestPlacement(g, rows, cols, s0, py, w).Some?
    ensures var p := BestPlacement(g, rows, cols, s0, py, w).value;
      && (exists r :: 0 <= r < 4 && p.shape == RotateN(s0, r))
      && WellFormed(p.shape)
      && -2 <= p.x < cols
  {
    var order := SearchOrder(s0, cols);
    var b := FirstMax(ScoresOf(g, rows, cols, py, w, order)).value;
    SlotsUpToMembers(s0, cols, 4, b);
  }

  /** A placement the AI move chooses rests: it fits, one row lower does
      not, and it is at or below the piece's row. */
  lemma BestPlacementRests(g: Grid, rows: nat, cols: nat, s0: Shape, py: int, w: seq<real>)
    requires IsGrid(g, rows, cols) && WellFormed(s0) && |w| == 4
    requires BestPlacement(g, rows, cols, s0, py, w).Some?
    ensures var p := BestPlacement(g, rows, cols, s0, py, w).value;
      && py <= p.y
      && Fits(g, rows, cols, p.shape, p.x, p.y)
      && !Fits(g, rows, cols, p.shape, p.x, p.y + 1)
  {
    var order := SearchOrder(s0, cols);
    var scores := ScoresOf(g, rows, cols, py, w, order);
    var b := FirstMax(scores).value;
    assert scores[b] == ScoreOf(g, rows, cols, py, w, order[b]);
    RestIsResting(g, rows, cols, py, order[b]);
  }

  lemma RestIsResting(g: Grid, rows: nat, cols: nat, py: int, slot: Slot)
    requires IsGrid(g, rows, cols) && WellFormed(slot.shape) && Fits(g, rows, cols, slot.shape, slot.x, py)
    ensures var p := Rest(g, rows, cols, py, slot);
      && py <= p.y
      && Fits(g, rows, cols, p.shape, p.x, p.y)
      && !Fits(g, rows, cols, p.shape, p.x, p.y + 1)
  {
  }

  /** No fitting candidate of the search evaluates higher than the chosen placement. */
  lemma BestPlacementIsOptimal(g: Grid, rows: nat, cols: nat, s0: Shape, py: int, w: seq<real>)
    requires IsGrid(g, rows, cols) && WellFormed(s0) && |w| == 4
    requires BestPlacement(g, rows, cols, s0, py, w).Some?
    ensures var p := BestPlacement(g, rows, cols, s0, py, w).value;
      forall r, x :: 0 <= r < 4 && -2 <= x < cols && Fits(g, rows, cols, RotateN(s0, r), x, py) ==>
        Evaluate(g, rows, cols, RotateN(s0, r), x, RestRow(g, rows, cols, RotateN(s0, r), x, py), w)
          <= Evaluate(g, rows, cols, p.shape, p.x, p.y, w)
  {
    var order := SearchOrder(s0, cols);
    var scores := ScoresOf(g, rows, cols, py, w, order);
    FirstMaxIsFirstMaximum(scores);
    var b := FirstMax(scores).value;
    var p := BestPlacement(g, rows, cols, s0, py, w).value;
    assert p == Rest(g, rows, cols, py, order[b]);
    assert scores[b].value == Evaluate(g, rows, cols, p.shape, p.x, p.y, w);
    forall r, x | 0 <= r < 4 && -2 <= x < cols && Fits(g, rows, cols, RotateN(s0, r), x, py)
      ensures Evaluate(g, rows, cols, RotateN(s0, r), x, RestRow(g, rows, cols, RotateN(s0, r), x, py), w)
             <= Evaluate(g, rows, cols, p.shape, p.x, p.y, w)
    {
      var k := r * (cols + 2) + x + 2;
      ScoreAt(g, rows, cols, s0, py, w, r, x, k);
      assert scores[k].value <= scores[b].value;
    }
  }

  /** Orientation r at column x comes before orientation rb at column xb
      in the search order. */
  predicate VisitedBefore(r: nat, x: int, rb: nat, xb: int) {
    r < rb || (r == rb && x < xb)
  }

  /** Of two slots, the one visited first has the smaller index. */
  lemma EarlierSlotIndex(cols: nat, r: nat, x: int, rb: nat, xb: int)
    requires -2 <= x < cols && -2 <= xb < cols && VisitedBefore(r, x, rb, xb)
    ensures r * (cols + 2) + x + 2 < rb * (cols + 2) + xb + 2
  {
    if r < rb {
      assert (r + 1) * (cols + 2) <= rb * (cols + 2);
    }
  }

  /** Every index of the search order names an orientation and a column. */
  lemma SlotOfIndex(cols: nat, b: nat) returns (rb: nat, xb: int)
    requires b < 4 * (cols + 2)
    ensures rb < 4 && -2 <= xb < cols && b == rb * (cols + 2) + xb + 2
  {
    var wd := cols + 2;
    rb := b / wd;
    xb := b % wd - 2;
  }

  /** Ties go to the earliest candidate: the chosen placement is orientation
      rb at column p.x, and every fitting candidate the search visits before
      it, in orientation-then-column order, evaluates strictly lower. */
  lemma BestPlacementIsEarliest(g: Grid, rows: nat, cols: nat, s0: Shape, py: int, w: seq<real>)
    requires IsGrid(g, rows, cols) && WellFormed(s0) && |w| == 4
    requires BestPlacement(g, rows, cols, s0, py, w).Some?
    ensures var p := BestPlacement(g, rows, cols, s0, py, w).value;
      exists rb: nat ::
        && rb < 4 && p.shape == RotateN(s0, rb) && -2 <= p.x < cols
        && forall r: nat, x ::
             (r < 4 && -2 <= x < cols && VisitedBefore(r, x, rb, p.x) && Fits(g, rows, cols, RotateN(s0, r), x, py)) ==>
               Evaluate(g, rows, cols, RotateN(s0, r), x, RestRow(g, rows, cols, RotateN(s0, r), x, py), w)
                 < Evaluate(g, rows, cols, p.shape, p.x, p.y, w)
  {
    var order := SearchOrder(s0, cols);
    var scores := ScoresOf(g, rows, cols, py, w, order);
    FirstMaxIsFirstMaximum(scores);
    var b := FirstMax(scores).value;
    var p := BestPlacement(g, rows, cols, s0, py, w).value;
    SlotsUpToLength(s0, cols, 4);
    var rb, xb := SlotOfIndex(cols, b);
    SlotsUpToAt(s0, cols, 4, rb, xb);
    assert p == Rest(g, rows, cols, py, order[b]);
    assert scores[b].value == Evaluate(g, rows, cols, p.shape, p.x, p.y, w);
    forall r: nat, x | r < 4 && -2 <= x < cols && VisitedBefore(r, x, rb, p.x) && Fits(g, rows, cols, RotateN(s0, r), x, py)
      ensures Evaluate(g, rows, cols, RotateN(s0, r), x, RestRow(g, rows, cols, RotateN(s0, r), x, py), w)
             < Evaluate(g, rows, cols, p.shape, p.x, p.y, w)
    {
      var k := r * (cols + 2) + x + 2;
      ScoreAt(g, rows, cols, s0, py, w, r, x, k);
      EarlierSlotIndex(cols, r, x, rb, xb);
      assert scores[k].value < scores[b].value;
    }
  }
}
