/** One game of Tetris: the state of a board with its falling and next piece,
    the rules that change it (placing a piece, clearing lines, dying), the AI
    move and the player's moves. The rules are stated as functions on a
    State value; the Game class applies them in place and its methods are
    proved to agree with them. */
module Tetris {
  import opened Wrappers
  import opened Shapes
  import opened Board
  import opened Evaluator
  import opened Search
  import opened Genetics

  /** A piece: its id, its current (possibly rotated) shape and the board
      position of its top-left cell. */
  datatype Piece = Piece(id: int, shape: Shape, x: int, y: int)

  /** A fresh piece of the given id: its table shape on the top row,
      centred (the free columns to its left and right differ by at most
      one), and with at least 4 columns wholly inside the board. */
  function Spawn(id: int, cols: nat): (p: Piece)
    requires IsPieceId(id)
    ensures p.id == id && p.shape == ShapeOf(id) && p.y == 0
    ensures 4 <= cols ==> 0 <= p.x && p.x + Width(p.shape) <= cols
    ensures -1 <= p.x - (cols - (p.x + Width(p.shape))) <= 1
  {
    Piece(id, ShapeOf(id), cols / 2 - Width(ShapeOf(id)) / 2, 0)
  }

  /** A spawned piece fits on an empty board of at least 2 rows and 4 columns. */
  lemma SpawnFitsEmptyBoard(id: int, rows: nat, cols: nat)
    requires IsPieceId(id) && 2 <= rows && 4 <= cols
    ensures Fits(Empties(rows, cols), rows, cols, Spawn(id, cols).shape, Spawn(id, cols).x, 0)
  {
    var p := Spawn(id, cols);
    forall y, x | 0 <= y < |p.shape| && 0 <= x < |p.shape[y]| && p.shape[y][x] != 0
      ensures CellFits(Empties(rows, cols), rows, cols, p.x + x, y)
    {
      assert |p.shape[y]| == Width(p.shape);
    }
  }

  /** Everything a game holds that the rules change. */
  datatype State = State(
    grid: Grid,
    score: nat,
    lines: nat,
    level: nat,
    dead: bool,
    current: Piece,
    next: Piece,
    fitness: int,
    movesTaken: nat)

  ghost predicate PieceOk(p: Piece) {
    IsPieceId(p.id) && WellFormed(p.shape)
  }

  /** What holds of every reachable game state: a rows-by-cols board of
      piece ids with no full row left standing, the level matching the line
      count, a next piece fresh from the spawner and, while the game is
      alive, a current piece in a legal position. */
  ghost predicate Inv(s: State, rows: nat, cols: nat) {
    && 4 <= cols && 2 <= rows
    && IsGrid(s.grid, rows, cols) && CellsInRange(s.grid) && NoFullRow(s.grid)
    && s.level == LevelFor(s.lines)
    && PieceOk(s.current) && PieceOk(s.next)
    && s.next == Spawn(s.next.id, cols)
    && (!s.dead ==> Fits(s.grid, rows, cols, s.current.shape, s.current.x, s.current.y))
  }

  /** The state of a new game. */
  function Initial(rows: nat, cols: nat, firstId: int, nextId: int): State
    requires IsPieceId(firstId) && IsPieceId(nextId)
  {
    State(Empties(rows, cols), 0, 0, 1, false, Spawn(firstId, cols), Spawn(nextId, cols), 0, 0)
  }

  /** A new game satisfies the invariant. */
  lemma InitialInv(rows: nat, cols: nat, firstId: int, nextId: int)
    requires 2 <= rows && 4 <= cols && IsPieceId(firstId) && IsPieceId(nextId)
    ensures Inv(Initial(rows, cols, firstId, nextId), rows, cols)
  {
    SpawnFitsEmptyBoard(firstId, rows, cols);
    ClearedWithoutFullRows(Empties(rows, cols), cols);
  }

  /** Fitness of a finished game: score, plus 1000 per line, plus one per move. */
  function FitnessOf(score: nat, lines: nat, movesTaken: nat): (f: int)
    ensures f >= score && f >= 1000 * lines && f >= movesTaken
  {
    score + lines * 1000 + movesTaken
  }

  /** The game after dying: it is over and its fitness is fixed from its
      score, lines and moves; nothing else changes. */
  function Died(s: State): (d: State)
    ensures d.dead && d.fitness == FitnessOf(d.score, d.lines, d.movesTaken)
    ensures d.(dead := s.dead, fitness := s.fitness) == s
  {
    s.(dead := true, fitness := FitnessOf(s.score, s.lines, s.movesTaken))
  }

  /** Some filled cell of the piece is still above the top row. */
  ghost predicate AboveTop(p: Piece) {
    exists y, x :: 0 <= y < |p.shape| && 0 <= x < |p.shape[y]| && p.shape[y][x] != 0 && p.y + y < 0
  }

  /** The game after clearing its full rows: k of them go, lines grows by k,
      the score grows by the table entry for k times the level in force
      before the clear, and the level is recomputed when k > 0. */
  function AfterClear(s: State, cols: nat): (c: State)
    requires FullCount(s.grid) <= 4
    ensures |c.grid| == |s.grid| && c.lines == s.lines + FullCount(s.grid) && c.score >= s.score
    ensures FullCount(s.grid) > 0 ==> c.level == LevelFor(c.lines)
    ensures c.(grid := s.grid, lines := s.lines, score := s.score, level := s.level) == s
  {
    var k := FullCount(s.grid);
    s.(grid := Cleared(s.grid, cols),
       lines := s.lines + k,
       score := s.score + LineScore(k) * s.level,
       level := if k > 0 then LevelFor(s.lines + k) else s.level)
  }

  /** A grid without full rows gains at most |s| full rows from painting one shape. */
  lemma PaintedFullCount(g: Grid, rows: nat, cols: nat, s: Shape, px: int, py: int, v: int)
    requires IsGrid(g, rows, cols) && NoFullRow(g)
    ensures FullCount(Paint(g, rows, cols, s, px, py, v)) <= |s|
  {
    var t := Paint(g, rows, cols, s, px, py, v);
    var lo := if py < 0 then 0 else py;
    var hi := if py + |s| < lo then lo else py + |s|;
    forall r | 0 <= r < |t| && FullRow(t[r]) ensures lo <= r < hi {
      if !(py <= r < py + |s|) {
        PaintOutsideRows(g, rows, cols, s, px, py, v, r);
      }
    }
    FullCountWithin(t, lo, hi);
  }

  /** Placing the current piece: if a filled cell is still above the top row
      the game dies and the board is left as it was; otherwise the piece's
      id is written into the board, full rows are cleared, the next piece
      becomes current, a new next piece is spawned, and the game dies if the
      new current piece does not fit. */
  ghost function Placed(s: State, rows: nat, cols: nat, newId: int): (t: State)
    requires Inv(s, rows, cols) && !s.dead && IsPieceId(newId)
    ensures t.movesTaken == s.movesTaken && t.score >= s.score && t.lines >= s.lines
    ensures !t.dead ==> t.current == s.next && t.next == Spawn(newId, cols)
    ensures t.dead ==> t.fitness == FitnessOf(t.score, t.lines, t.movesTaken)
  {
    var cur := s.current;
    if AboveTop(cur) then Died(s)
    else
      var painted := Paint(s.grid, rows, cols, cur.shape, cur.x, cur.y, cur.id);
      PaintedFullCount(s.grid, rows, cols, cur.shape, cur.x, cur.y, cur.id);
      ClearedIsGrid(painted, rows, cols);
      var c := AfterClear(s.(grid := painted), cols);
      var s2 := c.(current := s.next, next := Spawn(newId, cols));
      if Fits(s2.grid, rows, cols, s2.current.shape, s2.current.x, s2.current.y) then s2 else Died(s2)
  }

  /** Placing keeps the invariant; the board loses no row and keeps its
      non-full rows in order; and lines grows by the number of rows the
      piece completed, which is at most 4. */
  lemma PlacedKeepsInv(s: State, rows: nat, cols: nat, newId: int)
    requires Inv(s, rows, cols) && !s.dead && IsPieceId(newId)
    ensures Inv(Placed(s, rows, cols, newId), rows, cols)
    ensures var t := Placed(s, rows, cols, newId);
      !AboveTop(s.current) ==>
        var painted := Paint(s.grid, rows, cols, s.current.shape, s.current.x, s.current.y, s.current.id);
        && t.grid == Cleared(painted, cols)
        && t.lines == s.lines + FullCount(painted)
        && FullCount(painted) <= 4
    ensures var t := Placed(s, rows, cols, newId);
      t.movesTaken == s.movesTaken && (t.dead ==> t.fitness == FitnessOf(t.score, t.lines, t.movesTaken))
  {
    var cur := s.current;
    if !AboveTop(cur) {
      var painted := Paint(s.grid, rows, cols, cur.shape, cur.x, cur.y, cur.id);
      PaintedFullCount(s.grid, rows, cols, cur.shape, cur.x, cur.y, cur.id);
      PaintCellsInRange(s.grid, rows, cols, cur.shape, cur.x, cur.y, cur.id);
      ClearedIsGrid(painted, rows, cols);
    }
  }

  /** When the piece completes no row, clearing changes nothing at all. */
  lemma AfterClearWithoutFullRows(s: State, cols: nat)
    requires NoFullRow(s.grid)
    ensures FullCount(s.grid) == 0 && AfterClear(s, cols) == s
  {
    ClearedWithoutFullRows(s.grid, cols);
  }

  /** The piece moved to (x, y), with shape sh. */
  function MovedTo(s: State, sh: Shape, x: int, y: int): State {
    s.(current := s.current.(shape := sh, x := x, y := y))
  }

  /** Moving the live piece to a position where it fits keeps the invariant. */
  lemma MoveKeepsInv(s: State, rows: nat, cols: nat, sh: Shape, x: int, y: int)
    requires Inv(s, rows, cols) && !s.dead && WellFormed(sh) && Fits(s.grid, rows, cols, sh, x, y)
    ensures Inv(MovedTo(s, sh, x, y), rows, cols)
  {
  }

  /** The AI commits placement p: the piece takes p's shape and position,
      is placed, and then the move is counted. */
  ghost function AiPlaced(s: State, rows: nat, cols: nat, p: Placement, newId: int): (t: State)
    requires Inv(s, rows, cols) && !s.dead && IsPieceId(newId)
    requires WellFormed(p.shape) && Fits(s.grid, rows, cols, p.shape, p.x, p.y)
    ensures t.movesTaken == s.movesTaken + 1 && t.score >= s.score && t.lines >= s.lines
    ensures !t.dead ==> t.current == s.next
  {
    MoveKeepsInv(s, rows, cols, p.shape, p.x, p.y);
    var t := Placed(MovedTo(s, p.shape, p.x, p.y), rows, cols, newId);
    t.(movesTaken := t.movesTaken + 1)
  }

  /** A committed placement keeps the invariant and adds exactly one move;
      when it ends the game, the fitness was fixed before the move was
      counted and so lacks it. */
  lemma AiPlacedFacts(s: State, rows: nat, cols: nat, p: Placement, newId: int)
    requires Inv(s, rows, cols) && !s.dead && IsPieceId(newId)
    requires WellFormed(p.shape) && Fits(s.grid, rows, cols, p.shape, p.x, p.y)
    ensures var t := AiPlaced(s, rows, cols, p, newId);
      && Inv(t, rows, cols)
      && t.movesTaken == s.movesTaken + 1
      && (t.dead ==> t.fitness == FitnessOf(t.score, t.lines, t.movesTaken) - 1)
  {
    MoveKeepsInv(s, rows, cols, p.shape, p.x, p.y);
    PlacedKeepsInv(MovedTo(s, p.shape, p.x, p.y), rows, cols, newId);
  }

  /** The AI move on weights w: a dead game or one without a genome is left
      alone; if the search finds no placement the game dies; otherwise the
      best placement is committed. */
  ghost function AfterAiMove(s: State, rows: nat, cols: nat, w: Option<seq<real>>, newId: int): (t: State)
    requires Inv(s, rows, cols) && IsPieceId(newId) && (w.Some? ==> |w.value| == GeneCount)
    ensures s.dead || w.None? ==> t == s
    ensures t.score >= s.score && t.lines >= s.lines && s.movesTaken <= t.movesTaken <= s.movesTaken + 1
  {
    if s.dead || w.None? then s
    else
      var best := BestPlacement(s.grid, rows, cols, s.current.shape, s.current.y, w.value);
      if best.None? then Died(s)
      else
        BestPlacementIsCandidate(s.grid, rows, cols, s.current.shape, s.current.y, w.value);
        BestPlacementRests(s.grid, rows, cols, s.current.shape, s.current.y, w.value);
        AiPlaced(s, rows, cols, best.value, newId)
  }

  /** The AI move keeps the invariant; it ends the game without placing
      anything exactly when the search finds no placement, and otherwise
      counts one move (placing may still end the game, by a top-out or by a
      next piece that does not fit). */
  lemma AiMoveFacts(s: State, rows: nat, cols: nat, w: Option<seq<real>>, newId: int)
    requires Inv(s, rows, cols) && IsPieceId(newId) && (w.Some? ==> |w.value| == GeneCount)
    ensures Inv(AfterAiMove(s, rows, cols, w, newId), rows, cols)
    ensures !s.dead && w.Some? ==>
      var best := BestPlacement(s.grid, rows, cols, s.current.shape, s.current.y, w.value);
      && (best.None? ==> AfterAiMove(s, rows, cols, w, newId) == Died(s))
      && (best.Some? ==> AfterAiMove(s, rows, cols, w, newId).movesTaken == s.movesTaken + 1)
  {
    if !s.dead && w.Some? {
      var best := BestPlacement(s.grid, rows, cols, s.current.shape, s.current.y, w.value);
      if best.Some? {
        BestPlacementIsCandidate(s.grid, rows, cols, s.current.shape, s.current.y, w.value);
        BestPlacementRests(s.grid, rows, cols, s.current.shape, s.current.y, w.value);
        AiPlacedFacts(s, rows, cols, best.value, newId);
      }
    }
  }

  /** The keys the player can press. */
  datatype Key = Left | Right | Down | Up | Space | Other

  /** A sideways or downward move by (dx, dy): made only when the piece fits there. */
  ghost function Shifted(s: State, rows: nat, cols: nat, dx: int, dy: int): (t: State)
    requires IsGrid(s.grid, rows, cols)
    ensures t == s.(current := t.current) && t.current.id == s.current.id && t.current.shape == s.current.shape
    ensures t.current == s.current || (t.current.x == s.current.x + dx && t.current.y == s.current.y + dy)
    ensures t.current != s.current ==> Fits(s.grid, rows, cols, t.current.shape, t.current.x, t.current.y)
  {
    var p := s.current;
    if Fits(s.grid, rows, cols, p.shape, p.x + dx, p.y + dy) then MovedTo(s, p.shape, p.x + dx, p.y + dy) else s
  }

  /** The column a rotation lands in: the clockwise-rotated shape is tried
      in the current column, then one column to the left, then one to the
      right; none if it fits in none of them. */
  ghost function RotationColumn(s: State, rows: nat, cols: nat): (c: Option<int>)
    requires IsGrid(s.grid, rows, cols) && Rectangular(s.current.shape)
    ensures c.Some? ==> Fits(s.grid, rows, cols, Rotate(s.current.shape), c.value, s.current.y)
    ensures c.Some? ==> -1 <= c.value - s.current.x <= 1
    ensures c.None? <==>
      && !Fits(s.grid, rows, cols, Rotate(s.current.shape), s.current.x, s.current.y)
      && !Fits(s.grid, rows, cols, Rotate(s.current.shape), s.current.x - 1, s.current.y)
      && !Fits(s.grid, rows, cols, Rotate(s.current.shape), s.current.x + 1, s.current.y)
  {
    var p := s.current;
    var r := Rotate(p.shape);
    if Fits(s.grid, rows, cols, r, p.x, p.y) then Some(p.x)
    else if Fits(s.grid, rows, cols, r, p.x - 1, p.y) then Some(p.x - 1)
    else if Fits(s.grid, rows, cols, r, p.x + 1, p.y) then Some(p.x + 1)
    else None
  }

  /** A rotation: the piece takes the rotated shape in the column found for
      it; if there is none nothing changes. */
  ghost function Rotated(s: State, rows: nat, cols: nat): (t: State)
    requires IsGrid(s.grid, rows, cols) && Rectangular(s.current.shape)
    ensures t == s.(current := t.current) && t.current.id == s.current.id && t.current.y == s.current.y
    ensures t != s ==> t.current.shape == Rotate(s.current.shape) && -1 <= t.current.x - s.current.x <= 1
    ensures t != s ==> Fits(s.grid, rows, cols, t.current.shape, t.current.x, t.current.y)
  {
    match RotationColumn(s, rows, cols)
    case None => s
    case Some(x) => MovedTo(s, Rotate(s.current.shape), x, s.current.y)
  }

  /** The hard drop: the piece falls to its resting row and is placed. */
  ghost function HardDropped(s: State, rows: nat, cols: nat, newId: int): (t: State)
    requires Inv(s, rows, cols) && !s.dead && IsPieceId(newId)
    ensures t.movesTaken == s.movesTaken && t.score >= s.score && t.lines >= s.lines
    ensures !t.dead ==> t.current == s.next
  {
    var p := s.current;
    var y := RestRow(s.grid, rows, cols, p.shape, p.x, p.y);
    MoveKeepsInv(s, rows, cols, p.shape, p.x, y);
    Placed(MovedTo(s, p.shape, p.x, y), rows, cols, newId)
  }

  /** One key press on a live game: left, right and down shift the piece,
      up rotates it, space hard-drops it. A dead game ignores every key. */
  ghost function AfterInput(s: State, rows: nat, cols: nat, key: Key, newId: int): (t: State)
    requires Inv(s, rows, cols) && IsPieceId(newId)
    ensures s.dead || key == Other ==> t == s
    ensures t.movesTaken == s.movesTaken && t.score >= s.score && t.lines >= s.lines
  {
    if s.dead then s
    else
      match key
      case Left => Shifted(s, rows, cols, -1, 0)
      case Right => Shifted(s, rows, cols, 1, 0)
      case Down => Shifted(s, rows, cols, 0, 1)
      case Up => Rotated(s, rows, cols)
      case Space => HardDropped(s, rows, cols, newId)
      case Other => s
  }

  /** A shift keeps the invariant and changes nothing but the piece's position. */
  lemma ShiftKeepsInv(s: State, rows: nat, cols: nat, dx: int, dy: int)
    requires Inv(s, rows, cols) && !s.dead
    ensures var t := Shifted(s, rows, cols, dx, dy);
      && Inv(t, rows, cols)
      && t == s.(current := t.current)
      && t.current.shape == s.current.shape && t.current.id == s.current.id
  {
    var p := s.current;
    if Fits(s.grid, rows, cols, p.shape, p.x + dx, p.y + dy) {
      MoveKeepsInv(s, rows, cols, p.shape, p.x + dx, p.y + dy);
    }
  }

  /** A rotation keeps the invariant; it changes nothing but the piece's
      shape, which becomes the rotated one, and its column, by at most one. */
  lemma RotationKeepsInv(s: State, rows: nat, cols: nat)
    requires Inv(s, rows, cols) && !s.dead
    ensures var t := Rotated(s, rows, cols);
      && Inv(t, rows, cols)
      && t == s.(current := t.current)
      && t.current.id == s.current.id && t.current.y == s.current.y
      && (t != s ==> t.current.shape == Rotate(s.current.shape) && -1 <= t.current.x - s.current.x <= 1)
  {
    RotatePreservesWellFormed(s.current.shape);
    var c := RotationColumn(s, rows, cols);
    if c.Some? {
      MoveKeepsInv(s, rows, cols, Rotate(s.current.shape), c.value, s.current.y);
    }
  }

  /** A key press keeps the invariant; every key but space leaves the board,
      score, lines and the rest of the game alone and moves only the piece. */
  lemma InputKeepsInv(s: State, rows: nat, cols: nat, key: Key, newId: int)
    requires Inv(s, rows, cols) && IsPieceId(newId)
    ensures Inv(AfterInput(s, rows, cols, key, newId), rows, cols)
    ensures key != Space ==>
      var t := AfterInput(s, rows, cols, key, newId);
      t == s.(current := t.current) && t.current.id == s.current.id
  {
    if !s.dead {
      match key
      case Left => ShiftKeepsInv(s, rows, cols, -1, 0);
      case Right => ShiftKeepsInv(s, rows, cols, 1, 0);
      case Down => ShiftKeepsInv(s, rows, cols, 0, 1);
      case Up => RotationKeepsInv(s, rows, cols);
      case Space =>
        var p := s.current;
        var y := RestRow(s.grid, rows, cols, p.shape, p.x, p.y);
        MoveKeepsInv(s, rows, cols, p.shape, p.x, y);
        PlacedKeepsInv(MovedTo(s, p.shape, p.x, y), rows, cols, newId);
      case Other =>
    }
  }

  /** The timed drop of the player's game: one row down if that fits,
      otherwise the piece is placed. */
  ghost function AfterHumanDrop(s: State, rows: nat, cols: nat, newId: int): (t: State)
    requires Inv(s, rows, cols) && !s.dead && IsPieceId(newId)
    ensures t.movesTaken == s.movesTaken && t.score >= s.score && t.lines >= s.lines
    ensures t.current.y == s.current.y + 1 || t.current == s.next || t.dead
  {
    var p := s.current;
    if Fits(s.grid, rows, cols, p.shape, p.x, p.y + 1) then MovedTo(s, p.shape, p.x, p.y + 1)
    else Placed(s, rows, cols, newId)
  }

  /** The timed drop keeps the invariant, and a piece keeps falling until it
      can go no lower: it is placed only when one row down does not fit. */
  lemma HumanDropKeepsInv(s: State, rows: nat, cols: nat, newId: int)
    requires Inv(s, rows, cols) && !s.dead && IsPieceId(newId)
    ensures Inv(AfterHumanDrop(s, rows, cols, newId), rows, cols)
    ensures Fits(s.grid, rows, cols, s.current.shape, s.current.x, s.current.y + 1) ==>
      AfterHumanDrop(s, rows, cols, newId).current.y == s.current.y + 1
  {
    var p := s.current;
    if Fits(s.grid, rows, cols, p.shape, p.x, p.y + 1) {
      HumanDropFalls(s, rows, cols, newId);
    } else {
      HumanDropPlaces(s, rows, cols, newId);
    }
  }

  /** The timed drop when one row down fits: the piece moves there. */
  lemma HumanDropFalls(s: State, rows: nat, cols: nat, newId: int)
    requires Inv(s, rows, cols) && !s.dead && IsPieceId(newId)
    requires Fits(s.grid, rows, cols, s.current.shape, s.current.x, s.current.y + 1)
    ensures Inv(AfterHumanDrop(s, rows, cols, newId), rows, cols)
    ensures AfterHumanDrop(s, rows, cols, newId).current.y == s.current.y + 1
  {
    var p := s.current;
    assert AfterHumanDrop(s, rows, cols, newId) == MovedTo(s, p.shape, p.x, p.y + 1);
    MoveKeepsInv(s, rows, cols, p.shape, p.x, p.y + 1);
  }

  /** The timed drop when one row down does not fit: the piece is placed. */
  lemma HumanDropPlaces(s: State, rows: nat, cols: nat, newId: int)
    requires Inv(s, rows, cols) && !s.dead && IsPieceId(newId)
    requires !Fits(s.grid, rows, cols, s.current.shape, s.current.x, s.current.y + 1)
    ensures Inv(AfterHumanDrop(s, rows, cols, newId), rows, cols)
  {
    assert AfterHumanDrop(s, rows, cols, newId) == Placed(s, rows, cols, newId);
    PlacedKeepsInv(s, rows, cols, newId);
  }

  /** One game. */
  class Game {
    const rows: nat
    const cols: nat
    var grid: Grid
    var score: nat
    var lines: nat
    var level: nat
    var dead: bool
    var current: Piece
    var next: Piece
    /** The genes of the game's own copy of its genome, the weights the AI
        plays with; none for a player's game. The copy is made when the game
        is created and never changed afterwards, so it is held as a value. */
    const genome: Option<seq<real>>
    var fitness: int
    var movesTaken: nat

    ghost function Snapshot(): State
      reads this
    {
      State(grid, score, lines, level, dead, current, next, fitness, movesTaken)
    }

    ghost predicate Valid()
      reads this
    {
      Inv(Snapshot(), rows, cols) && (genome.Some? ==> |genome.value| == GeneCount)
    }

    /** A new game: empty board, score 0, level 1, two spawned pieces. The
        genome is a copy of the given genes (the genes of the genome passed
        in) if there are any, else a random one in AI mode, else none. */
    constructor (rows: nat, cols: nat, firstId: int, nextId: int, parent: Option<seq<real>>, aiMode: bool, draws: seq<real>)
      requires 2 <= rows && 4 <= cols && IsPieceId(firstId) && IsPieceId(nextId)
      requires parent.Some? ==> |parent.value| == GeneCount
      requires parent.None? && aiMode ==> |draws| == GeneCount
      ensures Valid()
      ensures this.rows == rows && this.cols == cols
      ensures Snapshot() == Initial(rows, cols, firstId, nextId)
      ensures parent.Some? ==> genome == parent
      ensures parent.None? && aiMode ==> genome == Some(InitialGenes(draws))
      ensures parent.None? && !aiMode ==> genome == None
    {
      this.rows := rows;
      this.cols := cols;
      grid := Empties(rows, cols);
      score, lines, level, dead := 0, 0, 1, false;
      current := Spawn(firstId, cols);
      next := Spawn(nextId, cols);
      var g: Option<seq<real>> := parent;
      if parent.None? && aiMode {
        var random := new Genome(draws);
        g := Some(random.genes);
      }
      genome := g;
      fitness, movesTaken := 0, 0;
      new;
      InitialInv(rows, cols, firstId, nextId);
    }

    method Die()
      modifies this
      ensures Snapshot() == Died(old(Snapshot()))
    {
      dead := true;
      fitness := score + (lines * 1000) + movesTaken;
    }

    /** Writes the current piece's id under its filled cells, row by row;
        meeting a filled cell above the top row, it ends the game instead. */
    method WritePiece()
      requires Valid() && !dead
      modifies this
      ensures AboveTop(old(current)) ==> Snapshot() == Died(old(Snapshot()))
      ensures !AboveTop(old(current)) ==>
        Snapshot() == old(Snapshot()).(grid := Paint(old(grid), rows, cols, current.shape, current.x, current.y, current.id))
    {
      var shape, px, py, id := current.shape, current.x, current.y, current.id;
      var written, died := WriteCells(grid, rows, cols, shape, px, py, id);
      grid := written;
      if died {
        Die();
      }
    }

    /** Removes the full rows from the bottom up: a full row at y is spliced
        out and an empty row put on top, and row y is looked at again. */
    method ClearLines()
      requires 0 < cols && IsGrid(grid, rows, cols) && FullCount(grid) <= 4
      modifies this
      ensures Snapshot() == AfterClear(old(Snapshot()), cols)
    {
      ghost var c := AfterClear(Snapshot(), cols);
      var rowsLeft, linesCleared := RemoveFullRows(grid, rows, cols);
      grid := rowsLeft;
      if linesCleared > 0 {
        lines := lines + linesCleared;
        score := score + LineScore(linesCleared) * level;
        level := LevelFor(lines);
      }
      assert grid == c.grid && lines == c.lines && score == c.score && level == c.level;
    }

    method PlacePiece(newId: int)
      requires Valid() && !dead && IsPieceId(newId)
      modifies this
      ensures Valid()
      ensures Snapshot() == Placed(old(Snapshot()), rows, cols, newId)
    {
      ghost var s0 := Snapshot();
      PlacedKeepsInv(s0, rows, cols, newId);
      WritePiece();
      if dead {
        return;
      }
      PaintedFullCount(s0.grid, rows, cols, current.shape, current.x, current.y, current.id);
      ghost var painted := Snapshot();
      ClearLines();
      ghost var c := AfterClear(painted, cols);
      assert Snapshot() == c;
      current := next;
      next := Spawn(newId, cols);
      assert Snapshot() == c.(current := s0.next, next := Spawn(newId, cols));
      if !IsValid(grid, rows, cols, current.shape, current.x, current.y) {
        Die();
      }
    }

    method AiMove(newId: int)
      requires Valid() && IsPieceId(newId)
      modifies this
      ensures Valid()
      ensures Snapshot() == AfterAiMove(old(Snapshot()), rows, cols, genome, newId)
    {
      if dead || genome.None? {
        return;
      }
      var best := SearchBest(grid, rows, cols, current.shape, current.y, genome.value);
      if best.None? {
        Die();
        return;
      }
      BestPlacementIsCandidate(grid, rows, cols, current.shape, current.y, genome.value);
      BestPlacementRests(grid, rows, cols, current.shape, current.y, genome.value);
      CommitPlacement(best.value, newId);
    }

    /** The end of the AI move: the piece takes the chosen shape and
        position, is placed, and the move is counted. */
    method CommitPlacement(p: Placement, newId: int)
      requires Valid() && !dead && IsPieceId(newId)
      requires WellFormed(p.shape) && Fits(grid, rows, cols, p.shape, p.x, p.y)
      modifies this
      ensures Valid()
      ensures Snapshot() == AiPlaced(old(Snapshot()), rows, cols, p, newId)
    {
      ghost var s0 := Snapshot();
      AiPlacedFacts(s0, rows, cols, p, newId);
      MoveKeepsInv(s0, rows, cols, p.shape, p.x, p.y);
      ghost var placed := Placed(MovedTo(s0, p.shape, p.x, p.y), rows, cols, newId);
      assert AiPlaced(s0, rows, cols, p, newId) == placed.(movesTaken := placed.movesTaken + 1);
      current := current.(shape := p.shape, x := p.x, y := p.y);
      assert Snapshot() == MovedTo(s0, p.shape, p.x, p.y);
      PlacePiece(newId);
      assert Snapshot() == placed;
      movesTaken := movesTaken + 1;
      assert Snapshot() == AiPlaced(s0, rows, cols, p, newId);
    }

    method HumanDrop(newId: int)
      requires Valid() && !dead && IsPieceId(newId)
      modifies this
      ensures Valid()
      ensures Snapshot() == AfterHumanDrop(old(Snapshot()), rows, cols, newId)
    {
      ghost var s0 := Snapshot();
      var p := current;
      if IsValid(grid, rows, cols, p.shape, p.x, p.y + 1) {
        MoveKeepsInv(s0, rows, cols, p.shape, p.x, p.y + 1);
        assert AfterHumanDrop(s0, rows, cols, newId) == MovedTo(s0, p.shape, p.x, p.y + 1);
        current := p.(y := p.y + 1);
        assert Snapshot() == MovedTo(s0, p.shape, p.x, p.y + 1);
      } else {
        assert AfterHumanDrop(s0, rows, cols, newId) == Placed(s0, rows, cols, newId);
        PlacePiece(newId);
      }
    }

    /** A key press of the player. */
    method HandleInput(key: Key, newId: int)
      requires Valid() && IsPieceId(newId)
      modifies this
      ensures Valid()
      ensures Snapshot() == AfterInput(old(Snapshot()), rows, cols, key, newId)
    {
      if dead {
        return;
      }
      match key {
        case Left => Shift(-1, 0);
        case Right => Shift(1, 0);
        case Down => Shift(0, 1);
        case Up => RotatePiece();
        case Space => HardDrop(newId);
        case Other =>
      }
    }

    /** Moves the piece by (dx, dy) if it fits there. */
    method Shift(dx: int, dy: int)
      requires Valid() && !dead
      modifies this
      ensures Valid()
      ensures Snapshot() == Shifted(old(Snapshot()), rows, cols, dx, dy)
    {
      ShiftKeepsInv(Snapshot(), rows, cols, dx, dy);
      if IsValid(grid, rows, cols, current.shape, current.x + dx, current.y + dy) {
        current := current.(x := current.x + dx, y := current.y + dy);
      }
    }

    /** Rotates the piece clockwise, nudging it one column left or right if
        it does not fit where it is. */
    method RotatePiece()
      requires Valid() && !dead
      modifies this
      ensures Valid()
      ensures Snapshot() == Rotated(old(Snapshot()), rows, cols)
    {
      ghost var s0 := Snapshot();
      RotationKeepsInv(s0, rows, cols);
      var moved := TurnPiece(grid, rows, cols, current, s0);
      current := moved;
      assert Snapshot() == Rotated(s0, rows, cols);
    }

    /** Moves the piece down while one row lower fits, then places it. */
    method HardDrop(newId: int)
      requires Valid() && !dead && IsPieceId(newId)
      modifies this
      ensures Valid()
      ensures Snapshot() == HardDropped(old(Snapshot()), rows, cols, newId)
    {
      ghost var rest := RestRow(grid, rows, cols, current.shape, current.x, current.y);
      while IsValid(grid, rows, cols, current.shape, current.x, current.y + 1)
        invariant Valid() && !dead
        invariant Snapshot() == MovedTo(old(Snapshot()), current.shape, current.x, current.y)
        invariant current.shape == old(current).shape && current.x == old(current).x
        invariant RestRow(grid, rows, cols, current.shape, current.x, current.y) == rest
        decreases rows - current.y
      {
        FitsAboveFloor(grid, rows, cols, current.shape, current.x, current.y + 1);
        current := current.(y := current.y + 1);
      }
      PlacePiece(newId);
    }
  }

  /** The piece after rotate in the state s: turned clockwise where it is,
      else one column left, else one column right, else left as it was. */
  method TurnPiece(grid: Grid, rows: nat, cols: nat, p: Piece, ghost s: State) returns (moved: Piece)
    requires IsGrid(grid, rows, cols) && Rectangular(p.shape) && s.grid == grid && s.current == p
    ensures s.(current := moved) == Rotated(s, rows, cols)
  {
    var rotated := Rotate(p.shape);
    moved := p;
    if IsValid(grid, rows, cols, rotated, p.x, p.y) {
      moved := p.(shape := rotated);
    } else if IsValid(grid, rows, cols, rotated, p.x - 1, p.y) {
      moved := p.(shape := rotated, x := p.x - 1);
    } else if IsValid(grid, rows, cols, rotated, p.x + 1, p.y) {
      moved := p.(shape := rotated, x := p.x + 1);
    }
  }

  /** The writing loop of placePiece on the board g0: the id goes under
      every filled shape cell, row by row; the scan stops and reports the
      death when it meets a filled cell above the top row, and by then it
      has written nothing, since every cell visited before lies in a row no
      lower. */
  method WriteCells(g0: Grid, rows: nat, cols: nat, shape: Shape, px: int, py: int, id: int) returns (grid: Grid, died: bool)
    requires IsGrid(g0, rows, cols) && Fits(g0, rows, cols, shape, px, py)
    ensures died <==> AboveTop(Piece(id, shape, px, py))
    ensures died ==> grid == g0
    ensures !died ==> grid == Paint(g0, rows, cols, shape, px, py, id)
  {
    grid, died := g0, false;
    var y := 0;
    while y < |shape|
      invariant 0 <= y <= |shape|
      invariant forall y', x' :: 0 <= y' < y && 0 <= x' < |shape[y']| && shape[y'][x'] != 0 ==> py + y' >= 0
      invariant PaintedBefore(g0, grid, rows, cols, shape, px, py, id, y, 0)
    {
      var x := 0;
      while x < |shape[y]|
        invariant 0 <= x <= |shape[y]|
        invariant forall y', x' :: 0 <= y' < y && 0 <= x' < |shape[y']| && shape[y'][x'] != 0 ==> py + y' >= 0
        invariant forall x' :: 0 <= x' < x && shape[y][x'] != 0 ==> py + y >= 0
        invariant PaintedBefore(g0, grid, rows, cols, shape, px, py, id, y, x)
      {
        PaintStep(g0, grid, rows, cols, shape, px, py, id, y, x);
        if shape[y][x] != 0 {
          if py + y < 0 {
            forall r | 0 <= r < rows ensures grid[r] == g0[r] {
              assert forall c :: 0 <= c < cols ==> !CoversBefore(shape, px, py, r, c, y, x);
            }
            died := true;
            return;
          }
          assert CellFits(g0, rows, cols, px + x, py + y);
          grid := grid[py + y := grid[py + y][px + x := id]];
        }
        x := x + 1;
      }
      PaintNextRow(g0, grid, rows, cols, shape, px, py, id, y);
      y := y + 1;
    }
    PaintedCellwise(g0, grid, rows, cols, shape, px, py, id);
  }

  /** Row j-1 of the original board is full: after it is spliced out and an
      empty row put on top, the board again has the shape the clearing loop
      keeps, with one more empty row and one row fewer left to look at. */
  lemma RowAt(g0: Grid, cols: nat, k: nat, j: int)
    requires 0 < j <= |g0|
    ensures (Empties(k, cols) + g0[..j] + Keep(g0[j..]))[k + j - 1] == g0[j - 1]
  {
  }

  lemma RemoveFullRow(g0: Grid, cols: nat, k: nat, j: int)
    requires 0 < j <= |g0| && FullRow(g0[j - 1])
    ensures var grid := Empties(k, cols) + g0[..j] + Keep(g0[j..]);
      var y := k + j - 1;
      && [EmptyRow(cols)] + grid[..y] + grid[y + 1..] == Empties(k + 1, cols) + g0[..j - 1] + Keep(g0[j - 1..])
      && FullCount(g0[j - 1..]) == FullCount(g0[j..]) + 1
  {
    var grid := Empties(k, cols) + g0[..j] + Keep(g0[j..]);
    var y := k + j - 1;
    assert g0[j - 1..] == [g0[j - 1]] + g0[j..];
    assert g0[j - 1..][1..] == g0[j..];
    assert g0[..j] == g0[..j - 1] + [g0[j - 1]];
    assert grid[..y] == Empties(k, cols) + g0[..j - 1];
    assert grid[y + 1..] == Keep(g0[j..]);
    assert [EmptyRow(cols)] + Empties(k, cols) == Empties(k + 1, cols);
  }

  /** Row j-1 of the original board is not full: the clearing loop moves past
      it, and the board already has the shape it keeps for one row fewer. */
  lemma KeepRow(g0: Grid, cols: nat, k: nat, j: int)
    requires 0 < j <= |g0| && !FullRow(g0[j - 1])
    ensures Empties(k, cols) + g0[..j] + Keep(g0[j..]) == Empties(k, cols) + g0[..j - 1] + Keep(g0[j - 1..])
    ensures FullCount(g0[j - 1..]) == FullCount(g0[j..])
  {
    assert g0[j - 1..] == [g0[j - 1]] + g0[j..];
    assert g0[j - 1..][1..] == g0[j..];
    assert g0[..j] == g0[..j - 1] + [g0[j - 1]];
  }

  /** The row removal of clearLines, from the bottom up: a full row at y is
      spliced out and an empty row put on top, and row y is looked at again. */
  method RemoveFullRows(g0: Grid, rows: nat, cols: nat) returns (grid: Grid, linesCleared: nat)
    requires 0 < cols && IsGrid(g0, rows, cols)
    ensures grid == Cleared(g0, cols) && linesCleared == FullCount(g0)
  {
    grid := g0;
    linesCleared := 0;
    ghost var j: int := rows;
    var y: int := rows - 1;
    ScanBegins(g0, cols);
    while y >= 0
      invariant Scanning(g0, grid, cols, linesCleared, j, y)
      decreases j + y + 1
    {
      if j == 0 {
        ScanTopIsEmpty(g0, grid, cols, linesCleared, j, y);
      }
      if FullRow(grid[y]) {
        ScanFull(g0, grid, cols, linesCleared, j, y);
        grid := [EmptyRow(cols)] + grid[..y] + grid[y + 1..];
        linesCleared := linesCleared + 1;
        j := j - 1;
      } else {
        ScanKeep(g0, grid, cols, linesCleared, j, y);
        if j > 0 {
          j := j - 1;
        }
        y := y - 1;
      }
    }
    ScanEnds(g0, grid, cols, linesCleared, j, y);
  }

  /** The clearing loop's picture of the board: rows at or above j-1 of the
      original board g0 are still to be looked at, the k full rows found
      below them are gone and as many empty rows sit on top, and y is the
      index row j-1 now has (or, once every original row is done, points
      into the empty rows on top). */
  ghost predicate Scanning(g0: Grid, grid: Grid, cols: nat, k: nat, j: int, y: int) {
    && 0 <= j <= |g0|
    && k == FullCount(g0[j..])
    && grid == Empties(k, cols) + g0[..j] + Keep(g0[j..])
    && |grid| == |g0|
    && -1 <= y < |grid|
    && (j > 0 ==> y == k + j - 1)
    && (j == 0 ==> y < k)
  }

  lemma ScanBegins(g0: Grid, cols: nat)
    ensures Scanning(g0, g0, cols, 0, |g0|, |g0| - 1)
  {
    assert g0[|g0|..] == [];
    assert g0[..|g0|] == g0;
  }

  /** Once the original rows are done, only empty rows remain to be looked at. */
  lemma ScanTopIsEmpty(g0: Grid, grid: Grid, cols: nat, k: nat, j: int, y: int)
    requires 0 < cols && Scanning(g0, grid, cols, k, j, y) && j == 0 && 0 <= y
    ensures !FullRow(grid[y])
  {
    assert grid[y] == EmptyRow(cols);
    assert grid[y][0] == 0;
  }

  lemma ScanFull(g0: Grid, grid: Grid, cols: nat, k: nat, j: int, y: int)
    requires Scanning(g0, grid, cols, k, j, y) && 0 < j && 0 <= y && FullRow(grid[y])
    ensures Scanning(g0, [EmptyRow(cols)] + grid[..y] + grid[y + 1..], cols, k + 1, j - 1, y)
  {
    RowAt(g0, cols, k, j);
    RemoveFullRow(g0, cols, k, j);
  }

  lemma ScanKeep(g0: Grid, grid: Grid, cols: nat, k: nat, j: int, y: int)
    requires Scanning(g0, grid, cols, k, j, y) && 0 <= y && !FullRow(grid[y])
    ensures Scanning(g0, grid, cols, k, if j > 0 then j - 1 else 0, y - 1)
  {
    if j > 0 {
      RowAt(g0, cols, k, j);
      KeepRow(g0, cols, k, j);
    }
  }

  lemma ScanEnds(g0: Grid, grid: Grid, cols: nat, k: nat, j: int, y: int)
    requires Scanning(g0, grid, cols, k, j, y) && y < 0
    ensures grid == Cleared(g0, cols) && k == FullCount(g0)
  {
    assert g0[..0] == [] && g0[0..] == g0;
  }
}
