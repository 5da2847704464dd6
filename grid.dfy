/**
 * GridManager: the 10 x 24 block matrix, the falling piece, the line, score
 * and level bookkeeping of one game, and the tick that drives them; and the
 * AI that searches a copy of the grid for the best placement of the piece.
 *
 * The grid reads the game's level, score and intense flag and tells the game
 * when it is over; here those are parameters and results. The InputManager
 * whose LEFT and RIGHT timers a wall hit resets is passed in as well.
 */
module Grid {
  import opened Optional
  import opened Pieces
  import opened Boards
  import opened Metrics
  import opened Search
  import opened Input

  /** The board held in a 10 x 24 block array. */
  function BoardOf(a: array2<Cell>): (b: Board)
    requires a.Length0 == Width && a.Length1 == Height
    reads a
    ensures forall x, y :: 0 <= x < Width && 0 <= y < Height ==> b[x][y] == a[x, y]
  {
    seq(Width, x requires 0 <= x < Width reads a =>
      seq(Height, y requires 0 <= y < Height reads a => a[x, y]))
  }

  /** Frames the current piece waits, once locked, before the next one spawns. */
  const PieceSpawnDelay: int := 10

  /** The column every piece spawns in. */
  const PieceSpawnX: int := 5

  /**
   * GridManager.getPieceSpawnY. The S, Z and O case sets 0.5 and then falls
   * through to the default, so every kind spawns in row 0.
   */
  function PieceSpawnY(t: PieceType): int
  {
    0
  }

  /**
   * The fall-through is harmless: S, Z and O have all their blocks half a
   * cell off their centre vertically, so half a row lower (the 0.5 the case
   * meant) rounds to the very same cells as row 0.
   */
  lemma SpawnFallThroughHarmless(t: PieceType)
    requires t == S || t == Z || t == O
    ensures forall i :: 0 <= i < 4 ==>
      RoundHalf(2 * 0 + 1 + Shape(t)[i].dy) == CellOf(PieceSpawnX, PieceSpawnY(t), Shape(t)[i]).1
  {
  }

  /**
   * A new grid's AI target is column 0, orientation 0, and only a piece
   * pushed while the AI plays gets a searched one. So when the AI takes over
   * a piece the player's grid spawned, moveToAITarget steps it left, never
   * turns it, and drops it once it reaches column 0.
   */
  lemma FirstAiPieceStepsLeft(k: PieceType, p: PieceState)
    ensures AiStepFor(Spawned(k, PieceSpawnX, PieceSpawnY(k), false), 0, 0) == StepLeft
    ensures p.orientation == 0 && p.x > 0 ==> AiStepFor(p, 0, 0) == StepLeft
    ensures p.orientation == 0 && p.x == 0 ==> AiStepFor(p, 0, 0) == StepDown
  {
  }

  /** A GridManager's fields besides its board and its current piece. */
  datatype GridFields = GridFields(
    next: PieceType, aiTargetPos: int, aiTargetRot: int, totalLinesCleared: int, linesToClear: seq<int>,
    drought: int, lastDrought: int, fallRate: int, fallTimer: int, nextPieceTimer: int)

  /**
   * The fields after clearLines when rows are pending: the rows counted into
   * the total and forgotten, and the fall rate of the new level on a level-up.
   */
  function AfterClear(f: GridFields, level: int, intense: bool): GridFields
    requires 0 <= level
  {
    if f.linesToClear == [] then f
    else
      var total := f.totalLinesCleared + |f.linesToClear|;
      f.(totalLinesCleared := total, linesToClear := [],
         fallRate := if LevelAfterClear(total, level) == level + 1 then FallRate(level + 1, intense) else f.fallRate)
  }

  /**
   * The fields after pushPiece let a piece of kind f.next in: the drawn kind
   * is next, the drought is counted and the AI target is the given one.
   */
  function AfterPush(f: GridFields, drawn: PieceType, target: (int, int)): GridFields
  {
    var (d, l) := DroughtAfter(f.next, f.drought, f.lastDrought);
    f.(next := drawn, drought := d, lastDrought := l, aiTargetPos := target.0, aiTargetRot := target.1)
  }

  /**
   * moveCurrentPiece(DOWN, true) on values: the board, piece and fields
   * after the piece moves down one row or, when it cannot, locks in where it
   * stands with the full rows recorded and the spawn delay started.
   */
  function DownMove(b: Board, p: PieceState, f: GridFields): (Board, PieceState, GridFields)
  {
    var (q, collided) := Move(b, p, Down);
    if !collided then (b, q, f)
    else
      var locked := Lock(b, Cells(p), p.kind);
      (locked, p.(locked := true), f.(linesToClear := FullRows(locked), nextPieceTimer := PieceSpawnDelay))
  }

  /** The fields of a new GridManager at the given level, with the given next piece. */
  function FreshFields(next: PieceType, level: int): GridFields
    requires 0 <= level < |LevelSpeeds|
  {
    GridFields(next, 0, 0, 0, [], 0, 0, LevelSpeeds[level], LevelSpeeds[level], 0)
  }

  class GridManager {
    const blocks: array2<Cell>
    var current: Piece
    var next: PieceType
    var aiTargetPos: int
    var aiTargetRot: int
    var totalLinesCleared: int
    var linesToClear: seq<int>
    var drought: int
    var lastDrought: int
    var fallRate: int
    var fallTimer: int
    var nextPieceTimer: int

    /**
     * A 10 x 24 board, a well-formed piece (S, Z and I only ever in
     * orientation 0 or 1), and pending rows that are board rows.
     */
    ghost predicate Formed()
      reads this`current, this`linesToClear, current, current.relPos
    {
      blocks.Length0 == Width && blocks.Length1 == Height
      && current.Valid() && TwoWay(current.State())
      && (forall i :: 0 <= i < |linesToClear| ==> 0 <= linesToClear[i] < Height)
    }

    /** Formed, and every block of the piece above the floor and between the walls. */
    ghost predicate Valid()
      reads this`current, this`linesToClear, current, current.relPos
    {
      Formed() && InBounds(Cells(current.State()))
    }

    function Board(): Board
      requires blocks.Length0 == Width && blocks.Length1 == Height
      reads blocks
    {
      BoardOf(blocks)
    }

    /** The grid's fields besides the board and the piece, as one value. */
    ghost function Fields(): GridFields
      reads this
    {
      GridFields(next, aiTargetPos, aiTargetRot, totalLinesCleared, linesToClear,
        drought, lastDrought, fallRate, fallTimer, nextPieceTimer)
    }

    /**
     * What clearAndPush leaves, from fields f and input timers ts: the rows
     * cleared; unless the game ended, the next piece pushed with its drought
     * count and, when the AI plays, the AI's target and the wall charges its
     * search made; every other field as in f.
     */
    ghost predicate Pushed(f: GridFields, ts: seq<int>, drawn: PieceType, level: int, intense: bool, aiActive: bool,
                           gameOver: bool, input: InputManager)
      requires blocks.Length0 == Width && blocks.Length1 == Height && 0 <= level && |ts| == InputCount
      reads this, blocks, current, current.relPos, input, input.timers
    {
      PushedFrom(AfterClear(f, level, intense), ts, drawn, aiActive, gameOver, input)
    }

    /** What pushPiece leaves, from fields f and input timers ts (the push half of Pushed). */
    ghost predicate PushedFrom(f: GridFields, ts: seq<int>, drawn: PieceType, aiActive: bool, gameOver: bool, input: InputManager)
      requires blocks.Length0 == Width && blocks.Length1 == Height && |ts| == InputCount
      reads this, blocks, current, current.relPos, input, input.timers
    {
      var os := Outcomes(Board(), Cloned(current.State()));
      if gameOver then Fields() == f && input.timers[..] == ts
      else if aiActive then
        Fields() == AfterPush(f, drawn, Best(os, DeployedSentinel, CandidateCount).1)
        && input.timers[..] == Charged(ts, Bumps(os, CandidateCount).0, Bumps(os, CandidateCount).1)
      else Fields() == AfterPush(f, drawn, (f.aiTargetPos, f.aiTargetRot)) && input.timers[..] == ts
    }

    /**
     * GridManager(gameManager): an empty board, a current and a next piece
     * of the given (randomly drawn) kinds, and the fall rate of the level.
     */
    constructor (level: int, currentKind: PieceType, nextKind: PieceType)
      requires 0 <= level < |LevelSpeeds|
      ensures Valid() && fresh(blocks) && fresh(current) && fresh(current.relPos)
      ensures Board() == EmptyBoard()
      ensures current.State() == Spawned(currentKind, PieceSpawnX, PieceSpawnY(currentKind), false)
      ensures next == nextKind
      ensures aiTargetPos == 0 && aiTargetRot == 0
      ensures totalLinesCleared == 0 && linesToClear == [] && drought == 0 && lastDrought == 0
      ensures fallRate == LevelSpeeds[level] && fallTimer == fallRate && nextPieceTimer == 0
      ensures Fields() == FreshFields(nextKind, level)
    {
      blocks := new Cell[Width, Height]((_, _) => None);
      current := new Piece(PieceSpawnX, PieceSpawnY(currentKind), currentKind, false);
      next := nextKind;
      aiTargetPos := 0;
      aiTargetRot := 0;
      totalLinesCleared := 0;
      linesToClear := [];
      drought := 0;
      lastDrought := 0;
      fallRate := LevelSpeeds[level];
      fallTimer := LevelSpeeds[level];
      nextPieceTimer := 0;
      new;
      SpawnInBounds(currentKind, false);
      BoardsEqual(Board(), EmptyBoard());
    }

    /** The board scan of checkCollisions: whether a board block sits at cell c. */
    method OccupiedAt(c: Pos) returns (hit: bool)
      requires blocks.Length0 == Width && blocks.Length1 == Height
      ensures hit == Occupied(Board(), c)
    {
      var x := 0;
      while x < Width
        invariant 0 <= x <= Width
        invariant forall x', y :: 0 <= x' < x && 0 <= y < Height ==> !(blocks[x', y].Some? && (x', y) == c)
      {
        var y := 0;
        while y < Height
          invariant 0 <= y <= Height
          invariant forall y' :: 0 <= y' < y ==> !(blocks[x, y'].Some? && (x, y') == c)
        {
          if blocks[x, y].Some? && x == c.0 && y == c.1 {
            return true;
          }
          y := y + 1;
        }
        x := x + 1;
      }
      return false;
    }

    /**
     * GridManager.checkCollisions(dir): a locked piece always collides;
     * otherwise some block of the piece, moved one cell in dir, is at or
     * below the floor, beyond a wall, or on a board block.
     */
    method CheckCollisions(dir: Direction) returns (c: bool)
      requires Valid()
      ensures c == Collides(Board(), current.State(), dir)
    {
      if current.locked {
        return true;
      }
      var cells := Cells(current.State());
      var i := 0;
      while i < |cells|
        invariant 0 <= i <= |cells|
        invariant forall j :: 0 <= j < i ==> !Blocked(Board(), Shifted(cells[j], dir))
      {
        var moved := Shifted(cells[i], dir);
        if moved.1 >= Height {
          return true;
        } else if moved.0 >= Width || moved.0 < 0 {
          return true;
        } else {
          var hit := OccupiedAt(moved);
          if hit {
            return true;
          }
        }
        i := i + 1;
      }
      return false;
    }

    /** The counting loop of checkLines: whether all ten cells of row y are occupied. */
    method RowIsFull(y: int) returns (full: bool)
      requires blocks.Length0 == Width && blocks.Length1 == Height
      requires 0 <= y < Height
      ensures full == IsFull(Board(), y)
    {
      var counter := 0;
      var x := 0;
      while x < Width
        invariant 0 <= x <= Width
        invariant counter == RowCount(Board(), y, x)
      {
        if blocks[x, y].Some? {
          counter := counter + 1;
        }
        x := x + 1;
      }
      full := counter == Width;
    }

    /** The cell test of checkRotationCollision: below the floor, beyond a wall or on a board block. */
    method CellBlocked(c: Pos) returns (blocked: bool)
      requires blocks.Length0 == Width && blocks.Length1 == Height
      ensures blocked == Blocked(Board(), c)
    {
      if c.1 >= Height || c.0 >= Width || c.0 < 0 {
        return true;
      }
      blocked := OccupiedAt(c);
    }

    /** The loop of checkRotationCollision: is any of the cells blocked? */
    method AnyCellBlocked(cells: seq<Pos>) returns (c: bool)
      requires blocks.Length0 == Width && blocks.Length1 == Height
      ensures c == AnyBlocked(Board(), cells, NoDirection)
    {
      var i := 0;
      while i < |cells|
        invariant 0 <= i <= |cells|
        invariant forall j :: 0 <= j < i ==> !Blocked(Board(), Shifted(cells[j], NoDirection))
      {
        var blocked := CellBlocked(cells[i]);
        if blocked {
          assert Blocked(Board(), Shifted(cells[i], NoDirection));
          return true;
        }
        i := i + 1;
      }
      return false;
    }

    /**
     * GridManager.checkRotationCollision(cw): turns the piece without a
     * check, notes where its blocks are, turns it back, and reports whether
     * one of those cells is blocked. The piece ends exactly as it started.
     */
    method CheckRotationCollision(cw: bool) returns (c: bool)
      requires Formed()
      modifies current`orientation, current.relPos
      ensures Formed() && current.State() == old(current.State())
      ensures c == RotationCollides(Board(), current.State(), cw)
      decreases 1
    {
      ghost var p := current.State();
      RotateCurrentPiece(cw, true);
      var turned := Cells(current.State());
      assert turned == Cells(Turn(p, cw));
      RotateCurrentPiece(!cw, true);
      TurnUndone(p, cw);
      assert current.State() == p;
      c := AnyCellBlocked(turned);
    }

    /**
     * GridManager.rotateCurrentPiece(cw, dontCheck): O stays; S, Z and I
     * toggle between orientations 0 and 1; L, J and T turn the way cw says.
     * The turn is made only when dontCheck is set or the turned piece would
     * not be blocked, so a checked turn keeps the piece inside the board.
     */
    method RotateCurrentPiece(cw: bool, dontCheck: bool)
      requires Formed()
      modifies current`orientation, current.relPos
      ensures Formed()
      ensures current.State() == Rotate(Board(), old(current.State()), cw, dontCheck)
      ensures !dontCheck && old(Valid()) ==> Valid()
      decreases if dontCheck then 0 else 2
    {
      ghost var p := current.State();
      if current.kind == O {
        return;
      }
      // S, Z and I check and make the turn that toggles their orientation.
      var toCw := if current.kind == S || current.kind == Z || current.kind == I then current.orientation != 1 else cw;
      assert Turn(p, cw) == Turn(p, toCw) == Rotated(p, toCw);
      var blocked := false;
      if !dontCheck {
        blocked := CheckRotationCollision(toCw);
      }
      if dontCheck || !blocked {
        current.Rotate(toCw);
      }
      TurnKeeps(p, cw);
      if !dontCheck {
        RotateKeeps(Board(), p, cw);
      }
    }

    /**
     * GridManager.checkLines: records, top to bottom, every row whose ten
     * cells are all occupied.
     */
    method CheckLines()
      requires blocks.Length0 == Width && blocks.Length1 == Height
      modifies this`linesToClear
      ensures linesToClear == FullRows(Board())
    {
      linesToClear := ScanFullRows();
    }

    /** The loop of checkLines, over the rows from the top. */
    method ScanFullRows() returns (lines: seq<int>)
      requires blocks.Length0 == Width && blocks.Length1 == Height
      ensures lines == FullRows(Board())
    {
      ghost var b := Board();
      lines := [];
      var y := 0;
      while y < Height
        invariant 0 <= y <= Height
        invariant lines == FullRowsUpTo(b, y)
      {
        var full := RowIsFull(y);
        if full {
          lines := lines + [y];
        }
        y := y + 1;
      }
    }

    /** One pass of clearLine's inner loop: row y is copied into row y + 1. */
    method CopyRowDown(y: int)
      requires blocks.Length0 == Width && blocks.Length1 == Height
      requires 0 <= y < Height - 1
      modifies blocks
      ensures forall x, r :: 0 <= x < Width && 0 <= r < Height ==>
        blocks[x, r] == if r == y + 1 then old(blocks[x, y]) else old(blocks[x, r])
    {
      var x := 0;
      while x < Width
        invariant 0 <= x <= Width
        invariant forall x', r :: 0 <= x' < Width && 0 <= r < Height ==>
          blocks[x', r] == if r == y + 1 && x' < x then old(blocks[x', y]) else old(blocks[x', r])
      {
        blocks[x, y + 1] := blocks[x, y];
        x := x + 1;
      }
    }

    /**
     * GridManager.clearLine(line): every row above `line` moves one row
     * down, row 0 stays as it was, and one more line is counted.
     */
    method ClearLine(line: int)
      requires blocks.Length0 == Width && blocks.Length1 == Height
      requires 0 <= line < Height
      modifies blocks, this`totalLinesCleared
      ensures Board() == Boards.ClearLine(old(Board()), line)
      ensures totalLinesCleared == old(totalLinesCleared) + 1
    {
      ghost var before := Board();
      var y := line - 1;
      while y >= 0
        invariant -1 <= y < line
        invariant totalLinesCleared == old(totalLinesCleared)
        invariant forall x, r :: 0 <= x < Width && y + 2 <= r <= line ==> blocks[x, r] == before[x][r - 1]
        invariant forall x, r :: 0 <= x < Width && 0 <= r < Height && (r <= y + 1 || line < r) ==>
          blocks[x, r] == before[x][r]
      {
        CopyRowDown(y);
        y := y - 1;
      }
      totalLinesCleared := totalLinesCleared + 1;
      ghost var after := Board();
      ghost var cleared := Boards.ClearLine(before, line);
      forall x, r | 0 <= x < Width && 0 <= r < Height
        ensures after[x][r] == cleared[x][r]
      {
        assert after[x][r] == blocks[x, r];
      }
      BoardsEqual(after, cleared);
    }

    /**
     * The block-writing loop of handleCollision and of the AI's placement:
     * every block of the piece at or below the top row is written into the
     * board; the result says whether some block was still above the top.
     */
    method PlaceBlocks(cells: seq<Pos>, kind: PieceType) returns (aboveTop: bool)
      requires blocks.Length0 == Width && blocks.Length1 == Height
      requires InBounds(cells)
      modifies blocks
      ensures Board() == Lock(old(Board()), cells, kind)
      ensures aboveTop == AboveTop(cells)
    {
      ghost var before := Board();
      aboveTop := false;
      var z := 0;
      while z < |cells|
        invariant 0 <= z <= |cells|
        invariant aboveTop <==> exists j :: 0 <= j < z && cells[j].1 < 0
        invariant forall x, y :: 0 <= x < Width && 0 <= y < Height && (x, y) in cells[..z] ==>
          blocks[x, y] == Some(kind)
        invariant forall x, y :: 0 <= x < Width && 0 <= y < Height && (x, y) !in cells[..z] ==>
          blocks[x, y] == before[x][y]
      {
        var (x, y) := cells[z];
        if y >= 0 {
          blocks[x, y] := Some(kind);
        } else {
          aboveTop := true;
        }
        assert cells[..z + 1] == cells[..z] + [cells[z]];
        z := z + 1;
      }
      assert cells[..z] == cells;
      ghost var after := Board();
      ghost var locked := Lock(before, cells, kind);
      forall x, y | 0 <= x < Width && 0 <= y < Height
        ensures after[x][y] == locked[x][y]
      {
        assert after[x][y] == blocks[x, y];
        if (x, y) in cells {
          var i :| 0 <= i < |cells| && cells[i] == (x, y);
          assert locked[cells[i].0][cells[i].1] == Some(kind);
        }
      }
      BoardsEqual(after, locked);
    }

    /**
     * The moves of one getAIResponse candidate: r checked clockwise turns,
     * five moves left, c moves right and the drop, none handling collisions.
     */
    method Land(r: nat, c: nat, input: InputManager) returns (bumpedLeft: bool, bumpedRight: bool)
      requires Valid() && input.Valid()
      modifies current`x, current`y, current`orientation, current.relPos, input.timers
      ensures Valid() && Board() == old(Board())
      ensures (current.State(), bumpedLeft, bumpedRight) == Landing(Board(), old(current.State()), r, c)
      ensures input.timers[..] == Charged(old(input.timers[..]), bumpedLeft, bumpedRight)
    {
      ghost var b := Board();
      ghost var q0 := current.State();
      TurnTimes(r);
      ghost var q1 := current.State();
      bumpedLeft := MoveTimesOver(Left, 5, input);
      ghost var q2 := current.State();
      bumpedRight := MoveTimesOver(Right, c, input);
      ChargedThen(old(input.timers[..]), bumpedLeft, false, false, bumpedRight);
      ghost var q3 := current.State();
      DropDown(input);
      assert (q2, bumpedLeft) == MoveTimes(b, q1, Left, 5);
      assert (q3, bumpedRight) == MoveTimes(b, q2, Right, c);
    }

    /** The end of a getAIResponse candidate: the piece's blocks are added and the board is scored. */
    method PlaceAndScore(q: PieceState) returns (score: real)
      requires blocks.Length0 == Width && blocks.Length1 == Height
      requires InBounds(Cells(q))
      modifies blocks
      ensures score == Placed(old(Board()), q)
    {
      var aboveTop := PlaceBlocks(Cells(q), q.kind);
      score := Evaluate(Board());
    }

    /** A whole getAIResponse candidate on this grid: the moves of Land, then PlaceAndScore. */
    method RunCandidate(r: nat, c: nat, input: InputManager) returns (o: Outcome)
      requires Valid() && input.Valid()
      requires current.State() == Cloned(current.State())
      modifies current`x, current`y, current`orientation, current.relPos, blocks, input.timers
      ensures o == Candidate(old(Board()), old(current.State()), r, c)
      ensures input.timers[..] == Charged(old(input.timers[..]), o.bumpedLeft, o.bumpedRight)
    {
      var bumpedLeft, bumpedRight := Land(r, c, input);
      var q := current.State();
      ghost var b := Board();
      assert b == old(Board());
      var score := PlaceAndScore(q);
      assert score == Placed(b, q);
      o := Outcome(q.x, q.orientation, score, bumpedLeft, bumpedRight);
    }

    /**
     * GridManager.handleCollision: the piece's blocks go into the board (a
     * block still above the top row ends the game instead), the full rows
     * are recorded, the piece is locked and the spawn delay starts.
     */
    method HandleCollision() returns (gameOver: bool)
      requires Valid()
      modifies blocks, this`linesToClear, this`nextPieceTimer, current`locked
      ensures Valid()
      ensures Board() == Lock(old(Board()), Cells(old(current.State())), current.kind)
      ensures current.State() == old(current.State()).(locked := true)
      ensures gameOver == AboveTop(Cells(old(current.State())))
      ensures linesToClear == FullRows(Board()) && nextPieceTimer == PieceSpawnDelay
    {
      var cells := Cells(current.State());
      gameOver := PlaceBlocks(cells, current.kind);
      CheckLines();
      current.locked := true;
      nextPieceTimer := PieceSpawnDelay;
    }

    /**
     * GridManager.moveCurrentPiece(dir, handleCollisions): an unblocked
     * LEFT, RIGHT or DOWN moves the piece one cell. A blocked DOWN locks the
     * piece in when handleCollisions is set; a blocked LEFT or RIGHT charges
     * that input so that holding it against the wall keeps pressing. Other
     * directions change nothing.
     */
    method MoveCurrentPiece(dir: Direction, handle: bool, input: InputManager) returns (collided: bool, gameOver: bool)
      requires Valid() && input.Valid()
      modifies current`x, current`y, current`locked, blocks, this`linesToClear, this`nextPieceTimer, input.timers
      ensures Valid()
      ensures collided == Move(old(Board()), old(current.State()), dir).1
      ensures collided && dir == Down && handle ==>
        Board() == Lock(old(Board()), Cells(old(current.State())), current.kind)
        && current.State() == old(current.State()).(locked := true)
        && gameOver == AboveTop(Cells(old(current.State())))
        && linesToClear == FullRows(Board()) && nextPieceTimer == PieceSpawnDelay
      ensures !(collided && dir == Down && handle) ==>
        Board() == old(Board()) && current.State() == Move(old(Board()), old(current.State()), dir).0
        && !gameOver && linesToClear == old(linesToClear) && nextPieceTimer == old(nextPieceTimer)
      ensures input.timers[..] == Charged(old(input.timers[..]), collided && dir == Left, collided && dir == Right)
    {
      collided := MoveOrCharge(dir, input);
      gameOver := false;
      if collided && dir == Down && handle {
        gameOver := HandleCollision();
      }
    }

    /** moveCurrentPiece(DOWN, true) as DownMove; a move down never charges an input. */
    method MoveDown(input: InputManager) returns (gameOver: bool)
      requires Valid() && input.Valid()
      modifies current`x, current`y, current`locked, blocks, this`linesToClear, this`nextPieceTimer, input.timers
      ensures Valid() && input.timers[..] == old(input.timers[..])
      ensures (Board(), current.State(), Fields()) == DownMove(old(Board()), old(current.State()), old(Fields()))
      ensures gameOver <==> Move(old(Board()), old(current.State()), Down).1 && AboveTop(Cells(old(current.State())))
    {
      var _, over := MoveCurrentPiece(Down, true, input);
      ChargedNothing(old(input.timers[..]));
      gameOver := over;
    }

    /**
     * What moveCurrentPiece does whatever handleCollisions says: the move
     * when it is free; on a collision, the charge of a LEFT or RIGHT input.
     * The board never changes.
     */
    method MoveOrCharge(dir: Direction, input: InputManager) returns (collided: bool)
      requires Valid() && input.Valid()
      modifies current`x, current`y, input.timers
      ensures Valid()
      ensures (current.State(), collided) == Move(Board(), old(current.State()), dir)
      ensures input.timers[..] == Charged(old(input.timers[..]), collided && dir == Left, collided && dir == Right)
    {
      collided := false;
      if !IsMove(dir) {
        ChargedNothing(input.timers[..]);
        return;
      }
      collided := CheckCollisions(dir);
      if !collided {
        ShiftCurrent(dir);
        ChargedNothing(input.timers[..]);
      } else if dir == Down {
        ChargedNothing(input.timers[..]);
      } else if dir == Left {
        input.ChargeInput(LeftIn);
      } else {
        input.ChargeInput(RightIn);
      }
    }

    /** The move itself: the piece goes one cell in dir, and stays inside the board. */
    method ShiftCurrent(dir: Direction)
      requires Valid() && IsMove(dir) && !Collides(Board(), current.State(), dir)
      modifies current`x, current`y
      ensures Valid() && current.State() == Translated(old(current.State()), dir)
    {
      MoveLandsFree(Board(), current.State(), dir);
      match dir
      case Down => current.SetY(current.y + 1);
      case Left => current.SetX(current.x - 1);
      case Right => current.SetX(current.x + 1);
    }

    /**
     * GridManager.clearLines: clears the recorded rows in order, adds the
     * points for that many rows at the level before any level-up, and
     * levels up (levelUp: the fall rate of the new level in the current
     * mode) once the running total of cleared rows reaches five per level.
     */
    method ClearLines(score: int, level: int, intense: bool) returns (newScore: int, newLevel: int)
      requires Formed() && 0 <= level
      modifies blocks, this`totalLinesCleared, this`linesToClear, this`fallRate
      ensures Formed()
      ensures Board() == ClearRows(old(Board()), old(linesToClear))
      ensures totalLinesCleared == old(totalLinesCleared) + |old(linesToClear)|
      ensures newScore == ScoreAfterClear(score, |old(linesToClear)|, level)
      ensures newLevel == LevelAfterClear(totalLinesCleared, level)
      ensures fallRate == if newLevel == level + 1 then FallRate(newLevel, intense) else old(fallRate)
      ensures linesToClear == []
      ensures |old(linesToClear)| > 0 ==> Fields() == AfterClear(old(Fields()), level, intense)
    {
      ghost var before := Board();
      var lines := linesToClear;
      var i := 0;
      while i < |lines|
        invariant 0 <= i <= |lines|
        invariant lines == old(linesToClear) && linesToClear == lines
        invariant fallRate == old(fallRate)
        invariant totalLinesCleared == old(totalLinesCleared) + i
        invariant Board() == ClearRows(before, lines[..i])
      {
        ClearRowsSnoc(before, lines[..i], lines[i]);
        assert lines[..i + 1] == lines[..i] + [lines[i]];
        ClearLine(lines[i]);
        i := i + 1;
      }
      assert lines[..i] == lines;
      newScore := ScoreAfterClear(score, |lines|, level);
      linesToClear := [];
      newLevel := level;
      if totalLinesCleared >= LinesToLevelUp * (level + 1) && level != MaxLevel {
        newLevel := LevelUp(level, intense);
      }
    }

    /** GridManager.levelUp: one level up, and the fall rate of the new level. */
    method LevelUp(level: int, intense: bool) returns (newLevel: int)
      requires 0 <= level
      modifies this`fallRate
      ensures newLevel == level + 1 && fallRate == FallRate(newLevel, intense)
    {
      newLevel := level + 1;
      fallRate := FallRate(newLevel, intense);
    }

    /** getAIResponse's first loop: n checked clockwise turns of the piece. */
    method TurnTimes(n: nat)
      requires Valid()
      modifies current`orientation, current.relPos
      ensures Valid() && current.State() == RotateTimes(Board(), old(current.State()), n)
    {
      ghost var p := current.State();
      ghost var b := Board();
      for i := 0 to n
        invariant Formed() && Board() == b && current.State() == RotateTimes(b, p, i)
      {
        RotateTimesStep(b, p, i);
        RotateCurrentPiece(true, false);
      }
    }

    /**
     * getAIResponse's second and third loops: n moves in dir without
     * handling collisions; the result says whether one of them collided.
     */
    method MoveTimesOver(dir: Direction, n: nat, input: InputManager) returns (bumped: bool)
      requires Valid() && input.Valid() && dir != Down
      modifies current`x, current`y, input.timers
      ensures Valid() && Board() == old(Board())
      ensures (current.State(), bumped) == MoveTimes(Board(), old(current.State()), dir, n)
      ensures input.timers[..] == Charged(old(input.timers[..]), bumped && dir == Left, bumped && dir == Right)
    {
      ghost var b, p, ts := Board(), current.State(), input.timers[..];
      bumped := false;
      ChargedNothing(ts);
      var i := 0;
      while i < n
        invariant 0 <= i <= n
        invariant Valid() && Board() == b
        invariant (current.State(), bumped) == MoveTimes(b, p, dir, i)
        invariant input.timers[..] == Charged(ts, bumped && dir == Left, bumped && dir == Right)
      {
        MoveTimesStep(b, p, dir, i);
        var collided := MoveOrCharge(dir, input);
        ChargedThen(ts, bumped && dir == Left, bumped && dir == Right, collided && dir == Left, collided && dir == Right);
        bumped := bumped || collided;
        i := i + 1;
      }
    }

    /** getAIResponse's drop: moves down without handling collisions until a move collides. */
    method DropDown(input: InputManager)
      requires Valid() && input.Valid()
      modifies current`x, current`y, input.timers
      ensures Valid() && Board() == old(Board()) && input.timers[..] == old(input.timers[..])
      ensures current.State() == Drop(Board(), old(current.State()))
    {
      var collided := false;
      while !collided
        invariant Valid() && Board() == old(Board()) && input.timers[..] == old(input.timers[..])
        invariant collided ==> current.State() == Drop(Board(), old(current.State()))
        invariant !collided ==> Drop(Board(), current.State()) == Drop(Board(), old(current.State()))
        decreases if collided then 0 else 1, 25 - current.y
      {
        ConsistentSmall(current.State());
        collided := MoveOrCharge(Down, input);
        ChargedNothing(old(input.timers[..]));
      }
    }

    /** The loss test of pushPiece: whether a board block sits on one of the cells. */
    method AnyOccupied(cells: seq<Pos>) returns (hit: bool)
      requires blocks.Length0 == Width && blocks.Length1 == Height
      ensures hit <==> exists i :: 0 <= i < |cells| && Occupied(Board(), cells[i])
    {
      var i := 0;
      while i < |cells|
        invariant 0 <= i <= |cells|
        invariant forall j :: 0 <= j < i ==> !Occupied(Board(), cells[j])
      {
        hit := OccupiedAt(cells[i]);
        if hit {
          return;
        }
        i := i + 1;
      }
      hit := false;
    }

    /**
     * The first half of GridManager.pushPiece: the next piece becomes the
     * current one at the spawn point, and the game is over when one of its
     * cells is already taken.
     */
    method SpawnNext() returns (gameOver: bool)
      requires Formed()
      modifies this`current
      ensures Valid() && fresh(current) && fresh(current.relPos)
      ensures current.State() == Spawned(next, PieceSpawnX, PieceSpawnY(next), false)
      ensures gameOver <==> exists i :: 0 <= i < |Cells(current.State())| && Occupied(Board(), Cells(current.State())[i])
    {
      current := new Piece(PieceSpawnX, PieceSpawnY(next), next, false);
      SpawnInBounds(next, false);
      gameOver := AnyOccupied(Cells(current.State()));
    }

    /**
     * GridManager.pushPiece: the next piece enters at the spawn point. If
     * one of its cells is already taken the game is over and nothing else
     * changes. Otherwise the freshly drawn kind becomes the next piece, the
     * AI picks its target while the player is inactive, and the drought
     * counts are brought up to date.
     */
    method PushPiece(drawn: PieceType, aiActive: bool, level: int, input: InputManager) returns (gameOver: bool)
      requires Formed() && input.Valid() && 0 <= level < |LevelSpeeds|
      modifies this`current, this`next, this`drought, this`lastDrought, this`aiTargetPos, this`aiTargetRot, input.timers
      ensures Valid() && fresh(current) && fresh(current.relPos)
      ensures current.State() == Spawned(old(next), PieceSpawnX, PieceSpawnY(old(next)), false)
      ensures gameOver <==> exists i :: 0 <= i < |Cells(current.State())| && Occupied(Board(), Cells(current.State())[i])
      ensures PushedFrom(old(Fields()), old(input.timers[..]), drawn, aiActive, gameOver, input)
    {
      var kind := next;
      gameOver := SpawnNext();
      if gameOver {
        return;
      }
      PlanNext(kind, drawn, aiActive, level, input);
    }

    /**
     * The end of GridManager.pushPiece once the new piece is in: the drawn
     * kind becomes the next piece, the AI plans its target when it plays,
     * and the drought count is kept up to date.
     */
    method PlanNext(kind: PieceType, drawn: PieceType, aiActive: bool, level: int, input: InputManager)
      requires Valid() && input.Valid() && 0 <= level < |LevelSpeeds| && kind == next
      requires InBounds(Cells(Cloned(current.State())))
      modifies this`next, this`drought, this`lastDrought, this`aiTargetPos, this`aiTargetRot, input.timers
      ensures Valid()
      ensures PushedFrom(old(Fields()), old(input.timers[..]), drawn, aiActive, false, input)
    {
      next := drawn;
      CountDrought(kind);
      ghost var f := Fields();
      assert f == AfterPush(old(Fields()), drawn, (aiTargetPos, aiTargetRot));
      PlanTarget(drawn, aiActive, level, input);
    }

    /** The AI step of GridManager.pushPiece: a new target only when the AI plays. */
    method PlanTarget(drawn: PieceType, aiActive: bool, level: int, input: InputManager)
      requires Valid() && input.Valid() && 0 <= level < |LevelSpeeds|
      requires InBounds(Cells(Cloned(current.State())))
      modifies this`aiTargetPos, this`aiTargetRot, input.timers
      ensures !aiActive ==>
        aiTargetPos == old(aiTargetPos) && aiTargetRot == old(aiTargetRot)
        && input.timers[..] == old(input.timers[..])
      ensures aiActive ==>
        var os := Outcomes(Board(), Cloned(current.State()));
        (aiTargetPos, aiTargetRot) == Best(os, DeployedSentinel, CandidateCount).1
        && input.timers[..] == Charged(old(input.timers[..]), Bumps(os, CandidateCount).0, Bumps(os, CandidateCount).1)
    {
      if aiActive {
        PassToGrid(this, input, level, drawn);
      }
    }

    /** The drought bookkeeping at the end of GridManager.pushPiece, for a piece of the given kind. */
    method CountDrought(kind: PieceType)
      modifies this`drought, this`lastDrought
      ensures (drought, lastDrought) == DroughtAfter(kind, old(drought), old(lastDrought))
    {
      if kind == I {
        lastDrought := drought;
        drought := 0;
      } else {
        drought := drought + 1;
      }
    }

    /**
     * GridManager.update, the piece part of one frame: a falling piece
     * counts its fall timer down and then moves down, locking in when it
     * cannot; a locked piece waits out the spawn delay, after which the
     * recorded rows are cleared and the next piece is pushed.
     */
    method Update(drawn: PieceType, score: int, level: int, intense: bool, aiActive: bool, input: InputManager)
      returns (newScore: int, newLevel: int, gameOver: bool)
      requires Valid() && input.Valid() && 0 <= level < |LevelSpeeds|
      modifies this, current, blocks, input.timers
      ensures Valid()
      ensures !old(current.locked) && old(fallTimer) > 0 ==>
        Fields() == old(Fields()).(fallTimer := old(fallTimer) - 1)
        && current == old(current) && current.State() == old(current.State()) && Board() == old(Board())
        && input.timers[..] == old(input.timers[..]) && !gameOver
      ensures !old(current.locked) && old(fallTimer) <= 0 ==>
        current == old(current) && input.timers[..] == old(input.timers[..])
        && var (q, collided) := Move(old(Board()), old(current.State()), Down);
            if collided then
              Board() == Lock(old(Board()), Cells(old(current.State())), current.kind)
              && current.State() == old(current.State()).(locked := true)
              && gameOver == AboveTop(Cells(old(current.State())))
              && Fields() == old(Fields()).(fallTimer := old(fallRate), linesToClear := FullRows(Board()),
                                            nextPieceTimer := PieceSpawnDelay)
            else
              Board() == old(Board()) && current.State() == q && !gameOver
              && Fields() == old(Fields()).(fallTimer := old(fallRate))
      ensures old(current.locked) && old(nextPieceTimer) > 0 ==>
        Fields() == old(Fields()).(nextPieceTimer := old(nextPieceTimer) - 1)
        && current == old(current) && current.State() == old(current.State()) && Board() == old(Board())
        && input.timers[..] == old(input.timers[..]) && !gameOver
      ensures old(current.locked) && old(nextPieceTimer) <= 0 ==>
        Board() == ClearRows(old(Board()), old(linesToClear))
        && current.State() == Spawned(old(next), PieceSpawnX, PieceSpawnY(old(next)), false)
        && (gameOver <==> exists i :: 0 <= i < |Cells(current.State())| && Occupied(Board(), Cells(current.State())[i]))
        && Pushed(old(Fields()), old(input.timers[..]), drawn, level, intense, aiActive, gameOver, input)
      ensures !(old(current.locked) && old(nextPieceTimer) <= 0 && |old(linesToClear)| > 0) ==>
        newScore == score && newLevel == level
      ensures old(current.locked) && old(nextPieceTimer) <= 0 && |old(linesToClear)| > 0 ==>
        newScore == ScoreAfterClear(score, |old(linesToClear)|, level)
        && newLevel == LevelAfterClear(old(totalLinesCleared) + |old(linesToClear)|, level)
    {
      newScore, newLevel, gameOver := score, level, false;
      if !current.locked {
        if fallTimer > 0 {
          fallTimer := fallTimer - 1;
        } else {
          gameOver := Fall(input);
        }
      } else if nextPieceTimer > 0 {
        nextPieceTimer := nextPieceTimer - 1;
      } else {
        newScore, newLevel, gameOver := ClearAndPush(drawn, score, level, intense, aiActive, input);
      }
    }

    /** The gravity step of update: one move down, locking on a collision, and the fall timer rewound. */
    method Fall(input: InputManager) returns (gameOver: bool)
      requires Valid() && input.Valid()
      modifies current`x, current`y, current`locked, blocks, this`linesToClear, this`nextPieceTimer, this`fallTimer
      modifies input.timers
      ensures Valid() && input.timers[..] == old(input.timers[..])
      ensures var (q, collided) := Move(old(Board()), old(current.State()), Down);
        if collided then
          Board() == Lock(old(Board()), Cells(old(current.State())), current.kind)
          && current.State() == old(current.State()).(locked := true)
          && gameOver == AboveTop(Cells(old(current.State())))
          && Fields() == old(Fields()).(fallTimer := old(fallRate), linesToClear := FullRows(Board()),
                                        nextPieceTimer := PieceSpawnDelay)
        else
          Board() == old(Board()) && current.State() == q && !gameOver
          && Fields() == old(Fields()).(fallTimer := old(fallRate))
    {
      var collided;
      collided, gameOver := MoveCurrentPiece(Down, true, input);
      ChargedNothing(old(input.timers[..]));
      fallTimer := fallRate;
    }

    /** The last step of update: the recorded rows are cleared, if any, and the next piece enters. */
    method ClearAndPush(drawn: PieceType, score: int, level: int, intense: bool, aiActive: bool, input: InputManager)
      returns (newScore: int, newLevel: int, gameOver: bool)
      requires Formed() && input.Valid() && 0 <= level < |LevelSpeeds|
      modifies blocks, this`totalLinesCleared, this`linesToClear, this`fallRate, this`current, this`next
      modifies this`drought, this`lastDrought, this`aiTargetPos, this`aiTargetRot, input.timers
      ensures Valid() && fresh(current)
      ensures Board() == ClearRows(old(Board()), old(linesToClear)) && linesToClear == []
      ensures current.State() == Spawned(old(next), PieceSpawnX, PieceSpawnY(old(next)), false)
      ensures gameOver <==> exists i :: 0 <= i < |Cells(current.State())| && Occupied(Board(), Cells(current.State())[i])
      ensures Pushed(old(Fields()), old(input.timers[..]), drawn, level, intense, aiActive, gameOver, input)
      ensures |old(linesToClear)| == 0 ==> newScore == score && newLevel == level
      ensures |old(linesToClear)| > 0 ==>
        newScore == ScoreAfterClear(score, |old(linesToClear)|, level)
        && newLevel == LevelAfterClear(old(totalLinesCleared) + |old(linesToClear)|, level)
    {
      newScore, newLevel := score, level;
      if |linesToClear| > 0 {
        newScore, newLevel := ClearLines(score, level, intense);
      } else {
        assert ClearRows(Board(), linesToClear) == Board();
      }
      gameOver := PushPiece(drawn, aiActive, newLevel, input);
    }

    /**
     * GridManager.moveToAITarget: one step towards the AI's target, turning
     * clockwise until the orientation matches, then sideways until the
     * column matches, then down.
     */
    method MoveToAITarget(input: InputManager) returns (gameOver: bool)
      requires Valid() && input.Valid()
      modifies current`x, current`y, current`locked, current`orientation, current.relPos
      modifies blocks, this`linesToClear, this`nextPieceTimer, input.timers
      ensures Valid()
      ensures var p := old(current.State());
        match AiStepFor(p, aiTargetPos, aiTargetRot)
        case TurnClockwise =>
          current.State() == Rotate(Board(), p, true, false) && !gameOver && Board() == old(Board())
          && linesToClear == old(linesToClear) && nextPieceTimer == old(nextPieceTimer)
          && input.timers[..] == old(input.timers[..])
        case StepRight =>
          var (q, bumped) := Move(old(Board()), p, Right);
          current.State() == q && !gameOver && Board() == old(Board())
          && linesToClear == old(linesToClear) && nextPieceTimer == old(nextPieceTimer)
          && input.timers[..] == Charged(old(input.timers[..]), false, bumped)
        case StepLeft =>
          var (q, bumped) := Move(old(Board()), p, Left);
          current.State() == q && !gameOver && Board() == old(Board())
          && linesToClear == old(linesToClear) && nextPieceTimer == old(nextPieceTimer)
          && input.timers[..] == Charged(old(input.timers[..]), bumped, false)
        case StepDown =>
          var (q, collided) := Move(old(Board()), p, Down);
          input.timers[..] == old(input.timers[..])
          && if collided then
            current.State() == p.(locked := true) && gameOver == AboveTop(Cells(p))
            && Board() == Lock(old(Board()), Cells(p), p.kind)
            && linesToClear == FullRows(Board()) && nextPieceTimer == PieceSpawnDelay
          else
            current.State() == q && !gameOver && Board() == old(Board())
            && linesToClear == old(linesToClear) && nextPieceTimer == old(nextPieceTimer)
    {
      gameOver := false;
      if current.orientation != aiTargetRot {
        RotateCurrentPiece(true, false);
      } else if current.x < aiTargetPos {
        var collided;
        collided, gameOver := MoveCurrentPiece(Right, true, input);
      } else if current.x > aiTargetPos {
        var collided;
        collided, gameOver := MoveCurrentPiece(Left, true, input);
      } else {
        var collided;
        collided, gameOver := MoveCurrentPiece(Down, true, input);
      }
    }

    /** One column of GridManager.clone's copy: the taken cells of column x of src are written into this grid. */
    method CopyColumn(src: array2<Cell>, x: int)
      requires blocks.Length0 == Width && blocks.Length1 == Height && src != blocks
      requires src.Length0 == Width && src.Length1 == Height && 0 <= x < Width
      modifies blocks
      ensures forall y :: 0 <= y < Height ==> blocks[x, y] == if src[x, y].Some? then src[x, y] else old(blocks[x, y])
      ensures forall x', y :: 0 <= x' < Width && x' != x && 0 <= y < Height ==> blocks[x', y] == old(blocks[x', y])
    {
      var j := 0;
      while j < Height
        invariant 0 <= j <= Height
        invariant forall y :: 0 <= y < j ==> blocks[x, y] == if src[x, y].Some? then src[x, y] else old(blocks[x, y])
        invariant forall x', y :: 0 <= x' < Width && 0 <= y < Height && (x' != x || j <= y) ==> blocks[x', y] == old(blocks[x', y])
      {
        if src[x, j].Some? {
          blocks[x, j] := src[x, j];
        }
        j := j + 1;
      }
    }

    /**
     * GridManager.clone: a new grid (with a freshly drawn next piece and the
     * fall rate of the level) holding the same blocks and a clone of the
     * current piece.
     */
    method Clone(level: int, drawn: PieceType) returns (g: GridManager)
      requires Formed() && 0 <= level < |LevelSpeeds|
      ensures fresh(g) && fresh(g.blocks) && fresh(g.current) && fresh(g.current.relPos)
      ensures g.Formed() && g.Board() == Board()
      ensures g.current.State() == Cloned(current.State())
      ensures InBounds(Cells(Cloned(current.State()))) ==> g.Valid()
    {
      g := new GridManager(level, drawn, drawn);
      var i := 0;
      while i < Width
        invariant 0 <= i <= Width
        invariant g.Formed() && fresh(g.blocks) && fresh(g.current) && fresh(g.current.relPos)
        invariant forall x, y :: 0 <= x < i && 0 <= y < Height ==> g.blocks[x, y] == blocks[x, y]
        invariant forall x, y :: i <= x < Width && 0 <= y < Height ==> g.blocks[x, y] == None
      {
        g.CopyColumn(blocks, i);
        i := i + 1;
      }
      g.current := current.Clone();
      BoardsEqual(g.Board(), Board());
    }
  }

  /**
   * The drought counts after a piece of the given kind spawns: an I piece
   * ends the drought (remembering its length), any other kind extends it.
   */
  function DroughtAfter(kind: PieceType, drought: int, lastDrought: int): (r: (int, int))
    ensures drought >= 0 ==> (r.0 == 0 <==> kind == I)
    ensures r.1 != lastDrought ==> kind == I
  {
    if kind == I then (0, drought) else (drought + 1, lastDrought)
  }

  /** The drought counts after a run of spawns, starting from none. */
  function Droughts(kinds: seq<PieceType>): (int, int)
  {
    if kinds == [] then (0, 0)
    else
      var (d, l) := Droughts(kinds[..|kinds| - 1]);
      DroughtAfter(kinds[|kinds| - 1], d, l)
  }

  /**
   * The drought is the number of pieces spawned since the last I piece (or
   * since the start, if there was none).
   */
  lemma {:induction false} DroughtCounts(kinds: seq<PieceType>)
    ensures var d := Droughts(kinds).0;
      0 <= d <= |kinds|
      && (forall j :: |kinds| - d <= j < |kinds| ==> kinds[j] != I)
      && (d < |kinds| ==> kinds[|kinds| - d - 1] == I)
  {
    if kinds != [] {
      var front := kinds[..|kinds| - 1];
      DroughtCounts(front);
      assert forall j :: 0 <= j < |front| ==> front[j] == kinds[j];
    }
  }

  /**
   * One candidate of AI.getAIResponse: a clone of the grid, its piece
   * turned clockwise r times, pushed left five times and right c times,
   * dropped until it collides, and written into the clone's board, which
   * is then scored. The LEFT and RIGHT moves that hit something charge
   * the game's inputs, just as the player's would.
   */
  method TryCandidate(g: GridManager, input: InputManager, level: int, drawn: PieceType, r: int, c: int,
    ghost os: seq<Outcome>) returns (o: Outcome)
    requires g.Valid() && input.Valid() && 0 <= level < |LevelSpeeds|
    requires InBounds(Cells(Cloned(g.current.State())))
    requires 0 <= r < 4 && 0 <= c < 10 && Enumerates(os, g.Board(), g.current.State())
    modifies input.timers
    ensures o == os[10 * r + c]
    ensures input.timers[..] == Charged(old(input.timers[..]), o.bumpedLeft, o.bumpedRight)
  {
    ghost var b, p := g.Board(), g.current.State();
    var t := g.Clone(level, drawn);
    o := t.RunCandidate(r, c, input);
    assert Cloned(Cloned(p)) == Cloned(p);
    assert o == Candidate(b, p, r, c);
  }

  /**
   * AI.getAIResponse of the deployed build: tries the forty candidates in
   * order and keeps the column and orientation of the first one that
   * scores highest, starting from a best score of -99999999.
   */
  method GetAIResponse(g: GridManager, input: InputManager, level: int, drawn: PieceType, ghost os: seq<Outcome>)
    returns (moves: (int, int))
    requires g.Valid() && input.Valid() && 0 <= level < |LevelSpeeds|
    requires InBounds(Cells(Cloned(g.current.State()))) && Enumerates(os, g.Board(), g.current.State())
    modifies input.timers
    ensures moves == Best(os, DeployedSentinel, CandidateCount).1
    ensures input.timers[..] == Charged(old(input.timers[..]), Bumps(os, CandidateCount).0, Bumps(os, CandidateCount).1)
  {
    ghost var b := g.Board();
    ghost var p := g.current.State();
    ghost var ts := input.timers[..];
    var bestScore := DeployedSentinel;
    moves := (-1, -1);
    ChargedNothing(ts);
    var r := 0;
    while r < 4
      invariant 0 <= r <= 4 && g.Board() == b && g.current.State() == p
      invariant (bestScore, moves) == Best(os, DeployedSentinel, 10 * r)
      invariant input.timers[..] == Charged(ts, Bumps(os, 10 * r).0, Bumps(os, 10 * r).1)
    {
      bestScore, moves := TryRotation(g, input, level, drawn, r, os, ts, bestScore, moves);
      r := r + 1;
    }
  }

  /** The inner loop of getAIResponse: the ten columns tried with r turns. */
  method TryRotation(g: GridManager, input: InputManager, level: int, drawn: PieceType, r: int,
    ghost os: seq<Outcome>, ghost ts: seq<int>, bestScore: real, moves: (int, int))
    returns (bestScore': real, moves': (int, int))
    requires g.Valid() && input.Valid() && 0 <= level < |LevelSpeeds| && 0 <= r < 4
    requires InBounds(Cells(Cloned(g.current.State()))) && Enumerates(os, g.Board(), g.current.State())
    requires (bestScore, moves) == Best(os, DeployedSentinel, 10 * r) && |ts| == InputCount
    requires input.timers[..] == Charged(ts, Bumps(os, 10 * r).0, Bumps(os, 10 * r).1)
    modifies input.timers
    ensures (bestScore', moves') == Best(os, DeployedSentinel, 10 * r + 10)
    ensures input.timers[..] == Charged(ts, Bumps(os, 10 * r + 10).0, Bumps(os, 10 * r + 10).1)
  {
    bestScore', moves' := bestScore, moves;
    var c := 0;
    while c < 10
      invariant 0 <= c <= 10
      invariant (bestScore', moves') == Best(os, DeployedSentinel, 10 * r + c)
      invariant input.timers[..] == Charged(ts, Bumps(os, 10 * r + c).0, Bumps(os, 10 * r + c).1)
    {
      bestScore', moves' := KeepBetter(g, input, level, drawn, r, c, os, ts, bestScore', moves');
      c := c + 1;
    }
  }

  /** One step of the inner loop of getAIResponse: candidate (r, c) replaces the best only when it scores higher. */
  method KeepBetter(g: GridManager, input: InputManager, level: int, drawn: PieceType, r: int, c: int,
    ghost os: seq<Outcome>, ghost ts: seq<int>, bestScore: real, moves: (int, int))
    returns (bestScore': real, moves': (int, int))
    requires g.Valid() && input.Valid() && 0 <= level < |LevelSpeeds| && 0 <= r < 4 && 0 <= c < 10
    requires InBounds(Cells(Cloned(g.current.State()))) && Enumerates(os, g.Board(), g.current.State())
    requires (bestScore, moves) == Best(os, DeployedSentinel, 10 * r + c) && |ts| == InputCount
    requires input.timers[..] == Charged(ts, Bumps(os, 10 * r + c).0, Bumps(os, 10 * r + c).1)
    modifies input.timers
    ensures (bestScore', moves') == Best(os, DeployedSentinel, 10 * r + c + 1)
    ensures input.timers[..] == Charged(ts, Bumps(os, 10 * r + c + 1).0, Bumps(os, 10 * r + c + 1).1)
  {
    ghost var before := Bumps(os, 10 * r + c);
    var o := TryCandidate(g, input, level, drawn, r, c, os);
    ChargedThen(ts, before.0, before.1, o.bumpedLeft, o.bumpedRight);
    bestScore', moves' := bestScore, moves;
    if o.score > bestScore {
      bestScore' := o.score;
      moves' := (o.x, o.orientation);
    }
  }

  /**
   * AI.passToGrid: runs the search on a clone of the grid and makes its
   * answer the grid's target column and orientation.
   */
  method PassToGrid(g: GridManager, input: InputManager, level: int, drawn: PieceType)
    requires g.Valid() && input.Valid() && 0 <= level < |LevelSpeeds|
    requires InBounds(Cells(Cloned(g.current.State())))
    modifies g`aiTargetPos, g`aiTargetRot, input.timers
    ensures var os := Outcomes(g.Board(), Cloned(g.current.State()));
      (g.aiTargetPos, g.aiTargetRot) == Best(os, DeployedSentinel, CandidateCount).1
      && input.timers[..] == Charged(old(input.timers[..]), Bumps(os, CandidateCount).0, Bumps(os, CandidateCount).1)
  {
    ghost var b, p, q := g.Board(), Cloned(g.current.State()), g.current.State();
    var copy := g.Clone(level, drawn);
    assert copy.Board() == b && copy.current.State() == p;
    assert Cloned(p) == p;
    ghost var os := Outcomes(b, p);
    var moves := GetAIResponse(copy, input, level, drawn, os);
    assert g.current.State() == q;
    g.aiTargetPos, g.aiTargetRot := moves.0, moves.1;
    assert g.Board() == b && g.current.State() == q;
  }
}
