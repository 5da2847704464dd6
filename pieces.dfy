/**
 * The falling tetromino: its kinds, their shape tables, the quarter-turn
 * arithmetic of Piece.rotate, the rounding that turns a piece's centre and
 * offsets into board cells, and the Piece object itself.
 *
 * Offsets in the source are floats that are whole or half numbers. They are
 * kept here doubled, as exact integers in half-cell units; a piece's centre
 * (x, y) is always a whole number of cells.
 */
module Pieces {
  import opened Optional

  /** The seven tetromino kinds of PieceType. */
  datatype PieceType = I | O | L | J | S | Z | T

  /** The index each PieceType constant carries. */
  function PieceIndex(t: PieceType): (i: int)
    ensures 0 <= i < 7
  {
    match t
    case I => 0
    case O => 1
    case L => 2
    case J => 3
    case S => 4
    case Z => 5
    case T => 6
  }

  /** PieceType.get: the kind carrying the given index, or nothing. */
  function PieceTypeOf(index: int): (r: Option<PieceType>)
    ensures r.Some? <==> 0 <= index < 7
    ensures r.Some? ==> PieceIndex(r.value) == index
  {
    if index == 0 then Some(I)
    else if index == 1 then Some(O)
    else if index == 2 then Some(L)
    else if index == 3 then Some(J)
    else if index == 4 then Some(S)
    else if index == 5 then Some(Z)
    else if index == 6 then Some(T)
    else None
  }

  /** Direction, the ways a piece can be displaced. */
  datatype Direction = Down | Left | Right | Up | NoDirection

  /** A block's offset from the piece centre, in half cells. */
  datatype Offset = Offset(dx: int, dy: int)

  /** A board cell: column, then row (row 0 is the top row). */
  type Pos = (int, int)

  /** Piece.generateBlocks: the orientation-0 shape table of each kind, doubled. */
  function Shape(t: PieceType): (s: seq<Offset>)
    ensures |s| == 4
  {
    match t
    case I => [Offset(-4, 0), Offset(-2, 0), Offset(0, 0), Offset(2, 0)]
    case O => [Offset(-1, -1), Offset(1, -1), Offset(1, 1), Offset(-1, 1)]
    case L => [Offset(-2, 0), Offset(0, 0), Offset(2, 0), Offset(-2, 2)]
    case J => [Offset(-2, 0), Offset(0, 0), Offset(2, 0), Offset(2, 2)]
    case S => [Offset(1, -1), Offset(-1, -1), Offset(-1, 1), Offset(-3, 1)]
    case Z => [Offset(-3, -1), Offset(-1, -1), Offset(-1, 1), Offset(1, 1)]
    case T => [Offset(-2, 0), Offset(0, 0), Offset(2, 0), Offset(0, 2)]
  }

  /**
   * One quarter turn of one offset, as Piece.rotate does it: swap the two
   * coordinates, then negate the new first one (clockwise) or the new second
   * one (counter-clockwise).
   */
  function RotateOffset(o: Offset, cw: bool): Offset
  {
    if cw then Offset(-o.dy, o.dx) else Offset(o.dy, -o.dx)
  }

  function RotateAll(rel: seq<Offset>, cw: bool): (r: seq<Offset>)
    ensures |r| == |rel|
  {
    seq(|rel|, i requires 0 <= i < |rel| => RotateOffset(rel[i], cw))
  }

  /** The offsets after k clockwise quarter turns. */
  function Turned(s: seq<Offset>, k: nat): (r: seq<Offset>)
    ensures |r| == |s|
  {
    if k == 0 then s else RotateAll(Turned(s, k - 1), true)
  }

  /** A turn one way is undone by a turn the other way. */
  lemma RotateAllInverse(rel: seq<Offset>, cw: bool)
    ensures RotateAll(RotateAll(rel, cw), !cw) == rel
  {
    var back := RotateAll(RotateAll(rel, cw), !cw);
    assert |back| == |rel|;
    forall i | 0 <= i < |rel| ensures back[i] == rel[i] {
    }
  }

  /** Four clockwise quarter turns are the identity. */
  lemma {:induction false} FourQuarterTurns(s: seq<Offset>)
    ensures Turned(s, 4) == s
  {
    var r := Turned(s, 4);
    assert |r| == |s|;
    forall i | 0 <= i < |s| ensures r[i] == s[i] {
      assert |Turned(s, 1)| == |Turned(s, 2)| == |Turned(s, 3)| == |s|;
      assert Turned(s, 1)[i] == RotateOffset(s[i], true);
      assert Turned(s, 2)[i] == RotateOffset(Turned(s, 1)[i], true);
      assert Turned(s, 3)[i] == RotateOffset(Turned(s, 2)[i], true);
    }
  }

  /** From orientation o, a clockwise turn reaches orientation (o + 1) % 4. */
  lemma {:induction false} TurnForward(s: seq<Offset>, o: int)
    requires 0 <= o < 4
    ensures RotateAll(Turned(s, o), true) == Turned(s, (o + 1) % 4)
  {
    if o == 3 {
      FourQuarterTurns(s);
    }
  }

  /** From orientation o, a counter-clockwise turn reaches orientation (o + 3) % 4. */
  lemma {:induction false} TurnBackward(s: seq<Offset>, o: int)
    requires 0 <= o < 4
    ensures RotateAll(Turned(s, o), false) == Turned(s, (o + 3) % 4)
  {
    if o == 0 {
      FourQuarterTurns(s);
      RotateAllInverse(Turned(s, 3), true);
    } else {
      RotateAllInverse(Turned(s, o - 1), true);
    }
  }

  /** Every offset of a kind, in every orientation, lies within two cells of the centre. */
  predicate SmallOffsets(rel: seq<Offset>)
  {
    forall i :: 0 <= i < |rel| ==> -4 <= rel[i].dx <= 4 && -4 <= rel[i].dy <= 4
  }

  lemma {:induction false} TurnedSmall(t: PieceType, k: nat)
    ensures |Turned(Shape(t), k)| == 4 && SmallOffsets(Turned(Shape(t), k))
  {
    if k > 0 {
      TurnedSmall(t, k - 1);
    }
  }

  /**
   * Math.round(v / 2) for v given in half units: the nearest whole number,
   * halves going up.
   */
  function RoundHalf(v: int): (r: int)
    ensures 2 * r - 1 <= v <= 2 * r
  {
    (v + 1) / 2
  }

  /** The board cell of one block of a piece centred at (x, y). */
  function CellOf(x: int, y: int, o: Offset): Pos
  {
    (RoundHalf(2 * x + o.dx), RoundHalf(2 * y + o.dy))
  }

  /** What Piece keeps about itself (its colour and size only affect drawing). */
  datatype PieceState = PieceState(kind: PieceType, x: int, y: int, rel: seq<Offset>, orientation: int, locked: bool)

  /** Piece.updateBlocks: the cells the piece covers, one per offset. */
  function Cells(p: PieceState): (cs: seq<Pos>)
    ensures |cs| == |p.rel|
    ensures forall i :: 0 <= i < |cs| ==> 2 * cs[i].0 - 1 <= 2 * p.x + p.rel[i].dx <= 2 * cs[i].0
    ensures forall i :: 0 <= i < |cs| ==> 2 * cs[i].1 - 1 <= 2 * p.y + p.rel[i].dy <= 2 * cs[i].1
  {
    seq(|p.rel|, i requires 0 <= i < |p.rel| => CellOf(p.x, p.y, p.rel[i]))
  }

  /** The offsets are the kind's table turned as many times as the orientation says. */
  predicate Consistent(p: PieceState)
  {
    0 <= p.orientation < 4 && p.rel == Turned(Shape(p.kind), p.orientation)
  }

  /** A piece as the Piece constructor leaves it. */
  function Spawned(kind: PieceType, x: int, y: int, locked: bool): (p: PieceState)
    ensures Consistent(p) && |Cells(p)| == 4
  {
    PieceState(kind, x, y, Shape(kind), 0, locked)
  }

  /** Piece.rotate: every offset turned a quarter, the orientation stepped modulo 4. */
  function Rotated(p: PieceState, cw: bool): (q: PieceState)
    ensures q == p.(rel := q.rel, orientation := q.orientation)
    ensures |q.rel| == |p.rel| && 0 <= q.orientation < 4
  {
    p.(rel := RotateAll(p.rel, cw),
       orientation := if cw then (p.orientation + 1) % 4 else (p.orientation + 3) % 4)
  }

  /**
   * Piece.clone: a new piece of the same kind, the same row and the same lock
   * state, in orientation 0, moved to column 5 (the spawn column).
   */
  function Cloned(p: PieceState): (c: PieceState)
    ensures Consistent(c) && c.kind == p.kind && c.y == p.y && c.locked == p.locked
    ensures c.x == 5 && c.orientation == 0
  {
    Spawned(p.kind, 5, p.y, p.locked)
  }

  /** Rotating keeps the offsets in step with the orientation. */
  lemma RotatedConsistent(p: PieceState, cw: bool)
    requires Consistent(p)
    ensures Consistent(Rotated(p, cw))
  {
    var q := Rotated(p, cw);
    if cw {
      TurnForward(Shape(p.kind), p.orientation);
      assert q.rel == Turned(Shape(q.kind), q.orientation);
    } else {
      TurnBackward(Shape(p.kind), p.orientation);
      assert q.rel == Turned(Shape(q.kind), q.orientation);
    }
  }

  /** A clockwise and a counter-clockwise rotation cancel, in either order. */
  lemma RotationRoundTrip(p: PieceState, cw: bool)
    requires Consistent(p)
    ensures Rotated(Rotated(p, cw), !cw) == p
  {
    RotateAllInverse(p.rel, cw);
  }

  /** Four rotations the same way bring a piece back to where it started. */
  lemma FourRotations(p: PieceState, cw: bool)
    requires Consistent(p)
    ensures Rotated(Rotated(Rotated(Rotated(p, cw), cw), cw), cw) == p
  {
    var p1 := Rotated(p, cw);
    RotatedConsistent(p, cw);
    var p2 := Rotated(p1, cw);
    RotatedConsistent(p1, cw);
    var p3 := Rotated(p2, cw);
    RotatedConsistent(p2, cw);
    var p4 := Rotated(p3, cw);
    RotatedConsistent(p3, cw);
    assert p4.orientation == p.orientation;
  }

  /** A consistent piece has four blocks, each at most two cells from its centre. */
  lemma ConsistentSmall(p: PieceState)
    requires Consistent(p)
    ensures |p.rel| == 4 && SmallOffsets(p.rel)
    ensures forall i :: 0 <= i < |Cells(p)| ==> p.y - 2 <= Cells(p)[i].1 <= p.y + 2
    ensures forall i :: 0 <= i < |Cells(p)| ==> p.x - 2 <= Cells(p)[i].0 <= p.x + 2
  {
    TurnedSmall(p.kind, p.orientation);
  }

  /** The loop of Piece.rotate: each offset of the array turned a quarter, in place. */
  method TurnOffsets(a: array<Offset>, cw: bool)
    modifies a
    ensures a[..] == RotateAll(old(a[..]), cw)
  {
    var i := 0;
    while i < a.Length
      invariant 0 <= i <= a.Length
      invariant forall k :: 0 <= k < i ==> a[k] == RotateOffset(old(a[k]), cw)
      invariant forall k :: i <= k < a.Length ==> a[k] == old(a[k])
    {
      var o := a[i];
      var swapped := Offset(o.dy, o.dx);
      a[i] := if cw then Offset(-swapped.dx, swapped.dy) else Offset(swapped.dx, -swapped.dy);
      i := i + 1;
    }
  }

  /** The piece object; its blocks cache is replaced by the function Cells. */
  class Piece {
    var kind: PieceType
    var x: int
    var y: int
    var relPos: array<Offset>
    var orientation: int
    var locked: bool

    ghost predicate Valid()
      reads this, relPos
    {
      relPos.Length == 4 && Consistent(State())
    }

    function State(): PieceState
      reads this, relPos
    {
      PieceState(kind, x, y, relPos[..], orientation, locked)
    }

    /** Piece(x, y, type, ..., locked) followed by generateBlocks. */
    constructor (x: int, y: int, kind: PieceType, locked: bool)
      ensures Valid() && fresh(relPos)
      ensures State() == Spawned(kind, x, y, locked)
    {
      this.kind := kind;
      this.x := x;
      this.y := y;
      this.orientation := 0;
      this.locked := locked;
      var table := Shape(kind);
      this.relPos := new Offset[4](i requires 0 <= i < 4 => table[i]);
      new;
      assert relPos[..] == table;
    }

    /** Piece.rotate: turns every offset in place and steps the orientation. */
    method Rotate(cw: bool)
      requires Valid()
      modifies this`orientation, relPos
      ensures Valid()
      ensures State() == Rotated(old(State()), cw)
    {
      ghost var before := State();
      TurnOffsets(relPos, cw);
      orientation := if cw then (orientation + 1) % 4 else (orientation + 3) % 4;
      assert State() == Rotated(before, cw);
      RotatedConsistent(before, cw);
    }

    /** Piece.setPos. */
    method SetPos(x: int, y: int)
      modifies this`x, this`y
      ensures State() == old(State()).(x := x, y := y)
    {
      this.x := x;
      this.y := y;
    }

    /** Piece.setX. */
    method SetX(x: int)
      modifies this`x
      ensures State() == old(State()).(x := x)
    {
      this.x := x;
    }

    /** Piece.setY. */
    method SetY(y: int)
      modifies this`y
      ensures State() == old(State()).(y := y)
    {
      this.y := y;
    }

    /** Piece.clone. */
    method Clone() returns (p: Piece)
      ensures fresh(p) && fresh(p.relPos) && p.Valid()
      ensures p.State() == Cloned(State())
    {
      p := new Piece(x, y, kind, locked);
      p.x := 5;
    }
  }
}
