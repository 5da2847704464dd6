/**
 * The grid's piece moves as functions of the board and the piece, and the
 * AI's search over them: for each of four rotations and ten columns, drop a
 * copy of the piece, score the board it leaves, and keep the best.
 */
module Search {
  import opened Optional
  import opened Pieces
  import opened Boards
  import opened Metrics

  /** The piece one step away in direction d; UP and NULL do not move it. */
  function Translated(p: PieceState, d: Direction): PieceState
  {
    match d
    case Down => p.(y := p.y + 1)
    case Left => p.(x := p.x - 1)
    case Right => p.(x := p.x + 1)
    case _ => p
  }

  /** Moving the centre one step moves every block one step. */
  lemma TranslatedCells(p: PieceState, d: Direction)
    ensures |Cells(Translated(p, d))| == |Cells(p)|
    ensures forall i :: 0 <= i < |Cells(p)| ==> Cells(Translated(p, d))[i] == Shifted(Cells(p)[i], d)
  {
    var moved := Cells(Translated(p, d));
    forall i | 0 <= i < |Cells(p)| ensures moved[i] == Shifted(Cells(p)[i], d) {
      var o := p.rel[i];
      assert RoundHalf(2 * (p.x - 1) + o.dx) == RoundHalf(2 * p.x + o.dx) - 1;
      assert RoundHalf(2 * (p.x + 1) + o.dx) == RoundHalf(2 * p.x + o.dx) + 1;
      assert RoundHalf(2 * (p.y + 1) + o.dy) == RoundHalf(2 * p.y + o.dy) + 1;
    }
  }

  predicate IsMove(d: Direction)
  {
    d == Down || d == Left || d == Right
  }

  /**
   * GridManager.moveCurrentPiece(dir, false): the piece after the call and
   * whether it collided. DOWN, LEFT and RIGHT move the piece when
   * checkCollisions finds nothing in the way; UP and NULL never move it.
   */
  function Move(b: Board, p: PieceState, d: Direction): (r: (PieceState, bool))
    ensures r.0 == p.(x := r.0.x, y := r.0.y)
    ensures r.1 ==> r.0 == p
    ensures !IsMove(d) ==> r == (p, false)
  {
    if IsMove(d) && Collides(b, p, d) then (p, true)
    else if IsMove(d) then (Translated(p, d), false)
    else (p, false)
  }

  /** A piece that moves lands where no block of it is blocked, so it stays inside the board. */
  lemma MoveLandsFree(b: Board, p: PieceState, d: Direction)
    requires IsMove(d) && !Move(b, p, d).1
    ensures !AnyBlocked(b, Cells(Move(b, p, d).0), NoDirection)
    ensures InBounds(Cells(Move(b, p, d).0))
    ensures Consistent(p) ==> Consistent(Move(b, p, d).0)
  {
    var q := Move(b, p, d).0;
    TranslatedCells(p, d);
    forall i | 0 <= i < |Cells(q)| ensures !Blocked(b, Cells(q)[i]) {
      assert !Blocked(b, Shifted(Cells(p)[i], d));
    }
  }

  /** Moves keep a piece that starts inside the board inside it. */
  lemma MoveInBounds(b: Board, p: PieceState, d: Direction)
    requires InBounds(Cells(p))
    ensures InBounds(Cells(Move(b, p, d).0))
  {
    if IsMove(d) && !Move(b, p, d).1 {
      MoveLandsFree(b, p, d);
    }
  }

  /**
   * The hard drop of getAIResponse: moveCurrentPiece(DOWN, false) until it
   * reports a collision. The piece ends at the first row from which it
   * cannot fall further.
   */
  function Drop(b: Board, p: PieceState): (q: PieceState)
    requires Consistent(p)
    ensures q == p.(y := q.y) && q.y >= p.y
    ensures Collides(b, q, Down)
    ensures forall k :: p.y <= k < q.y ==> !Collides(b, p.(y := k), Down)
    decreases 25 - p.y
  {
    var (next, collided) := Move(b, p, Down);
    if collided then p
    else
      ConsistentSmall(p);
      assert !Blocked(b, Shifted(Cells(p)[0], Down));
      Drop(b, next)
  }

  /** A dropped piece that started inside the board is still inside it. */
  lemma {:induction false} DropInBounds(b: Board, p: PieceState)
    requires Consistent(p) && InBounds(Cells(p))
    ensures InBounds(Cells(Drop(b, p)))
    decreases 25 - p.y
  {
    var (next, collided) := Move(b, p, Down);
    if !collided {
      ConsistentSmall(p);
      assert !Blocked(b, Shifted(Cells(p)[0], Down));
      MoveLandsFree(b, p, Down);
      DropInBounds(b, next);
    }
  }

  /**
   * GridManager.rotateCurrentPiece(cw, true), the turn made without looking
   * at the board: O never turns; S, Z and I toggle between orientations 0
   * and 1 whatever cw says; L, J and T turn the way cw says.
   */
  function Turn(p: PieceState, cw: bool): (q: PieceState)
    ensures q == p.(rel := q.rel, orientation := q.orientation)
  {
    match p.kind
    case O => p
    case S | Z | I => if p.orientation == 1 then Rotated(p, false) else Rotated(p, true)
    case _ => Rotated(p, cw)
  }

  /** S, Z and I pieces only ever take orientations 0 and 1. */
  predicate TwoWay(p: PieceState)
  {
    (p.kind == S || p.kind == Z || p.kind == I) ==> p.orientation <= 1
  }

  /** A turn keeps a piece consistent and two-way. */
  lemma TurnKeeps(p: PieceState, cw: bool)
    requires Consistent(p) && TwoWay(p)
    ensures Consistent(Turn(p, cw)) && TwoWay(Turn(p, cw))
    ensures Turn(p, cw) == p.(rel := Turn(p, cw).rel, orientation := Turn(p, cw).orientation)
  {
    RotatedConsistent(p, true);
    RotatedConsistent(p, false);
  }

  /**
   * checkRotationCollision turns the piece and turns it back the other way;
   * for every consistent two-way piece the second turn restores it exactly.
   */
  lemma TurnUndone(p: PieceState, cw: bool)
    requires Consistent(p) && TwoWay(p)
    ensures Turn(Turn(p, cw), !cw) == p
  {
    var q := Turn(p, cw);
    if p.kind == S || p.kind == Z || p.kind == I {
      if p.orientation == 1 {
        assert q == Rotated(p, false) && q.orientation == 0;
        assert Turn(q, !cw) == Rotated(q, true);
        RotationRoundTrip(p, false);
      } else {
        assert q == Rotated(p, true) && q.orientation == 1;
        assert Turn(q, !cw) == Rotated(q, false);
        RotationRoundTrip(p, true);
      }
    } else if p.kind != O {
      assert q == Rotated(p, cw) && Turn(q, !cw) == Rotated(q, !cw);
      RotationRoundTrip(p, cw);
    }
  }

  /**
   * GridManager.checkRotationCollision(cw): a block of the turned piece is
   * below the floor, beyond a wall or on a board block.
   */
  predicate RotationCollides(b: Board, p: PieceState, cw: bool)
  {
    AnyBlocked(b, Cells(Turn(p, cw)), NoDirection)
  }

  /** GridManager.rotateCurrentPiece(cw, dontCheck). */
  function Rotate(b: Board, p: PieceState, cw: bool, dontCheck: bool): (q: PieceState)
    ensures q == p || q == Turn(p, cw)
  {
    match p.kind
    case O => p
    case _ => if dontCheck || !RotationCollides(b, p, cw) then Turn(p, cw) else p
  }

  /** A checked rotation keeps the piece consistent, two-way and, if it was, inside the board. */
  lemma RotateKeeps(b: Board, p: PieceState, cw: bool)
    requires Consistent(p) && TwoWay(p)
    ensures var q := Rotate(b, p, cw, false);
      Consistent(q) && TwoWay(q) && q.x == p.x && q.y == p.y && q.kind == p.kind
      && (InBounds(Cells(p)) ==> InBounds(Cells(q)))
  {
    TurnKeeps(p, cw);
    var q := Rotate(b, p, cw, false);
    if q != p {
      forall i | 0 <= i < |Cells(q)| ensures 0 <= Cells(q)[i].0 < Width && Cells(q)[i].1 < Height {
        assert !Blocked(b, Shifted(Cells(q)[i], NoDirection));
      }
    }
  }

  /**
   * A checked rotation turns the piece exactly when it is not an O and the
   * turned piece collides with nothing, and a piece that turned lands on
   * free cells inside the walls and above the floor.
   */
  lemma RotateCommits(b: Board, p: PieceState, cw: bool)
    ensures p.kind != O && !RotationCollides(b, p, cw) ==> Rotate(b, p, cw, false) == Turn(p, cw)
    ensures p.kind == O || RotationCollides(b, p, cw) ==> Rotate(b, p, cw, false) == p
    ensures Rotate(b, p, cw, false) != p ==> !AnyBlocked(b, Cells(Rotate(b, p, cw, false)), NoDirection)
  {
  }

  /** The piece after n clockwise rotateCurrentPiece(true, false) calls. */
  function RotateTimes(b: Board, p: PieceState, n: nat): (q: PieceState)
    ensures Consistent(p) && TwoWay(p) ==>
      Consistent(q) && TwoWay(q) && q.x == p.x && q.y == p.y && q.kind == p.kind
      && (InBounds(Cells(p)) ==> InBounds(Cells(q)))
  {
    if n == 0 then p
    else
      var before := RotateTimes(b, p, n - 1);
      if Consistent(before) && TwoWay(before) then
        RotateKeeps(b, before, true);
        Rotate(b, before, true, false)
      else
        Rotate(b, before, true, false)
  }

  /** One more turn: a further checked clockwise rotation of the piece after n turns. */
  lemma RotateTimesStep(b: Board, p: PieceState, n: nat)
    ensures RotateTimes(b, p, n + 1) == Rotate(b, RotateTimes(b, p, n), true, false)
  {
  }

  /** The piece after n moveCurrentPiece(d, false) calls, and whether any of them collided. */
  function MoveTimes(b: Board, p: PieceState, d: Direction, n: nat): (r: (PieceState, bool))
    ensures Consistent(p) ==> Consistent(r.0)
    ensures InBounds(Cells(p)) ==> InBounds(Cells(r.0))
    ensures r.0.kind == p.kind && r.0.orientation == p.orientation
    ensures d != Down ==> r.0.y == p.y
  {
    if n == 0 then (p, false)
    else
      var (q, bumped) := MoveTimes(b, p, d, n - 1);
      var (q', collided) := Move(b, q, d);
      if IsMove(d) && !collided then
        MoveLandsFree(b, q, d);
        (q', bumped || collided)
      else
        (q', bumped || collided)
  }

  /** One more move: a further move in d from where the first n moves left the piece. */
  lemma MoveTimesStep(b: Board, p: PieceState, d: Direction, n: nat)
    ensures var (q, bumped) := MoveTimes(b, p, d, n);
      MoveTimes(b, p, d, n + 1) == (Move(b, q, d).0, bumped || Move(b, q, d).1)
  {
  }

  /** The last piece reached by the drop of getAIResponse, and the board it leaves. */
  datatype Outcome = Outcome(x: int, orientation: int, score: real, bumpedLeft: bool, bumpedRight: bool)

  /** The number of candidates getAIResponse tries: four rotations times ten columns. */
  const CandidateCount: int := 40

  /**
   * The candidate of getAIResponse with r turns and c moves right. A copy
   * of the piece (Piece.clone: column 5, orientation 0) is turned clockwise
   * r times, pushed left five times, then right c times, then dropped; its
   * blocks on the board are added and the board is scored.
   */
  function Candidate(b: Board, p: PieceState, r: nat, c: nat): (o: Outcome)
    ensures 0 <= o.orientation < 4
    ensures -250.0 < o.score <= 0.0
  {
    var (q, bumpedLeft, bumpedRight) := Landing(b, Cloned(p), r, c);
    Outcome(q.x, q.orientation, Placed(b, q), bumpedLeft, bumpedRight)
  }

  /** The score of the board once the blocks of q are added to it. */
  function Placed(b: Board, q: PieceState): (score: real)
    ensures -250.0 < score <= 0.0
  {
    var placed := Lock(b, Cells(q), q.kind);
    ScoreNeverPositive(placed);
    ScoreBoundedBelow(placed);
    Evaluate(placed)
  }

  /**
   * Where the copy q0 of the piece lands after r turns, five moves left, c
   * moves right and the drop, and whether a LEFT or a RIGHT move collided.
   */
  function Landing(b: Board, q0: PieceState, r: nat, c: nat): (l: (PieceState, bool, bool))
    requires Consistent(q0) && TwoWay(q0)
    ensures 0 <= l.0.orientation < 4 && Consistent(l.0)
  {
    var q1 := RotateTimes(b, q0, r);
    var (q2, bumpedLeft) := MoveTimes(b, q1, Left, 5);
    var (q3, bumpedRight) := MoveTimes(b, q2, Right, c);
    (Drop(b, q3), bumpedLeft, bumpedRight)
  }

  /** os lists the forty candidates in getAIResponse's order: rotation-major, so outcome 10 r + c has r turns and c moves right. */
  ghost predicate Enumerates(os: seq<Outcome>, b: Board, p: PieceState)
  {
    |os| == CandidateCount
    && forall r: nat, c: nat {:trigger Candidate(b, p, r, c)} :: r < 4 && c < 10 ==> os[10 * r + c] == Candidate(b, p, r, c)
  }

  /** The outcomes of all forty candidates in the order getAIResponse tries them. */
  ghost function Outcomes(b: Board, p: PieceState): (os: seq<Outcome>)
    ensures Enumerates(os, b, p)
  {
    OutcomesExist(b, p);
    var os :| Enumerates(os, b, p);
    os
  }

  lemma OutcomesExist(b: Board, p: PieceState)
    ensures exists os :: Enumerates(os, b, p)
  {
    var os := seq(CandidateCount, k requires 0 <= k < CandidateCount => Candidate(b, p, k / 10, k % 10));
    forall r: nat, c: nat | r < 4 && c < 10
      ensures os[10 * r + c] == Candidate(b, p, r, c)
    {
      var k := 10 * r + c;
      assert k / 10 == r && k % 10 == c;
    }
    assert Enumerates(os, b, p);
  }

  /** Candidate k of the forty: r turns and c moves right, where k = 10 r + c. */
  lemma Split(k: int) returns (r: nat, c: nat)
    requires 0 <= k < CandidateCount
    ensures r < 4 && c < 10 && k == 10 * r + c
  {
    r, c := k / 10, k % 10;
  }

  /** Only one sequence lists the forty candidates: Outcomes is that sequence. */
  lemma EnumeratesUnique(os: seq<Outcome>, b: Board, p: PieceState)
    requires Enumerates(os, b, p)
    ensures os == Outcomes(b, p)
  {
    var all := Outcomes(b, p);
    forall k | 0 <= k < CandidateCount
      ensures os[k] == all[k]
    {
      var r, c := Split(k);
      assert os[10 * r + c] == Candidate(b, p, r, c);
    }
  }

  /** Every outcome has an orientation 0 to 3 and a score of at most 0. */
  lemma OutcomesBounded(b: Board, p: PieceState)
    ensures forall k :: 0 <= k < CandidateCount ==>
      0 <= Outcomes(b, p)[k].orientation < 4 && Outcomes(b, p)[k].score <= 0.0
  {
    var os := Outcomes(b, p);
    forall k | 0 <= k < CandidateCount
      ensures 0 <= os[k].orientation < 4 && os[k].score <= 0.0
    {
      var r, c := Split(k);
      assert os[10 * r + c] == Candidate(b, p, r, c);
    }
  }

  /** getAIResponse's running best score and moves after the first n outcomes. */
  function Best(os: seq<Outcome>, sentinel: real, n: int): (r: (real, (int, int)))
    requires 0 <= n <= |os|
    ensures sentinel <= r.0
    ensures forall j :: 0 <= j < n ==> os[j].score <= r.0
  {
    if n == 0 then (sentinel, (-1, -1))
    else
      var (best, moves) := Best(os, sentinel, n - 1);
      var c := os[n - 1];
      if c.score > best then (c.score, (c.x, c.orientation)) else (best, moves)
  }

  /** AI.getAIResponse: the column and orientation it returns, starting from the given best score. */
  ghost function SearchMoves(b: Board, p: PieceState, sentinel: real): (r: (int, int))
    ensures r == (-1, -1) <==> forall k :: 0 <= k < CandidateCount ==> Outcomes(b, p)[k].score <= sentinel
  {
    OutcomesBounded(b, p);
    BestResult(Outcomes(b, p), sentinel);
    Best(Outcomes(b, p), sentinel, CandidateCount).1
  }

  /** Whether the first n outcomes bumped into something on a LEFT or a RIGHT move. */
  function Bumps(os: seq<Outcome>, n: int): (bool, bool)
    requires 0 <= n <= |os|
  {
    if n == 0 then (false, false)
    else
      var (left, right) := Bumps(os, n - 1);
      (left || os[n - 1].bumpedLeft, right || os[n - 1].bumpedRight)
  }

  /** Bumps says whether some outcome bumped, each way. */
  lemma {:induction false} BumpsSpec(os: seq<Outcome>, n: int)
    requires 0 <= n <= |os|
    ensures Bumps(os, n).0 <==> exists j :: 0 <= j < n && os[j].bumpedLeft
    ensures Bumps(os, n).1 <==> exists j :: 0 <= j < n && os[j].bumpedRight
  {
    if n > 0 {
      BumpsSpec(os, n - 1);
    }
  }

  /** Outcome k beats the sentinel, is a best among the first n, and beats every outcome before it. */
  predicate FirstBest(os: seq<Outcome>, sentinel: real, n: int, k: int)
    requires 0 <= k < n <= |os|
  {
    os[k].score > sentinel
    && (forall j :: 0 <= j < n ==> os[j].score <= os[k].score)
    && (forall j :: 0 <= j < k ==> os[j].score < os[k].score)
  }

  /** Outcomes that cannot be taken for the "nothing found" answer (-1, -1). */
  predicate Oriented(os: seq<Outcome>)
  {
    forall j :: 0 <= j < |os| ==> os[j].orientation >= 0
  }

  /**
   * Best after n outcomes, with the index it comes from: k is -1 when no
   * outcome beat the sentinel (and Best is the sentinel with (-1, -1)),
   * otherwise the first best outcome, whose score and moves Best holds.
   */
  lemma {:induction false} BestSpec(os: seq<Outcome>, sentinel: real, n: int) returns (k: int)
    requires 0 <= n <= |os|
    ensures -1 <= k < n
    ensures k == -1 ==>
      Best(os, sentinel, n) == (sentinel, (-1, -1)) && forall j :: 0 <= j < n ==> os[j].score <= sentinel
    ensures k >= 0 ==>
      FirstBest(os, sentinel, n, k) && Best(os, sentinel, n) == (os[k].score, (os[k].x, os[k].orientation))
  {
    if n == 0 {
      k := -1;
    } else {
      var k0 := BestSpec(os, sentinel, n - 1);
      var best := Best(os, sentinel, n - 1).0;
      if os[n - 1].score > best {
        k := n - 1;
      } else {
        k := k0;
      }
    }
  }

  /**
   * What getAIResponse's loop returns: (-1, -1) exactly when no outcome
   * scores above the starting best score; otherwise the column and
   * orientation of the first outcome with the highest score.
   */
  lemma BestResult(os: seq<Outcome>, sentinel: real)
    requires Oriented(os)
    ensures Best(os, sentinel, |os|).1 == (-1, -1) <==> forall j :: 0 <= j < |os| ==> os[j].score <= sentinel
    ensures Best(os, sentinel, |os|).1 != (-1, -1) ==>
      exists k :: 0 <= k < |os| && FirstBest(os, sentinel, |os|, k)
        && Best(os, sentinel, |os|).1 == (os[k].x, os[k].orientation)
  {
    var k := BestSpec(os, sentinel, |os|);
    if k >= 0 {
      assert os[k].orientation >= 0;
    }
  }

  /** 2 to the n. */
  function Pow2(n: nat): (r: nat)
    ensures r >= 1
  {
    if n == 0 then 1 else 2 * Pow2(n - 1)
  }

  /** Double.MIN_VALUE, the documented starting best score: the smallest positive double, 2^-1074. */
  const DoubleMinValue: real := 1.0 / (Pow2(1074) as real)

  /** The starting best score of the deployed build. */
  const DeployedSentinel: real := -99999999.0

  /**
   * As documented, getAIResponse starts from Double.MIN_VALUE, which is
   * positive, and no candidate ever scores above zero: it always returns
   * (-1, -1), whatever the board and the piece.
   */
  lemma DocumentedSearchNeverChooses(b: Board, p: PieceState)
    ensures SearchMoves(b, p, DoubleMinValue) == (-1, -1)
  {
    var os := Outcomes(b, p);
    OutcomesBounded(b, p);
    assert Oriented(os);
    // Pow2 is at least 1, so the documented start, 2^-1074, is above every score, which is at most 0.
    assert DoubleMinValue > 0.0;
    assert forall j :: 0 <= j < |os| ==> os[j].score <= DoubleMinValue;
    BestResult(os, DoubleMinValue);
  }

  /**
   * Starting from -99999999, as the deployed build does, every candidate
   * beats the start, so getAIResponse returns the column and orientation of
   * the first best-scoring candidate.
   */
  lemma DeployedSearchChooses(b: Board, p: PieceState)
    ensures SearchMoves(b, p, DeployedSentinel) != (-1, -1)
    ensures exists r: nat, c: nat :: (r < 4 && c < 10 && FirstBest(Outcomes(b, p), DeployedSentinel, CandidateCount, 10 * r + c)
      && SearchMoves(b, p, DeployedSentinel) == (Candidate(b, p, r, c).x, Candidate(b, p, r, c).orientation))
  {
    var os := Outcomes(b, p);
    OutcomesBounded(b, p);
    assert Oriented(os);
    assert os[0] == Candidate(b, p, 0, 0);
    BestResult(os, DeployedSentinel);
    var k :| 0 <= k < |os| && FirstBest(os, DeployedSentinel, |os|, k)
      && Best(os, DeployedSentinel, |os|).1 == (os[k].x, os[k].orientation);
    var r, c := Split(k);
    assert os[10 * r + c] == Candidate(b, p, r, c);
  }

  /** The single step GridManager.moveToAITarget takes toward the AI's target. */
  datatype AiStep = TurnClockwise | StepRight | StepLeft | StepDown

  function AiStepFor(p: PieceState, targetPos: int, targetRot: int): (s: AiStep)
    ensures s == TurnClockwise <==> p.orientation != targetRot
    ensures s == StepDown <==> p.orientation == targetRot && p.x == targetPos
  {
    if p.orientation != targetRot then TurnClockwise
    else if p.x < targetPos then StepRight
    else if p.x > targetPos then StepLeft
    else StepDown
  }

  /**
   * With the documented starting score, every search sets the target
   * rotation to -1, which no piece ever has: moveToAITarget only turns a
   * piece whose target was searched, and never steers it sideways or down.
   */
  lemma DocumentedAiOnlyTurns(b: Board, p: PieceState, q: PieceState)
    requires Consistent(q)
    ensures var m := SearchMoves(b, p, DoubleMinValue); AiStepFor(q, m.0, m.1) == TurnClockwise
  {
    DocumentedSearchNeverChooses(b, p);
  }

  /** A freshly spawned piece (column 5, row 0) lies inside the board. */
  lemma SpawnInBounds(k: PieceType, locked: bool)
    ensures InBounds(Cells(Spawned(k, 5, 0, locked)))
  {
  }

  /**
   * GridManager.checkCollisions(dir, handleCollisions) of the deployed
   * build: whether the piece collides, and whether the check also locked it
   * in. Blocks are examined in order and the first blocked one decides: the
   * floor locks it in when handleCollisions is set, a wall never does, and
   * a board block does only when moving down.
   */
  function DeployedCheck(b: Board, p: PieceState, d: Direction, handle: bool): (r: (bool, bool))
    ensures r.0 <==> Collides(b, p, d)
    ensures r.1 ==> handle && !p.locked
  {
    if p.locked then (true, false) else DeployedScan(b, Cells(p), d, handle, 0)
  }

  function DeployedScan(b: Board, cells: seq<Pos>, d: Direction, handle: bool, i: nat): (r: (bool, bool))
    ensures r.0 <==> exists j :: i <= j < |cells| && Blocked(b, Shifted(cells[j], d))
    ensures r.1 ==> r.0 && handle
    decreases |cells| - i
  {
    if i >= |cells| then (false, false)
    else
      var c := Shifted(cells[i], d);
      if c.1 >= Height then (true, handle)
      else if c.0 >= Width || c.0 < 0 then (true, false)
      else if Occupied(b, c) then (true, d == Down && handle)
      else DeployedScan(b, cells, d, handle, i + 1)
  }

  lemma {:induction false} DeployedScanLocks(b: Board, cells: seq<Pos>, d: Direction, handle: bool, i: nat)
    requires IsMove(d) && InBounds(cells)
    ensures DeployedScan(b, cells, d, handle, i).1 <==> DeployedScan(b, cells, d, handle, i).0 && d == Down && handle
    decreases |cells| - i
  {
    if i < |cells| {
      DeployedScanLocks(b, cells, d, handle, i + 1);
    }
  }

  /**
   * For a piece inside the board and not yet locked, the deployed build's
   * checkCollisions reports the same collisions as the documented one and
   * locks the piece in exactly when the documented moveCurrentPiece does:
   * on a collision while moving down with handleCollisions set. (A piece
   * that is already locked is never locked again in the deployed build,
   * while the documented build handles the collision once more.)
   */
  lemma DeployedCheckAgrees(b: Board, p: PieceState, d: Direction, handle: bool)
    requires IsMove(d) && InBounds(Cells(p)) && !p.locked
    ensures DeployedCheck(b, p, d, handle).0 == Collides(b, p, d)
    ensures DeployedCheck(b, p, d, handle).1 == (Collides(b, p, d) && d == Down && handle)
  {
    DeployedScanLocks(b, Cells(p), d, handle, 0);
  }
}
