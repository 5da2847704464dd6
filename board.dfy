/**
 * The 10 x 24 playing field of GridManager as a value, and what the grid
 * does to it: collision tests, locking a piece in, finding full rows,
 * clearing them, and the score, level and speed rules tied to clearing.
 *
 * A board is indexed [column][row]; row 0 is the top row and row 23 the
 * bottom one. A cell holds the kind of the piece its block came from (the
 * block's colour is a function of that kind and the level).
 */
module Boards {
  import opened Optional
  import opened Pieces

  const Width: int := 10
  const Height: int := 24

  type Cell = Option<PieceType>

  predicate IsBoard(b: seq<seq<Cell>>)
  {
    |b| == Width && forall x :: 0 <= x < |b| ==> |b[x]| == Height
  }

  type Board = b: seq<seq<Cell>> | IsBoard(b) witness seq(10, _ => seq(24, _ => None))

  /** The board a new GridManager starts with. */
  function EmptyBoard(): (b: Board)
    ensures forall x, y :: 0 <= x < Width && 0 <= y < Height ==> b[x][y] == None
  {
    seq(Width, _ => seq(Height, _ => None))
  }

  /** Two boards that agree on every cell are the same board. */
  lemma BoardsEqual(b1: Board, b2: Board)
    requires forall x, y :: 0 <= x < Width && 0 <= y < Height ==> b1[x][y] == b2[x][y]
    ensures b1 == b2
  {
    forall x | 0 <= x < Width ensures b1[x] == b2[x] {
      assert forall y :: 0 <= y < Height ==> b1[x][y] == b2[x][y];
    }
  }

  predicate Occupied(b: Board, c: Pos)
  {
    0 <= c.0 < Width && 0 <= c.1 < Height && b[c.0][c.1].Some?
  }

  /**
   * What stops a block at cell c: the floor, either wall, or a block already
   * on the board. A cell above the top row is not blocked.
   */
  predicate Blocked(b: Board, c: Pos)
  {
    c.1 >= Height || c.0 >= Width || c.0 < 0 || Occupied(b, c)
  }

  /** The cell one step away in direction d; UP and NULL leave it where it is. */
  function Shifted(c: Pos, d: Direction): Pos
  {
    match d
    case Down => (c.0, c.1 + 1)
    case Left => (c.0 - 1, c.1)
    case Right => (c.0 + 1, c.1)
    case _ => c
  }

  /** Some block of the list is blocked once displaced by d. */
  predicate AnyBlocked(b: Board, cells: seq<Pos>, d: Direction)
  {
    exists i :: 0 <= i < |cells| && Blocked(b, Shifted(cells[i], d))
  }

  /** GridManager.checkCollisions(dir): a locked piece always collides. */
  predicate Collides(b: Board, p: PieceState, d: Direction)
  {
    p.locked || AnyBlocked(b, Cells(p), d)
  }

  /** Every block of the piece lies between the walls and above the floor (rows above the top are allowed). */
  predicate InBounds(cells: seq<Pos>)
  {
    forall i :: 0 <= i < |cells| ==> 0 <= cells[i].0 < Width && cells[i].1 < Height
  }

  /** A piece that is not blocked where it stands lies inside the board. */
  lemma UnblockedInBounds(b: Board, cells: seq<Pos>, d: Direction)
    requires !AnyBlocked(b, cells, d)
    ensures InBounds(seq(|cells|, i requires 0 <= i < |cells| => Shifted(cells[i], d)))
  {
    var moved := seq(|cells|, i requires 0 <= i < |cells| => Shifted(cells[i], d));
    forall i | 0 <= i < |moved| ensures 0 <= moved[i].0 < Width && moved[i].1 < Height {
      assert !Blocked(b, Shifted(cells[i], d));
    }
  }

  /**
   * The write loop of GridManager.handleCollision: every block of the piece
   * that lies on the board (row 0 or below) is stored with the piece's kind.
   */
  function Lock(b: Board, cells: seq<Pos>, kind: PieceType): (r: Board)
    ensures forall i :: 0 <= i < |cells| && 0 <= cells[i].0 < Width && 0 <= cells[i].1 < Height ==>
              r[cells[i].0][cells[i].1] == Some(kind)
    ensures forall x, y :: 0 <= x < Width && 0 <= y < Height && (x, y) !in cells ==> r[x][y] == b[x][y]
  {
    seq(Width, x requires 0 <= x < Width =>
      seq(Height, y requires 0 <= y < Height => if (x, y) in cells then Some(kind) else b[x][y]))
  }

  /** handleCollision ends the game when a block of the piece is still above the top row. */
  predicate AboveTop(cells: seq<Pos>)
  {
    exists i :: 0 <= i < |cells| && cells[i].1 < 0
  }

  predicate IsFull(b: Board, y: int)
    requires 0 <= y < Height
  {
    forall x :: 0 <= x < Width ==> b[x][y].Some?
  }

  /** The number of occupied cells among the first n of row y. */
  function RowCount(b: Board, y: int, n: int): (c: int)
    requires 0 <= y < Height && 0 <= n <= Width
    ensures 0 <= c <= n
    ensures c == n <==> forall x :: 0 <= x < n ==> b[x][y].Some?
    ensures c > 0 <==> exists x :: 0 <= x < n && b[x][y].Some?
  {
    if n == 0 then 0 else RowCount(b, y, n - 1) + (if b[n - 1][y].Some? then 1 else 0)
  }

  /** The full rows among the first n, top to bottom. */
  function FullRowsUpTo(b: Board, n: int): (rows: seq<int>)
    requires 0 <= n <= Height
    ensures forall i :: 0 <= i < |rows| ==> 0 <= rows[i] < n
  {
    if n == 0 then [] else FullRowsUpTo(b, n - 1) + (if IsFull(b, n - 1) then [n - 1] else [])
  }

  /** The rows GridManager.checkLines records, top to bottom. */
  function FullRows(b: Board): (rows: seq<int>)
    ensures forall i :: 0 <= i < |rows| ==> 0 <= rows[i] < Height
  {
    FullRowsUpTo(b, Height)
  }

  predicate StrictlyIncreasing(s: seq<int>)
  {
    forall i, j :: 0 <= i < j < |s| ==> s[i] < s[j]
  }

  lemma {:induction false} FullRowsUpToSpec(b: Board, n: int)
    requires 0 <= n <= Height
    ensures StrictlyIncreasing(FullRowsUpTo(b, n))
    ensures forall r :: r in FullRowsUpTo(b, n) <==> 0 <= r < n && IsFull(b, r)
  {
    if n > 0 {
      FullRowsUpToSpec(b, n - 1);
      var rest := FullRowsUpTo(b, n - 1);
      var tail := if IsFull(b, n - 1) then [n - 1] else [];
      var all := FullRowsUpTo(b, n);
      assert all == rest + tail;
      forall r ensures r in all <==> 0 <= r < n && IsFull(b, r) {
        assert r in all <==> r in rest || r in tail;
      }
      forall i, j | 0 <= i < j < |all| ensures all[i] < all[j] {
        assert all[i] == rest[i];
        if j < |rest| {
          assert all[j] == rest[j];
        }
      }
    }
  }

  /** FullRows lists exactly the full rows, in increasing order. */
  lemma FullRowsSpec(b: Board)
    ensures StrictlyIncreasing(FullRows(b))
    ensures forall r :: r in FullRows(b) <==> 0 <= r < Height && IsFull(b, r)
  {
    FullRowsUpToSpec(b, Height);
  }

  /**
   * GridManager.clearLine(line): every row above `line` moves one row down.
   * Row 0 is copied into row 1 but is itself left as it was.
   */
  function ClearLine(b: Board, line: int): (r: Board)
    requires 0 <= line < Height
    ensures forall x, y :: 0 <= x < Width && line < y < Height ==> r[x][y] == b[x][y]
    ensures 0 < line ==> forall x :: 0 <= x < Width ==> r[x][line] == b[x][line - 1]
  {
    seq(Width, x requires 0 <= x < Width =>
      seq(Height, y requires 0 <= y < Height => if 1 <= y <= line then b[x][y - 1] else b[x][y]))
  }

  /** GridManager.clearLines' loop: clearLine for each recorded row, in list order. */
  function ClearRows(b: Board, rows: seq<int>): (r: Board)
    requires forall i :: 0 <= i < |rows| ==> 0 <= rows[i] < Height
    ensures forall x, y :: 0 <= x < Width && 0 <= y < Height && (forall i :: 0 <= i < |rows| ==> rows[i] < y) ==>
      r[x][y] == b[x][y]
    decreases |rows|
  {
    if rows == [] then b else ClearRows(ClearLine(b, rows[0]), rows[1..])
  }

  /** Clearing one more row at the end of the list. */
  lemma {:induction false} ClearRowsSnoc(b: Board, rows: seq<int>, r: int)
    requires forall i :: 0 <= i < |rows| ==> 0 <= rows[i] < Height
    requires 0 <= r < Height
    ensures ClearRows(b, rows + [r]) == ClearLine(ClearRows(b, rows), r)
    decreases |rows|
  {
    if rows != [] {
      assert (rows + [r])[1..] == rows[1..] + [r];
      ClearRowsSnoc(ClearLine(b, rows[0]), rows[1..], r);
    }
  }

  /** What clearLine does to one column: the cell at `line` goes and row 0 is repeated on top. */
  function ClearColumn(col: seq<Cell>, line: int): (c: seq<Cell>)
    requires 0 <= line < |col|
    ensures |c| == |col|
  {
    [col[0]] + col[..line] + col[line + 1..]
  }

  function ClearColumnRows(col: seq<Cell>, rows: seq<int>): (c: seq<Cell>)
    requires forall i :: 0 <= i < |rows| ==> 0 <= rows[i] < |col|
    ensures |c| == |col|
    decreases |rows|
  {
    if rows == [] then col else ClearColumnRows(ClearColumn(col, rows[0]), rows[1..])
  }

  lemma {:induction false} ClearRowsByColumn(b: Board, rows: seq<int>, x: int)
    requires forall i :: 0 <= i < |rows| ==> 0 <= rows[i] < Height
    requires 0 <= x < Width
    ensures ClearRows(b, rows)[x] == ClearColumnRows(b[x], rows)
    decreases |rows|
  {
    if rows != [] {
      var b1 := ClearLine(b, rows[0]);
      assert b1[x] == ClearColumn(b[x], rows[0]);
      ClearRowsByColumn(b1, rows[1..], x);
    }
  }

  /** The cells of a column from row y down whose rows are not in `gone`, in order. */
  function Kept(col: seq<Cell>, gone: seq<int>, y: int): seq<Cell>
    requires 0 <= y <= |col|
    decreases |col| - y
  {
    if y == |col| then [] else (if y in gone then [] else [col[y]]) + Kept(col, gone, y + 1)
  }

  lemma {:induction false} KeptNoneGone(col: seq<Cell>, gone: seq<int>, y: int, j: int)
    requires 0 <= y <= j <= |col|
    requires forall k :: y <= k < j ==> k !in gone
    ensures Kept(col, gone, y) == col[y..j] + Kept(col, gone, j)
    decreases j - y
  {
    if y < j {
      KeptNoneGone(col, gone, y + 1, j);
      assert y !in gone;
      var rest := Kept(col, gone, j);
      calc {
        Kept(col, gone, y);
        [col[y]] + Kept(col, gone, y + 1);
        [col[y]] + (col[y + 1..j] + rest);
        ([col[y]] + col[y + 1..j]) + rest;
        { assert col[y..j] == [col[y]] + col[y + 1..j]; }
        col[y..j] + rest;
      }
    }
  }

  lemma {:induction false} KeptAgree(c1: seq<Cell>, c2: seq<Cell>, g1: seq<int>, g2: seq<int>, y: int)
    requires |c1| == |c2| && 0 <= y <= |c1|
    requires forall k :: y <= k < |c1| ==> c1[k] == c2[k] && (k in g1 <==> k in g2)
    ensures Kept(c1, g1, y) == Kept(c2, g2, y)
    decreases |c1| - y
  {
    if y < |c1| {
      KeptAgree(c1, c2, g1, g2, y + 1);
    }
  }

  function Nones(n: nat): (s: seq<Cell>)
    ensures |s| == n && forall i :: 0 <= i < n ==> s[i] == None
  {
    seq(n, _ => None)
  }

  /**
   * One clear of a column whose top cell is empty: what is kept of the
   * result, skipping the rows still to clear, is an empty cell on top of
   * what is kept of the column, skipping the cleared row as well.
   */
  lemma ClearColumnKept(col: seq<Cell>, r: int, rest: seq<int>, gone: seq<int>)
    requires 0 <= r < |col| && col[0] == None
    requires forall k :: k in gone <==> k == r || k in rest
    requires forall k :: k in rest ==> r < k
    ensures Kept(ClearColumn(col, r), rest, 0) == [None] + Kept(col, gone, 0)
  {
    var col1 := ClearColumn(col, r);
    var above := col[..r];
    var below := Kept(col, gone, r + 1);
    assert col1[..r + 1] == [None] + above;
    assert forall k :: r + 1 <= k < |col| ==> col1[k] == col[k];
    KeptNoneGone(col1, rest, 0, r + 1);
    KeptAgree(col1, col, rest, gone, r + 1);
    assert Kept(col1, rest, 0) == [None] + above + below;
    KeptNoneGone(col, gone, 0, r);
    assert r in gone;
    assert Kept(col, gone, r) == below;
    assert Kept(col, gone, 0) == above + below;
    AppendAssoc([None], above, below);
  }

  lemma AppendAssoc<T>(a: seq<T>, b: seq<T>, c: seq<T>)
    ensures a + b + c == a + (b + c)
  {
  }

  /**
   * Clearing rows of one column in increasing order, when its top cell is
   * empty, removes exactly those rows: the remaining cells keep their order
   * and sink to the bottom, with empty cells above them.
   */
  lemma {:induction false} ClearColumnRowsRemoves(col: seq<Cell>, rows: seq<int>)
    requires |col| > 0 && col[0] == None
    requires StrictlyIncreasing(rows)
    requires forall i :: 0 <= i < |rows| ==> 1 <= rows[i] < |col|
    ensures ClearColumnRows(col, rows) == Nones(|rows|) + Kept(col, rows, 0)
    decreases |rows|
  {
    if rows != [] {
      var r := rows[0];
      var rest := rows[1..];
      var col1 := ClearColumn(col, r);
      TailAbove(rows);
      ClearColumnRowsRemoves(col1, rest);
      assert rows == [r] + rest;
      ClearColumnKept(col, r, rest, rows);
      assert Nones(|rows|) == Nones(|rest|) + [None];
    } else {
      KeptNoneGone(col, rows, 0, |col|);
      assert col[0..|col|] == col;
    }
  }

  /** The rows after the first of an increasing list are increasing and all above the first. */
  lemma TailAbove(rows: seq<int>)
    requires rows != [] && StrictlyIncreasing(rows)
    ensures StrictlyIncreasing(rows[1..])
    ensures forall i :: 0 <= i < |rows| - 1 ==> rows[0] < rows[1..][i]
  {
    assert forall i :: 0 <= i < |rows| - 1 ==> rows[1..][i] == rows[i + 1];
  }

  /**
   * With the top row empty, clearing the full rows in the order checkLines
   * records them removes exactly those rows: in every column the other cells
   * keep their order and drop to the bottom, and empty cells fill the top.
   */
  lemma ClearFullRowsRemovesThem(b: Board)
    requires forall x :: 0 <= x < Width ==> b[x][0] == None
    ensures forall x :: 0 <= x < Width ==>
      ClearRows(b, FullRows(b))[x] == Nones(|FullRows(b)|) + Kept(b[x], FullRows(b), 0)
  {
    var rows := FullRows(b);
    FullRowsSpec(b);
    forall i | 0 <= i < |rows| ensures 1 <= rows[i] < Height {
      assert rows[i] in rows;
      assert b[0][rows[i]].Some?;
    }
    forall x | 0 <= x < Width
      ensures ClearRows(b, rows)[x] == Nones(|rows|) + Kept(b[x], rows, 0)
    {
      ClearRowsByColumn(b, rows, x);
      ClearColumnRowsRemoves(b[x], rows);
    }
  }

  /** As written, clearLine keeps row 0 and also copies it into row 1. */
  lemma ClearLineKeepsTopRow(b: Board, line: int, x: int)
    requires 1 <= line < Height && 0 <= x < Width
    ensures ClearLine(b, line)[x][0] == b[x][0] && ClearLine(b, line)[x][1] == b[x][0]
  {
  }

  // ---------------------------------------------------------------------
  // Score, level and speed

  const LinesToLevelUp: int := 5
  const MaxLevel: int := 16

  /** The base points of clearLines for one batch of n cleared rows. */
  function LineClearPoints(n: int): (points: int)
    ensures 100 <= points <= 1000 && points % 100 == 0
  {
    if n == 4 then 1000 else if n == 3 then 600 else if n == 2 then 300 else 100
  }

  /** Java's Math.round: the nearest whole number, halves going up. */
  function JavaRound(v: real): (r: int)
    ensures r as real - 0.5 <= v < r as real + 0.5
  {
    (v + 0.5).Floor
  }

  /**
   * The new score after clearLines: round(score + points * (1 + 0.8 * level)).
   * It is the base points plus four fifths of them per level, exactly.
   */
  function ScoreAfterClear(score: int, n: int, level: int): (r: int)
    ensures r == score + LineClearPoints(n) + (LineClearPoints(n) / 5) * 4 * level
  {
    var points := LineClearPoints(n);
    assert points == 5 * (points / 5);
    FifthsExact(points / 5, level);
    JavaRound(score as real + points as real * (1.0 + 0.8 * level as real))
  }

  /** Five fifths f, scaled by 1 + 0.8 * level, are 5f + 4f * level exactly. */
  lemma FifthsExact(f: int, level: int)
    ensures (5 * f) as real * (1.0 + 0.8 * level as real) == (5 * f + f * 4 * level) as real
  {
    var fr, lr := f as real, level as real;
    assert (f * 4 * level) as real == 4.0 * fr * lr;
    assert (5 * f) as real * (1.0 + 0.8 * lr) == 5.0 * fr + 4.0 * fr * lr;
  }

  /** More rows at once never score less, at any level. */
  lemma MorePointsForMoreRows(n1: int, n2: int, score: int, level: int)
    requires 1 <= n1 <= n2 <= 4 && level >= 0
    ensures ScoreAfterClear(score, n1, level) <= ScoreAfterClear(score, n2, level)
    ensures ScoreAfterClear(score, n1, level) > score
  {
    var p1, p2 := LineClearPoints(n1), LineClearPoints(n2);
    assert (p1 / 5) * 4 * level <= (p2 / 5) * 4 * level by {
      assert p1 / 5 <= p2 / 5;
    }
  }

  /** The level after one call of clearLines: one up with enough rows in total, unless already the last level. */
  function LevelAfterClear(totalLines: int, level: int): (r: int)
    ensures r == level || r == level + 1
    ensures level <= MaxLevel ==> r <= MaxLevel
    ensures r == level + 1 <==> totalLines >= LinesToLevelUp * (level + 1) && level != MaxLevel
  {
    if totalLines >= LinesToLevelUp * (level + 1) && level != MaxLevel then level + 1 else level
  }

  const LevelSpeeds: seq<int> := [45, 40, 35, 30, 26, 22, 18, 14, 11, 8, 6, 5, 4, 3, 2, 1, 0]
  const LevelIntenseSpeeds: seq<int> := [35, 30, 25, 22, 18, 15, 13, 11, 8, 6, 5, 4, 3, 2, 1, 0, 0]

  /** levelUp's fall rate: the speed table of the mode, at the level capped to the last entry. */
  function FallRate(level: int, intense: bool): (r: int)
    requires level >= 0
    ensures 0 <= r <= 45
    ensures intense ==> r <= FallRate(level, false)
  {
    var i := if level < |LevelSpeeds| - 1 then level else |LevelSpeeds| - 1;
    if intense then LevelIntenseSpeeds[i] else LevelSpeeds[i]
  }

  /** A higher level never falls more slowly, in either mode. */
  lemma {:induction false} FallRateNonIncreasing(l1: int, l2: int, intense: bool)
    requires 0 <= l1 <= l2
    ensures FallRate(l2, intense) <= FallRate(l1, intense)
    decreases l2 - l1
  {
    if l1 < l2 {
      FallRateNonIncreasing(l1 + 1, l2, intense);
      if l1 < 16 {
        assert LevelSpeeds[l1 + 1] <= LevelSpeeds[l1];
        assert LevelIntenseSpeeds[l1 + 1] <= LevelIntenseSpeeds[l1];
      }
    }
  }

  /** The first (normal-mode) colours of the five schemes, three per scheme. */
  const ColorScheme: seq<seq<int>> := [
    [0xfff44141, 0xfff4a941, 0xfff4e541, 0, 35],
    [0xffa3f441, 0xff4192f4, 0xff42f4c2, 100, 140],
    [0xff9141f4, 0xfff441d3, 0xfff44167, 190, 240],
    [0xffeff2f7, 0xffc43131, 0xffffa530, 5, 20],
    [0xffaff441, 0xffebf441, 0xfff49b42, 20, 50]]
  const IntenseColor: int := 45

  /** Which of the three scheme colours a kind uses. */
  function ColorSlot(t: PieceType): (k: int)
    ensures 0 <= k < 3
  {
    match t
    case I | O | T => 0
    case L | Z => 1
    case J | S => 2
  }

  /**
   * GridManager.getColorOfPiece: the normal colour comes from the scheme of
   * the level modulo 5; in intense mode every kind has the same colour.
   */
  function ColorOfPiece(t: PieceType, level: int): (c: (int, int))
    requires level >= 0
    ensures c.1 == IntenseColor
  {
    (ColorScheme[level % 5][ColorSlot(t)], IntenseColor)
  }

  /** Colours repeat every five levels, and kinds sharing a slot share a colour. */
  lemma ColorsRepeat(t: PieceType, u: PieceType, level: int)
    requires level >= 0 && ColorSlot(t) == ColorSlot(u)
    ensures ColorOfPiece(t, level) == ColorOfPiece(u, level + 5)
  {
    assert (level + 5) % 5 == level % 5;
  }

  /**
   * GridManager.calculateTopLine (deployed build): the first row, from the
   * top, holding any block; the bottom row when the board is empty.
   */
  function TopLine(b: Board): (r: int)
    ensures 0 <= r < Height
    ensures forall y, x :: 0 <= y < r && 0 <= x < Width ==> b[x][y] == None
    ensures r < Height - 1 ==> exists x :: 0 <= x < Width && b[x][r].Some?
  {
    TopLineFrom(b, 0)
  }

  function TopLineFrom(b: Board, y: int): (r: int)
    requires 0 <= y <= Height
    ensures y <= r < Height || (y == Height && r == Height - 1)
    ensures forall y', x :: y <= y' < r && 0 <= x < Width ==> b[x][y'] == None
    ensures r < Height - 1 ==> exists x :: 0 <= x < Width && b[x][r].Some?
    decreases Height - y
  {
    if y == Height then Height - 1
    else if RowCount(b, y, Width) > 0 then y
    else TopLineFrom(b, y + 1)
  }
}
