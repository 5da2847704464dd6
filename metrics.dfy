/**
 * The four board measures the AI weighs (AI.calcTotalHieght, calcLines,
 * calcHoles, calcRoughness, with getColHeight), and the weighted score
 * getAIResponse gives a board.
 */
module Metrics {
  import opened Optional
  import opened Boards

  /** The first row at or below row y of column x holding a block; Height when there is none. */
  function TopFrom(b: Board, x: int, y: int): (r: int)
    requires 0 <= x < Width && 0 <= y <= Height
    ensures y <= r <= Height
    ensures forall k :: y <= k < r ==> b[x][k] == None
    ensures r < Height ==> b[x][r].Some?
    decreases Height - y
  {
    if y == Height then Height else if b[x][y].Some? then y else TopFrom(b, x, y + 1)
  }

  /**
   * AI.getColHeight: with returnGridHeight, the row of the column's top
   * block (24 for an empty column); otherwise the column's height counted
   * from the floor (0 for an empty column).
   */
  function ColHeight(b: Board, x: int, returnGridHeight: bool): (h: int)
    requires 0 <= x < Width
    ensures 0 <= h <= Height
    ensures returnGridHeight ==> forall k :: 0 <= k < h ==> b[x][k] == None
    ensures !returnGridHeight ==> forall k :: 0 <= k < Height - h ==> b[x][k] == None
    ensures returnGridHeight && h < Height ==> b[x][h].Some?
    ensures !returnGridHeight && h > 0 ==> b[x][Height - h].Some?
  {
    var top := TopFrom(b, x, 0);
    if returnGridHeight then top else Height - top
  }

  /** The sum of the heights of columns x to 9. */
  function TotalHeightFrom(b: Board, x: int): (t: int)
    requires 0 <= x <= Width
    ensures 0 <= t <= Height * (Width - x)
    decreases Width - x
  {
    if x == Width then 0 else ColHeight(b, x, false) + TotalHeightFrom(b, x + 1)
  }

  /** AI.calcTotalHieght. */
  function TotalHeight(b: Board): (t: int)
    ensures 0 <= t <= Height * Width
  {
    TotalHeightFrom(b, 0)
  }

  /** The number of full rows among the first n, counted as calcLines does. */
  function LinesUpTo(b: Board, n: int): (c: int)
    requires 0 <= n <= Height
    ensures 0 <= c <= n
  {
    if n == 0 then 0 else LinesUpTo(b, n - 1) + (if RowCount(b, n - 1, Width) == 10 then 1 else 0)
  }

  /** AI.calcLines. */
  function Lines(b: Board): (c: int)
    ensures 0 <= c <= Height
  {
    LinesUpTo(b, Height)
  }

  /** The empty cells of column x from row y to the floor. */
  function EmptyBelow(b: Board, x: int, y: int): (n: int)
    requires 0 <= x < Width && y >= 0
    ensures 0 <= n <= if y < Height then Height - y else 0
    decreases Height - y
  {
    if y >= Height then 0 else (if b[x][y] == None then 1 else 0) + EmptyBelow(b, x, y + 1)
  }

  /** The holes of columns x to 9: empty cells below each column's top block. */
  function HolesFrom(b: Board, x: int): (n: int)
    requires 0 <= x <= Width
    ensures 0 <= n <= Height * (Width - x)
    decreases Width - x
  {
    if x == Width then 0 else EmptyBelow(b, x, ColHeight(b, x, true) + 1) + HolesFrom(b, x + 1)
  }

  /** AI.calcHoles. */
  function Holes(b: Board): (n: int)
    ensures 0 <= n <= Height * Width
  {
    HolesFrom(b, 0)
  }

  function Abs(v: int): (r: int)
    ensures r >= 0 && (r == v || r == -v)
  {
    if v < 0 then -v else v
  }

  /** The height differences of neighbouring columns, from column x rightwards. */
  function RoughnessFrom(b: Board, x: int): (n: int)
    requires 0 <= x < Width
    ensures 0 <= n <= Height * (Width - 1 - x)
    decreases Width - x
  {
    if x == Width - 1 then 0
    else Abs(ColHeight(b, x, false) - ColHeight(b, x + 1, false)) + RoughnessFrom(b, x + 1)
  }

  /** AI.calcRoughness. */
  function Roughness(b: Board): (n: int)
    ensures 0 <= n <= Height * (Width - 1)
  {
    RoughnessFrom(b, 0)
  }

  /** The AI's weights for height, lines, holes and roughness. */
  const HeightWeight: real := 0.510066
  const LinesWeight: real := 0.760666
  const HolesWeight: real := 0.35663
  const RoughnessWeight: real := 0.184483

  /** The score getAIResponse gives a board once the candidate piece is in it. */
  function Evaluate(b: Board): (score: real)
    ensures score <= LinesWeight * Lines(b) as real - HeightWeight * TotalHeight(b) as real
  {
    -(HeightWeight * TotalHeight(b) as real) + LinesWeight * Lines(b) as real
      - HolesWeight * Holes(b) as real - RoughnessWeight * Roughness(b) as real
  }

  /** calcLines counts exactly the rows checkLines records. */
  lemma {:induction false} LinesCountsFullRows(b: Board, n: int)
    requires 0 <= n <= Height
    ensures LinesUpTo(b, n) == |FullRowsUpTo(b, n)|
  {
    if n > 0 {
      LinesCountsFullRows(b, n - 1);
    }
  }

  /** A strictly increasing list of rows within [lo, hi) has at most hi - lo entries. */
  lemma {:induction false} IncreasingWithin(s: seq<int>, lo: int, hi: int)
    requires StrictlyIncreasing(s)
    requires forall i :: 0 <= i < |s| ==> lo <= s[i] < hi
    ensures |s| <= if lo <= hi then hi - lo else 0
    decreases |s|
  {
    if s != [] {
      TailAbove(s);
      assert forall i :: 0 <= i < |s| - 1 ==> s[1..][i] == s[i + 1];
      IncreasingWithin(s[1..], s[0] + 1, hi);
    }
  }

  /** Every column is at least as tall as the number of full rows. */
  lemma ColumnCoversFullRows(b: Board, x: int)
    requires 0 <= x < Width
    ensures ColHeight(b, x, false) >= Lines(b)
  {
    var rows := FullRows(b);
    var top := TopFrom(b, x, 0);
    FullRowsSpec(b);
    LinesCountsFullRows(b, Height);
    forall i | 0 <= i < |rows| ensures top <= rows[i] < Height {
      assert rows[i] in rows;
      assert b[x][rows[i]].Some?;
    }
    IncreasingWithin(rows, top, Height);
  }

  /** Columns x to 9, each at least n tall, add up to at least (10 - x) n. */
  lemma {:induction false} TotalHeightAtLeast(b: Board, x: int, n: int)
    requires 0 <= x <= Width
    requires forall col :: x <= col < Width ==> ColHeight(b, col, false) >= n
    ensures TotalHeightFrom(b, x) >= (Width - x) * n
    decreases Width - x
  {
    if x < Width {
      TotalHeightAtLeast(b, x + 1, n);
      MulStep(Width - x, n);
    }
  }

  lemma MulStep(m: int, n: int)
    ensures m * n == n + (m - 1) * n
  {
  }

  /** The heights of the ten columns add up to at least ten blocks per full row. */
  lemma TotalHeightCoversFullRows(b: Board)
    ensures TotalHeight(b) >= Width * Lines(b)
  {
    forall col | 0 <= col < Width
      ensures ColHeight(b, col, false) >= Lines(b)
    {
      ColumnCoversFullRows(b, col);
    }
    TotalHeightAtLeast(b, 0, Lines(b));
  }

  /**
   * No board scores above zero: every full row adds one block to each of
   * the ten columns, so the height penalty always outweighs the line reward.
   */
  lemma ScoreNeverPositive(b: Board)
    ensures Evaluate(b) <= 0.0
  {
    TotalHeightCoversFullRows(b);
    var h, n := TotalHeight(b), Lines(b);
    assert h >= 10 * n && n >= 0;
    assert HeightWeight * h as real >= HeightWeight * (10 * n) as real;
    assert LinesWeight * n as real <= HeightWeight * (10 * n) as real;
  }

  /** Every board scores above -250: the three penalties are bounded by the board's size. */
  lemma ScoreBoundedBelow(b: Board)
    ensures Evaluate(b) > -250.0
  {
    var h, n, holes, rough := TotalHeight(b), Lines(b), Holes(b), Roughness(b);
    assert 0 <= h <= 240 && 0 <= n && 0 <= holes <= 240 && 0 <= rough <= 216;
    assert HeightWeight * h as real <= HeightWeight * 240.0;
    assert HolesWeight * holes as real <= HolesWeight * 240.0;
    assert RoughnessWeight * rough as real <= RoughnessWeight * 216.0;
  }
}
