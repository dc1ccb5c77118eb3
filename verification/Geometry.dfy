/**
 * Points, the per-frame corner record kept in the `saved_points` table, the
 * positional corner order used by the compositor, Python's `round`, and the
 * straight line through the top edge of a banner.
 */
module Geometry {

  datatype Point = Point(x: real, y: real)

  /**
   * One row of the corner table, with its eight columns in the table's own
   * order: x_top_left, y_top_left, x_top_right, y_top_right, x_bot_left,
   * y_bot_left, x_bot_right, y_bot_right.
   */
  datatype Record = Record(
    xTopLeft: real, yTopLeft: real,
    xTopRight: real, yTopRight: real,
    xBotLeft: real, yBotLeft: real,
    xBotRight: real, yBotRight: real)

  /** The name of one column of the corner table. */
  datatype Coord =
    | XTopLeft | YTopLeft | XTopRight | YTopRight
    | XBotLeft | YBotLeft | XBotRight | YBotRight

  function Get(r: Record, c: Coord): real
  {
    match c
    case XTopLeft => r.xTopLeft
    case YTopLeft => r.yTopLeft
    case XTopRight => r.xTopRight
    case YTopRight => r.yTopRight
    case XBotLeft => r.xBotLeft
    case YBotLeft => r.yBotLeft
    case XBotRight => r.xBotRight
    case YBotRight => r.yBotRight
  }

  /** Overwrites one cell of a row; the seven other cells keep their values. */
  function Set(r: Record, c: Coord, v: real): (r': Record)
    ensures Get(r', c) == v
    ensures forall d :: d != c ==> Get(r', d) == Get(r, d)
  {
    match c
    case XTopLeft => r.(xTopLeft := v)
    case YTopLeft => r.(yTopLeft := v)
    case XTopRight => r.(xTopRight := v)
    case YTopRight => r.(yTopRight := v)
    case XBotLeft => r.(xBotLeft := v)
    case YBotLeft => r.(yBotLeft := v)
    case XBotRight => r.(xBotRight := v)
    case YBotRight => r.(yBotRight := v)
  }

  /** One column of the table, top to bottom. */
  function Column(rows: seq<Record>, c: Coord): (col: seq<real>)
    ensures |col| == |rows|
    ensures forall i :: 0 <= i < |rows| ==> col[i] == Get(rows[i], c)
  {
    seq(|rows|, i requires 0 <= i < |rows| => Get(rows[i], c))
  }

  /** The table with column `c` replaced by `vals`; every other column is untouched. */
  function WithColumn(rows: seq<Record>, c: Coord, vals: seq<real>): (rows': seq<Record>)
    requires |vals| == |rows|
    ensures |rows'| == |rows|
    ensures Column(rows', c) == vals
    ensures forall d :: d != c ==> Column(rows', d) == Column(rows, d)
  {
    var r' := seq(|rows|, i requires 0 <= i < |rows| => Set(rows[i], c, vals[i]));
    assert forall d :: d != c ==> Column(r', d) == Column(rows, d) by {
      forall d | d != c ensures Column(r', d) == Column(rows, d) {
        assert forall i :: 0 <= i < |rows| ==> Column(r', d)[i] == Column(rows, d)[i];
      }
    }
    r'
  }

  /**
   * The corner list kept by the replay pass:
   * [top_left, bot_right, top_right, bot_left]. The compositor reads the
   * corners by these positions.
   */
  function CornerOrder(r: Record): (c: seq<Point>)
    ensures |c| == 4
  {
    [Point(r.xTopLeft, r.yTopLeft), Point(r.xBotRight, r.yBotRight),
     Point(r.xTopRight, r.yTopRight), Point(r.xBotLeft, r.yBotLeft)]
  }

  /** Reads a row back from the positional corner list. */
  function RecordOf(c: seq<Point>): Record
    requires |c| == 4
  {
    Record(c[0].x, c[0].y, c[2].x, c[2].y, c[3].x, c[3].y, c[1].x, c[1].y)
  }

  /** The positional order loses nothing: each position holds exactly one named corner. */
  lemma CornerOrderRoundTrip(r: Record, c: seq<Point>)
    requires |c| == 4
    ensures RecordOf(CornerOrder(r)) == r
    ensures CornerOrder(RecordOf(c)) == c
  {
  }

  /** Python 3's `round` on a number: to the nearest integer, halves to the even neighbour. */
  function Round(v: real): (n: int)
    ensures v - 0.5 <= n as real <= v + 0.5
    ensures n as real == v + 0.5 ==> n % 2 == 0
    ensures n as real == v - 0.5 ==> n % 2 == 0
  {
    var f := v.Floor;
    var d := v - f as real;
    if d < 0.5 then f
    else if d > 0.5 then f + 1
    else if f % 2 == 0 then f
    else f + 1
  }

  /** A whole number rounds to itself. */
  lemma RoundWhole(n: int)
    ensures Round(n as real) == n
  {
  }

  /**
   * The y of the top edge line at abscissa `x`: the line through the
   * top-left and top-right corners of a row, evaluated as
   * (x - x_top_left) * (y_top_right - y_top_left) / (x_top_right - x_top_left) + y_top_left.
   */
  function TopEdgeY(r: Record, x: real): real
    requires r.xTopRight != r.xTopLeft
  {
    (x - r.xTopLeft) * (r.yTopRight - r.yTopLeft) / (r.xTopRight - r.xTopLeft) + r.yTopLeft
  }

  /** The top-edge line passes through both top corners, so evaluating it at x_top_right gives y_top_right back. */
  lemma TopEdgeThroughCorners(r: Record)
    requires r.xTopRight != r.xTopLeft
    ensures TopEdgeY(r, r.xTopLeft) == r.yTopLeft
    ensures TopEdgeY(r, r.xTopRight) == r.yTopRight
  {
    var dx := r.xTopRight - r.xTopLeft;
    var dy := r.yTopRight - r.yTopLeft;
    assert dx * dy / dx == dy;
  }
}
