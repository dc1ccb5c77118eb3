/**
 * Temporal stabilisation of the corner table, run once over the whole
 * sequence of detected frames before the replay pass:
 *
 *  1. frames whose top-left distance to the centre jumps by more than 5
 *     from the previous row are candidates ("lost side");
 *  2. a candidate is unstable on the left (right) when its top-left
 *     (top-right) x moved by more than 9;
 *  3. the top-right and bottom-right y are put back on the top edge line;
 *  4. one pass over the rows rebuilds the x of the unstable side over a
 *     20-row window from the other side, the side's height and the angle,
 *     and falls back to the same rebuild for the single row whose
 *     width-to-height ratio drifted from 6.6;
 *  5. the four y columns are smoothed.
 *
 * Distances, heights and the angle come from square roots and arc cosines;
 * they are given as columns.
 */
module Stabilization {
  import opened Base
  import opened Geometry
  import opened SeriesSmoothing

  /** Expected width-to-height ratio of the banner. */
  const Ratio: real := 6.6
  /** A jump of the top-left distance larger than this makes a frame a candidate. */
  const JumpThreshold: real := 5.0
  /** A candidate's side is unstable when its top x moved by more than this. */
  const MoveThreshold: real := 9.0
  /** A ratio further than this from `Ratio` has drifted. */
  const RatioTolerance: real := 0.05
  /** The drift fallback rebuilds the left side only while the top-right x is at most this. */
  const RightLimit: real := 1278.0
  /** The drift fallback rebuilds the right side only while the top-left x is at least this. */
  const LeftLimit: real := 2.0
  /** The rebuild window of row x is [x - HalfWindow, x + HalfWindow). */
  const HalfWindow: int := 10

  /** The measured columns of the table, one entry per row. */
  datatype Measures = Measures(
    distTopLeft: seq<real>,
    leftHeight: seq<real>,
    rightHeight: seq<real>,
    angle: seq<real>)

  predicate MeasuresFit(m: Measures, n: nat)
  {
    |m.distTopLeft| == n && |m.leftHeight| == n && |m.rightHeight| == n && |m.angle| == n
  }

  // ---------------------------------------------------------------------
  // Candidates and unstable sides
  // ---------------------------------------------------------------------

  /** Row i's top-left distance jumped from row i - 1's; row 0 is its own baseline. */
  predicate Lost(dist: seq<real>, i: int)
    requires 0 <= i < |dist|
  {
    1 <= i && Abs(dist[i] - dist[i - 1]) > JumpThreshold
  }

  /** Row i's column `c` moved from row i - 1's by more than the move threshold. */
  predicate Moved(rows: seq<Record>, c: Coord, i: int)
    requires 0 <= i < |rows|
  {
    1 <= i && Abs(Get(rows[i], c) - Get(rows[i - 1], c)) > MoveThreshold
  }

  /** Row i is unstable on the side whose top x is column `c`. */
  predicate Unstable(rows: seq<Record>, dist: seq<real>, c: Coord, i: int)
    requires |rows| == |dist| && 0 <= i < |rows|
  {
    Lost(dist, i) && Moved(rows, c, i)
  }

  /**
   * Collects, in increasing order, the rows whose distance jumped; the
   * comparison baseline starts at row 0, so row 0 is never collected.
   */
  method LostSide(dist: seq<real>) returns (lost: seq<nat>)
    requires |dist| > 0
    ensures forall i :: 0 <= i < |dist| ==> (i in lost <==> Lost(dist, i))
    ensures forall k :: 0 <= k < |lost| ==> 1 <= lost[k] < |dist|
    ensures forall k, l :: 0 <= k < l < |lost| ==> lost[k] < lost[l]
  {
    lost := [];
    var prev := dist[0];
    for i := 0 to |dist|
      invariant prev == dist[if i == 0 then 0 else i - 1]
      invariant forall j :: 0 <= j < |dist| ==> (j in lost <==> j < i && Lost(dist, j))
      invariant forall k :: 0 <= k < |lost| ==> 1 <= lost[k] < i
      invariant forall k, l :: 0 <= k < l < |lost| ==> lost[k] < lost[l]
    {
      var diff := dist[i] - prev;
      if Abs(diff) > JumpThreshold {
        lost := lost + [i];
      }
      prev := dist[i];
    }
  }

  /** Starts from all-clear flags and raises, for each listed row, the flag of each side that moved. */
  method UnstableSides(rows: seq<Record>, lost: seq<nat>) returns (left: seq<bool>, right: seq<bool>)
    requires forall k :: 0 <= k < |lost| ==> 1 <= lost[k] < |rows|
    ensures |left| == |rows| && |right| == |rows|
    ensures forall i :: 0 <= i < |rows| ==> (left[i] <==> i in lost && Moved(rows, XTopLeft, i))
    ensures forall i :: 0 <= i < |rows| ==> (right[i] <==> i in lost && Moved(rows, XTopRight, i))
  {
    left := seq(|rows|, _ => false);
    right := seq(|rows|, _ => false);
    for k := 0 to |lost|
      invariant |left| == |rows| && |right| == |rows|
      invariant forall i :: 0 <= i < |rows| ==> (left[i] <==> i in lost[..k] && Moved(rows, XTopLeft, i))
      invariant forall i :: 0 <= i < |rows| ==> (right[i] <==> i in lost[..k] && Moved(rows, XTopRight, i))
    {
      assert lost[..k + 1] == lost[..k] + [lost[k]];
      var i := lost[k];
      if Abs(rows[i].xTopLeft - rows[i - 1].xTopLeft) > MoveThreshold {
        left := left[i := true];
      }
      if Abs(rows[i].xTopRight - rows[i - 1].xTopRight) > MoveThreshold {
        right := right[i := true];
      }
    }
    assert lost[..|lost|] == lost;
  }

  /**
   * The top width over the left height is off the expected ratio. At zero
   * height the quotient is infinite when the width is not zero (drifted)
   * and not a number when it is (a comparison with it is false).
   */
  predicate Drifted(r: Record, leftHeight: real)
  {
    var topWidth := Abs(r.xTopLeft - r.xTopRight);
    if leftHeight == 0.0 then topWidth != 0.0
    else Abs(topWidth / leftHeight - Ratio) > RatioTolerance
  }

  /** The per-row inputs of the correction pass. */
  datatype Columns = Columns(
    leftHeight: real, rightHeight: real, angle: real,
    unstableLeft: bool, unstableRight: bool, drift: bool)

  /** The per-row inputs computed from the table as it stood before the pass. */
  function ColumnsOf(rows: seq<Record>, m: Measures): (cols: seq<Columns>)
    requires MeasuresFit(m, |rows|)
    ensures |cols| == |rows|
    ensures |rows| > 0 ==> !cols[0].unstableLeft && !cols[0].unstableRight
  {
    seq(|rows|, i requires 0 <= i < |rows| =>
      Columns(m.leftHeight[i], m.rightHeight[i], m.angle[i],
              Unstable(rows, m.distTopLeft, XTopLeft, i),
              Unstable(rows, m.distTopLeft, XTopRight, i),
              Drifted(rows[i], m.leftHeight[i])))
  }

  // ---------------------------------------------------------------------
  // Top-edge rectification
  // ---------------------------------------------------------------------

  /** Every row's top edge has a slope. */
  predicate TopEdgesSloped(rows: seq<Record>)
  {
    forall i :: 0 <= i < |rows| ==> rows[i].xTopRight != rows[i].xTopLeft
  }

  /**
   * Puts y_top_right on the top edge line at x_top_right and y_bot_right
   * one left height below that line at x_bot_right. Since the line runs
   * through the top-right corner, only y_bot_right can change.
   */
  function Rectified(r: Record, leftHeight: real): (r': Record)
    requires r.xTopRight != r.xTopLeft
    ensures r'.(yBotRight := r.yBotRight) == r
  {
    TopEdgeThroughCorners(r);
    r.(yTopRight := TopEdgeY(r, r.xTopRight), yBotRight := TopEdgeY(r, r.xBotRight) + leftHeight)
  }

  /** The rectified bottom-right corner lies on the top edge line shifted down by the left height. */
  lemma RectifiedOnShiftedEdge(r: Record, leftHeight: real)
    requires r.xTopRight != r.xTopLeft
    ensures var r' := Rectified(r, leftHeight);
            (r'.yBotRight - leftHeight - r.yTopLeft) * (r.xTopRight - r.xTopLeft)
            == (r.xBotRight - r.xTopLeft) * (r.yTopRight - r.yTopLeft)
  {
    var dx := r.xTopRight - r.xTopLeft;
    var num := (r.xBotRight - r.xTopLeft) * (r.yTopRight - r.yTopLeft);
    assert num / dx * dx == num;
  }

  /** Rectifies every row with its own left height. */
  function RectifyAll(rows: seq<Record>, leftHeight: seq<real>): (rows': seq<Record>)
    requires |leftHeight| == |rows| && TopEdgesSloped(rows)
    ensures |rows'| == |rows|
    ensures forall c :: c != YBotRight ==> Column(rows', c) == Column(rows, c)
  {
    var r' := seq(|rows|, i requires 0 <= i < |rows| => Rectified(rows[i], leftHeight[i]));
    assert forall c :: c != YBotRight ==> Column(r', c) == Column(rows, c) by {
      forall c | c != YBotRight ensures Column(r', c) == Column(rows, c) {
        assert forall i :: 0 <= i < |rows| ==> Get(r'[i], c) == Get(rows[i], c);
      }
    }
    r'
  }

  // ---------------------------------------------------------------------
  // The correction pass
  // ---------------------------------------------------------------------

  /** Width over height per degree of angle: 6.6 * angle / 90. */
  function Slope(angle: real): real
  {
    Ratio * angle / 90.0
  }

  /** Row r with its right corners rebuilt from its left corners. */
  function RightFromLeft(r: Record, c: Columns): Record
  {
    r.(xTopRight := r.xTopLeft + c.leftHeight * Slope(c.angle),
       xBotRight := r.xBotLeft + c.leftHeight * Slope(c.angle))
  }

  /** Row r with its left corners rebuilt from its right corners. */
  function LeftFromRight(r: Record, c: Columns): Record
  {
    r.(xTopLeft := r.xTopRight - c.rightHeight * Slope(c.angle),
       xBotLeft := r.xBotRight - c.rightHeight * Slope(c.angle))
  }

  /** Row p lies in the rebuild window of row x. */
  predicate InWindow(x: int, p: int)
  {
    x - HalfWindow <= p < x + HalfWindow
  }

  /** Every flagged row's window lies inside the table. */
  predicate WindowsInRange(cols: seq<Columns>)
  {
    forall x :: 0 <= x < |cols| && (cols[x].unstableLeft || cols[x].unstableRight) ==>
      HalfWindow <= x && x + HalfWindow <= |cols|
  }

  /** The right corners rebuilt over the window of row x. */
  function RewriteRight(rows: seq<Record>, cols: seq<Columns>, x: int): (rows': seq<Record>)
    requires |rows| == |cols|
    ensures |rows'| == |rows|
  {
    seq(|rows|, p requires 0 <= p < |rows| => if InWindow(x, p) then RightFromLeft(rows[p], cols[p]) else rows[p])
  }

  /** The left corners rebuilt over the window of row x. */
  function RewriteLeft(rows: seq<Record>, cols: seq<Columns>, x: int): (rows': seq<Record>)
    requires |rows| == |cols|
    ensures |rows'| == |rows|
  {
    seq(|rows|, p requires 0 <= p < |rows| => if InWindow(x, p) then LeftFromRight(rows[p], cols[p]) else rows[p])
  }

  /** Which side was flagged most recently. */
  datatype Side = NoSide | LeftSide | RightSide

  /** The table and the most recently flagged side, between two rows of the pass. */
  datatype PassState = PassState(rows: seq<Record>, latest: Side)

  /**
   * The ratio-drift fallback on row x: when the row drifted, it rebuilds the
   * most recently flagged side of row x from the anchors given, provided the
   * anchor is within the bounds 1278 (top-right x) or 2 (top-left x).
   */
  function Fallback(rows: seq<Record>, x: int, c: Columns, latest: Side,
                    topLeft: real, botLeft: real, topRight: real, botRight: real): (rows': seq<Record>)
    requires 0 <= x < |rows|
    ensures |rows'| == |rows|
  {
    var s := Slope(c.angle);
    if c.drift && latest == LeftSide && topRight <= RightLimit then
      rows[x := rows[x].(xTopLeft := topRight - c.rightHeight * s, xBotLeft := botRight - c.rightHeight * s)]
    else if c.drift && latest == RightSide && topLeft >= LeftLimit then
      rows[x := rows[x].(xTopRight := topLeft + c.leftHeight * s, xBotRight := botLeft + c.leftHeight * s)]
    else
      rows
  }

  /**
   * One row x of the pass. The anchors start as the row's own corners; the
   * right rebuild leaves the left anchors holding row x + 9's left corners,
   * and the left rebuild leaves the right anchors holding row x + 9's right
   * corners, which the drift fallback then uses.
   */
  function Step(st: PassState, cols: seq<Columns>, x: int): (st': PassState)
    requires |st.rows| == |cols| && 0 <= x < |cols| && WindowsInRange(cols)
    ensures |st'.rows| == |st.rows|
  {
    var c := cols[x];
    var row := st.rows[x];
    var afterRight := if c.unstableRight then RewriteRight(st.rows, cols, x) else st.rows;
    var last := afterRight[if c.unstableRight || c.unstableLeft then x + HalfWindow - 1 else x];
    var tl := if c.unstableRight then last.xTopLeft else row.xTopLeft;
    var bl := if c.unstableRight then last.xBotLeft else row.xBotLeft;
    var tr := if c.unstableLeft then last.xTopRight else row.xTopRight;
    var br := if c.unstableLeft then last.xBotRight else row.xBotRight;
    var afterLeft := if c.unstableLeft then RewriteLeft(afterRight, cols, x) else afterRight;
    var latest := if c.unstableLeft then LeftSide else if c.unstableRight then RightSide else st.latest;
    PassState(Fallback(afterLeft, x, c, latest, tl, bl, tr, br), latest)
  }

  /** The state after rows 0 .. m - 1 of the pass. */
  function PassUpTo(start: seq<Record>, cols: seq<Columns>, m: nat): (st: PassState)
    requires |start| == |cols| && m <= |cols| && WindowsInRange(cols)
    ensures |st.rows| == |start|
  {
    if m == 0 then PassState(start, NoSide)
    else Step(PassUpTo(start, cols, m - 1), cols, m - 1)
  }

  /** Rebuilds the right corners over the window of row x, one row at a time. */
  method RebuildRightWindow(rows: seq<Record>, cols: seq<Columns>, x: int) returns (rows': seq<Record>)
    requires |rows| == |cols| && HalfWindow <= x && x + HalfWindow <= |rows|
    ensures rows' == RewriteRight(rows, cols, x)
  {
    rows' := rows;
    for p := x - HalfWindow to x + HalfWindow
      invariant |rows'| == |rows|
      invariant forall q :: 0 <= q < |rows| ==> rows'[q] == if x - HalfWindow <= q < p then RightFromLeft(rows[q], cols[q]) else rows[q]
    {
      var tmpTopRight := rows'[p].xTopLeft + cols[p].leftHeight * Slope(cols[p].angle);
      var tmpBotRight := rows'[p].xBotLeft + cols[p].leftHeight * Slope(cols[p].angle);
      rows' := rows'[p := rows'[p].(xTopRight := tmpTopRight, xBotRight := tmpBotRight)];
    }
  }

  /** Rebuilds the left corners over the window of row x, one row at a time. */
  method RebuildLeftWindow(rows: seq<Record>, cols: seq<Columns>, x: int) returns (rows': seq<Record>)
    requires |rows| == |cols| && HalfWindow <= x && x + HalfWindow <= |rows|
    ensures rows' == RewriteLeft(rows, cols, x)
  {
    rows' := rows;
    for p := x - HalfWindow to x + HalfWindow
      invariant |rows'| == |rows|
      invariant forall q :: 0 <= q < |rows| ==> rows'[q] == if x - HalfWindow <= q < p then LeftFromRight(rows[q], cols[q]) else rows[q]
    {
      var tmpTopLeft := rows'[p].xTopRight - cols[p].rightHeight * Slope(cols[p].angle);
      var tmpBotLeft := rows'[p].xBotRight - cols[p].rightHeight * Slope(cols[p].angle);
      rows' := rows'[p := rows'[p].(xTopLeft := tmpTopLeft, xBotLeft := tmpBotLeft)];
    }
  }

  /** One row x of the correction pass: the rebuilds its flags ask for, then the drift fallback. */
  method PassRow(rows: seq<Record>, latest: Side, cols: seq<Columns>, x: int) returns (rows': seq<Record>, latest': Side)
    requires |rows| == |cols| && 0 <= x < |cols| && WindowsInRange(cols)
    ensures PassState(rows', latest') == Step(PassState(rows, latest), cols, x)
  {
    rows', latest' := rows, latest;
    var row := rows[x];
    var topLeft, botLeft, topRight, botRight := row.xTopLeft, row.xBotLeft, row.xTopRight, row.xBotRight;
    var s := Slope(cols[x].angle);
    if cols[x].unstableRight {
      latest' := RightSide;
      rows' := RebuildRightWindow(rows', cols, x);
      topLeft, botLeft := rows'[x + HalfWindow - 1].xTopLeft, rows'[x + HalfWindow - 1].xBotLeft;
    }
    if cols[x].unstableLeft {
      latest' := LeftSide;
      topRight, botRight := rows'[x + HalfWindow - 1].xTopRight, rows'[x + HalfWindow - 1].xBotRight;
      rows' := RebuildLeftWindow(rows', cols, x);
    }
    ghost var afterLeft := rows';
    if cols[x].drift {
      if latest' == LeftSide && topRight <= RightLimit {
        rows' := rows'[x := rows'[x].(xTopLeft := topRight - cols[x].rightHeight * s,
                                      xBotLeft := botRight - cols[x].rightHeight * s)];
      }
      if latest' == RightSide && topLeft >= LeftLimit {
        rows' := rows'[x := rows'[x].(xTopRight := topLeft + cols[x].leftHeight * s,
                                      xBotRight := botLeft + cols[x].leftHeight * s)];
      }
    }
    ghost var expected := Fallback(afterLeft, x, cols[x], latest', topLeft, botLeft, topRight, botRight);
    assert expected[x] == rows'[x];
  }

  /** The correction pass over every row in order. */
  method CorrectionPass(start: seq<Record>, cols: seq<Columns>) returns (rows: seq<Record>, latest: Side)
    requires |start| == |cols| && WindowsInRange(cols)
    ensures PassState(rows, latest) == PassUpTo(start, cols, |cols|)
  {
    rows := start;
    latest := NoSide;
    var x := 0;
    while x < |cols|
      invariant 0 <= x <= |cols| && |rows| == |cols|
      invariant PassState(rows, latest) == PassUpTo(start, cols, x)
    {
      rows, latest := PassRow(rows, latest, cols, x);
      x := x + 1;
    }
  }

  // ---------------------------------------------------------------------
  // What one row of the pass does
  // ---------------------------------------------------------------------

  /** Two rows agree on their four y coordinates. */
  predicate SameY(a: Record, b: Record)
  {
    a.yTopLeft == b.yTopLeft && a.yTopRight == b.yTopRight && a.yBotLeft == b.yBotLeft && a.yBotRight == b.yBotRight
  }

  /** Two rows agree on the x of their left corners. */
  predicate SameLeftX(a: Record, b: Record)
  {
    a.xTopLeft == b.xTopLeft && a.xBotLeft == b.xBotLeft
  }

  /** Two rows agree on the x of their right corners. */
  predicate SameRightX(a: Record, b: Record)
  {
    a.xTopRight == b.xTopRight && a.xBotRight == b.xBotRight
  }

  /** A row of the pass rewrites x coordinates only. */
  lemma StepKeepsY(st: PassState, cols: seq<Columns>, x: int)
    requires |st.rows| == |cols| && 0 <= x < |cols| && WindowsInRange(cols)
    ensures forall p :: 0 <= p < |cols| ==> SameY(Step(st, cols, x).rows[p], st.rows[p])
  {
  }

  /** The whole pass rewrites x coordinates only. */
  lemma {:induction false} PassKeepsY(start: seq<Record>, cols: seq<Columns>, m: nat)
    requires |start| == |cols| && m <= |cols| && WindowsInRange(cols)
    ensures forall p :: 0 <= p < |start| ==> SameY(PassUpTo(start, cols, m).rows[p], start[p])
  {
    if m > 0 {
      PassKeepsY(start, cols, m - 1);
      StepKeepsY(PassUpTo(start, cols, m - 1), cols, m - 1);
    }
  }

  /**
   * A row flagged on the right only: the latest side becomes right, rows
   * outside its window are untouched, no left corner moves anywhere, and
   * every other row of the window gets its right corners rebuilt from its
   * left corners.
   */
  lemma StepRightOnly(st: PassState, cols: seq<Columns>, x: int)
    requires |st.rows| == |cols| && 0 <= x < |cols| && WindowsInRange(cols)
    requires cols[x].unstableRight && !cols[x].unstableLeft
    ensures var st' := Step(st, cols, x);
            && st'.latest == RightSide
            && (forall p :: 0 <= p < |cols| && !InWindow(x, p) ==> st'.rows[p] == st.rows[p])
            && (forall p :: 0 <= p < |cols| ==> SameLeftX(st'.rows[p], st.rows[p]))
            && (forall p :: 0 <= p < |cols| && InWindow(x, p) && p != x ==> st'.rows[p] == RightFromLeft(st.rows[p], cols[p]))
  {
  }

  /** The mirror image for a row flagged on the left only. */
  lemma StepLeftOnly(st: PassState, cols: seq<Columns>, x: int)
    requires |st.rows| == |cols| && 0 <= x < |cols| && WindowsInRange(cols)
    requires cols[x].unstableLeft && !cols[x].unstableRight
    ensures var st' := Step(st, cols, x);
            && st'.latest == LeftSide
            && (forall p :: 0 <= p < |cols| && !InWindow(x, p) ==> st'.rows[p] == st.rows[p])
            && (forall p :: 0 <= p < |cols| ==> SameRightX(st'.rows[p], st.rows[p]))
            && (forall p :: 0 <= p < |cols| && InWindow(x, p) && p != x ==> st'.rows[p] == LeftFromRight(st.rows[p], cols[p]))
  {
  }

  /**
   * A row flagged on both sides: the right rebuild runs first and the left
   * rebuild then reads the rebuilt right corners, so the latest side is
   * left.
   */
  lemma StepBothSides(st: PassState, cols: seq<Columns>, x: int)
    requires |st.rows| == |cols| && 0 <= x < |cols| && WindowsInRange(cols)
    requires cols[x].unstableLeft && cols[x].unstableRight
    ensures var st' := Step(st, cols, x);
            && st'.latest == LeftSide
            && (forall p :: 0 <= p < |cols| && !InWindow(x, p) ==> st'.rows[p] == st.rows[p])
            && (forall p :: 0 <= p < |cols| && InWindow(x, p) && p != x ==>
                  st'.rows[p] == LeftFromRight(RightFromLeft(st.rows[p], cols[p]), cols[p]))
  {
  }

  /**
   * An unflagged row touches no other row and keeps the latest side. When it
   * drifted, it gets the window rebuild of the most recently flagged side
   * from its own corners, if the anchor is within bounds; otherwise it is
   * unchanged.
   */
  lemma StepUnflagged(st: PassState, cols: seq<Columns>, x: int)
    requires |st.rows| == |cols| && 0 <= x < |cols| && WindowsInRange(cols)
    requires !cols[x].unstableLeft && !cols[x].unstableRight
    ensures var st' := Step(st, cols, x);
            var row := st.rows[x];
            && st'.latest == st.latest
            && (forall p :: 0 <= p < |cols| && p != x ==> st'.rows[p] == st.rows[p])
            && st'.rows[x] == (if cols[x].drift && st.latest == LeftSide && row.xTopRight <= RightLimit then LeftFromRight(row, cols[x])
                               else if cols[x].drift && st.latest == RightSide && row.xTopLeft >= LeftLimit then RightFromLeft(row, cols[x])
                               else row)
  {
  }

  /**
   * On a flagged row that also drifted, the fallback does not rebuild the
   * row from its own corners: its anchors are those of row x + 9, the last
   * row its window loop read. Flagged on the left only, row x's left x
   * become row x + 9's right x minus row x's right height times its slope.
   */
  lemma FallbackUsesShadowedLeft(st: PassState, cols: seq<Columns>, x: int)
    requires |st.rows| == |cols| && 0 <= x < |cols| && WindowsInRange(cols)
    requires cols[x].unstableLeft && !cols[x].unstableRight && cols[x].drift
    requires st.rows[x + HalfWindow - 1].xTopRight <= RightLimit
    ensures var st' := Step(st, cols, x);
            var anchor := st.rows[x + HalfWindow - 1];
            var s := Slope(cols[x].angle);
            && st'.rows[x].xTopLeft == anchor.xTopRight - cols[x].rightHeight * s
            && st'.rows[x].xBotLeft == anchor.xBotRight - cols[x].rightHeight * s
  {
  }

  /** The mirror image: flagged on the right only, row x's right x come from row x + 9's left x. */
  lemma FallbackUsesShadowedRight(st: PassState, cols: seq<Columns>, x: int)
    requires |st.rows| == |cols| && 0 <= x < |cols| && WindowsInRange(cols)
    requires cols[x].unstableRight && !cols[x].unstableLeft && cols[x].drift
    requires st.rows[x + HalfWindow - 1].xTopLeft >= LeftLimit
    ensures var st' := Step(st, cols, x);
            var anchor := st.rows[x + HalfWindow - 1];
            var s := Slope(cols[x].angle);
            && st'.rows[x].xTopRight == anchor.xTopLeft + cols[x].leftHeight * s
            && st'.rows[x].xBotRight == anchor.xBotLeft + cols[x].leftHeight * s
  {
  }

  /** The side flagged most recently among rows 0 .. m - 1; within one row, left counts as later. */
  function MostRecent(cols: seq<Columns>, m: nat): Side
    requires m <= |cols|
  {
    if m == 0 then NoSide
    else if cols[m - 1].unstableLeft then LeftSide
    else if cols[m - 1].unstableRight then RightSide
    else MostRecent(cols, m - 1)
  }

  /** The latest side tracked by the pass is the side of the most recently flagged row. */
  lemma {:induction false} LatestIsMostRecent(start: seq<Record>, cols: seq<Columns>, m: nat)
    requires |start| == |cols| && m <= |cols| && WindowsInRange(cols)
    ensures PassUpTo(start, cols, m).latest == MostRecent(cols, m)
  {
    if m > 0 {
      LatestIsMostRecent(start, cols, m - 1);
    }
  }

  // ---------------------------------------------------------------------
  // The whole stabilisation
  // ---------------------------------------------------------------------

  /** The filter keeps the length of every series. */
  ghost predicate FilterKeepsLength(savgol: Filter, poly: nat)
  {
    forall s :: KeepsLength(savgol, s, poly)
  }

  /**
   * Smooths the four y columns of `rows`, in the order y_top_left,
   * y_top_right, y_bot_left, y_bot_right; a column that no window smooths
   * would be replaced by an empty series, which fails.
   */
  function SmoothColumns(rows: seq<Record>, minWindow: nat, maxWindow: nat, poly: nat, threshold: real, savgol: Filter)
    : Result<seq<Record>>
    requires FilterKeepsLength(savgol, poly)
  {
    var a := Smoothed(Column(rows, YTopLeft), minWindow, maxWindow, poly, threshold, savgol);
    var b := Smoothed(Column(rows, YTopRight), minWindow, maxWindow, poly, threshold, savgol);
    var c := Smoothed(Column(rows, YBotLeft), minWindow, maxWindow, poly, threshold, savgol);
    var d := Smoothed(Column(rows, YBotRight), minWindow, maxWindow, poly, threshold, savgol);
    if a == [] || b == [] || c == [] || d == [] then Err(NoSmoothingWindow)
    else
      SmoothedAccepted(Column(rows, YTopLeft), minWindow, maxWindow, poly, threshold, savgol);
      SmoothedAccepted(Column(rows, YTopRight), minWindow, maxWindow, poly, threshold, savgol);
      SmoothedAccepted(Column(rows, YBotLeft), minWindow, maxWindow, poly, threshold, savgol);
      SmoothedAccepted(Column(rows, YBotRight), minWindow, maxWindow, poly, threshold, savgol);
      var r1 := WithColumn(rows, YTopLeft, a);
      var r2 := WithColumn(r1, YTopRight, b);
      var r3 := WithColumn(r2, YBotLeft, c);
      Ok(WithColumn(r3, YBotRight, d))
  }

  /**
   * The corner table after stabilisation, or the first failure: an empty
   * table has no row 0; a vertical top edge has no line; a flagged row's
   * window must lie inside the table; every tried window must suit the
   * filter; every y column must find an accepted window.
   */
  function Stabilize(rows: seq<Record>, m: Measures, minWindow: nat, maxWindow: nat, poly: nat, threshold: real, savgol: Filter)
    : Result<seq<Record>>
    requires MeasuresFit(m, |rows|) && FilterKeepsLength(savgol, poly)
  {
    if |rows| == 0 then Err(MissingRow)
    else if !TopEdgesSloped(rows) then Err(DegenerateTopEdge)
    else
      var cols := ColumnsOf(rows, m);
      if !WindowsInRange(cols) then Err(WindowOutOfRange)
      else if !WindowsFit(|rows|, minWindow, maxWindow, poly) then Err(FilterWindow)
      else SmoothColumns(PassUpTo(RectifyAll(rows, m.leftHeight), cols, |cols|).rows, minWindow, maxWindow, poly, threshold, savgol)
  }

  /**
   * The stabilisation as the table is worked through: the jump and move
   * flags, the top-edge rectification, the correction pass, and the four
   * column smoothings, each failing where `Stabilize` says.
   */
  method StabilizeTable(rows: seq<Record>, m: Measures, minWindow: nat, maxWindow: nat, poly: nat, threshold: real, savgol: Filter)
    returns (res: Result<seq<Record>>)
    requires MeasuresFit(m, |rows|) && FilterKeepsLength(savgol, poly)
    ensures res == Stabilize(rows, m, minWindow, maxWindow, poly, threshold, savgol)
  {
    var n := |rows|;
    if n == 0 {
      return Err(MissingRow);
    }
    var lost := LostSide(m.distTopLeft);
    var unstableLeft, unstableRight := UnstableSides(rows, lost);
    var cols := seq(n, i requires 0 <= i < n =>
      Columns(m.leftHeight[i], m.rightHeight[i], m.angle[i], unstableLeft[i], unstableRight[i],
              Drifted(rows[i], m.leftHeight[i])));
    assert cols == ColumnsOf(rows, m);
    if !TopEdgesSloped(rows) {
      return Err(DegenerateTopEdge);
    }
    var rect := RectifyAll(rows, m.leftHeight);
    if !WindowsInRange(cols) {
      return Err(WindowOutOfRange);
    }
    var passed, _ := CorrectionPass(rect, cols);
    if !WindowsFit(n, minWindow, maxWindow, poly) {
      return Err(FilterWindow);
    }
    assert Stabilize(rows, m, minWindow, maxWindow, poly, threshold, savgol)
           == SmoothColumns(passed, minWindow, maxWindow, poly, threshold, savgol);
    var a := SmoothSeries(Column(passed, YTopLeft), minWindow, maxWindow, poly, threshold, savgol);
    if a == [] {
      return Err(NoSmoothingWindow);
    }
    var b := SmoothSeries(Column(passed, YTopRight), minWindow, maxWindow, poly, threshold, savgol);
    if b == [] {
      return Err(NoSmoothingWindow);
    }
    var c := SmoothSeries(Column(passed, YBotLeft), minWindow, maxWindow, poly, threshold, savgol);
    if c == [] {
      return Err(NoSmoothingWindow);
    }
    var d := SmoothSeries(Column(passed, YBotRight), minWindow, maxWindow, poly, threshold, savgol);
    if d == [] {
      return Err(NoSmoothingWindow);
    }
    res := Ok(WithColumn(WithColumn(WithColumn(WithColumn(passed, YTopLeft, a), YTopRight, b), YBotLeft, c), YBotRight, d));
  }

  /** Every row of `out` has the x coordinates of the matching row of `rows`. */
  predicate XKept(out: seq<Record>, rows: seq<Record>)
    requires |out| == |rows|
  {
    forall i :: 0 <= i < |rows| ==> SameLeftX(out[i], rows[i]) && SameRightX(out[i], rows[i])
  }

  /** Every y coordinate of `out` lies strictly within `threshold` of the same coordinate of `rows`. */
  predicate YClose(out: seq<Record>, rows: seq<Record>, threshold: real)
    requires |out| == |rows|
  {
    forall i :: 0 <= i < |rows| ==>
      && Abs(out[i].yTopLeft - rows[i].yTopLeft) < threshold
      && Abs(out[i].yTopRight - rows[i].yTopRight) < threshold
      && Abs(out[i].yBotLeft - rows[i].yBotLeft) < threshold
      && Abs(out[i].yBotRight - rows[i].yBotRight) < threshold
  }

  /**
   * Smoothing the y columns keeps the number of rows and every x
   * coordinate, and moves every y coordinate by less than the threshold.
   */
  lemma SmoothColumnsMeaning(rows: seq<Record>, minWindow: nat, maxWindow: nat, poly: nat, threshold: real, savgol: Filter)
    requires FilterKeepsLength(savgol, poly)
    requires SmoothColumns(rows, minWindow, maxWindow, poly, threshold, savgol).Ok?
    ensures var out := SmoothColumns(rows, minWindow, maxWindow, poly, threshold, savgol).value;
            |out| == |rows| && XKept(out, rows) && YClose(out, rows, threshold)
  {
    var a := Smoothed(Column(rows, YTopLeft), minWindow, maxWindow, poly, threshold, savgol);
    var b := Smoothed(Column(rows, YTopRight), minWindow, maxWindow, poly, threshold, savgol);
    var c := Smoothed(Column(rows, YBotLeft), minWindow, maxWindow, poly, threshold, savgol);
    var d := Smoothed(Column(rows, YBotRight), minWindow, maxWindow, poly, threshold, savgol);
    SmoothedAccepted(Column(rows, YTopLeft), minWindow, maxWindow, poly, threshold, savgol);
    SmoothedAccepted(Column(rows, YTopRight), minWindow, maxWindow, poly, threshold, savgol);
    SmoothedAccepted(Column(rows, YBotLeft), minWindow, maxWindow, poly, threshold, savgol);
    SmoothedAccepted(Column(rows, YBotRight), minWindow, maxWindow, poly, threshold, savgol);
    var r1 := WithColumn(rows, YTopLeft, a);
    var r2 := WithColumn(r1, YTopRight, b);
    var r3 := WithColumn(r2, YBotLeft, c);
    var out := WithColumn(r3, YBotRight, d);
    assert SmoothColumns(rows, minWindow, maxWindow, poly, threshold, savgol).value == out;
    ColumnsToRows(out, rows, threshold);
  }

  /** Rows whose x columns are those of `rows` and whose y columns deviate by less than the threshold. */
  lemma ColumnsToRows(out: seq<Record>, rows: seq<Record>, threshold: real)
    requires |out| == |rows|
    requires Column(out, XTopLeft) == Column(rows, XTopLeft) && Column(out, XBotLeft) == Column(rows, XBotLeft)
    requires Column(out, XTopRight) == Column(rows, XTopRight) && Column(out, XBotRight) == Column(rows, XBotRight)
    requires WithinDeviation(Column(out, YTopLeft), Column(rows, YTopLeft), threshold)
    requires WithinDeviation(Column(out, YTopRight), Column(rows, YTopRight), threshold)
    requires WithinDeviation(Column(out, YBotLeft), Column(rows, YBotLeft), threshold)
    requires WithinDeviation(Column(out, YBotRight), Column(rows, YBotRight), threshold)
    ensures XKept(out, rows) && YClose(out, rows, threshold)
  {
    forall i | 0 <= i < |rows|
      ensures SameLeftX(out[i], rows[i]) && SameRightX(out[i], rows[i])
      ensures Abs(out[i].yTopLeft - rows[i].yTopLeft) < threshold
      ensures Abs(out[i].yTopRight - rows[i].yTopRight) < threshold
      ensures Abs(out[i].yBotLeft - rows[i].yBotLeft) < threshold
      ensures Abs(out[i].yBotRight - rows[i].yBotRight) < threshold
    {
      forall c: Coord ensures Column(out, c)[i] == Get(out[i], c) && Column(rows, c)[i] == Get(rows[i], c) {
      }
    }
  }

  /**
   * Every y coordinate of `out` lies strictly within `threshold` of the
   * same coordinate of `rows`; y_bot_right is compared with its rectified
   * position, one left height below the top edge.
   */
  predicate YWithin(out: seq<Record>, rows: seq<Record>, leftHeight: seq<real>, threshold: real)
    requires |out| == |rows| && |leftHeight| == |rows| && TopEdgesSloped(rows)
  {
    forall i :: 0 <= i < |rows| ==>
      && Abs(out[i].yTopLeft - rows[i].yTopLeft) < threshold
      && Abs(out[i].yTopRight - rows[i].yTopRight) < threshold
      && Abs(out[i].yBotLeft - rows[i].yBotLeft) < threshold
      && Abs(out[i].yBotRight - Rectified(rows[i], leftHeight[i]).yBotRight) < threshold
  }

  /**
   * A stabilised table has one row per input row; its x coordinates are
   * those of the correction pass; y_top_left, y_top_right and y_bot_left
   * stay strictly within the smoothing threshold of their detected values,
   * and y_bot_right within it of its rectified value.
   */
  lemma {:induction false} StabilizeMeaning(rows: seq<Record>, m: Measures, minWindow: nat, maxWindow: nat, poly: nat, threshold: real, savgol: Filter)
    requires MeasuresFit(m, |rows|) && FilterKeepsLength(savgol, poly)
    requires Stabilize(rows, m, minWindow, maxWindow, poly, threshold, savgol).Ok?
    ensures var out := Stabilize(rows, m, minWindow, maxWindow, poly, threshold, savgol).value;
            var passed := PassUpTo(RectifyAll(rows, m.leftHeight), ColumnsOf(rows, m), |rows|).rows;
            && |out| == |rows| && |rows| > 0 && TopEdgesSloped(rows)
            && XKept(out, passed)
            && YWithin(out, rows, m.leftHeight, threshold)
  {
    var cols := ColumnsOf(rows, m);
    var rect := RectifyAll(rows, m.leftHeight);
    var passed := PassUpTo(rect, cols, |rows|).rows;
    assert Stabilize(rows, m, minWindow, maxWindow, poly, threshold, savgol)
           == SmoothColumns(passed, minWindow, maxWindow, poly, threshold, savgol);
    PassKeepsY(rect, cols, |rows|);
    SmoothColumnsMeaning(passed, minWindow, maxWindow, poly, threshold, savgol);
    YWithinAfterPass(rows, m.leftHeight, rect, passed, SmoothColumns(passed, minWindow, maxWindow, poly, threshold, savgol).value, threshold);
  }

  /** Rows whose y coordinates the pass kept and the smoothing moved by less than the threshold are within it of the input rows. */
  lemma YWithinAfterPass(rows: seq<Record>, leftHeight: seq<real>, rect: seq<Record>, passed: seq<Record>, out: seq<Record>, threshold: real)
    requires |leftHeight| == |rows| && TopEdgesSloped(rows) && rect == RectifyAll(rows, leftHeight)
    requires |passed| == |rows| && |out| == |rows|
    requires forall p :: 0 <= p < |rect| ==> SameY(passed[p], rect[p])
    requires YClose(out, passed, threshold)
    ensures YWithin(out, rows, leftHeight, threshold)
  {
    forall i | 0 <= i < |rows|
      ensures && Abs(out[i].yTopLeft - rows[i].yTopLeft) < threshold
              && Abs(out[i].yTopRight - rows[i].yTopRight) < threshold
              && Abs(out[i].yBotLeft - rows[i].yBotLeft) < threshold
              && Abs(out[i].yBotRight - Rectified(rows[i], leftHeight[i]).yBotRight) < threshold
    {
      var r := Rectified(rows[i], leftHeight[i]);
      assert rect[i] == r;
      assert r.yTopLeft == rows[i].yTopLeft && r.yTopRight == rows[i].yTopRight && r.yBotLeft == rows[i].yBotLeft;
      assert SameY(passed[i], rect[i]);
    }
  }
}
