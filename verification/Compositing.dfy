/**
 * Placing the logo on a frame: the choice of target quadrilateral when the
 * banner is cut by the right or left frame border, the sticky banner width
 * that stands in for the hidden part, and the masked pixel replacement.
 *
 * Corners come in the replay order [top_left, bot_right, top_right,
 * bot_left]; the target quadrilateral lists the logo's own corners in the
 * order (0, 0), (0, h - 1), (w - 1, h - 1), (w - 1, 0), that is top-left,
 * bottom-left, bottom-right, top-right.
 */
module Compositing {
  import opened Base
  import opened Geometry

  /** Which border, if any, cuts the banner. */
  datatype Regime = RightCrop | LeftCrop | InFrame

  /** The rounded bottom-right or top-right x reaches the last column. */
  predicate RightTruncated(c: seq<Point>, width: int)
    requires |c| == 4
  {
    Round(c[1].x) >= width - 1 || Round(c[2].x) >= width - 1
  }

  /** The rounded top-left or bottom-left x reaches column 0. */
  predicate LeftTruncated(c: seq<Point>, width: int)
    requires |c| == 4
  {
    Round(c[0].x) <= 0 || Round(c[3].x) <= 0
  }

  /** The right border is checked first, then the left one. */
  function SelectRegime(c: seq<Point>, width: int): Regime
    requires |c| == 4
  {
    if RightTruncated(c, width) then RightCrop
    else if LeftTruncated(c, width) then LeftCrop
    else InFrame
  }

  /**
   * What the target needs: a cut banner needs a remembered width, and the
   * right-cut target divides by the visible width |bot_right.x - top_left.x|.
   */
  predicate ShapeDefined(c: seq<Point>, width: int, oldWidth: Option<real>)
    requires |c| == 4
  {
    match SelectRegime(c, width)
    case RightCrop => oldWidth.Some? && c[1].x != c[0].x
    case LeftCrop => oldWidth.Some?
    case InFrame => true
  }

  /**
   * The quadrilateral the logo is warped onto. Cut on the right, the right
   * edge is put old_width to the right of top_left, and both its ends are
   * lowered by |top_right.y - top_left.y| scaled by old_width over the
   * visible width. Cut on the left, the left edge is put old_width to the
   * left of top_right. In frame, the corners are used as they are.
   */
  function TargetQuad(c: seq<Point>, width: int, oldWidth: Option<real>): (q: seq<Point>)
    requires |c| == 4 && ShapeDefined(c, width, oldWidth)
    ensures |q| == 4
  {
    match SelectRegime(c, width)
    case RightCrop =>
      var ow := oldWidth.value;
      var tx := c[0].x + ow;
      var coef := ow / Abs(c[1].x - c[0].x);
      var yTop := c[0].y + Abs(c[2].y - c[0].y) * coef;
      var yBot := c[3].y + Abs(c[2].y - c[0].y) * coef;
      [c[0], c[3], Point(tx, yBot), Point(tx, yTop)]
    case LeftCrop =>
      var tx := c[2].x - oldWidth.value;
      [Point(tx, c[0].y), Point(tx, c[3].y), c[1], c[2]]
    case InFrame =>
      [c[0], c[3], c[1], c[2]]
  }

  /** The remembered width after this frame: re-measured in frame, kept otherwise. */
  function NextOldWidth(c: seq<Point>, width: int, oldWidth: Option<real>): Option<real>
    requires |c| == 4
  {
    if SelectRegime(c, width) == InFrame then Some(Abs(c[1].x - c[0].x)) else oldWidth
  }

  /**
   * With the banner in frame, the target is the banner itself, corner for
   * corner: top-left, bottom-left, bottom-right, top-right of the row.
   */
  lemma InFrameTargetIsBanner(r: Record, width: int, oldWidth: Option<real>)
    requires SelectRegime(CornerOrder(r), width) == InFrame
    ensures TargetQuad(CornerOrder(r), width, oldWidth) ==
            [Point(r.xTopLeft, r.yTopLeft), Point(r.xBotLeft, r.yBotLeft),
             Point(r.xBotRight, r.yBotRight), Point(r.xTopRight, r.yTopRight)]
  {
  }

  /**
   * Cut on the right: the left edge is kept, the top edge spans exactly the
   * remembered width, and the rebuilt right edge is the left edge moved
   * right and down, so it has the same height.
   */
  lemma RightCropTarget(c: seq<Point>, width: int, oldWidth: Option<real>)
    requires |c| == 4 && ShapeDefined(c, width, oldWidth) && SelectRegime(c, width) == RightCrop
    ensures var q := TargetQuad(c, width, oldWidth);
            && q[0] == c[0] && q[1] == c[3]
            && q[3].x - q[0].x == oldWidth.value
            && q[2].x == q[3].x
            && q[2].y - q[3].y == q[1].y - q[0].y
  {
  }

  /** Cut on the left: the right edge is kept and the top edge spans exactly the remembered width. */
  lemma LeftCropTarget(c: seq<Point>, width: int, oldWidth: Option<real>)
    requires |c| == 4 && ShapeDefined(c, width, oldWidth) && SelectRegime(c, width) == LeftCrop
    ensures var q := TargetQuad(c, width, oldWidth);
            && q[2] == c[1] && q[3] == c[2]
            && q[3].x - q[0].x == oldWidth.value
            && q[0].x == q[1].x
            && q[0].y == c[0].y && q[1].y == c[3].y
  {
  }

  /** Cut on both sides, the right border wins: the right edge is put at top_left.x + old_width. */
  lemma RightBeforeLeft(c: seq<Point>, width: int, oldWidth: Option<real>)
    requires |c| == 4 && RightTruncated(c, width) && LeftTruncated(c, width)
    requires ShapeDefined(c, width, oldWidth)
    ensures SelectRegime(c, width) == RightCrop
    ensures TargetQuad(c, width, oldWidth)[3].x == c[0].x + oldWidth.value
  {
  }

  /** The remembered width after the first m frames of `fs`, in order, starting from `initial`. */
  function WidthAfter(fs: seq<seq<Point>>, m: nat, width: int, initial: Option<real>): Option<real>
    requires m <= |fs| && forall i :: 0 <= i < |fs| ==> |fs[i]| == 4
  {
    if m == 0 then initial
    else NextOldWidth(fs[m - 1], width, WidthAfter(fs, m - 1, width, initial))
  }

  /** No banner among frames lo .. m-1 of `fs` is in frame. */
  predicate NoneInFrame(fs: seq<seq<Point>>, lo: int, m: nat, width: int)
    requires m <= |fs| && forall i :: 0 <= i < |fs| ==> |fs[i]| == 4
  {
    forall j :: lo <= j < m && 0 <= j ==> SelectRegime(fs[j], width) != InFrame
  }

  /** Frame i is the last of the first m frames of `fs` whose banner is in frame. */
  predicate LastInFrame(fs: seq<seq<Point>>, i: int, m: nat, width: int)
    requires m <= |fs| && forall i :: 0 <= i < |fs| ==> |fs[i]| == 4
  {
    0 <= i < m && SelectRegime(fs[i], width) == InFrame && NoneInFrame(fs, i + 1, m, width)
  }

  /** Dropping the last frame, when it is not in frame, keeps the last in-frame index. */
  lemma LastInFrameDrop(fs: seq<seq<Point>>, i: int, m: nat, width: int)
    requires 0 < m <= |fs| && forall i :: 0 <= i < |fs| ==> |fs[i]| == 4
    requires LastInFrame(fs, i, m, width)
    ensures SelectRegime(fs[m - 1], width) == InFrame ==> i == m - 1
    ensures SelectRegime(fs[m - 1], width) != InFrame ==> LastInFrame(fs, i, m - 1, width)
  {
    if i < m - 1 {
      assert SelectRegime(fs[m - 1], width) != InFrame;
    }
  }

  /**
   * The remembered width is sticky: with no banner in frame over a run of
   * frames it keeps its initial value.
   */
  lemma {:induction false} WidthKeptOutOfFrame(fs: seq<seq<Point>>, m: nat, width: int, initial: Option<real>)
    requires m <= |fs| && forall i :: 0 <= i < |fs| ==> |fs[i]| == 4
    requires NoneInFrame(fs, 0, m, width)
    ensures WidthAfter(fs, m, width, initial) == initial
    decreases m
  {
    if m > 0 {
      assert SelectRegime(fs[m - 1], width) != InFrame;
      assert NoneInFrame(fs, 0, m - 1, width);
      WidthKeptOutOfFrame(fs, m - 1, width, initial);
    }
  }

  /**
   * After a run of frames the remembered width is the bottom-right to top-left
   * x distance of the last frame whose banner was in frame.
   */
  lemma {:induction false} StickyWidth(fs: seq<seq<Point>>, i: int, m: nat, width: int, initial: Option<real>)
    requires m <= |fs| && forall i :: 0 <= i < |fs| ==> |fs[i]| == 4
    requires LastInFrame(fs, i, m, width)
    ensures WidthAfter(fs, m, width, initial) == Some(Abs(fs[i][1].x - fs[i][0].x))
    decreases m
  {
    LastInFrameDrop(fs, i, m, width);
    if SelectRegime(fs[m - 1], width) != InFrame {
      StickyWidth(fs, i, m - 1, width, initial);
    }
  }

  /** A top-right corner on the last column cuts the banner on the right and keeps the remembered width. */
  lemma RightEdgeAtBorder(c: seq<Point>, width: int, oldWidth: Option<real>)
    requires |c| == 4 && c[2].x == (width - 1) as real
    ensures SelectRegime(c, width) == RightCrop
    ensures NextOldWidth(c, width, oldWidth) == oldWidth
  {
    RoundWhole(width - 1);
  }

  /** In frame, every left x is at least 0.5 and every right x at most width - 1.5. */
  lemma InFrameMargins(c: seq<Point>, width: int)
    requires |c| == 4 && SelectRegime(c, width) == InFrame
    ensures c[0].x >= 0.5 && c[3].x >= 0.5
    ensures c[1].x <= (width as real) - 1.5 && c[2].x <= (width as real) - 1.5
  {
  }

  /** Python's int() of a float: truncation toward zero. */
  function Trunc(v: real): (n: int)
    ensures 0.0 <= v ==> n as real <= v < n as real + 1.0
    ensures v < 0.0 ==> n as real - 1.0 < v <= n as real
  {
    if v >= 0.0 then v.Floor else -((-v).Floor)
  }

  /**
   * The index a slice bound selects on an axis of length n: a negative
   * bound counts from the end, and the result is clamped to [0, n].
   */
  function SliceBound(b: int, n: nat): (i: nat)
    ensures i <= n
    ensures 0 <= b <= n ==> i == b
  {
    if b < 0 then (if b + n < 0 then 0 else b + n)
    else if b > n then n
    else b
  }

  /**
   * The banner crop frame[int(top_left.y):int(bot_right.y),
   * int(top_left.x):int(bot_right.x)] that the colour adjustment reads is
   * empty.
   */
  predicate CropEmpty(c: seq<Point>, height: nat, width: nat)
    requires |c| == 4
  {
    || SliceBound(Trunc(c[1].y), height) <= SliceBound(Trunc(c[0].y), height)
    || SliceBound(Trunc(c[1].x), width) <= SliceBound(Trunc(c[0].x), width)
  }

  /** A banner at least one pixel wide and high whose corners lie in the frame has a non-empty crop. */
  lemma CropNonEmptyInFrame(c: seq<Point>, height: nat, width: nat)
    requires |c| == 4
    requires 0.0 <= c[0].x && c[0].x + 1.0 <= c[1].x <= width as real
    requires 0.0 <= c[0].y && c[0].y + 1.0 <= c[1].y <= height as real
    ensures !CropEmpty(c, height, width)
  {
  }

  /** A bottom-right corner left of the top-left one, both in the frame, gives an empty crop. */
  lemma CropEmptyWhenInverted(c: seq<Point>, height: nat, width: nat)
    requires |c| == 4
    requires 0.0 <= c[1].x <= c[0].x < width as real
    ensures CropEmpty(c, height, width)
  {
  }

  /** The pixels of a frame, row by row. */
  function FramePixels(frame: array2<Pixel>): (g: seq<seq<Pixel>>)
    reads frame
    ensures IsGrid(g, frame.Length0, frame.Length1)
    ensures forall y, x :: 0 <= y < frame.Length0 && 0 <= x < frame.Length1 ==> g[y][x] == frame[y, x]
  {
    seq(frame.Length0, y requires 0 <= y < frame.Length0 reads frame =>
      seq(frame.Length1, x requires 0 <= x < frame.Length1 reads frame => frame[y, x]))
  }

  /** Overwrites every frame pixel whose mask cell is 1 with the warped logo's pixel. */
  method ReplaceMasked(frame: array2<Pixel>, mask: Mask, warped: seq<seq<Pixel>>)
    requires CoversGrid(mask, frame.Length0, frame.Length1)
    requires CoversGrid(warped, frame.Length0, frame.Length1)
    modifies frame
    ensures forall k, j :: 0 <= k < frame.Length0 && 0 <= j < frame.Length1 ==>
              frame[k, j] == if mask[k][j] == 1 then warped[k][j] else old(frame[k, j])
  {
    for k := 0 to frame.Length0
      invariant forall y, x :: 0 <= y < frame.Length0 && 0 <= x < frame.Length1 ==>
                  frame[y, x] == if y < k && mask[y][x] == 1 then warped[y][x] else old(frame[y, x])
    {
      for j := 0 to frame.Length1
        invariant forall y, x :: 0 <= y < frame.Length0 && 0 <= x < frame.Length1 ==>
                    frame[y, x] == if (y < k || (y == k && x < j)) && mask[y][x] == 1 then warped[y][x] else old(frame[y, x])
      {
        if mask[k][j] == 1 {
          frame[k, j] := warped[k][j];
        }
      }
    }
  }
}
