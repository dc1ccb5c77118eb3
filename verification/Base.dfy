/** Small shared vocabulary: optional values, absolute value and rectangular grids. */
module Base {

  /** A value that may be absent: Python's `None`, or a local variable not yet bound. */
  datatype Option<T> = None | Some(value: T)

  /** Why an operation raised instead of completing. */
  datatype Error =
    | UnboundCorner       // a corner variable was never assigned before the record is written
    | MissingMaskFile     // no mask was saved for the frame being replayed
    | MissingRow          // a frame number looked up in the corner table has no row
    | DegenerateTopEdge   // a row's top edge is vertical, so its line has no slope
    | WindowOutOfRange    // a correction window reaches before row 0 or past the last row
    | FilterWindow        // a tried window is longer than the series or not above the polynomial order
    | NoSmoothingWindow   // no tried window was accepted, so a column would be replaced by nothing
    | EmptyBannerCrop     // the banner crop read by the colour adjustment has no pixels

  datatype Result<T> = Ok(value: T) | Err(error: Error)

  function Abs(v: real): (r: real)
    ensures r >= 0.0
    ensures r == v || r == -v
  {
    if v < 0.0 then -v else v
  }

  /** One colour pixel of a frame (the three channels of an OpenCV BGR image). */
  datatype Pixel = Pixel(b: int, g: int, r: int)

  /** A binary mask as stored on disk: rows of 0/1 cells. */
  type Mask = seq<seq<int>>

  /** `g` has exactly `h` rows of exactly `w` cells each. */
  predicate IsGrid<T>(g: seq<seq<T>>, h: nat, w: nat)
  {
    |g| == h && forall r :: 0 <= r < h ==> |g[r]| == w
  }

  /** `g` has at least `h` rows of at least `w` cells each, so `g[k][j]` is defined below (h, w). */
  predicate CoversGrid<T>(g: seq<seq<T>>, h: nat, w: nat)
  {
    |g| >= h && forall r :: 0 <= r < h ==> |g[r]| >= w
  }
}
