/**
 * The banner replacer object. A video is processed in two passes driven
 * by the host: a detection pass (`beforeSmoothing`) predicts a mask for
 * every frame, keeps the corners of the detected banner in a table keyed
 * by frame number and saves the filled mask of each frame; a replay pass
 * reloads each frame's mask, smooths the whole corner table once, and
 * pastes the logo over the masked pixels.
 *
 * The saved mask files are modelled as the map `savedMasks` from frame
 * number to what was saved; the foreign routines (the network, contour
 * extraction and filling, the table's measured columns, the
 * Savitzky-Golay filter, and the perspective warp of the logo) are the
 * fields of a `Collaborators` value.
 */
module LogoReplacer {
  import opened Base
  import opened Geometry
  import opened Tiling
  import opened Contours
  import opened SeriesSmoothing
  import opened Stabilization
  import opened Compositing

  /** The model parameters read from the parameter file. */
  datatype Config = Config(
    imgHeight: nat, imgWidth: nat, fullSizeStep: nat,
    valueThreshold: real, filterAreaSize: real,
    minWindow: nat, maxWindow: nat, polyDegree: nat, smoothThreshold: real,
    sourceType: int)

  /** The routines the object calls but that are not part of this model. */
  datatype Collaborators = Collaborators(
    predict: Tile -> Probabilities,
    extract: Mask -> seq<Contour>,
    fill: (Mask, Contour) -> Mask,
    measure: seq<Record> -> Measures,
    savgol: Filter,
    warp: (seq<seq<Pixel>>, seq<Point>, seq<Point>, nat, nat) -> seq<seq<Pixel>>)

  /**
   * What the object relies on: the network answers every tile of the input
   * size with a grid of the same size, the measured columns have one entry
   * per row, the filter keeps the series length, and the logo, adjusted to
   * the colours of the banner crop of the given frame and warped onto the
   * given quadrilateral, has the size it was asked for.
   */
  ghost predicate Suits(env: Collaborators, p: Config)
  {
    && PredictsTiles(env.predict, p.imgHeight, p.imgWidth)
    && (forall rows :: MeasuresFit(env.measure(rows), |rows|))
    && FilterKeepsLength(env.savgol, p.polyDegree)
    && (forall f, c, q, h: nat, w: nat :: IsGrid(env.warp(f, c, q, h, w), h, w))
  }

  /** What a mask file holds: the one-cell zero array of a frame without banner, or the filled mask. */
  datatype SavedMask = ZeroMarker | Saved(cells: Mask)

  /** The length of the loaded array: its number of rows. */
  function MaskLength(m: SavedMask): nat
  {
    match m
    case ZeroMarker => 1
    case Saved(cells) => |cells|
  }

  /** How a call ended: normally, or by raising. */
  datatype Outcome = Done | Raised(error: Error)

  // ---------------------------------------------------------------------
  // Detection pass
  // ---------------------------------------------------------------------

  /** The probability maps the network returns for the tiles `offs` of `frame`. */
  ghost function Predictions(frame: array2<Pixel>, offs: seq<Offset>, h: nat, w: nat, predict: Tile -> Probabilities)
    : (preds: seq<Probabilities>)
    reads frame
    requires forall i :: 0 <= i < |offs| ==> Inside(offs[i], h, w, frame.Length0, frame.Length1)
    ensures |preds| == |offs|
    ensures PredictsTiles(predict, h, w) ==> AllGrids(preds, h, w)
  {
    seq(|offs|, i requires 0 <= i < |offs| reads frame => predict(Crop(frame, offs[i], h, w)))
  }

  /** The sweep's tiling fits the frame: a positive step, and a tile no larger than the frame. */
  predicate TilingFits(p: Config, frame: array2<Pixel>)
  {
    p.fullSizeStep > 0 && p.imgHeight <= frame.Length0 && p.imgWidth <= frame.Length1
  }

  /** Cell (y, x) of the full-size probability mask of `frame`. */
  ghost function FullSizeCell(frame: array2<Pixel>, p: Config, predict: Tile -> Probabilities, y: int, x: int): real
    reads frame
    requires TilingFits(p, frame) && PredictsTiles(predict, p.imgHeight, p.imgWidth)
  {
    var offs := SweepTiles(0, frame.Length0, p.imgHeight, frame.Length1, p.imgWidth, p.fullSizeStep, false);
    SweepTilesInside(0, frame.Length0, p.imgHeight, frame.Length1, p.imgWidth, p.fullSizeStep, false);
    assert forall i :: 0 <= i < |offs| ==> offs[i] in offs;
    CellAfter(offs, Predictions(frame, offs, p.imgHeight, p.imgWidth, predict), p.imgHeight, p.imgWidth, y, x)
  }

  /** The 0/1 mask of the cells above the threshold. */
  function Binarized(probs: array2<real>, threshold: real): (bin: Mask)
    reads probs
    ensures IsGrid(bin, probs.Length0, probs.Length1)
    ensures forall y, x :: 0 <= y < probs.Length0 && 0 <= x < probs.Length1 ==>
              (bin[y][x] == 1 <==> probs[y, x] > threshold) && (bin[y][x] == 0 || bin[y][x] == 1)
  {
    seq(probs.Length0, y requires 0 <= y < probs.Length0 reads probs =>
      seq(probs.Length1, x requires 0 <= x < probs.Length1 reads probs => if probs[y, x] > threshold then 1 else 0))
  }

  /** The part of the object's state the contour check changes. */
  datatype Detection = Detection(
    points: map<nat, Record>, masks: map<nat, SavedMask>,
    centerLeft: Option<real>, centerRight: Option<real>)

  /**
   * The state after checking the contours of frame `frameNum`: without a
   * surviving contour the zero marker is saved and nothing else changes;
   * otherwise the filled mask is saved, the centres are the scan's, and the
   * corner row is written, or the call raises when a corner variable was
   * never bound.
   */
  function AfterContours(d: Detection, frameNum: nat, bin: Mask, contours: seq<Contour>, minArea: real,
                         fill: (Mask, Contour) -> Mask): (Detection, Outcome)
  {
    var s := ScanAll(contours, minArea);
    if !s.found then (d.(masks := d.masks[frameNum := ZeroMarker]), Done)
    else
      var d' := d.(masks := d.masks[frameNum := Saved(FillAll(bin, contours, minArea, fill))],
                   centerLeft := Some(s.centerLeft), centerRight := Some(s.centerRight));
      if AllBound(s.corners) then (d'.(points := d'.points[frameNum := RecordFrom(s.corners)]), Done)
      else (d', Raised(UnboundCorner))
  }

  /**
   * One frame of the detection pass adds at most one corner row, at its own
   * frame number, and leaves every other row alone. A row is added only
   * when some contour is larger than the area filter, and each of its
   * corners is a box point of such a contour, on that corner's side of the
   * contour's centre. The zero marker is saved exactly when no contour is
   * larger than the filter.
   */
  lemma AtMostOneRowPerFrame(d: Detection, frameNum: nat, bin: Mask, contours: seq<Contour>, minArea: real,
                             fill: (Mask, Contour) -> Mask)
    ensures var (d', o) := AfterContours(d, frameNum, bin, contours, minArea, fill);
            var survivor := exists i :: 0 <= i < |contours| && contours[i].area > minArea;
            && d'.points.Keys <= d.points.Keys + {frameNum}
            && (forall k :: k in d.points && k != frameNum ==> k in d'.points && d'.points[k] == d.points[k])
            && (frameNum in d'.points && d'.points != d.points ==> survivor)
            && (survivor && o == Done ==>
                  && frameNum in d'.points
                  && var row := d'.points[frameNum];
                  && BoxPointOf(Point(row.xTopLeft, row.yTopLeft), contours, minArea, true, true)
                  && BoxPointOf(Point(row.xBotLeft, row.yBotLeft), contours, minArea, true, false)
                  && BoxPointOf(Point(row.xTopRight, row.yTopRight), contours, minArea, false, true)
                  && BoxPointOf(Point(row.xBotRight, row.yBotRight), contours, minArea, false, false))
            && (d'.masks[frameNum] == ZeroMarker <==> !survivor)
            && (o != Done ==> survivor && d'.points == d.points)
            && d'.masks.Keys == d.masks.Keys + {frameNum}
  {
    FoundIffSurvivor(contours, minArea);
    CornersFromSurvivors(contours, minArea);
  }

  /** Contours at or below the area filter change nothing: dropping them gives the same state and outcome. */
  lemma SmallContoursIgnored(d: Detection, frameNum: nat, bin: Mask, contours: seq<Contour>, minArea: real,
                             fill: (Mask, Contour) -> Mask)
    ensures AfterContours(d, frameNum, bin, contours, minArea, fill)
            == AfterContours(d, frameNum, bin, Survivors(contours, minArea), minArea, fill)
  {
    ScanIgnoresSmall(contours, minArea);
    FillIgnoresSmall(bin, contours, minArea, fill);
  }

  // ---------------------------------------------------------------------
  // Replay pass: the corner table
  // ---------------------------------------------------------------------

  /** Every position below the table's size is a frame number with a row. */
  predicate Contiguous(t: map<nat, Record>)
  {
    forall i: nat :: i < |t| ==> i in t
  }

  /** The rows of a contiguous table in frame order. */
  function TableRows(t: map<nat, Record>): (rows: seq<Record>)
    requires Contiguous(t)
    ensures |rows| == |t|
    ensures forall i :: 0 <= i < |t| ==> rows[i] == t[i]
  {
    seq(|t|, i requires 0 <= i < |t| => t[i])
  }

  /** The table with the row of frame i replaced by out[i], for every position i of `out`. */
  function Overwritten(t: map<nat, Record>, out: seq<Record>): map<nat, Record>
  {
    t + map i: nat | i < |out| :: out[i]
  }

  /**
   * The table after smoothing: a gap in the frame numbers below the size
   * fails the row lookups; otherwise the rows are stabilised and written
   * back under their frame numbers.
   */
  ghost function SmoothedTable(t: map<nat, Record>, env: Collaborators, p: Config): Result<map<nat, Record>>
    requires Suits(env, p)
  {
    if !Contiguous(t) then Err(MissingRow)
    else
      var rows := TableRows(t);
      match Stabilize(rows, env.measure(rows), p.minWindow, p.maxWindow, p.polyDegree, p.smoothThreshold, env.savgol)
      case Err(e) => Err(e)
      case Ok(out) => Ok(Overwritten(t, out))
  }

  /**
   * Smoothing keeps every frame of the table and moves each y coordinate
   * by less than the smoothing threshold (y_bot_right from its position
   * one left height below the top edge); it fails with a missing row
   * whenever the frame numbers have a gap.
   */
  lemma SmoothedTableKeepsFrames(t: map<nat, Record>, env: Collaborators, p: Config)
    requires Suits(env, p)
    ensures !Contiguous(t) ==> SmoothedTable(t, env, p) == Err(MissingRow)
    ensures SmoothedTable(t, env, p).Ok? ==>
              var t' := SmoothedTable(t, env, p).value;
              && Contiguous(t) && |t| > 0 && t'.Keys == t.Keys && Contiguous(t')
              && TopEdgesSloped(TableRows(t))
              && YWithin(TableRows(t'), TableRows(t), env.measure(TableRows(t)).leftHeight, p.smoothThreshold)
  {
    if SmoothedTable(t, env, p).Ok? {
      var rows := TableRows(t);
      var m := env.measure(rows);
      StabilizeMeaning(rows, m, p.minWindow, p.maxWindow, p.polyDegree, p.smoothThreshold, env.savgol);
      var out := Stabilize(rows, m, p.minWindow, p.maxWindow, p.polyDegree, p.smoothThreshold, env.savgol).value;
      WriteBack(t, out);
    }
  }

  /** Writing rows back under the frame numbers 0, 1, ... of a contiguous table of the same size keeps its frames. */
  lemma WriteBack(t: map<nat, Record>, out: seq<Record>)
    requires Contiguous(t) && |out| == |t|
    ensures var t' := Overwritten(t, out);
            t'.Keys == t.Keys && Contiguous(t') && TableRows(t') == out
  {
    var t' := Overwritten(t, out);
    assert forall k :: k in t' ==> k in t;
  }

  /** The part of the object's state that loading the points changes. */
  datatype Loading = Loading(points: map<nat, Record>, loadSmooth: bool, corners: seq<Point>)

  /**
   * Loading the corners of frame `frameNum`: the first load of a video
   * smooths the table and clears the flag (a failed smoothing raises and
   * keeps it); then the frame's row is looked up and its corners listed as
   * [top_left, bot_right, top_right, bot_left].
   */
  ghost function AfterLoad(l: Loading, frameNum: nat, env: Collaborators, p: Config): (Loading, Outcome)
    requires Suits(env, p)
  {
    var smoothing := l.loadSmooth && p.sourceType == 0;
    var table := if smoothing then SmoothedTable(l.points, env, p) else Ok(l.points);
    match table
    case Err(e) => (l, Raised(e))
    case Ok(t) =>
      var l' := l.(points := t, loadSmooth := l.loadSmooth && !smoothing);
      if frameNum in t then (l'.(corners := CornerOrder(t[frameNum])), Done)
      else (l', Raised(MissingRow))
  }

  /**
   * The table of a video is smoothed once: after a load that completed the
   * flag is clear, and a later load only looks up a row. For other sources
   * the table is never smoothed. A load that completed lists the corners of
   * the frame's row.
   */
  lemma SmoothOnce(l: Loading, frameNum: nat, env: Collaborators, p: Config)
    requires Suits(env, p)
    ensures var (l', o) := AfterLoad(l, frameNum, env, p);
            && (o == Done ==> !l'.loadSmooth || p.sourceType != 0)
            && (o == Done ==> frameNum in l'.points && RecordOf(l'.corners) == l'.points[frameNum])
            && (!l.loadSmooth || p.sourceType != 0 ==> l'.points == l.points)
            && (o == Done && !l'.loadSmooth ==>
                  forall f: nat :: f in l'.points ==>
                    AfterLoad(l', f, env, p) == (l'.(corners := CornerOrder(l'.points[f])), Done))
  {
    var (l', o) := AfterLoad(l, frameNum, env, p);
    if o == Done {
      CornerOrderRoundTrip(l'.points[frameNum], l'.corners);
    }
  }

  /** The part of the object's state that replaying a frame changes, besides the table. */
  datatype Replay = Replay(detectedMask: Option<SavedMask>, detectionSuccessful: bool, loading: Loading)

  /**
   * Replaying frame `frameNum`: without a saved mask the load raises;
   * otherwise the mask is loaded, a one-row array means no banner, and any
   * other mask leads to loading the frame's corners, after which the
   * detection counts as successful unless the load raised.
   */
  ghost function AfterReplay(masks: map<nat, SavedMask>, r: Replay, frameNum: nat, env: Collaborators, p: Config)
    : (Replay, Outcome)
    requires Suits(env, p)
  {
    if frameNum !in masks then (r, Raised(MissingMaskFile))
    else
      var r' := r.(detectedMask := Some(masks[frameNum]));
      if MaskLength(masks[frameNum]) == 1 then (r'.(detectionSuccessful := false), Done)
      else
        var (l', o) := AfterLoad(r.loading, frameNum, env, p);
        (r'.(loading := l', detectionSuccessful := o == Done || r.detectionSuccessful), o)
  }

  /**
   * The replay gate: a frame whose saved mask has one row is not
   * detected and leaves the table and corners alone; a replayed frame that
   * completes with any other mask is detected, with the corners of its own
   * table row and the mask that was saved for it.
   */
  lemma ReplayGate(masks: map<nat, SavedMask>, r: Replay, frameNum: nat, env: Collaborators, p: Config)
    requires Suits(env, p)
    ensures var (r', o) := AfterReplay(masks, r, frameNum, env, p);
            && (frameNum !in masks ==> o == Raised(MissingMaskFile) && r' == r)
            && (frameNum in masks && MaskLength(masks[frameNum]) == 1 ==>
                  o == Done && !r'.detectionSuccessful && r'.loading == r.loading)
            && (frameNum in masks && MaskLength(masks[frameNum]) != 1 && o == Done ==>
                  && r'.detectionSuccessful && r'.detectedMask == Some(masks[frameNum])
                  && frameNum in r'.loading.points
                  && RecordOf(r'.loading.corners) == r'.loading.points[frameNum])
            && (o != Done ==> r'.detectionSuccessful == r.detectionSuccessful)
  {
    SmoothOnce(r.loading, frameNum, env, p);
  }

  // ---------------------------------------------------------------------
  // The object
  // ---------------------------------------------------------------------

  class UnetLogoInsertion {
    const params: Config
    var frame: array2?<Pixel>
    var detectedMask: Option<SavedMask>
    var detectionSuccessful: bool
    var corners: seq<Point>
    var oldWidth: Option<real>
    var centerLeft: Option<real>
    var centerRight: Option<real>
    var frameNum: nat
    var beforeSmoothing: bool
    var loadSmooth: bool
    var savedPoints: map<nat, Record>
    var savedMasks: map<nat, SavedMask>

    /** A fresh replacer: nothing detected, frame 0, detection pass first, smoothing still due, empty table. */
    constructor(p: Config)
      ensures params == p && frame == null && detectedMask == None && !detectionSuccessful
      ensures corners == [] && oldWidth == None && centerLeft == None && centerRight == None
      ensures frameNum == 0 && beforeSmoothing && loadSmooth
      ensures savedPoints == map[] && savedMasks == map[]
    {
      params := p;
      frame := null;
      detectedMask := None;
      detectionSuccessful := false;
      corners := [];
      oldWidth := None;
      centerLeft := None;
      centerRight := None;
      frameNum := 0;
      beforeSmoothing := true;
      loadSmooth := true;
      savedPoints := map[];
      savedMasks := map[];
    }

    /**
     * Runs one frame of the current pass: detection while
     * `beforeSmoothing` holds, replay afterwards. The frame counter
     * advances only when nothing raised.
     */
    method DetectBanner(newFrame: array2<Pixel>, env: Collaborators) returns (outcome: Outcome, ghost bin: Mask)
      requires Suits(env, params)
      requires beforeSmoothing ==> TilingFits(params, newFrame)
      modifies this`frame, this`detectedMask, this`detectionSuccessful, this`frameNum, this`savedPoints,
               this`savedMasks, this`centerLeft, this`centerRight, this`loadSmooth, this`corners
      ensures frame == newFrame
      ensures frameNum == if outcome == Done then old(frameNum) + 1 else old(frameNum)
      ensures old(beforeSmoothing) ==>
                && IsGrid(bin, newFrame.Length0, newFrame.Length1)
                && (forall y, x :: 0 <= y < newFrame.Length0 && 0 <= x < newFrame.Length1 ==>
                      bin[y][x] == if FullSizeCell(newFrame, params, env.predict, y, x) > params.valueThreshold then 1 else 0)
                && (Detection(savedPoints, savedMasks, centerLeft, centerRight), outcome)
                   == AfterContours(Detection(old(savedPoints), old(savedMasks), old(centerLeft), old(centerRight)),
                                    old(frameNum), bin, env.extract(bin), params.filterAreaSize, env.fill)
                && detectedMask == old(detectedMask) && detectionSuccessful == old(detectionSuccessful)
                && loadSmooth == old(loadSmooth) && corners == old(corners)
      ensures !old(beforeSmoothing) ==>
                && savedMasks == old(savedMasks) && centerLeft == old(centerLeft) && centerRight == old(centerRight)
                && (Replay(detectedMask, detectionSuccessful, Loading(savedPoints, loadSmooth, corners)), outcome)
                   == AfterReplay(old(savedMasks),
                                  Replay(old(detectedMask), old(detectionSuccessful),
                                         Loading(old(savedPoints), old(loadSmooth), old(corners))),
                                  old(frameNum), env, params)
    {
      frame := newFrame;
      if beforeSmoothing {
        outcome, bin := DetectFrame(newFrame, env);
      } else {
        bin := [];
        outcome := ReplayFrame(env);
      }
      if outcome == Done {
        frameNum := frameNum + 1;
      }
    }

    /** The detection pass on one frame: predict, threshold, and check the contours. */
    method DetectFrame(newFrame: array2<Pixel>, env: Collaborators) returns (outcome: Outcome, ghost bin: Mask)
      requires Suits(env, params) && TilingFits(params, newFrame)
      modifies this`savedPoints, this`savedMasks, this`centerLeft, this`centerRight
      ensures IsGrid(bin, newFrame.Length0, newFrame.Length1)
      ensures forall y, x :: 0 <= y < newFrame.Length0 && 0 <= x < newFrame.Length1 ==>
                bin[y][x] == if FullSizeCell(newFrame, params, env.predict, y, x) > params.valueThreshold then 1 else 0
      ensures (Detection(savedPoints, savedMasks, centerLeft, centerRight), outcome)
              == AfterContours(Detection(old(savedPoints), old(savedMasks), old(centerLeft), old(centerRight)),
                               frameNum, bin, env.extract(bin), params.filterAreaSize, env.fill)
    {
      var probs;
      ghost var offs, preds;
      probs, offs, preds := PredictFullSize(newFrame, params.imgHeight, params.imgWidth, params.fullSizeStep, env.predict);
      assert preds == Predictions(newFrame, offs, params.imgHeight, params.imgWidth, env.predict);
      var mask := Binarized(probs, params.valueThreshold);
      bin := mask;
      outcome := CheckContours(mask, env.extract(mask), env.fill);
    }

    /** The replay pass on one frame: load the saved mask and, when it shows a banner, the corners. */
    method ReplayFrame(env: Collaborators) returns (outcome: Outcome)
      requires Suits(env, params)
      modifies this`detectedMask, this`detectionSuccessful, this`savedPoints, this`loadSmooth, this`corners
      ensures (Replay(detectedMask, detectionSuccessful, Loading(savedPoints, loadSmooth, corners)), outcome)
              == AfterReplay(savedMasks,
                             Replay(old(detectedMask), old(detectionSuccessful),
                                    Loading(old(savedPoints), old(loadSmooth), old(corners))),
                             frameNum, env, params)
    {
      if frameNum !in savedMasks {
        return Raised(MissingMaskFile);
      }
      detectedMask := Some(savedMasks[frameNum]);
      if MaskLength(savedMasks[frameNum]) == 1 {
        detectionSuccessful := false;
        return Done;
      }
      outcome := LoadPoints(env);
      if outcome == Done {
        detectionSuccessful := true;
      }
    }

    /**
     * Checks the contours of the thresholded mask in order, tracking the
     * corner variables and the left and right centres, fills each
     * surviving contour into the mask, and saves the mask and the corner
     * row of the current frame.
     */
    method CheckContours(bin: Mask, contours: seq<Contour>, fill: (Mask, Contour) -> Mask) returns (outcome: Outcome)
      modifies this`savedPoints, this`savedMasks, this`centerLeft, this`centerRight
      ensures (Detection(savedPoints, savedMasks, centerLeft, centerRight), outcome)
              == AfterContours(Detection(old(savedPoints), old(savedMasks), old(centerLeft), old(centerRight)),
                               frameNum, bin, contours, params.filterAreaSize, fill)
    {
      var minArea := params.filterAreaSize;
      var firstCnt := true;
      var cs := Unbound;
      var mask := bin;
      ghost var s := Start;
      for i := 0 to |contours|
        invariant s == ScanAll(contours[..i], minArea)
        invariant firstCnt == !s.found && cs == s.corners
        invariant s.found ==> centerLeft == Some(s.centerLeft) && centerRight == Some(s.centerRight)
        invariant !s.found ==> centerLeft == old(centerLeft) && centerRight == old(centerRight)
        invariant mask == FillAll(bin, contours[..i], minArea, fill)
        invariant savedPoints == old(savedPoints) && savedMasks == old(savedMasks)
      {
        assert contours[..i + 1][..i] == contours[..i];
        var cnt := contours[i];
        if cnt.area > minArea {
          var xm, ym := cnt.center.x, cnt.center.y;
          if firstCnt {
            firstCnt := false;
            cs := ClassifyBox(cs, cnt.box, xm, ym, AssignAll);
            centerLeft := Some(xm);
            centerRight := Some(xm);
          } else if xm < centerLeft.value {
            cs := ClassifyBox(cs, cnt.box, xm, ym, AssignLeft);
            centerLeft := Some(xm);
          } else if xm > centerRight.value {
            cs := ClassifyBox(cs, cnt.box, xm, ym, AssignRight);
            centerRight := Some(xm);
          }
          mask := fill(mask, cnt);
        }
        s := Absorb(s, cnt, minArea);
      }
      assert contours[..|contours|] == contours;
      if firstCnt {
        savedMasks := savedMasks[frameNum := ZeroMarker];
        return Done;
      }
      savedMasks := savedMasks[frameNum := Saved(mask)];
      if !AllBound(cs) {
        return Raised(UnboundCorner);
      }
      savedPoints := savedPoints[frameNum := RecordFrom(cs)];
      outcome := Done;
    }

    /** Smooths the table on the first load of a video, then lists the current frame's corners. */
    method LoadPoints(env: Collaborators) returns (outcome: Outcome)
      requires Suits(env, params)
      modifies this`savedPoints, this`loadSmooth, this`corners
      ensures (Loading(savedPoints, loadSmooth, corners), outcome)
              == AfterLoad(Loading(old(savedPoints), old(loadSmooth), old(corners)), frameNum, env, params)
    {
      if loadSmooth && params.sourceType == 0 {
        outcome := SmoothPoints(env);
        if outcome != Done {
          return;
        }
        loadSmooth := false;
      }
      if frameNum !in savedPoints {
        return Raised(MissingRow);
      }
      corners := CornerOrder(savedPoints[frameNum]);
      outcome := Done;
    }

    /**
     * Stabilises the corner table: reads the rows in frame order, flags
     * the unstable sides, puts the right corners' y on the top edge line,
     * rebuilds the flagged sides, smooths the four y columns, and writes
     * the rows back. On failure the table is left as it was.
     */
    method SmoothPoints(env: Collaborators) returns (outcome: Outcome)
      requires Suits(env, params)
      modifies this`savedPoints
      ensures match SmoothedTable(old(savedPoints), env, params)
              case Ok(t) => outcome == Done && savedPoints == t
              case Err(e) => outcome == Raised(e) && savedPoints == old(savedPoints)
    {
      var table := savedPoints;
      var n := |table|;
      var rows: seq<Record> := [];
      for i := 0 to n
        invariant |rows| == i
        invariant forall k :: 0 <= k < i ==> k in table && rows[k] == table[k]
      {
        if i !in table {
          return Raised(MissingRow);
        }
        rows := rows + [table[i]];
      }
      assert rows == TableRows(table);
      var m := env.measure(rows);
      var res := StabilizeTable(rows, m, params.minWindow, params.maxWindow, params.polyDegree,
                                params.smoothThreshold, env.savgol);
      if res.Err? {
        return Raised(res.error);
      }
      var out := res.value;
      savedPoints := Overwritten(table, out);
      outcome := Done;
    }

    /**
     * Chooses the quadrilateral the logo is warped onto and, when the
     * banner is in frame, remembers its width.
     */
    method AdjustLogoShape() returns (quad: seq<Point>)
      requires frame != null && |corners| == 4 && ShapeDefined(corners, frame.Length1, oldWidth)
      modifies this`oldWidth
      ensures quad == TargetQuad(corners, frame.Length1, old(oldWidth))
      ensures oldWidth == NextOldWidth(corners, frame.Length1, old(oldWidth))
    {
      var c := corners;
      var width := frame.Length1;
      if RightTruncated(c, width) {
        var transformX := c[0].x + oldWidth.value;
        var yCoef := oldWidth.value / Abs(c[1].x - c[0].x);
        var transformYTop := c[0].y + Abs(c[2].y - c[0].y) * yCoef;
        var transformYBot := c[3].y + Abs(c[2].y - c[0].y) * yCoef;
        quad := [c[0], c[3], Point(transformX, transformYBot), Point(transformX, transformYTop)];
        assert TargetQuad(c, width, oldWidth)[3].y == transformYTop;
        assert TargetQuad(c, width, oldWidth)[2].y == transformYBot;
      } else if LeftTruncated(c, width) {
        var transformX := c[2].x - oldWidth.value;
        quad := [Point(transformX, c[0].y), Point(transformX, c[3].y), c[1], c[2]];
      } else {
        oldWidth := Some(Abs(c[1].x - c[0].x));
        quad := [c[0], c[3], c[1], c[2]];
      }
    }

    /** What pasting the logo needs: a frame, four corners with a defined target, and a loaded mask covering the frame. */
    predicate ReadyToInsert()
      reads this
    {
      && frame != null && |corners| == 4 && ShapeDefined(corners, frame.Length1, oldWidth)
      && detectedMask.Some? && detectedMask.value.Saved?
      && CoversGrid(detectedMask.value.cells, frame.Length0, frame.Length1)
    }

    /**
     * Pastes the warped logo over the masked pixels of the frame; does
     * nothing unless the banner was detected in this frame. The colour
     * adjustment reads the frame's banner crop first and fails, before
     * anything changes, when that crop is empty.
     */
    method InsertLogo(env: Collaborators) returns (outcome: Outcome)
      requires Suits(env, params)
      requires detectionSuccessful ==> ReadyToInsert()
      modifies this`oldWidth, frame
      ensures !detectionSuccessful ==> outcome == Done && oldWidth == old(oldWidth)
      ensures !detectionSuccessful && frame != null ==> unchanged(frame)
      ensures detectionSuccessful && CropEmpty(corners, frame.Length0, frame.Length1) ==>
                outcome == Raised(EmptyBannerCrop) && oldWidth == old(oldWidth) && unchanged(frame)
      ensures detectionSuccessful && !CropEmpty(corners, frame.Length0, frame.Length1) ==>
                var quad := TargetQuad(corners, frame.Length1, old(oldWidth));
                var warped := env.warp(old(FramePixels(frame)), corners, quad, frame.Length0, frame.Length1);
                var mask := detectedMask.value.cells;
                && outcome == Done
                && oldWidth == NextOldWidth(corners, frame.Length1, old(oldWidth))
                && forall k, j :: 0 <= k < frame.Length0 && 0 <= j < frame.Length1 ==>
                     frame[k, j] == if mask[k][j] == 1 then warped[k][j] else old(frame[k, j])
    {
      if !detectionSuccessful {
        return Done;
      }
      if CropEmpty(corners, frame.Length0, frame.Length1) {
        return Raised(EmptyBannerCrop);
      }
      var pixels := FramePixels(frame);
      var quad := AdjustLogoShape();
      var transformed := env.warp(pixels, corners, quad, frame.Length0, frame.Length1);
      ReplaceMasked(frame, detectedMask.value.cells, transformed);
      outcome := Done;
    }
  }
}
