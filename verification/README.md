# UnetLogoInsertion: banner replacement control logic

This project models the control logic of `UnetLogoInsertion`, the banner
replacer of banner-detector, and proves properties of it. For every video
frame the replacer finds an advertising banner with a U-Net segmentation
network and pastes a logo over it. The host drives two passes:

- **Detection pass** (`before_smoothing` set). `detect_banner` does the following for each frame:
  - tiles the frame and keeps, for every pixel, the highest probability any tile predicted for it;
  - thresholds the result into a 0/1 mask;
  - walks the contours of the mask. Contours above the area filter contribute corners: the first one classifies all four corners around its centre; a later one replaces the left pair when its centre is further left, or the right pair when it is further right;
  - saves the filled mask, or a one-cell zero marker when no contour survived;
  - writes the corner row of the frame into the corner table.
- **Replay pass.** `detect_banner` does the following for each frame:
  - reloads the saved mask;
  - on the first load of a video, stabilises the whole corner table once. It flags frames whose top-left distance jumped and whose side moved. It puts the right y coordinates back on the top edge line. It rebuilds the x of an unstable side over a 20-row window from the other side, the side's height and the angle, with a fallback for rows whose width-to-height ratio drifted from 6.6. Finally it smooths the four y columns with the largest accepted Savitzky-Golay window;
  - lists the frame's corners. `insert_logo` then picks the quadrilateral the logo is warped onto and pastes the warped logo over the masked pixels. That quadrilateral is extrapolated from the remembered banner width when the banner is cut by the right or left border.

The modules follow the structure of the program:

| file | module | what it holds |
|---|---|---|
| Base.dfy | `Base` | option and result types, errors, pixels, masks, grids |
| Geometry.dfy | `Geometry` | corner rows, corner order, Python `round`, the top edge line |
| Tiling.dfy | `Tiling` | the full-size prediction sweep over the frame |
| Contours.dfy | `Contours` | corner classification and the contour scan |
| Smoothing.dfy | `SeriesSmoothing` | smoothing of one coordinate series |
| Stabilization.dfy | `Stabilization` | the whole-table stabilisation |
| Compositing.dfy | `Compositing` | the target quadrilateral, the sticky width, pixel replacement |
| Replacer.dfy | `LogoReplacer` | the replacer object and the per-frame state changes |

The replacer is a class whose fields are the object's attributes. The
operations on it are methods, and each is proved against a function on
values (`AfterContours`, `AfterReplay`, `AfterLoad`, `SmoothedTable`,
`TargetQuad`) about which the lemmas below are stated.

Exceptions the source raises become an `Outcome.Raised(e)` or a
`Result.Err(e)`, where `e` is one of the following:

- `UnboundCorner`: a corner variable was never bound before the row write;
- `MissingMaskFile`: no mask file was saved for the frame;
- `MissingRow`: the frame has no row in the table;
- `WindowOutOfRange`: a rebuild window leaves the table;
- `FilterWindow`: the filter refuses a window;
- `NoSmoothingWindow`: no window was accepted, so an empty series is written into a column;
- `EmptyBannerCrop`: the banner crop that the colour adjustment converts to HSV has no pixels.

Three behaviours of the code are easy to misread; the model follows the
code in each:

- The ratio-drift fallback of the correction pass also runs on rows that were flagged unstable. It is a separate `if` after the rebuilds, not an `else`.
- The remembered banner width is `|bot_right.x - top_left.x|`, not the top edge's width.
- The first surviving contour classifies all four corners. The left-only and right-only updates apply only to later contours.

## Model

| member | source | states |
|---|---|---|
| Geometry.CornerOrderRoundTrip | models/nn_models/UnetLogoInsertion.py:409-415 | listing a row's corners as [top_left, bot_right, top_right, bot_left] and reading them back gives the row, and the other way round |
| Geometry.Round | models/nn_models/UnetLogoInsertion.py:288-302 | Python's `round` gives an integer within 0.5 of its argument, and the even one on a tie |
| Geometry.TopEdgeThroughCorners | models/nn_models/UnetLogoInsertion.py:491-493 | the top edge line runs through the top-left and the top-right corner |
| Tiling.RowTiles | models/nn_models/UnetLogoInsertion.py:376-392 | definition: the tile offsets one row of the sweep visits and the column flag it leaves; its meaning is given by RowTilesInside, FlaggedRowIsOneTile and RowSetsFlag |
| Tiling.SweepTiles | models/nn_models/UnetLogoInsertion.py:371-395 | definition: the tile offsets of the whole sweep, row by row, stopping after the clamped last row; its meaning is given by SweepTilesInside, FlaggedSweepFirstColumn and SweepAfterFirstRow |
| Tiling.CellAfter | models/nn_models/UnetLogoInsertion.py:365-389 | definition: the value of one mask cell after merging the predictions of a list of tiles into a zero mask; its meaning is given by the CellAfter lemmas below |
| Tiling.RowTilesInside | models/nn_models/UnetLogoInsertion.py:376-382 | every tile of a row sweep lies on that row and within the frame's columns |
| Tiling.SweepTilesInside | models/nn_models/UnetLogoInsertion.py:371-382 | every tile of the full sweep lies inside the frame |
| Tiling.FlaggedRowIsOneTile | models/nn_models/UnetLogoInsertion.py:376-392 | once the column flag is set, a row visits only its first column, clamped |
| Tiling.RowSetsFlag | models/nn_models/UnetLogoInsertion.py:376-379 | with a step no larger than the tile width plus one, every row sweep ends by setting the column flag |
| Tiling.FlaggedSweepFirstColumn | models/nn_models/UnetLogoInsertion.py:367-395 | with the flag set, every later row visits only the first column |
| Tiling.SweepAfterFirstRow | models/nn_models/UnetLogoInsertion.py:367-395 | because the flag is never reset, the first row is swept in full and every tile after it is at the first column |
| Tiling.CellAfterNonNegative | models/nn_models/UnetLogoInsertion.py:365-389 | a merged cell is never below the zero it starts from |
| Tiling.CellAfterGrows | models/nn_models/UnetLogoInsertion.py:386-389 | a merged cell never decreases as tiles are visited |
| Tiling.CellAfterAtLeast | models/nn_models/UnetLogoInsertion.py:386-389 | a merged cell is at least every prediction of a tile covering it |
| Tiling.CellAfterAttained | models/nn_models/UnetLogoInsertion.py:365-389 | a merged cell is 0 or the prediction of some tile covering it |
| Tiling.Crop | models/nn_models/UnetLogoInsertion.py:382 | the crop of a tile inside the frame has the tile's size |
| Tiling.MergeTile | models/nn_models/UnetLogoInsertion.py:386-389 | every mask cell becomes the maximum of its old value and the covering prediction, and cells outside the tile keep their value |
| Tiling.VisitTile | models/nn_models/UnetLogoInsertion.py:381-389 | predicting and merging one tile extends the visited tiles by it and keeps the mask equal to the merge of all predictions so far |
| Tiling.SweepRow | models/nn_models/UnetLogoInsertion.py:376-392 | the inner loop visits exactly the row's tiles, in order, and returns the flag the row leaves |
| Tiling.PredictFullSize | models/nn_models/UnetLogoInsertion.py:350-397 | the mask is fresh and equals, cell by cell, the maximum merge of the predictions of exactly the sweep's tiles |
| Contours.Absorb | models/nn_models/UnetLogoInsertion.py:139-188 | definition: the scan state after one contour, unchanged at or below the area filter; its meaning is given by AbsorbSides, AbsorbCorners, CentersMonotone and ClassifiedPlacement |
| Contours.ScanAll | models/nn_models/UnetLogoInsertion.py:138-188 | definition: the scan state after all contours in order; its meaning is given by FoundIffSurvivor, CornersFromSurvivors, CentersOrdered and ScanIgnoresSmall |
| Contours.ClassifyBox | models/nn_models/UnetLogoInsertion.py:153-187 | the classification loop over the box points computes the corner assignment for the first contour, the left pair or the right pair |
| Contours.ClassifiedPlacement | models/nn_models/UnetLogoInsertion.py:153-163 | every corner that changes is a box point in that corner's quadrant around the centre |
| Contours.ClassifiedKeepsOtherSide | models/nn_models/UnetLogoInsertion.py:170-187 | a left update never touches the right corners, and a right update never touches the left ones |
| Contours.Survivors | models/nn_models/UnetLogoInsertion.py:139 | a contour is among the survivors exactly when it is in the list and its area is above the filter |
| Contours.ScanIgnoresSmall | models/nn_models/UnetLogoInsertion.py:138-139 | contours at or below the area filter do not change the scan |
| Contours.FillIgnoresSmall | models/nn_models/UnetLogoInsertion.py:139-191 | only surviving contours are drawn into the mask |
| Contours.FoundIffSurvivor | models/nn_models/UnetLogoInsertion.py:134-194 | the first-contour flag is cleared exactly when some contour is above the area filter |
| Contours.CentersOrdered | models/nn_models/UnetLogoInsertion.py:165-188 | the left centre never lies right of the right centre |
| Contours.CentersMonotone | models/nn_models/UnetLogoInsertion.py:171-188 | the left centre only moves left and the right centre only moves right |
| Contours.AbsorbSides | models/nn_models/UnetLogoInsertion.py:169-188 | a later contour changes left corners only when its centre is left of the left centre, and right corners only when it is right of the right centre and not left of the left centre |
| Contours.AbsorbCorners | models/nn_models/UnetLogoInsertion.py:151-188 | every corner one contour changes is a point of that contour's box, on the corner's side of the contour's centre in x and in y, and the contour is above the area filter |
| Contours.CornersFromSurvivors | models/nn_models/UnetLogoInsertion.py:138-188 | after the scan, every bound corner is a box point of some contour above the area filter, lying on that corner's side of the contour's centre in x and in y |
| Contours.DiamondLeavesTopLeftUnbound | models/nn_models/UnetLogoInsertion.py:153-163 | a diamond-shaped box leaves top_left unbound, so the row write cannot complete |
| SeriesSmoothing.LastPassing | models/nn_models/UnetLogoInsertion.py:574-579 | definition: the last odd window in range whose filtered series stays within the threshold; its meaning is given by LastPassingIsLargest |
| SeriesSmoothing.Smoothed | models/nn_models/UnetLogoInsertion.py:571-581 | definition: the filtered series for the window LastPassing chooses, or the empty series; its meaning is given by SmoothedAccepted |
| SeriesSmoothing.SmoothSeries | models/nn_models/UnetLogoInsertion.py:559-581 | the loop returns the output of the last odd window in range whose filtered series stays within the threshold, or the empty series |
| SeriesSmoothing.LastPassingIsLargest | models/nn_models/UnetLogoInsertion.py:574-579 | the chosen window is odd, in range and accepted, and no larger odd window in range is accepted; with none chosen, none is accepted |
| SeriesSmoothing.SmoothedAccepted | models/nn_models/UnetLogoInsertion.py:571-581 | a non-empty result is as long as the series and strictly within the threshold of it everywhere |
| Stabilization.LostSide | models/nn_models/UnetLogoInsertion.py:464-471 | collects, in increasing order, exactly the rows whose top-left distance jumped by more than 5; row 0 never qualifies |
| Stabilization.UnstableSides | models/nn_models/UnetLogoInsertion.py:473-484 | a row is unstable on a side exactly when it was collected and that side's top x moved by more than 9 |
| Stabilization.ColumnsOf | models/nn_models/UnetLogoInsertion.py:464-484 | one set of per-row inputs per row, and row 0 is never flagged unstable |
| Stabilization.Rectified | models/nn_models/UnetLogoInsertion.py:491-494 | rectification changes only y_bot_right |
| Stabilization.RectifiedOnShiftedEdge | models/nn_models/UnetLogoInsertion.py:491-494 | the rectified bottom-right corner lies on the top edge line shifted down by the left height |
| Stabilization.RectifyAll | models/nn_models/UnetLogoInsertion.py:486-494 | rectifying the table keeps every column except y_bot_right |
| Stabilization.RebuildRightWindow | models/nn_models/UnetLogoInsertion.py:508-518 | rebuilds the right corners of exactly the rows of the window from their left corners |
| Stabilization.RebuildLeftWindow | models/nn_models/UnetLogoInsertion.py:522-533 | rebuilds the left corners of exactly the rows of the window from their right corners |
| Stabilization.Fallback | models/nn_models/UnetLogoInsertion.py:535-552 | definition: the ratio-drift fallback of one row, keeping the table's length; its meaning is given by StepUnflagged, FallbackUsesShadowedLeft and FallbackUsesShadowedRight |
| Stabilization.Step | models/nn_models/UnetLogoInsertion.py:498-552 | definition: one row of the correction pass, keeping the table's length; its meaning is given by StepKeepsY, StepRightOnly, StepLeftOnly, StepBothSides, StepUnflagged and LatestIsMostRecent |
| Stabilization.PassUpTo | models/nn_models/UnetLogoInsertion.py:496-552 | definition: the correction pass over the first m rows, keeping the table's length; its meaning is given by PassKeepsY and CorrectionPass |
| Stabilization.PassRow | models/nn_models/UnetLogoInsertion.py:498-552 | one row of the correction pass does what the step function says, anchors included |
| Stabilization.CorrectionPass | models/nn_models/UnetLogoInsertion.py:496-552 | the pass over all rows computes the step function applied to every row in order |
| Stabilization.StepKeepsY | models/nn_models/UnetLogoInsertion.py:498-552 | one row of the pass changes no y coordinate |
| Stabilization.PassKeepsY | models/nn_models/UnetLogoInsertion.py:496-552 | the whole pass changes no y coordinate |
| Stabilization.StepRightOnly | models/nn_models/UnetLogoInsertion.py:506-518 | a right-unstable row rebuilds the right corners of its window from the left corners, and leaves every left x and every row outside the window alone |
| Stabilization.StepLeftOnly | models/nn_models/UnetLogoInsertion.py:520-533 | a left-unstable row rebuilds the left corners of its window from the right corners, and leaves every right x and every row outside the window alone |
| Stabilization.StepBothSides | models/nn_models/UnetLogoInsertion.py:506-533 | a row unstable on both sides rebuilds the right side first and then the left one from it, and left is then the latest side |
| Stabilization.StepUnflagged | models/nn_models/UnetLogoInsertion.py:535-552 | an unflagged row changes only itself, and only by the drift fallback on the latest side within the bounds 1278 and 2 |
| Stabilization.FallbackUsesShadowedLeft | models/nn_models/UnetLogoInsertion.py:520-543 | after a left rebuild, the fallback uses row x + 9's right corners as its anchors |
| Stabilization.FallbackUsesShadowedRight | models/nn_models/UnetLogoInsertion.py:506-552 | after a right rebuild, the fallback uses row x + 9's left corners as its anchors |
| Stabilization.LatestIsMostRecent | models/nn_models/UnetLogoInsertion.py:496-521 | the latest side is that of the most recently flagged row, with left winning within one row |
| Stabilization.Stabilize | models/nn_models/UnetLogoInsertion.py:464-557 | definition: flagging, rectification, the correction pass and the four smoothings, or the first failure; its meaning is given by StabilizeMeaning |
| Stabilization.StabilizeTable | models/nn_models/UnetLogoInsertion.py:464-557 | flagging, rectification, the correction pass and the four smoothings compute the stabilised table or its first failure |
| Stabilization.SmoothColumnsMeaning | models/nn_models/UnetLogoInsertion.py:554-557 | smoothing the y columns keeps the row count and every x, and moves every y by less than the threshold |
| Stabilization.StabilizeMeaning | models/nn_models/UnetLogoInsertion.py:486-557 | a stabilised table has one row per input row, the x of the correction pass, and every y within the threshold of the detected value; for y_bot_right the comparison is with the rectified value |
| Compositing.SelectRegime | models/nn_models/UnetLogoInsertion.py:288-302 | definition: cut on the right when top_right or bot_right rounds to the last column or beyond, else cut on the left when top_left or bot_left rounds to 0 or below, else in frame; its meaning is given by RightBeforeLeft, RightEdgeAtBorder and InFrameMargins |
| Compositing.TargetQuad | models/nn_models/UnetLogoInsertion.py:283-312 | definition: the four target corners, one per regime; its meaning is given by InFrameTargetIsBanner, RightCropTarget and LeftCropTarget |
| Compositing.NextOldWidth | models/nn_models/UnetLogoInsertion.py:310-312 | definition: the remembered width after one frame; its meaning is given by StickyWidth and WidthKeptOutOfFrame |
| Compositing.WidthAfter | models/nn_models/UnetLogoInsertion.py:310-312 | definition: the remembered width after a run of frames, folding NextOldWidth over them in order |
| Compositing.InFrameTargetIsBanner | models/nn_models/UnetLogoInsertion.py:283-312 | with the banner in frame, the target is the banner's top-left, bottom-left, bottom-right and top-right corners |
| Compositing.RightCropTarget | models/nn_models/UnetLogoInsertion.py:288-300 | cut on the right, the left edge is kept, the top edge spans the remembered width, and the rebuilt right edge is vertical with the left edge's height |
| Compositing.LeftCropTarget | models/nn_models/UnetLogoInsertion.py:302-308 | cut on the left, the right edge is kept, and the rebuilt vertical left edge lies the remembered width to its left |
| Compositing.RightBeforeLeft | models/nn_models/UnetLogoInsertion.py:288-302 | a banner cut on both sides is treated as cut on the right |
| Compositing.StickyWidth | models/nn_models/UnetLogoInsertion.py:288-312 | after a run of frames the remembered width is the bottom-right to top-left x distance of the last frame whose banner was in frame |
| Compositing.WidthKeptOutOfFrame | models/nn_models/UnetLogoInsertion.py:288-312 | after a run of frames none of which has its banner in frame, the remembered width is the one before the run |
| Compositing.LastInFrameDrop | models/nn_models/UnetLogoInsertion.py:288-312 | the last in-frame frame of a run is the run's last frame when that one is in frame, and otherwise the last in-frame frame of the shorter run |
| Compositing.RightEdgeAtBorder | models/nn_models/UnetLogoInsertion.py:288-289 | a top-right x on the last column selects the right cut and keeps the remembered width |
| Compositing.InFrameMargins | models/nn_models/UnetLogoInsertion.py:288-302 | in frame, every left x is at least 0.5 and every right x at most width - 1.5 |
| Compositing.Trunc | models/nn_models/UnetLogoInsertion.py:327-328 | Python's `int` on a number truncates toward zero: it rounds down from non-negative values and up from negative ones |
| Compositing.SliceBound | models/nn_models/UnetLogoInsertion.py:327-328 | a slice bound selects an index between 0 and the axis length, and a bound already in that range is kept |
| Compositing.CropNonEmptyInFrame | models/nn_models/UnetLogoInsertion.py:327-335 | a banner inside the frame, at least one pixel wide and high from top-left to bottom-right, gives a non-empty crop |
| Compositing.CropEmptyWhenInverted | models/nn_models/UnetLogoInsertion.py:327-335 | a bottom-right corner at or left of the top-left one, inside the frame, gives an empty crop, on which the colour conversion fails |
| Compositing.FramePixels | models/nn_models/UnetLogoInsertion.py:327-328 | the frame read as a grid of rows holds the frame's pixel at every position |
| Compositing.ReplaceMasked | models/nn_models/UnetLogoInsertion.py:120-123 | every pixel whose mask cell is 1 becomes the warped logo's pixel, and every other pixel is kept |
| LogoReplacer.AfterContours | models/nn_models/UnetLogoInsertion.py:125-204 | definition: the table, saved masks and centres after the contour check, or the unbound-corner failure; its meaning is given by AtMostOneRowPerFrame and SmallContoursIgnored |
| LogoReplacer.SmoothedTable | models/nn_models/UnetLogoInsertion.py:417-557 | definition: the corner table after stabilisation, or the failure; its meaning is given by SmoothedTableKeepsFrames and WriteBack |
| LogoReplacer.AfterLoad | models/nn_models/UnetLogoInsertion.py:399-415 | definition: the table, the smoothing flag and the corners after loading a frame's points; its meaning is given by SmoothOnce |
| LogoReplacer.AfterReplay | models/nn_models/UnetLogoInsertion.py:88-99 | definition: the state after the replay branch of one frame; its meaning is given by ReplayGate |
| LogoReplacer.Binarized | models/nn_models/UnetLogoInsertion.py:83 | the mask has the frame's size and a cell is 1 exactly when its probability is above the threshold, else 0 |
| LogoReplacer.AtMostOneRowPerFrame | models/nn_models/UnetLogoInsertion.py:138-204 | a detected frame adds at most its own corner row and keeps every other row; the zero marker is saved exactly when no contour survives; a raise leaves the table alone; the written row's four corners are box points of surviving contours, each on its own side of its contour's centre |
| LogoReplacer.SmallContoursIgnored | models/nn_models/UnetLogoInsertion.py:138-139 | dropping the contours at or below the area filter gives the same state and outcome |
| LogoReplacer.SmoothedTableKeepsFrames | models/nn_models/UnetLogoInsertion.py:417-557 | smoothing keeps every frame number and moves each y by less than the threshold; a gap in the frame numbers fails with a missing row |
| LogoReplacer.WriteBack | models/nn_models/UnetLogoInsertion.py:554-557 | writing the rows back keeps the frame numbers, and reading the table again gives the rows written |
| LogoReplacer.SmoothOnce | models/nn_models/UnetLogoInsertion.py:403-415 | a video's table is smoothed on the first completed load only; other sources are never smoothed; a completed load lists the corners of the frame's own row |
| LogoReplacer.ReplayGate | models/nn_models/UnetLogoInsertion.py:88-99 | a one-row saved mask means no banner and leaves the corners alone; a completed replay with any other mask is successful, with that frame's corners |
| LogoReplacer.UnetLogoInsertion.constructor | models/nn_models/UnetLogoInsertion.py:17-32 | a fresh object: nothing detected, frame 0, detection pass first, smoothing due, an empty table |
| LogoReplacer.UnetLogoInsertion.DetectBanner | models/nn_models/UnetLogoInsertion.py:69-101 | stores the frame, runs the detection or the replay branch as specified, and advances the frame counter only when nothing raised |
| LogoReplacer.UnetLogoInsertion.DetectFrame | models/nn_models/UnetLogoInsertion.py:77-86 | the thresholded mask is the full-size prediction above the threshold, and the state change is the contour check's |
| LogoReplacer.UnetLogoInsertion.ReplayFrame | models/nn_models/UnetLogoInsertion.py:88-99 | the replay branch changes the state as the replay function says |
| LogoReplacer.UnetLogoInsertion.CheckContours | models/nn_models/UnetLogoInsertion.py:125-204 | the contour loop changes the table, the saved masks and the centres as the contour-check function says |
| LogoReplacer.UnetLogoInsertion.LoadPoints | models/nn_models/UnetLogoInsertion.py:399-415 | loading the points changes the table, the flag and the corners as the load function says |
| LogoReplacer.UnetLogoInsertion.SmoothPoints | models/nn_models/UnetLogoInsertion.py:417-557 | the table becomes the smoothed table, or the call raises its error and leaves the table as it was |
| LogoReplacer.UnetLogoInsertion.AdjustLogoShape | models/nn_models/UnetLogoInsertion.py:283-312 | returns the target quadrilateral and updates the remembered width as the sticky-width rule says |
| LogoReplacer.UnetLogoInsertion.InsertLogo | models/nn_models/UnetLogoInsertion.py:103-123 | without a detection nothing changes; with an empty banner crop it raises and nothing changes; otherwise the masked pixels become those of the logo adjusted to the frame before the paste and warped onto the target, and the remembered width is updated |

## Left out

- Building, training and the loss and metric functions of the network (`build_model`, `__train_model`, `__loss`, `__dice_loss`, `__dice_coef`) are not modelled. The network is the `predict` function of `Collaborators`: a tile of the input size goes to a probability grid of the same size.
- The arithmetic of the logo colour adjustment (`__logo_color_adj`) is not modelled. It converts to HSV, takes means and divides by the logo's mean saturation, so it works in floating point on pixel data. Reading the logo image, the adjustment and the perspective warp are together the `warp` function. It is given the frame's pixels before the paste, the banner corners and the target quadrilateral, and it returns a frame-sized pixel grid. The model keeps one failure of the adjustment: an empty banner crop, which the colour conversion refuses (`EmptyBannerCrop`).
- A logo that cannot be read, and a logo whose mean saturation is 0, are not modelled. With a mean of 0, numpy's division gives an infinite or undefined coefficient without raising.
- Contour extraction (`cv2.findContours`), the minimum-area rectangle with its box points and area, and `cv2.drawContours` are the `extract` and `fill` functions. Contours carry their area, centre and box as given.
- The measured columns of the table are the `measure` function, given as one value per row. These are the distances to the centre, the two side heights and the angle. They come from square roots and arc cosines, and the centre columns are only their intermediates.
- The extra DataFrame columns that smoothing adds (ratios, flags, heights) are not kept in the table. The table holds only the eight corner coordinates.
- The Savitzky-Golay filter is the `savgol` function, which keeps the length of the series. The window restrictions of `savgol_filter` appear only as the `FilterWindow` error.
- Saving and loading mask files (`np.save`, `np.load`) are the map `savedMasks` from frame number to what was saved.
- Switching from the detection pass to the replay pass is left to the host. Flipping `before_smoothing` and resetting the frame counter between passes happen outside the object and are not modelled.
- Floating-point effects are not modelled: rounding of float32 and float64, and the conversion of box points to float32. Coordinates are exact reals, and `round` ties to even as Python's does.
- LogoReplacer.UnetLogoInsertion.SmoothPoints reports all of its errors before the table is changed. The code raises midway and may leave the new y columns or the partly rebuilt x values in the table.
- Stabilization.Stabilize gives `DegenerateTopEdge` for a row whose top edge is vertical (x_top_right equal to x_top_left). The code then divides by zero and writes infinities or NaN into the table without raising.
- Stabilization.Stabilize checks every rebuild window and the filter's window demands before doing any work. When several failures apply, it reports the first in this order: empty table, vertical top edge, window out of range, filter window, no accepted window. The code meets them in the order of its loops.
- LogoReplacer.UnetLogoInsertion.DetectBanner requires in the detection pass that the tile fits the frame and the step is positive (`TilingFits`). With a tile larger than the frame or a zero step, the code's slicing and `range` behave in ways this model does not describe.
- LogoReplacer.UnetLogoInsertion.InsertLogo requires, when the frame was detected, four corners with a defined target and a saved mask covering the frame (`ReadyToInsert`). It does not model the code's failures in the remaining cases: no remembered width for a cut banner, or a zero visible width in the right-cut formula.
