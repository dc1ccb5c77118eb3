/**
 * The full-frame prediction sweep: the frame is cut into tiles of the
 * network's input size, each tile is predicted, and the predictions are
 * merged into a frame-sized probability mask by an element-wise maximum.
 *
 * The segmentation network is an uninterpreted function from a tile of
 * pixels to a tile of probabilities.
 */
module Tiling {
  import opened Base

  /** Top-left corner (row k, column j) of one tile in the frame. */
  datatype Offset = Offset(k: int, j: int)

  type Tile = seq<seq<Pixel>>
  type Probabilities = seq<seq<real>>

  /** The network maps every tile of the input size to probabilities of the same size. */
  ghost predicate PredictsTiles(predict: Tile -> Probabilities, h: nat, w: nat)
  {
    forall t :: IsGrid(t, h, w) ==> IsGrid(predict(t), h, w)
  }

  /** Cell (y, x) of the frame lies under the h-by-w tile at `o`. */
  predicate Covers(o: Offset, h: nat, w: nat, y: int, x: int)
  {
    o.k <= y < o.k + h && o.j <= x < o.j + w
  }

  /** The h-by-w tile at `o` lies inside a frame of `height` rows and `width` columns. */
  predicate Inside(o: Offset, h: nat, w: nat, height: nat, width: nat)
  {
    0 <= o.k && o.k + h <= height && 0 <= o.j && o.j + w <= width
  }

  // ---------------------------------------------------------------------
  // Which tiles are visited
  // ---------------------------------------------------------------------

  /**
   * The tiles of one row: columns j0, j0 + step, ... below `width`. A column
   * whose tile would reach the last column (j0 + w >= width - 1) is clamped to
   * width - w and sets the column flag; once the flag is set the row stops
   * after its current tile. The flag is carried in (`flagJ`) and out (second
   * component): the sweep never resets it between rows.
   */
  function RowTiles(k: int, j0: int, width: int, w: int, step: nat, flagJ: bool): (seq<Offset>, bool)
    requires step > 0
    decreases width - j0
  {
    if j0 >= width then ([], flagJ)
    else
      var clamp := j0 + w >= width - 1;
      var j := if clamp then width - w else j0;
      if flagJ || clamp then ([Offset(k, j)], true)
      else
        var rest := RowTiles(k, j0 + step, width, w, step, false);
        ([Offset(k, j)] + rest.0, rest.1)
  }

  /**
   * The tiles of the rows k0, k0 + step, ... below `height`, in visiting
   * order. A row whose tile would reach the last row is clamped to
   * height - h and is the last row visited.
   */
  function SweepTiles(k0: int, height: int, h: int, width: int, w: int, step: nat, flagJ: bool): seq<Offset>
    requires step > 0
    decreases height - k0
  {
    if k0 >= height then []
    else
      var clampK := k0 + h >= height - 1;
      var k := if clampK then height - h else k0;
      var row := RowTiles(k, 0, width, w, step, flagJ);
      if clampK then row.0
      else row.0 + SweepTiles(k0 + step, height, h, width, w, step, row.1)
  }

  /** The row of the first tiles visited. */
  function FirstRow(height: int, h: int): int
  {
    if h >= height - 1 then height - h else 0
  }

  /** The column of the first tile of a row. */
  function FirstColumn(width: int, w: int): int
  {
    if w >= width - 1 then width - w else 0
  }

  lemma {:induction false} RowTilesInside(k: int, j0: int, width: nat, w: nat, step: nat, flagJ: bool)
    requires step > 0 && w <= width && 0 <= j0
    ensures forall o :: o in RowTiles(k, j0, width, w, step, flagJ).0 ==> o.k == k && 0 <= o.j <= width - w
    decreases width - j0
  {
    if j0 < width && !(flagJ || j0 + w >= width - 1) {
      RowTilesInside(k, j0 + step, width, w, step, false);
    }
  }

  /** Clamping keeps every visited tile inside the frame. */
  lemma {:induction false} SweepTilesInside(k0: int, height: nat, h: nat, width: nat, w: nat, step: nat, flagJ: bool)
    requires step > 0 && h <= height && w <= width && 0 <= k0
    ensures forall o :: o in SweepTiles(k0, height, h, width, w, step, flagJ) ==> Inside(o, h, w, height, width)
    decreases height - k0
  {
    if k0 < height {
      var clampK := k0 + h >= height - 1;
      var k := if clampK then height - h else k0;
      RowTilesInside(k, 0, width, w, step, flagJ);
      if !clampK {
        SweepTilesInside(k0 + step, height, h, width, w, step, RowTiles(k, 0, width, w, step, flagJ).1);
      }
    }
  }

  /** With the column flag already set, a row is one tile in its first column. */
  lemma FlaggedRowIsOneTile(k: int, width: int, w: int, step: nat)
    requires step > 0 && width > 0
    ensures RowTiles(k, 0, width, w, step, true) == ([Offset(k, FirstColumn(width, w))], true)
  {
  }

  /** A step no wider than a tile plus one always reaches the clamp, so the first row sets the column flag. */
  lemma {:induction false} RowSetsFlag(k: int, j0: int, width: int, w: int, step: nat)
    requires 0 < step <= w + 1 && 0 <= j0 < width
    ensures RowTiles(k, j0, width, w, step, false).1
    decreases width - j0
  {
    if j0 + w < width - 1 {
      RowSetsFlag(k, j0 + step, width, w, step);
    }
  }

  /** Once the column flag is set, every later row contributes only its first column. */
  lemma {:induction false} FlaggedSweepFirstColumn(k0: int, height: int, h: int, width: int, w: int, step: nat)
    requires step > 0 && width > 0
    ensures forall o :: o in SweepTiles(k0, height, h, width, w, step, true) ==> o.j == FirstColumn(width, w)
    decreases height - k0
  {
    if k0 < height {
      var k := if k0 + h >= height - 1 then height - h else k0;
      FlaggedRowIsOneTile(k, width, w, step);
      if k0 + h < height - 1 {
        FlaggedSweepFirstColumn(k0 + step, height, h, width, w, step);
      }
    }
  }

  /**
   * The sweep's flag quirk: when the step is at most one more than the tile
   * width, every tile after the first row is the first-column tile of its
   * row.
   */
  lemma SweepAfterFirstRow(height: int, h: int, width: int, w: int, step: nat)
    requires 0 < step <= w + 1 && height > 0 && width > 0
    ensures var all := SweepTiles(0, height, h, width, w, step, false);
            var first := RowTiles(FirstRow(height, h), 0, width, w, step, false).0;
            |first| <= |all| && all[..|first|] == first &&
            forall i :: |first| <= i < |all| ==> all[i].j == FirstColumn(width, w)
  {
    var all := SweepTiles(0, height, h, width, w, step, false);
    var row := RowTiles(FirstRow(height, h), 0, width, w, step, false);
    if h < height - 1 {
      RowSetsFlag(FirstRow(height, h), 0, width, w, step);
      var rest := SweepTiles(step, height, h, width, w, step, true);
      assert all == row.0 + rest;
      FlaggedSweepFirstColumn(step, height, h, width, w, step);
      forall i | |row.0| <= i < |all| ensures all[i].j == FirstColumn(width, w) {
        assert all[i] == rest[i - |row.0|];
        assert rest[i - |row.0|] in rest;
      }
    }
  }

  // ---------------------------------------------------------------------
  // How predictions are merged
  // ---------------------------------------------------------------------

  /** One cell after merging the tile `pred` at `o` into a cell holding `v`: the larger value wins. */
  function MergeCell(v: real, o: Offset, pred: Probabilities, h: nat, w: nat, y: int, x: int): real
    requires IsGrid(pred, h, w)
  {
    if Covers(o, h, w, y, x) && pred[y - o.k][x - o.j] > v then pred[y - o.k][x - o.j] else v
  }

  predicate AllGrids(preds: seq<Probabilities>, h: nat, w: nat)
  {
    forall i :: 0 <= i < |preds| ==> IsGrid(preds[i], h, w)
  }

  /** Cell (y, x) of a zero mask after the tiles `offs` with predictions `preds` were merged in order. */
  function CellAfter(offs: seq<Offset>, preds: seq<Probabilities>, h: nat, w: nat, y: int, x: int): real
    requires |preds| == |offs| && AllGrids(preds, h, w)
    decreases |offs|
  {
    if offs == [] then 0.0
    else
      var n := |offs| - 1;
      MergeCell(CellAfter(offs[..n], preds[..n], h, w, y, x), offs[n], preds[n], h, w, y, x)
  }

  lemma CellAfterSnoc(offs: seq<Offset>, preds: seq<Probabilities>, o: Offset, pred: Probabilities, h: nat, w: nat, y: int, x: int)
    requires |preds| == |offs| && AllGrids(preds, h, w) && IsGrid(pred, h, w)
    ensures AllGrids(preds + [pred], h, w)
    ensures CellAfter(offs + [o], preds + [pred], h, w, y, x)
            == MergeCell(CellAfter(offs, preds, h, w, y, x), o, pred, h, w, y, x)
  {
    assert (offs + [o])[..|offs|] == offs;
    assert (preds + [pred])[..|preds|] == preds;
  }

  /** No cell is ever below 0, the value the mask starts with. */
  lemma {:induction false} CellAfterNonNegative(offs: seq<Offset>, preds: seq<Probabilities>, h: nat, w: nat, y: int, x: int)
    requires |preds| == |offs| && AllGrids(preds, h, w)
    ensures CellAfter(offs, preds, h, w, y, x) >= 0.0
    decreases |offs|
  {
    if offs != [] {
      var n := |offs| - 1;
      CellAfterNonNegative(offs[..n], preds[..n], h, w, y, x);
    }
  }

  /** Merging more tiles never lowers a cell. */
  lemma {:induction false} CellAfterGrows(offs: seq<Offset>, preds: seq<Probabilities>, m: nat, h: nat, w: nat, y: int, x: int)
    requires |preds| == |offs| && AllGrids(preds, h, w) && m <= |offs|
    ensures CellAfter(offs[..m], preds[..m], h, w, y, x) <= CellAfter(offs, preds, h, w, y, x)
    decreases |offs|
  {
    if m < |offs| {
      var n := |offs| - 1;
      assert offs[..n][..m] == offs[..m];
      assert preds[..n][..m] == preds[..m];
      CellAfterGrows(offs[..n], preds[..n], m, h, w, y, x);
    } else {
      assert offs[..m] == offs;
      assert preds[..m] == preds;
    }
  }

  /** A cell is at least every prediction made for it by a tile covering it. */
  lemma {:induction false} CellAfterAtLeast(offs: seq<Offset>, preds: seq<Probabilities>, i: nat, h: nat, w: nat, y: int, x: int)
    requires |preds| == |offs| && AllGrids(preds, h, w) && i < |offs|
    requires Covers(offs[i], h, w, y, x)
    ensures CellAfter(offs, preds, h, w, y, x) >= preds[i][y - offs[i].k][x - offs[i].j]
    decreases |offs|
  {
    var n := |offs| - 1;
    if i < n {
      CellAfterAtLeast(offs[..n], preds[..n], i, h, w, y, x);
    }
  }

  /** A cell is either still 0 or holds the prediction of one of the tiles covering it. */
  lemma {:induction false} CellAfterAttained(offs: seq<Offset>, preds: seq<Probabilities>, h: nat, w: nat, y: int, x: int)
    requires |preds| == |offs| && AllGrids(preds, h, w)
    ensures var v := CellAfter(offs, preds, h, w, y, x);
            v == 0.0 ||
            exists i :: 0 <= i < |offs| && Covers(offs[i], h, w, y, x) && v == preds[i][y - offs[i].k][x - offs[i].j]
    decreases |offs|
  {
    if offs != [] {
      var n := |offs| - 1;
      CellAfterAttained(offs[..n], preds[..n], h, w, y, x);
      var prev := CellAfter(offs[..n], preds[..n], h, w, y, x);
      if prev != 0.0 && CellAfter(offs, preds, h, w, y, x) == prev {
        var i :| 0 <= i < n && Covers(offs[..n][i], h, w, y, x)
                 && prev == preds[..n][i][y - offs[..n][i].k][x - offs[..n][i].j];
        assert offs[..n][i] == offs[i] && preds[..n][i] == preds[i];
      }
    }
  }

  // ---------------------------------------------------------------------
  // The sweep itself
  // ---------------------------------------------------------------------

  /** The h-by-w block of the frame at `o`: the network's input. */
  function Crop(frame: array2<Pixel>, o: Offset, h: nat, w: nat): (t: Tile)
    reads frame
    requires Inside(o, h, w, frame.Length0, frame.Length1)
    ensures IsGrid(t, h, w)
  {
    seq(h, r requires 0 <= r < h reads frame =>
      seq(w, c requires 0 <= c < w reads frame => frame[o.k + r, o.j + c]))
  }

  /**
   * `mask` is what the sweep has built after visiting the tiles `offs`:
   * each visited tile lies in the frame, `preds` holds the network's output
   * for it, and every cell is the merge of those outputs into a zero mask.
   */
  ghost predicate Swept(frame: array2<Pixel>, mask: array2<real>, offs: seq<Offset>, preds: seq<Probabilities>,
                        h: nat, w: nat, predict: Tile -> Probabilities)
    reads frame, mask
  {
    && mask.Length0 == frame.Length0 && mask.Length1 == frame.Length1
    && |preds| == |offs| && AllGrids(preds, h, w)
    && (forall i :: 0 <= i < |offs| ==>
          Inside(offs[i], h, w, frame.Length0, frame.Length1) && preds[i] == predict(Crop(frame, offs[i], h, w)))
    && (forall y, x :: 0 <= y < mask.Length0 && 0 <= x < mask.Length1 ==>
          mask[y, x] == CellAfter(offs, preds, h, w, y, x))
  }

  /** Merges the tile prediction `pred` at `o` into `mask`, cell by cell, keeping the larger value. */
  method MergeTile(mask: array2<real>, o: Offset, pred: Probabilities, h: nat, w: nat)
    requires Inside(o, h, w, mask.Length0, mask.Length1)
    requires IsGrid(pred, h, w)
    modifies mask
    ensures forall y, x :: 0 <= y < mask.Length0 && 0 <= x < mask.Length1 ==>
              mask[y, x] == MergeCell(old(mask[y, x]), o, pred, h, w, y, x)
  {
    for yy := 0 to h
      invariant forall y, x :: 0 <= y < mask.Length0 && 0 <= x < mask.Length1 ==>
                  mask[y, x] == if y < o.k + yy then MergeCell(old(mask[y, x]), o, pred, h, w, y, x) else old(mask[y, x])
    {
      for xx := 0 to w
        invariant forall y, x :: 0 <= y < mask.Length0 && 0 <= x < mask.Length1 ==>
                    mask[y, x] == if y < o.k + yy || (y == o.k + yy && x < o.j + xx)
                                  then MergeCell(old(mask[y, x]), o, pred, h, w, y, x)
                                  else old(mask[y, x])
      {
        if pred[yy][xx] > mask[o.k + yy, o.j + xx] {
          mask[o.k + yy, o.j + xx] := pred[yy][xx];
        }
      }
    }
  }

  /** Predicts the tile at `o` and merges the prediction into the mask. */
  method VisitTile(frame: array2<Pixel>, mask: array2<real>, o: Offset, h: nat, w: nat, predict: Tile -> Probabilities,
                   ghost offs: seq<Offset>, ghost preds: seq<Probabilities>)
    returns (ghost offs': seq<Offset>, ghost preds': seq<Probabilities>)
    requires Swept(frame, mask, offs, preds, h, w, predict)
    requires Inside(o, h, w, frame.Length0, frame.Length1)
    requires PredictsTiles(predict, h, w)
    modifies mask
    ensures Swept(frame, mask, offs', preds', h, w, predict)
    ensures offs' == offs + [o] && |preds'| == |preds| + 1 && preds'[..|preds|] == preds
  {
    var pred := predict(Crop(frame, o, h, w));
    MergeTile(mask, o, pred, h, w);
    forall y, x | 0 <= y < mask.Length0 && 0 <= x < mask.Length1
      ensures mask[y, x] == CellAfter(offs + [o], preds + [pred], h, w, y, x)
    {
      CellAfterSnoc(offs, preds, o, pred, h, w, y, x);
    }
    offs', preds' := offs + [o], preds + [pred];
    assert preds'[..|preds|] == preds;
  }

  /** Concatenation is associative. */
  lemma ConcatAssoc(a: seq<Offset>, b: seq<Offset>, c: seq<Offset>)
    ensures (a + b) + c == a + (b + c)
  {
  }

  /** One row of the sweep: visits the tiles of `RowTiles` and returns the column flag it leaves. */
  method SweepRow(frame: array2<Pixel>, mask: array2<real>, k: int, h: nat, w: nat, step: nat,
                  predict: Tile -> Probabilities, flagJ: bool,
                  ghost offs: seq<Offset>, ghost preds: seq<Probabilities>)
    returns (flagOut: bool, ghost offs': seq<Offset>, ghost preds': seq<Probabilities>)
    requires step > 0 && w <= frame.Length1
    requires 0 <= k && k + h <= frame.Length0
    requires Swept(frame, mask, offs, preds, h, w, predict)
    requires PredictsTiles(predict, h, w)
    modifies mask
    ensures Swept(frame, mask, offs', preds', h, w, predict)
    ensures offs' == offs + RowTiles(k, 0, frame.Length1, w, step, flagJ).0
    ensures flagOut == RowTiles(k, 0, frame.Length1, w, step, flagJ).1
  {
    var width := frame.Length1;
    ghost var row := RowTiles(k, 0, width, w, step, flagJ);
    ghost var done: seq<Offset> := [];
    offs', preds' := offs, preds;
    flagOut := flagJ;
    var j0 := 0;
    while j0 < width
      invariant 0 <= j0
      invariant offs' == offs + done
      invariant done + RowTiles(k, j0, width, w, step, flagOut).0 == row.0
      invariant RowTiles(k, j0, width, w, step, flagOut).1 == row.1
      invariant Swept(frame, mask, offs', preds', h, w, predict)
      decreases width - j0
    {
      ghost var flagBefore := flagOut;
      var j := j0;
      if j0 + w >= width - 1 {
        j := width - w;
        flagOut := true;
      }
      offs', preds' := VisitTile(frame, mask, Offset(k, j), h, w, predict, offs', preds');
      ghost var before := done;
      done := done + [Offset(k, j)];
      if flagOut {
        assert RowTiles(k, j0, width, w, step, flagBefore) == ([Offset(k, j)], true);
        break;
      }
      ghost var rest := RowTiles(k, j0 + step, width, w, step, flagOut).0;
      assert RowTiles(k, j0, width, w, step, flagBefore).0 == [Offset(k, j)] + rest;
      ConcatAssoc(before, [Offset(k, j)], rest);
      j0 := j0 + step;
    }
  }

  /** The sweep from row k0 is the clamped row's tiles followed, unless that row was the last, by the sweep of the next row. */
  lemma SweepTilesUnfold(k0: int, height: int, h: int, width: int, w: int, step: nat, flagJ: bool)
    requires step > 0 && k0 < height
    ensures var clampK := k0 + h >= height - 1;
            var row := RowTiles(if clampK then height - h else k0, 0, width, w, step, flagJ);
            SweepTiles(k0, height, h, width, w, step, flagJ)
            == row.0 + (if clampK then [] else SweepTiles(k0 + step, height, h, width, w, step, row.1))
  {
  }

  /**
   * Predicts the whole frame tile by tile. Returns the merged mask together
   * with (as ghosts) the tiles visited and the prediction made for each.
   */
  method PredictFullSize(frame: array2<Pixel>, h: nat, w: nat, step: nat, predict: Tile -> Probabilities)
    returns (mask: array2<real>, ghost offs: seq<Offset>, ghost preds: seq<Probabilities>)
    requires step > 0 && h <= frame.Length0 && w <= frame.Length1
    requires PredictsTiles(predict, h, w)
    ensures fresh(mask)
    ensures offs == SweepTiles(0, frame.Length0, h, frame.Length1, w, step, false)
    ensures Swept(frame, mask, offs, preds, h, w, predict)
  {
    var height, width := frame.Length0, frame.Length1;
    ghost var total := SweepTiles(0, height, h, width, w, step, false);
    mask := new real[height, width]((y, x) => 0.0);
    offs, preds := [], [];
    var flagK, flagJ := false, false;
    var k0 := 0;
    while k0 < height
      invariant 0 <= k0 && !flagK
      invariant offs + SweepTiles(k0, height, h, width, w, step, flagJ) == total
      invariant Swept(frame, mask, offs, preds, h, w, predict)
      decreases height - k0
    {
      var k := k0;
      if k0 + h >= height - 1 {
        k := height - h;
        flagK := true;
      }
      SweepTilesUnfold(k0, height, h, width, w, step, flagJ);
      ghost var before := offs;
      ghost var row := RowTiles(k, 0, width, w, step, flagJ);
      ghost var rest := if flagK then [] else SweepTiles(k0 + step, height, h, width, w, step, row.1);
      flagJ, offs, preds := SweepRow(frame, mask, k, h, w, step, predict, flagJ, offs, preds);
      ConcatAssoc(before, row.0, rest);
      if flagK {
        break;
      }
      k0 := k0 + step;
    }
  }
}
