/**
 * Smoothing of one coordinate series: every odd window length in
 * [minWindow, maxWindow) is tried with the Savitzky-Golay filter, and a
 * filtered series is accepted when no point moved by the threshold or
 * more. The last accepted window wins; the result is empty when none is
 * accepted.
 *
 * The filter itself is an uninterpreted function.
 */
module SeriesSmoothing {
  import opened Base

  /** The Savitzky-Golay filter: (series, window length, polynomial order) to filtered series. */
  type Filter = (seq<real>, nat, nat) -> seq<real>

  /** The filter returns a series as long as its input, whatever the window. */
  ghost predicate KeepsLength(savgol: Filter, s: seq<real>, poly: nat)
  {
    forall w: nat :: |savgol(s, w, poly)| == |s|
  }

  /** Every point of `out` lies strictly within `threshold` of the matching point of `s`. */
  predicate WithinDeviation(out: seq<real>, s: seq<real>, threshold: real)
    requires |out| == |s|
  {
    forall i :: 0 <= i < |s| ==> Abs(out[i] - s[i]) < threshold
  }

  /**
   * The filter's own demands for every odd window the loop tries: the
   * polynomial order is below the window, and the window is no longer than
   * the series.
   */
  predicate WindowsFit(n: nat, minWindow: nat, maxWindow: nat, poly: nat)
  {
    var first := if minWindow % 2 == 1 then minWindow else minWindow + 1;
    var last := if (maxWindow - 1) % 2 == 1 then maxWindow - 1 else maxWindow - 2;
    first <= last ==> poly < first && last <= n
  }

  /** The largest odd window below `hi` and at least `lo` whose filtered series is accepted. */
  function LastPassing(s: seq<real>, lo: nat, hi: nat, poly: nat, threshold: real, savgol: Filter): Option<nat>
    requires KeepsLength(savgol, s, poly)
    decreases hi
  {
    if hi <= lo then None
    else if (hi - 1) % 2 == 1 && WithinDeviation(savgol(s, hi - 1, poly), s, threshold) then Some(hi - 1)
    else LastPassing(s, lo, hi - 1, poly, threshold, savgol)
  }

  /** What the smoothing returns: the output of the last accepted window, or the empty series. */
  function Smoothed(s: seq<real>, lo: nat, hi: nat, poly: nat, threshold: real, savgol: Filter): seq<real>
    requires KeepsLength(savgol, s, poly)
  {
    match LastPassing(s, lo, hi, poly, threshold, savgol)
    case None => []
    case Some(w) => savgol(s, w, poly)
  }

  /** Tries the odd windows in increasing order, keeping the last accepted output. */
  method SmoothSeries(series: seq<real>, minWindow: nat, maxWindow: nat, poly: nat, threshold: real, savgol: Filter)
    returns (best: seq<real>)
    requires KeepsLength(savgol, series, poly)
    requires WindowsFit(|series|, minWindow, maxWindow, poly)
    ensures best == Smoothed(series, minWindow, maxWindow, poly, threshold, savgol)
  {
    best := [];
    var wnd := minWindow;
    while wnd < maxWindow
      invariant minWindow <= wnd
      invariant wnd == minWindow || wnd <= maxWindow
      invariant best == Smoothed(series, minWindow, wnd, poly, threshold, savgol)
      decreases maxWindow - wnd
    {
      if wnd % 2 == 0 {
        wnd := wnd + 1;
        continue;
      }
      var candidate := savgol(series, wnd, poly);
      if WithinDeviation(candidate, series, threshold) {
        best := candidate;
      }
      wnd := wnd + 1;
    }
    if maxWindow < minWindow {
      assert LastPassing(series, minWindow, wnd, poly, threshold, savgol) == None;
      assert LastPassing(series, minWindow, maxWindow, poly, threshold, savgol) == None;
    }
  }

  /**
   * The chosen window is odd, in range, accepted, and no larger odd window
   * in range is accepted; when none is chosen, no odd window in range is
   * accepted.
   */
  lemma {:induction false} LastPassingIsLargest(s: seq<real>, lo: nat, hi: nat, poly: nat, threshold: real, savgol: Filter)
    requires KeepsLength(savgol, s, poly)
    ensures match LastPassing(s, lo, hi, poly, threshold, savgol)
            case Some(w) =>
              && lo <= w < hi && w % 2 == 1
              && WithinDeviation(savgol(s, w, poly), s, threshold)
              && forall v: nat :: w < v < hi && v % 2 == 1 ==> !WithinDeviation(savgol(s, v, poly), s, threshold)
            case None =>
              forall v: nat :: lo <= v < hi && v % 2 == 1 ==> !WithinDeviation(savgol(s, v, poly), s, threshold)
    decreases hi
  {
    if hi > lo && !((hi - 1) % 2 == 1 && WithinDeviation(savgol(s, hi - 1, poly), s, threshold)) {
      LastPassingIsLargest(s, lo, hi - 1, poly, threshold, savgol);
    }
  }

  /**
   * A non-empty result is as long as the series and within the threshold
   * of it everywhere; an empty result on a non-empty series means that no
   * odd window in range was accepted.
   */
  lemma SmoothedAccepted(s: seq<real>, lo: nat, hi: nat, poly: nat, threshold: real, savgol: Filter)
    requires KeepsLength(savgol, s, poly)
    ensures var r := Smoothed(s, lo, hi, poly, threshold, savgol);
            && (r != [] ==> |r| == |s| && WithinDeviation(r, s, threshold))
            && (r == [] && s != [] ==>
                  forall v: nat :: lo <= v < hi && v % 2 == 1 ==> !WithinDeviation(savgol(s, v, poly), s, threshold))
  {
    LastPassingIsLargest(s, lo, hi, poly, threshold, savgol);
  }
}
