/**
 * Corner assignment from the rectangles fitted to the detected contours.
 *
 * Contour finding and rectangle fitting are foreign routines; their output
 * is given as a list of `Contour` values (area, centre of the fitted
 * rectangle, its four box points, and the outline that is filled back into
 * the mask). This module states how the corner variables and the running
 * left/right centres evolve over that list.
 */
module Contours {
  import opened Base
  import opened Geometry

  datatype Contour = Contour(area: real, center: Point, box: seq<Point>, outline: seq<Point>)

  /** The four corner variables; `None` is a variable never bound in this frame. */
  datatype Corners = Corners(topLeft: Option<Point>, botLeft: Option<Point>, topRight: Option<Point>, botRight: Option<Point>)

  const Unbound := Corners(None, None, None, None)

  predicate AllBound(c: Corners)
  {
    c.topLeft.Some? && c.botLeft.Some? && c.topRight.Some? && c.botRight.Some?
  }

  /** The table row written for four bound corners. */
  function RecordFrom(c: Corners): Record
    requires AllBound(c)
  {
    Record(c.topLeft.value.x, c.topLeft.value.y, c.topRight.value.x, c.topRight.value.y,
           c.botLeft.value.x, c.botLeft.value.y, c.botRight.value.x, c.botRight.value.y)
  }

  /**
   * Which box points a contour may assign: all four sides for the first
   * surviving contour, points left of the centre (x < xm) for a new left
   * piece, points right of it (x > xm) for a new right piece.
   */
  datatype Assign = AssignAll | AssignLeft | AssignRight

  function ClassifyPoint(acc: Corners, p: Point, xm: real, ym: real, mode: Assign): Corners
  {
    match mode
    case AssignAll =>
      if p.x < xm then (if p.y < ym then acc.(topLeft := Some(p)) else acc.(botLeft := Some(p)))
      else (if p.y < ym then acc.(topRight := Some(p)) else acc.(botRight := Some(p)))
    case AssignLeft =>
      if p.x < xm then (if p.y < ym then acc.(topLeft := Some(p)) else acc.(botLeft := Some(p)))
      else acc
    case AssignRight =>
      if p.x > xm then (if p.y < ym then acc.(topRight := Some(p)) else acc.(botRight := Some(p)))
      else acc
  }

  /** The corner variables after classifying the box points in order, later points overwriting earlier ones. */
  function Classified(acc: Corners, box: seq<Point>, xm: real, ym: real, mode: Assign): Corners
    decreases |box|
  {
    if box == [] then acc
    else ClassifyPoint(Classified(acc, box[..|box| - 1], xm, ym, mode), box[|box| - 1], xm, ym, mode)
  }

  /** Classifies the points of one box, one at a time. */
  method ClassifyBox(acc: Corners, box: seq<Point>, xm: real, ym: real, mode: Assign) returns (r: Corners)
    ensures r == Classified(acc, box, xm, ym, mode)
  {
    r := acc;
    for i := 0 to |box|
      invariant r == Classified(acc, box[..i], xm, ym, mode)
    {
      var p := box[i];
      assert box[..i + 1][..i] == box[..i];
      if mode.AssignAll? || (mode.AssignLeft? && p.x < xm) || (mode.AssignRight? && p.x > xm) {
        if p.x < xm {
          if p.y < ym { r := r.(topLeft := Some(p)); } else { r := r.(botLeft := Some(p)); }
        } else {
          if p.y < ym { r := r.(topRight := Some(p)); } else { r := r.(botRight := Some(p)); }
        }
      }
    }
    assert box[..|box|] == box;
  }

  /**
   * Every corner the classification changes is a point of the box on the
   * right side of the centre: a left corner has x < xm, a right corner
   * x >= xm, a top corner y < ym and a bottom corner y >= ym.
   */
  lemma {:induction false} ClassifiedPlacement(acc: Corners, box: seq<Point>, xm: real, ym: real, mode: Assign)
    ensures var r := Classified(acc, box, xm, ym, mode);
            && (r.topLeft != acc.topLeft ==> r.topLeft.Some? && r.topLeft.value in box && r.topLeft.value.x < xm && r.topLeft.value.y < ym)
            && (r.botLeft != acc.botLeft ==> r.botLeft.Some? && r.botLeft.value in box && r.botLeft.value.x < xm && r.botLeft.value.y >= ym)
            && (r.topRight != acc.topRight ==> r.topRight.Some? && r.topRight.value in box && r.topRight.value.x >= xm && r.topRight.value.y < ym)
            && (r.botRight != acc.botRight ==> r.botRight.Some? && r.botRight.value in box && r.botRight.value.x >= xm && r.botRight.value.y >= ym)
    decreases |box|
  {
    if box != [] {
      var init := box[..|box| - 1];
      ClassifiedPlacement(acc, init, xm, ym, mode);
      assert forall p :: p in init ==> p in box;
    }
  }

  /** A left pass never touches the right corners, and a right pass never touches the left ones. */
  lemma {:induction false} ClassifiedKeepsOtherSide(acc: Corners, box: seq<Point>, xm: real, ym: real, mode: Assign)
    ensures mode == AssignLeft ==>
              Classified(acc, box, xm, ym, mode).topRight == acc.topRight &&
              Classified(acc, box, xm, ym, mode).botRight == acc.botRight
    ensures mode == AssignRight ==>
              Classified(acc, box, xm, ym, mode).topLeft == acc.topLeft &&
              Classified(acc, box, xm, ym, mode).botLeft == acc.botLeft
    decreases |box|
  {
    if box != [] {
      ClassifiedKeepsOtherSide(acc, box[..|box| - 1], xm, ym, mode);
    }
  }

  /**
   * The state carried through the contour loop: whether a contour has
   * survived yet, the corner variables, and the running left and right
   * centres.
   */
  datatype Scan = Scan(found: bool, corners: Corners, centerLeft: real, centerRight: real)

  const Start := Scan(false, Unbound, 0.0, 0.0)

  /**
   * One contour of the loop. A contour whose area is at most `minArea` is
   * skipped. The first survivor assigns all four corners and sets both
   * centres to its centre x. A later survivor whose centre is left of the
   * left centre replaces the left corners; otherwise one right of the right
   * centre replaces the right corners; otherwise it changes nothing.
   */
  function Absorb(s: Scan, c: Contour, minArea: real): Scan
  {
    var xm := c.center.x;
    var ym := c.center.y;
    if c.area <= minArea then s
    else if !s.found then Scan(true, Classified(s.corners, c.box, xm, ym, AssignAll), xm, xm)
    else if xm < s.centerLeft then s.(corners := Classified(s.corners, c.box, xm, ym, AssignLeft), centerLeft := xm)
    else if xm > s.centerRight then s.(corners := Classified(s.corners, c.box, xm, ym, AssignRight), centerRight := xm)
    else s
  }

  /** The loop state after the contours `cs`, in order. */
  function ScanAll(cs: seq<Contour>, minArea: real): Scan
    decreases |cs|
  {
    if cs == [] then Start
    else Absorb(ScanAll(cs[..|cs| - 1], minArea), cs[|cs| - 1], minArea)
  }

  /** The contours larger than `minArea`, in order. */
  function Survivors(cs: seq<Contour>, minArea: real): (r: seq<Contour>)
    ensures forall c :: c in r <==> c in cs && c.area > minArea
    decreases |cs|
  {
    if cs == [] then []
    else
      assert cs == cs[..|cs| - 1] + [cs[|cs| - 1]];
      var init := Survivors(cs[..|cs| - 1], minArea);
      if cs[|cs| - 1].area > minArea then init + [cs[|cs| - 1]] else init
  }

  /** The mask after each surviving contour was filled into it, in order. */
  function FillAll(mask: Mask, cs: seq<Contour>, minArea: real, fill: (Mask, Contour) -> Mask): Mask
    decreases |cs|
  {
    if cs == [] then mask
    else
      var m := FillAll(mask, cs[..|cs| - 1], minArea, fill);
      if cs[|cs| - 1].area > minArea then fill(m, cs[|cs| - 1]) else m
  }

  /** Contours at or below the area threshold have no effect at all: the outcome depends on the survivors only. */
  lemma {:induction false} ScanIgnoresSmall(cs: seq<Contour>, minArea: real)
    ensures ScanAll(cs, minArea) == ScanAll(Survivors(cs, minArea), minArea)
    decreases |cs|
  {
    if cs != [] {
      var init := cs[..|cs| - 1];
      var c := cs[|cs| - 1];
      ScanIgnoresSmall(init, minArea);
      if c.area > minArea {
        var s := Survivors(init, minArea);
        assert (s + [c])[..|s + [c]| - 1] == s;
      }
    }
  }

  /** Likewise the filled mask: only surviving contours are drawn into it. */
  lemma {:induction false} FillIgnoresSmall(mask: Mask, cs: seq<Contour>, minArea: real, fill: (Mask, Contour) -> Mask)
    ensures FillAll(mask, cs, minArea, fill) == FillAll(mask, Survivors(cs, minArea), minArea, fill)
    decreases |cs|
  {
    if cs != [] {
      var init := cs[..|cs| - 1];
      var c := cs[|cs| - 1];
      FillIgnoresSmall(mask, init, minArea, fill);
      if c.area > minArea {
        var s := Survivors(init, minArea);
        assert (s + [c])[..|s + [c]| - 1] == s;
      }
    }
  }

  /** A contour survived exactly when some contour is larger than the threshold. */
  lemma {:induction false} FoundIffSurvivor(cs: seq<Contour>, minArea: real)
    ensures ScanAll(cs, minArea).found <==> exists i :: 0 <= i < |cs| && cs[i].area > minArea
    decreases |cs|
  {
    if cs != [] {
      var n := |cs| - 1;
      FoundIffSurvivor(cs[..n], minArea);
      if ScanAll(cs[..n], minArea).found {
        var i :| 0 <= i < n && cs[..n][i].area > minArea;
        assert cs[i] == cs[..n][i];
      }
      if exists i :: 0 <= i < n && cs[i].area > minArea {
        var i :| 0 <= i < n && cs[i].area > minArea;
        assert cs[..n][i] == cs[i];
      }
    }
  }

  /** Once a contour survived, the left centre never exceeds the right centre. */
  lemma {:induction false} CentersOrdered(cs: seq<Contour>, minArea: real)
    ensures ScanAll(cs, minArea).found ==> ScanAll(cs, minArea).centerLeft <= ScanAll(cs, minArea).centerRight
    decreases |cs|
  {
    if cs != [] {
      CentersOrdered(cs[..|cs| - 1], minArea);
    }
  }

  /**
   * Across the surviving contours the left centre never increases and the
   * right centre never decreases.
   */
  lemma {:induction false} CentersMonotone(cs: seq<Contour>, minArea: real, m: nat)
    requires m <= |cs|
    requires ScanAll(cs[..m], minArea).found
    ensures ScanAll(cs, minArea).found
    ensures ScanAll(cs, minArea).centerLeft <= ScanAll(cs[..m], minArea).centerLeft
    ensures ScanAll(cs, minArea).centerRight >= ScanAll(cs[..m], minArea).centerRight
    decreases |cs|
  {
    if m == |cs| {
      assert cs[..m] == cs;
    } else {
      var n := |cs| - 1;
      assert cs[..n][..m] == cs[..m];
      CentersMonotone(cs[..n], minArea, m);
    }
  }

  /**
   * After the first survivor, a contour replaces left corners only when it
   * survives and its centre is left of the left centre, and replaces right
   * corners only when it survives, is not left of the left centre and is
   * right of the right centre. It never replaces corners of both sides.
   */
  lemma AbsorbSides(s: Scan, c: Contour, minArea: real)
    requires s.found
    ensures var r := Absorb(s, c, minArea);
            && r.found
            && ((r.corners.topLeft != s.corners.topLeft || r.corners.botLeft != s.corners.botLeft) ==>
                  c.area > minArea && c.center.x < s.centerLeft)
            && ((r.corners.topRight != s.corners.topRight || r.corners.botRight != s.corners.botRight) ==>
                  c.area > minArea && !(c.center.x < s.centerLeft) && c.center.x > s.centerRight)
            && (r.centerLeft != s.centerLeft ==> r.centerLeft == c.center.x < s.centerLeft)
            && (r.centerRight != s.centerRight ==> s.centerRight < c.center.x == r.centerRight)
  {
    var xm, ym := c.center.x, c.center.y;
    ClassifiedKeepsOtherSide(s.corners, c.box, xm, ym, AssignLeft);
    ClassifiedKeepsOtherSide(s.corners, c.box, xm, ym, AssignRight);
  }

  /**
   * The corner variables can stay unbound even with a single surviving
   * contour: for a box turned by 45 degrees only one point lies left of
   * the centre and none lies above it on the left, so top_left is never
   * assigned and writing the row fails.
   */
  lemma DiamondLeavesTopLeftUnbound()
    ensures var diamond := Contour(100.0, Point(0.0, 0.0),
                                   [Point(-1.0, 0.0), Point(0.0, -1.0), Point(1.0, 0.0), Point(0.0, 1.0)], []);
            ScanAll([diamond], 50.0).found && !AllBound(ScanAll([diamond], 50.0).corners)
  {
    var diamond := Contour(100.0, Point(0.0, 0.0),
                           [Point(-1.0, 0.0), Point(0.0, -1.0), Point(1.0, 0.0), Point(0.0, 1.0)], []);
    assert [diamond][..0] == [];
    var b := diamond.box;
    assert b[..4] == b;
    assert b[..4][..3] == b[..3] && b[..3][..2] == b[..2] && b[..2][..1] == b[..1] && b[..1][..0] == [];
    assert Classified(Unbound, b[..1], 0.0, 0.0, AssignAll).topLeft == None;
    assert Classified(Unbound, b[..2], 0.0, 0.0, AssignAll).topLeft == None;
    assert Classified(Unbound, b[..3], 0.0, 0.0, AssignAll).topLeft == None;
    assert Classified(Unbound, b, 0.0, 0.0, AssignAll).topLeft == None;
  }

  /**
   * Point p is a box point of contour c, which is larger than `minArea`;
   * p is left of c's centre exactly when `left` and above it exactly when
   * `top`.
   */
  predicate FromContour(p: Point, c: Contour, minArea: real, left: bool, top: bool)
  {
    c.area > minArea && p in c.box && (left <==> p.x < c.center.x) && (top <==> p.y < c.center.y)
  }

  /** Point p comes, in the sense of `FromContour`, from some contour of `cs`. */
  predicate BoxPointOf(p: Point, cs: seq<Contour>, minArea: real, left: bool, top: bool)
  {
    exists i :: 0 <= i < |cs| && FromContour(p, cs[i], minArea, left, top)
  }

  /** A corner that one contour of the loop changes comes from that contour. */
  lemma AbsorbCorners(s: Scan, c: Contour, minArea: real)
    ensures var k := Absorb(s, c, minArea).corners;
            && (k.topLeft != s.corners.topLeft ==> k.topLeft.Some? && FromContour(k.topLeft.value, c, minArea, true, true))
            && (k.botLeft != s.corners.botLeft ==> k.botLeft.Some? && FromContour(k.botLeft.value, c, minArea, true, false))
            && (k.topRight != s.corners.topRight ==> k.topRight.Some? && FromContour(k.topRight.value, c, minArea, false, true))
            && (k.botRight != s.corners.botRight ==> k.botRight.Some? && FromContour(k.botRight.value, c, minArea, false, false))
  {
    var xm, ym := c.center.x, c.center.y;
    if c.area > minArea {
      if !s.found {
        ClassifiedPlacement(s.corners, c.box, xm, ym, AssignAll);
      } else if xm < s.centerLeft {
        ClassifiedPlacement(s.corners, c.box, xm, ym, AssignLeft);
      } else if xm > s.centerRight {
        ClassifiedPlacement(s.corners, c.box, xm, ym, AssignRight);
      }
    }
  }

  /** One corner variable across the last contour of `cs`: kept from the prefix, or set from that contour. */
  lemma CornerStep(before: Option<Point>, after: Option<Point>, cs: seq<Contour>, minArea: real, left: bool, top: bool)
    requires |cs| > 0
    requires before.Some? ==> BoxPointOf(before.value, cs[..|cs| - 1], minArea, left, top)
    requires after != before ==> after.Some? && FromContour(after.value, cs[|cs| - 1], minArea, left, top)
    ensures after.Some? ==> BoxPointOf(after.value, cs, minArea, left, top)
  {
    if after.Some? {
      if after == before {
        var i :| 0 <= i < |cs| - 1 && FromContour(before.value, cs[..|cs| - 1][i], minArea, left, top);
        assert cs[..|cs| - 1][i] == cs[i];
      } else {
        assert FromContour(after.value, cs[|cs| - 1], minArea, left, top);
      }
    }
  }

  /**
   * Every bound corner variable holds a box point of a contour above the
   * area filter, and lies on that corner's side of the contour's centre:
   * top-left left of and above it, bottom-right right of (or level with)
   * and below (or level with) it, and so on.
   */
  lemma {:induction false} CornersFromSurvivors(cs: seq<Contour>, minArea: real)
    ensures var k := ScanAll(cs, minArea).corners;
            && (k.topLeft.Some? ==> BoxPointOf(k.topLeft.value, cs, minArea, true, true))
            && (k.botLeft.Some? ==> BoxPointOf(k.botLeft.value, cs, minArea, true, false))
            && (k.topRight.Some? ==> BoxPointOf(k.topRight.value, cs, minArea, false, true))
            && (k.botRight.Some? ==> BoxPointOf(k.botRight.value, cs, minArea, false, false))
    decreases |cs|
  {
    if cs != [] {
      var init := cs[..|cs| - 1];
      CornersFromSurvivors(init, minArea);
      var s := ScanAll(init, minArea);
      var k := ScanAll(cs, minArea).corners;
      AbsorbCorners(s, cs[|cs| - 1], minArea);
      CornerStep(s.corners.topLeft, k.topLeft, cs, minArea, true, true);
      CornerStep(s.corners.botLeft, k.botLeft, cs, minArea, true, false);
      CornerStep(s.corners.topRight, k.topRight, cs, minArea, false, true);
      CornerStep(s.corners.botRight, k.botRight, cs, minArea, false, false);
    }
  }
}
