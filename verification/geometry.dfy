/** Axis-aligned boxes in the image plane: zooming a box about its centre,
    the bounding box of a set of 2D points, and the smallest square around a
    rectangle (src/aspset510/geometry.py). Coordinates are exact reals. */
module Geometry {
  import opened Base

  datatype Point2 = Point2(x: real, y: real)

  /** A region of interest (x1, y1, x2, y2): two opposite corners. */
  datatype Roi = Roi(x1: real, y1: real, x2: real, y2: real)
  {
    function CentreX(): real { (x1 + x2) / 2.0 }
    function CentreY(): real { (y1 + y2) / 2.0 }
    function Width(): real { x2 - x1 }
    function Height(): real { y2 - y1 }

    predicate Contains(p: Point2) { x1 <= p.x <= x2 && y1 <= p.y <= y2 }

    /** `inner` lies inside this box. */
    predicate Encloses(inner: Roi)
    {
      x1 <= inner.x1 && inner.x2 <= x2 && y1 <= inner.y1 && inner.y2 <= y2
    }
  }

  /** The 2D transforms the source builds as 3x3 homogeneous matrices with a
      uniform scale and a translation: p maps to (s * p.x + tx, s * p.y + ty). */
  datatype Transform = Transform(s: real, tx: real, ty: real)

  function Translation(dx: real, dy: real): Transform { Transform(1.0, dx, dy) }

  function Scaling(s: real): Transform { Transform(s, 0.0, 0.0) }

  function Apply(t: Transform, p: Point2): Point2
  {
    Point2(t.s * p.x + t.tx, t.s * p.y + t.ty)
  }

  /** The matrix product B . A: apply `a` first, then `b`. */
  function Then(a: Transform, b: Transform): (r: Transform)
    ensures forall p :: Apply(r, p) == Apply(b, Apply(a, p))
  {
    Transform(b.s * a.s, b.s * a.tx + b.tx, b.s * a.ty + b.ty)
  }

  /** The left fold `reduce(lambda A, B: B . A, ts)`: the transforms are
      applied in list order. */
  function Compose(ts: seq<Transform>): Transform
    requires |ts| > 0
  {
    if |ts| == 1 then ts[0] else Then(Compose(ts[..|ts| - 1]), ts[|ts| - 1])
  }

  /** Dividing by `z` is multiplying by its inverse. */
  lemma DivByInverse(a: real, z: real)
    requires z != 0.0
    ensures a / z == a * (1.0 / z)
  {
    assert (a * (1.0 / z)) * z == a * ((1.0 / z) * z);
  }

  /** The three-step composition of `ZoomRoi` maps a coordinate `v` with
      centre `c` to `c + (v - c) / zoom`. */
  lemma ZoomCoordinate(v: real, c: real, zoom: real)
    requires zoom != 0.0
    ensures (1.0 / zoom) * v + ((1.0 / zoom) * -c + c) == c + (v - c) / zoom
  {
    DivByInverse(v - c, zoom);
    assert (1.0 / zoom) * v + (1.0 / zoom) * -c == (v - c) * (1.0 / zoom);
  }

  /** The three steps of a zoom about (cx, cy), composed: a scaling by
      1 / zoom that keeps (cx, cy) fixed. */
  lemma ZoomTransform(cx: real, cy: real, zoom: real)
    requires zoom != 0.0
    ensures Compose([Translation(-cx, -cy), Scaling(1.0 / zoom), Translation(cx, cy)])
         == Transform(1.0 / zoom, (1.0 / zoom) * -cx + cx, (1.0 / zoom) * -cy + cy)
  {
    var ts := [Translation(-cx, -cy), Scaling(1.0 / zoom), Translation(cx, cy)];
    assert ts[..2] == [ts[0], ts[1]] && ts[..2][..1] == [ts[0]];
    assert Compose(ts[..2]) == Then(ts[0], ts[1]);
  }

  /** A corner under the composed zoom moves towards or away from the
      centre by the factor 1 / zoom. */
  lemma ZoomPoint(x: real, y: real, cx: real, cy: real, zoom: real)
    requires zoom != 0.0
    ensures Apply(Transform(1.0 / zoom, (1.0 / zoom) * -cx + cx, (1.0 / zoom) * -cy + cy), Point2(x, y))
         == Point2(cx + (x - cx) / zoom, cy + (y - cy) / zoom)
  {
    ZoomCoordinate(x, cx, zoom);
    ZoomCoordinate(y, cy, zoom);
  }

  /** A zoom of 1 leaves a coordinate where it is. */
  lemma ZoomByOne(v: real, c: real)
    ensures v == c + (v - c) / 1.0
  {
  }

  /** Zooms a box about its centre: a zoom above 1 shrinks the box, a zoom
      below 1 enlarges it. A zoom of 0 divides by zero in the source, so the
      caller must not pass it. */
  function ZoomRoi(roi: Roi, zoom: real): (r: Roi)
    requires zoom != 0.0
    ensures zoom == 1.0 ==> r == roi
    ensures r.x1 == roi.CentreX() + (roi.x1 - roi.CentreX()) / zoom
    ensures r.y1 == roi.CentreY() + (roi.y1 - roi.CentreY()) / zoom
    ensures r.x2 == roi.CentreX() + (roi.x2 - roi.CentreX()) / zoom
    ensures r.y2 == roi.CentreY() + (roi.y2 - roi.CentreY()) / zoom
  {
    if zoom == 1.0 then
      ZoomByOne(roi.x1, roi.CentreX());
      ZoomByOne(roi.x2, roi.CentreX());
      ZoomByOne(roi.y1, roi.CentreY());
      ZoomByOne(roi.y2, roi.CentreY());
      roi
    else
      var cx, cy := roi.CentreX(), roi.CentreY();
      var t := Compose([Translation(-cx, -cy), Scaling(1.0 / zoom), Translation(cx, cy)]);
      ZoomTransform(cx, cy, zoom);
      ZoomPoint(roi.x1, roi.y1, cx, cy, zoom);
      ZoomPoint(roi.x2, roi.y2, cx, cy, zoom);
      var c1 := Apply(t, Point2(roi.x1, roi.y1));
      var c2 := Apply(t, Point2(roi.x2, roi.y2));
      Roi(c1.x, c1.y, c2.x, c2.y)
  }

  /** One axis of a zoom: the interval [a, b] mapped about its midpoint
      keeps its midpoint and has its length divided by the zoom. */
  lemma ZoomAxis(a: real, b: real, zoom: real)
    requires zoom != 0.0
    ensures var c := (a + b) / 2.0;
      var a', b' := c + (a - c) / zoom, c + (b - c) / zoom;
      (a' + b') / 2.0 == c && b' - a' == (b - a) / zoom
  {
    var c := (a + b) / 2.0;
    var k := 1.0 / zoom;
    DivByInverse(a - c, zoom);
    DivByInverse(b - c, zoom);
    DivByInverse(b - a, zoom);
    assert (a - c) * k + (b - c) * k == ((a - c) + (b - c)) * k;
    assert (b - c) * k - (a - c) * k == ((b - c) - (a - c)) * k;
  }

  /** Zooming keeps the centre of the box and divides its width and height
      by the zoom. */
  lemma ZoomKeepsCentre(roi: Roi, zoom: real)
    requires zoom != 0.0
    ensures ZoomRoi(roi, zoom).CentreX() == roi.CentreX()
    ensures ZoomRoi(roi, zoom).CentreY() == roi.CentreY()
    ensures ZoomRoi(roi, zoom).Width() == roi.Width() / zoom
    ensures ZoomRoi(roi, zoom).Height() == roi.Height() / zoom
  {
    ZoomAxis(roi.x1, roi.x2, zoom);
    ZoomAxis(roi.y1, roi.y2, zoom);
  }

  /** The smallest value of a non-empty list. */
  function Min(xs: seq<real>): (m: real)
    requires |xs| > 0
    ensures forall i :: 0 <= i < |xs| ==> m <= xs[i]
    ensures exists i :: 0 <= i < |xs| && xs[i] == m
  {
    if |xs| == 1 then xs[0]
    else
      var rest := Min(xs[1..]);
      assert forall i :: 1 <= i < |xs| ==> xs[1..][i - 1] == xs[i];
      if xs[0] <= rest then xs[0] else rest
  }

  /** The largest value of a non-empty list. */
  function Max(xs: seq<real>): (m: real)
    requires |xs| > 0
    ensures forall i :: 0 <= i < |xs| ==> xs[i] <= m
    ensures exists i :: 0 <= i < |xs| && xs[i] == m
  {
    if |xs| == 1 then xs[0]
    else
      var rest := Max(xs[1..]);
      assert forall i :: 1 <= i < |xs| ==> xs[1..][i - 1] == xs[i];
      if rest <= xs[0] then xs[0] else rest
  }

  function Xs(points: seq<Point2>): (r: seq<real>)
    ensures |r| == |points| && forall i :: 0 <= i < |points| ==> r[i] == points[i].x
  {
    seq(|points|, i requires 0 <= i < |points| => points[i].x)
  }

  function Ys(points: seq<Point2>): (r: seq<real>)
    ensures |r| == |points| && forall i :: 0 <= i < |points| ==> r[i] == points[i].y
  {
    seq(|points|, i requires 0 <= i < |points| => points[i].y)
  }

  /** Why `RoiContainingPoints2d` fails: the negative-zoom assertion, the
      minimum of an empty array, and the division by a zero zoom. */
  datatype GeometryError = NegativeZoom | NoPoints | ZeroZoom

  /** The bounding box of the points, zoomed about its centre. */
  function RoiContainingPoints2d(points: seq<Point2>, zoom: real): (r: Result<Roi, GeometryError>)
    ensures zoom < 0.0 ==> r == Err(NegativeZoom)
    ensures zoom >= 0.0 && |points| == 0 ==> r == Err(NoPoints)
    ensures zoom == 0.0 && |points| > 0 ==> r == Err(ZeroZoom)
    ensures r.Ok? <==> zoom > 0.0 && |points| > 0
  {
    if zoom < 0.0 then Err(NegativeZoom)
    else if |points| == 0 then Err(NoPoints)
    else if zoom == 0.0 then Err(ZeroZoom)
    else
      var xs, ys := Xs(points), Ys(points);
      Ok(ZoomRoi(Roi(Min(xs), Min(ys), Max(xs), Max(ys)), zoom))
  }

  /** With the default zoom of 1 the result is the tight bounding box: every
      point lies inside it and each of its four sides touches a point. */
  lemma TightBoundingBox(points: seq<Point2>)
    requires |points| > 0
    ensures RoiContainingPoints2d(points, 1.0).Ok?
    ensures forall p :: p in points ==> RoiContainingPoints2d(points, 1.0).value.Contains(p)
    ensures var b := RoiContainingPoints2d(points, 1.0).value;
      && (exists p :: p in points && p.x == b.x1) && (exists p :: p in points && p.x == b.x2)
      && (exists p :: p in points && p.y == b.y1) && (exists p :: p in points && p.y == b.y2)
  {
    var xs, ys := Xs(points), Ys(points);
    var b := RoiContainingPoints2d(points, 1.0).value;
    assert b == Roi(Min(xs), Min(ys), Max(xs), Max(ys));
    forall p | p in points ensures b.Contains(p) {
      var i :| 0 <= i < |points| && points[i] == p;
      assert xs[i] == p.x && ys[i] == p.y;
    }
    var i1 :| 0 <= i1 < |xs| && xs[i1] == Min(xs);
    assert points[i1] in points;
    var i2 :| 0 <= i2 < |xs| && xs[i2] == Max(xs);
    assert points[i2] in points;
    var j1 :| 0 <= j1 < |ys| && ys[j1] == Min(ys);
    assert points[j1] in points;
    var j2 :| 0 <= j2 < |ys| && ys[j2] == Max(ys);
    assert points[j2] in points;
  }

  /** One axis of a zoom by a factor in (0, 1]: the interval only grows. */
  lemma ZoomOutAxis(a: real, b: real, zoom: real)
    requires 0.0 < zoom <= 1.0 && a <= b
    ensures var c := (a + b) / 2.0;
      c + (a - c) / zoom <= a && b <= c + (b - c) / zoom
  {
    var c := (a + b) / 2.0;
    var k := 1.0 / zoom;
    assert k >= 1.0 by {
      assert k * zoom == 1.0;
    }
    DivByInverse(a - c, zoom);
    DivByInverse(b - c, zoom);
    assert (a - c) * k <= (a - c) * 1.0 by { assert a - c <= 0.0; }
    assert (b - c) * k >= (b - c) * 1.0 by { assert b - c >= 0.0; }
  }

  /** Zooming by a factor in (0, 1] only enlarges a well-formed box. */
  lemma ZoomOutEncloses(roi: Roi, zoom: real)
    requires 0.0 < zoom <= 1.0
    requires roi.x1 <= roi.x2 && roi.y1 <= roi.y2
    ensures ZoomRoi(roi, zoom).Encloses(roi)
  {
    ZoomOutAxis(roi.x1, roi.x2, zoom);
    ZoomOutAxis(roi.y1, roi.y2, zoom);
  }

  /** Every point lies inside the box found for it when the zoom is in (0, 1]. */
  lemma RoiContainsPoints(points: seq<Point2>, zoom: real)
    requires |points| > 0 && 0.0 < zoom <= 1.0
    ensures RoiContainingPoints2d(points, zoom).Ok?
    ensures forall p :: p in points ==> RoiContainingPoints2d(points, zoom).value.Contains(p)
  {
    var xs, ys := Xs(points), Ys(points);
    var tight := Roi(Min(xs), Min(ys), Max(xs), Max(ys));
    TightBoundingBox(points);
    assert tight == RoiContainingPoints2d(points, 1.0).value;
    ZoomOutEncloses(tight, zoom);
  }

  /** A zoomed bounding box is the tight box zoomed about its centre: it keeps
      the tight box's centre and has its sides divided by the zoom. */
  lemma ZoomedBoundingBox(points: seq<Point2>, zoom: real)
    requires |points| > 0 && zoom > 0.0
    ensures var tight := RoiContainingPoints2d(points, 1.0).value;
      var r := RoiContainingPoints2d(points, zoom).value;
      && r.CentreX() == tight.CentreX() && r.CentreY() == tight.CentreY()
      && r.Width() == tight.Width() / zoom && r.Height() == tight.Height() / zoom
  {
    var xs, ys := Xs(points), Ys(points);
    ZoomKeepsCentre(Roi(Min(xs), Min(ys), Max(xs), Max(ys)), zoom);
  }

  /** The three points of the source's tests. */
  function ExamplePoints(): seq<Point2>
  {
    [Point2(-5.0, 15.0), Point2(10.0, 0.0), Point2(5.0, 20.0)]
  }

  /** A value of the list that bounds all of it from below is its minimum,
      and one that bounds it from above is its maximum. */
  lemma Extremes(xs: seq<real>, i: nat, j: nat)
    requires i < |xs| && j < |xs|
    requires forall k :: 0 <= k < |xs| ==> xs[i] <= xs[k] <= xs[j]
    ensures Min(xs) == xs[i] && Max(xs) == xs[j]
  {
  }

  /** The extremes of the test points' x coordinates. */
  lemma ExampleExtremesX()
    ensures Min(Xs(ExamplePoints())) == -5.0 && Max(Xs(ExamplePoints())) == 10.0
  {
    var xs := Xs(ExamplePoints());
    assert xs[0] == -5.0 && xs[1] == 10.0 && xs[2] == 5.0;
    Extremes(xs, 0, 1);
  }

  /** The extremes of the test points' y coordinates. */
  lemma ExampleExtremesY()
    ensures Min(Ys(ExamplePoints())) == 0.0 && Max(Ys(ExamplePoints())) == 20.0
  {
    var ys := Ys(ExamplePoints());
    assert ys[0] == 15.0 && ys[1] == 0.0 && ys[2] == 20.0;
    Extremes(ys, 1, 2);
  }

  /** With the default zoom the test points give the box (-5, 0, 10, 20). */
  lemma BoundingBoxExample()
    ensures RoiContainingPoints2d(ExamplePoints(), 1.0) == Ok(Roi(-5.0, 0.0, 10.0, 20.0))
  {
    ExampleExtremesX();
    ExampleExtremesY();
  }

  /** Zooming the test box by 0.5 doubles it about its centre (2.5, 10). */
  lemma ZoomExample()
    ensures ZoomRoi(Roi(-5.0, 0.0, 10.0, 20.0), 0.5) == Roi(-12.5, -10.0, 17.5, 30.0)
  {
  }

  /** With zoom 0.5 the box is doubled about its centre to (-12.5, -10, 17.5, 30). */
  lemma ZoomedBoundingBoxExample()
    ensures RoiContainingPoints2d(ExamplePoints(), 0.5) == Ok(Roi(-12.5, -10.0, 17.5, 30.0))
  {
    ExampleExtremesX();
    ExampleExtremesY();
    ZoomExample();
  }

  /** The square with the rectangle's centre whose side is the longer of the
      rectangle's width and height. */
  function SquareContainingRectangle(rect: Roi): (r: Roi)
    ensures r.Width() == r.Height()
    ensures r.Width() == if rect.Width() >= rect.Height() then rect.Width() else rect.Height()
    ensures r.CentreX() == rect.CentreX() && r.CentreY() == rect.CentreY()
    ensures rect.x1 <= rect.x2 && rect.y1 <= rect.y2 ==> r.Encloses(rect)
  {
    var cx, cy := rect.CentreX(), rect.CentreY();
    var s := (if rect.Width() >= rect.Height() then rect.Width() else rect.Height()) / 2.0;
    Roi(cx - s, cy - s, cx + s, cy + s)
  }
}
