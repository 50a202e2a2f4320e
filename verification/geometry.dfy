/** The edge-routing geometry of Views/test.py: a connection between two room
    rectangles is clipped to their borders, and a connection too short to draw
    becomes a marker at its midpoint.  Qt's `QLineF::intersects` is restated here
    over exact reals. */
module Geometry {
  import opened Wrappers

  datatype Point = Point(x: real, y: real)

  function Plus(p: Point, q: Point): Point { Point(p.x + q.x, p.y + q.y) }
  function Minus(p: Point, q: Point): Point { Point(p.x - q.x, p.y - q.y) }
  function Scale(p: Point, k: real): Point { Point(p.x * k, p.y * k) }

  /** A `QLineF` from `p1` to `p2`. */
  datatype Line = Line(p1: Point, p2: Point)

  /** The point a fraction `t` of the way along a line. */
  function At(l: Line, t: real): Point {
    Plus(l.p1, Scale(Minus(l.p2, l.p1), t))
  }

  /** `p` lies on the closed segment `l`, a fraction `t` of the way along it. */
  predicate OnSegmentAt(p: Point, l: Line, t: real) {
    0.0 <= t <= 1.0 && p == At(l, t)
  }

  /** `p` lies on the closed segment `l`. */
  ghost predicate OnSegment(p: Point, l: Line) {
    exists t :: OnSegmentAt(p, l, t)
  }

  datatype IntersectKind = NoIntersection | BoundedIntersection | UnboundedIntersection

  /** The cross product that vanishes exactly for parallel lines. */
  function Denominator(l: Line, m: Line): real {
    var a := Minus(l.p2, l.p1);
    var b := Minus(m.p1, m.p2);
    a.y * b.x - a.x * b.y
  }

  /** The parameters along `l` and along `m` of the crossing point of two non-parallel lines. */
  function Params(l: Line, m: Line): (real, real)
    requires Denominator(l, m) != 0.0
  {
    var a := Minus(l.p2, l.p1);
    var b := Minus(m.p1, m.p2);
    var c := Minus(l.p1, m.p1);
    var d := Denominator(l, m);
    ((b.y * c.x - b.x * c.y) / d, (a.x * c.y - a.y * c.x) / d)
  }

  /** `QLineF::intersects`: parallel lines do not intersect; otherwise the crossing
      point is reported, and the intersection is bounded when it lies on both segments. */
  function Intersects(l: Line, m: Line): (r: (IntersectKind, Option<Point>))
    ensures r.0 == NoIntersection <==> Denominator(l, m) == 0.0
    ensures r.0 == NoIntersection <==> r.1.None?
    ensures r.0 == BoundedIntersection ==>
      OnSegmentAt(r.1.value, l, Params(l, m).0) && OnSegmentAt(r.1.value, m, Params(l, m).1)
    ensures r.0 == UnboundedIntersection ==>
      !(0.0 <= Params(l, m).0 <= 1.0 && 0.0 <= Params(l, m).1 <= 1.0)
  {
    if Denominator(l, m) == 0.0 then (NoIntersection, None)
    else
      var (na, nb) := Params(l, m);
      var point := At(l, na);
      CrossingOnBoth(l, m);
      if na < 0.0 || na > 1.0 then (UnboundedIntersection, Some(point))
      else if nb < 0.0 || nb > 1.0 then (UnboundedIntersection, Some(point))
      else (BoundedIntersection, Some(point))
  }

  /** The point reached along `l` is the point reached along `m`. */
  lemma CrossingOnBoth(l: Line, m: Line)
    requires Denominator(l, m) != 0.0
    ensures At(l, Params(l, m).0) == At(m, Params(l, m).1)
  {
    var a := Minus(l.p2, l.p1);
    var b := Minus(m.p1, m.p2);
    var c := Minus(l.p1, m.p1);
    var d := Denominator(l, m);
    var na0 := b.y * c.x - b.x * c.y;
    var nb0 := a.x * c.y - a.y * c.x;
    assert a.x * na0 + b.x * nb0 == -(c.x * d);
    assert a.y * na0 + b.y * nb0 == -(c.y * d);
    DivideSum(a.x, na0, b.x, nb0, d, c.x);
    DivideSum(a.y, na0, b.y, nb0, d, c.y);
  }

  lemma DivideSum(p: real, u: real, q: real, v: real, d: real, c: real)
    requires d != 0.0 && p * u + q * v == -(c * d)
    ensures p * (u / d) + q * (v / d) == -c
  {
    assert p * (u / d) + q * (v / d) == (p * u + q * v) / d;
  }

  /** A `QRectF(x, y, w, h)`. */
  datatype Rect = Rect(x: real, y: real, w: real, h: real) {
    function Left(): real { x }
    function Top(): real { y }
    function Right(): real { x + w }
    function Bottom(): real { y + h }
    function Center(): Point { Point(x + w / 2.0, y + h / 2.0) }
  }

  /** The corners top-left, top-right, bottom-right, bottom-left. */
  function Corners(r: Rect): (c: seq<Point>)
    ensures |c| == 4
  {
    [Point(r.Left(), r.Top()), Point(r.Right(), r.Top()), Point(r.Right(), r.Bottom()), Point(r.Left(), r.Bottom())]
  }

  /** Side `i` runs from corner `i` to corner `(i + 1) % 4`: top, right, bottom, left. */
  function Side(r: Rect, i: nat): Line
    requires i < 4
  {
    Line(Corners(r)[i], Corners(r)[(i + 1) % 4])
  }

  /** The first side, from `i` on, that the line crosses within both segments. */
  function FirstBoundedSide(r: Rect, line: Line, i: nat): (k: Option<nat>)
    requires i <= 4
    ensures k.Some? ==> i <= k.value < 4 && Intersects(line, Side(r, k.value)).0 == BoundedIntersection
    ensures k.Some? ==> forall j :: i <= j < k.value ==> Intersects(line, Side(r, j)).0 != BoundedIntersection
    ensures k.None? ==> forall j :: i <= j < 4 ==> Intersects(line, Side(r, j)).0 != BoundedIntersection
    decreases 4 - i
  {
    if i == 4 then None
    else if Intersects(line, Side(r, i)).0 == BoundedIntersection then Some(i)
    else FirstBoundedSide(r, line, i + 1)
  }

  /** `p` lies on one of the four sides of `r`. */
  ghost predicate OnBorder(p: Point, r: Rect) {
    exists k :: 0 <= k < 4 && OnSegment(p, Side(r, k))
  }

  /** `_intersectNodeEdge`: where the line first crosses the rectangle's border,
      trying the sides in order top, right, bottom, left; None if it crosses none. */
  function ClipToRect(r: Rect, line: Line): (p: Option<Point>)
    ensures p.None? <==> forall j :: 0 <= j < 4 ==> Intersects(line, Side(r, j)).0 != BoundedIntersection
    ensures p.Some? ==> OnSegment(p.value, line) && OnBorder(p.value, r)
  {
    match FirstBoundedSide(r, line, 0)
    case None => None
    case Some(k) =>
      var (na, nb) := Params(line, Side(r, k));
      assert OnSegmentAt(Intersects(line, Side(r, k)).1.value, Side(r, k), nb);
      assert OnSegmentAt(Intersects(line, Side(r, k)).1.value, line, na);
      Intersects(line, Side(r, k)).1
  }

  /** `node.mapToScene(node.rect()).boundingRect()` for an item at `pos` with no
      rotation or scaling: the rectangle moved by `pos`, with its extent made non-negative. */
  function SceneRect(pos: Point, r: Rect): (s: Rect)
    ensures s.w >= 0.0 && s.h >= 0.0
    ensures s.Center() == Plus(pos, r.Center())
  {
    var left := if r.w >= 0.0 then r.x else r.x + r.w;
    var top := if r.h >= 0.0 then r.y else r.y + r.h;
    Rect(left + pos.x, top + pos.y, if r.w >= 0.0 then r.w else -r.w, if r.h >= 0.0 then r.h else -r.h)
  }

  /** PySide's truth value of an optional `QPointF`: `None` and the null point (0, 0) are false. */
  predicate Missing(p: Option<Point>) {
    p.None? || p.value == Point(0.0, 0.0)
  }

  function SquaredLength(p: Point, q: Point): real {
    (q.x - p.x) * (q.x - p.x) + (q.y - p.y) * (q.y - p.y)
  }

  function Midpoint(p: Point, q: Point): Point {
    Point((p.x + q.x) / 2.0, (p.y + q.y) / 2.0)
  }

  /** The endpoints `adjust` settles on: both clip points, or both centres when
      either clip point is missing. */
  function Endpoints(srcPos: Point, srcRect: Rect, dstPos: Point, dstRect: Rect): (Point, Point)
  {
    var c1 := Plus(srcPos, srcRect.Center());
    var c2 := Plus(dstPos, dstRect.Center());
    var p1 := ClipToRect(SceneRect(srcPos, srcRect), Line(c1, c2));
    var p2 := ClipToRect(SceneRect(dstPos, dstRect), Line(c2, c1));
    if Missing(p1) || Missing(p2) then (c1, c2) else (p1.value, p2.value)
  }

  /** The drawn line and the optional indicator marker of an edge. */
  datatype Routing = Routing(line: Line, indicator: Option<Point>)

  /** `adjust` applied to the geometry of the two rooms. */
  function Route(srcPos: Point, srcRect: Rect, dstPos: Point, dstRect: Rect): Routing
  {
    var (p1, p2) := Endpoints(srcPos, srcRect, dstPos, dstRect);
    if SquaredLength(p1, p2) < 225.0 then Routing(Line(p1, p1), Some(Midpoint(p1, p2)))
    else Routing(Line(p1, p2), None)
  }

  /** A routed connection either joins the two centres or two points that each lie
      on the centre line and on the border of their room. */
  lemma EndpointsOnBorders(srcPos: Point, srcRect: Rect, dstPos: Point, dstRect: Rect)
    ensures var c1 := Plus(srcPos, srcRect.Center());
            var c2 := Plus(dstPos, dstRect.Center());
            var (q1, q2) := Endpoints(srcPos, srcRect, dstPos, dstRect);
            (q1, q2) == (c1, c2) ||
            (OnSegment(q1, Line(c1, c2)) && OnBorder(q1, SceneRect(srcPos, srcRect)) &&
             OnSegment(q2, Line(c1, c2)) && OnBorder(q2, SceneRect(dstPos, dstRect)))
  {
    var c1 := Plus(srcPos, srcRect.Center());
    var c2 := Plus(dstPos, dstRect.Center());
    var p1 := ClipToRect(SceneRect(srcPos, srcRect), Line(c1, c2));
    var p2 := ClipToRect(SceneRect(dstPos, dstRect), Line(c2, c1));
    if !Missing(p1) && !Missing(p2) {
      assert Endpoints(srcPos, srcRect, dstPos, dstRect) == (p1.value, p2.value);
      Reversed(p2.value, c1, c2);
    }
  }

  /** A point on a segment is on the same segment traversed the other way. */
  lemma Reversed(p: Point, a: Point, b: Point)
    requires OnSegment(p, Line(b, a))
    ensures OnSegment(p, Line(a, b))
  {
    var t :| OnSegmentAt(p, Line(b, a), t);
    assert OnSegmentAt(p, Line(a, b), 1.0 - t);
  }

  /** A connection shorter than 15 is a zero-length line at its first endpoint with
      exactly one marker at its midpoint; any other is the full line with no marker. */
  lemma RouteShape(srcPos: Point, srcRect: Rect, dstPos: Point, dstRect: Rect)
    ensures var (p1, p2) := Endpoints(srcPos, srcRect, dstPos, dstRect);
            var r := Route(srcPos, srcRect, dstPos, dstRect);
            (r.indicator.Some? <==> SquaredLength(p1, p2) < 225.0) &&
            (r.indicator.Some? ==> r.line == Line(p1, p1) && r.indicator.value == Midpoint(p1, p2)) &&
            (r.indicator.None? ==> r.line == Line(p1, p2))
  {
  }

  /** Comparing squared lengths with 225 is comparing lengths with 15. */
  lemma SquaredThreshold(p: Point, q: Point, len: real)
    requires len >= 0.0 && len * len == SquaredLength(p, q)
    ensures SquaredLength(p, q) < 225.0 <==> len < 15.0
  {
    if len < 15.0 {
      assert len * len < 15.0 * 15.0 by { assert len * len <= len * 15.0; }
    } else {
      assert len * len >= 15.0 * 15.0 by { assert len * len >= len * 15.0; }
    }
  }
}
