/**
  Plane geometry used by the annotation shapes: points, CoreGraphics-style
  rectangles, normalised boxes, and point-to-segment distance.

  Coordinates are `real`. Distances are compared squared, so `hypot(..) <= t`
  (t >= 0) becomes `DistSq(..) <= t * t`.
 */
module Geometry {

  datatype Point = Point(x: real, y: real)

  const Origin := Point(0.0, 0.0)

  function Add(p: Point, d: Point): Point {
    Point(p.x + d.x, p.y + d.y)
  }

  function Sub(p: Point, q: Point): Point {
    Point(p.x - q.x, p.y - q.y)
  }

  function Min(a: real, b: real): real { if a <= b then a else b }

  function Max(a: real, b: real): real { if a <= b then b else a }

  function Abs(a: real): real { if a < 0.0 then -a else a }

  // ---------------------------------------------------------------------------
  // CGRect, with the CoreGraphics conventions: an origin and a size whose
  // components may be negative; `width`/`height` read back standardized
  // (absolute); `minX` is `min(x, x + width)`; `insetBy` that would leave a
  // negative size yields the null rectangle, which contains no point.
  // ---------------------------------------------------------------------------

  datatype Rect = Rect(x: real, y: real, width: real, height: real) | NullRect

  const ZeroRect := Rect(0.0, 0.0, 0.0, 0.0)

  function Width(r: Rect): real {
    match r
    case NullRect => 0.0
    case Rect(_, _, w, _) => Abs(w)
  }

  function Height(r: Rect): real {
    match r
    case NullRect => 0.0
    case Rect(_, _, _, h) => Abs(h)
  }

  function MinX(r: Rect): real requires r.Rect? { Min(r.x, r.x + r.width) }

  function MaxX(r: Rect): real requires r.Rect? { Max(r.x, r.x + r.width) }

  function MinY(r: Rect): real requires r.Rect? { Min(r.y, r.y + r.height) }

  function MaxY(r: Rect): real requires r.Rect? { Max(r.y, r.y + r.height) }

  function MidX(r: Rect): (m: real)
    requires r.Rect?
    ensures m == (MinX(r) + MaxX(r)) / 2.0
  {
    MinX(r) + Width(r) / 2.0
  }

  function MidY(r: Rect): (m: real)
    requires r.Rect?
    ensures m == (MinY(r) + MaxY(r)) / 2.0
  {
    MinY(r) + Height(r) / 2.0
  }

  /** CGRect.insetBy(dx:dy:): standardize, move every edge inwards by dx/dy. */
  function InsetBy(r: Rect, dx: real, dy: real): (q: Rect)
    ensures q.NullRect? <==> r.NullRect? || Width(r) < 2.0 * dx || Height(r) < 2.0 * dy
    ensures q.Rect? ==> MinX(q) == MinX(r) + dx && MaxX(q) == MaxX(r) - dx
    ensures q.Rect? ==> MinY(q) == MinY(r) + dy && MaxY(q) == MaxY(r) - dy
  {
    match r
    case NullRect => NullRect
    case Rect(_, _, _, _) =>
      var w := Width(r) - 2.0 * dx;
      var h := Height(r) - 2.0 * dy;
      if w < 0.0 || h < 0.0 then NullRect else Rect(MinX(r) + dx, MinY(r) + dy, w, h)
  }

  /** CGRect.contains(_:): half-open on both axes; the null rect holds nothing. */
  predicate RectContains(r: Rect, p: Point) {
    r.Rect? && MinX(r) <= p.x < MaxX(r) && MinY(r) <= p.y < MaxY(r)
  }

  // ---------------------------------------------------------------------------
  // Normalised boxes: the min/max edges of a rectangle or of a shape.
  // ---------------------------------------------------------------------------

  datatype Bounds = Bounds(minX: real, minY: real, maxX: real, maxY: real)

  predicate Normal(b: Bounds) {
    b.minX <= b.maxX && b.minY <= b.maxY
  }

  /** The box spanned by two opposite corners given in any order. */
  function Span(x1: real, y1: real, x2: real, y2: real): (b: Bounds)
    ensures Normal(b)
    ensures (b.minX == x1 && b.maxX == x2) || (b.minX == x2 && b.maxX == x1)
    ensures (b.minY == y1 && b.maxY == y2) || (b.minY == y2 && b.maxY == y1)
  {
    Bounds(Min(x1, x2), Min(y1, y2), Max(x1, x2), Max(y1, y2))
  }

  function RectBounds(r: Rect): (b: Bounds)
    requires r.Rect?
    ensures Normal(b)
    ensures b.maxX - b.minX == Width(r) && b.maxY - b.minY == Height(r)
  {
    Bounds(MinX(r), MinY(r), MaxX(r), MaxY(r))
  }

  // ---------------------------------------------------------------------------
  // Distance from a point to a segment.
  // ---------------------------------------------------------------------------

  function Clamp01(t: real): (r: real)
    ensures 0.0 <= r <= 1.0
    ensures 0.0 <= t <= 1.0 ==> r == t
    ensures t < 0.0 ==> r == 0.0
    ensures t > 1.0 ==> r == 1.0
  {
    Max(0.0, Min(1.0, t))
  }

  function Mul(u: real, v: real): real { u * v }

  lemma MulComm(u: real, v: real)
    ensures Mul(u, v) == Mul(v, u)
  {
  }

  lemma MulNonneg(u: real, v: real)
    requires 0.0 <= u && 0.0 <= v
    ensures 0.0 <= Mul(u, v)
  {
  }

  lemma MulNonnegNeg(u: real, v: real)
    requires u <= 0.0 && v <= 0.0
    ensures 0.0 <= Mul(u, v)
  {
  }

  lemma MulPos(u: real, v: real)
    requires 0.0 < u && 0.0 < v
    ensures 0.0 < Mul(u, v)
  {
  }

  lemma MulPosNeg(u: real, v: real)
    requires u < 0.0 && v < 0.0
    ensures 0.0 < Mul(u, v)
  {
  }

  lemma SquareNonneg(u: real)
    ensures 0.0 <= Mul(u, u)
  {
    if 0.0 <= u { MulNonneg(u, u); } else { MulNonnegNeg(u, u); }
  }

  lemma SquarePos(u: real)
    requires u != 0.0
    ensures 0.0 < Mul(u, u)
  {
    if 0.0 < u { MulPos(u, u); } else { MulPosNeg(u, u); }
  }

  /** (a - s b)(c - s d) expanded. */
  lemma MulExpand(a: real, b: real, c: real, d: real, s: real)
    ensures Mul(a - s * b, c - s * d) == Mul(a, c) - s * (Mul(a, d) + Mul(b, c)) + Mul(s, s) * Mul(b, d)
  {
  }

  function DistSq(p: Point, q: Point): real {
    Mul(p.x - q.x, p.x - q.x) + Mul(p.y - q.y, p.y - q.y)
  }

  function PointOnSegment(a: Point, b: Point, s: real): Point {
    Point(a.x + s * (b.x - a.x), a.y + s * (b.y - a.y))
  }

  /** The squared length of [a, b]. */
  function LengthSq(a: Point, b: Point): real {
    Mul(b.x - a.x, b.x - a.x) + Mul(b.y - a.y, b.y - a.y)
  }

  /** The dot product of p - a with b - a. */
  function Projection(p: Point, a: Point, b: Point): real {
    Mul(p.x - a.x, b.x - a.x) + Mul(p.y - a.y, b.y - a.y)
  }

  function SegmentDistSq(p: Point, a: Point, b: Point): real {
    var lengthSquared := LengthSq(a, b);
    if lengthSquared == 0.0 then DistSq(p, a)
    else
      var t := Clamp01(Projection(p, a, b) / lengthSquared);
      DistSq(p, PointOnSegment(a, b, t))
  }

  /** The distance from p to [a, b] is at most the threshold whose square is thresholdSq. */
  predicate NearSegment(p: Point, a: Point, b: Point, thresholdSq: real) {
    SegmentDistSq(p, a, b) <= thresholdSq
  }

  /** w - 2 s dot + s^2 len: the squared distance at parameter s. */
  function Quad(w: real, dot: real, len: real, s: real): real {
    w - 2.0 * s * dot + Mul(s, s) * len
  }

  lemma DistSqAlong(p: Point, a: Point, b: Point, s: real)
    ensures DistSq(p, PointOnSegment(a, b, s)) == Quad(DistSq(p, a), Projection(p, a, b), LengthSq(a, b), s)
  {
    var wx, wy := p.x - a.x, p.y - a.y;
    var dx, dy := b.x - a.x, b.y - a.y;
    var q := PointOnSegment(a, b, s);
    assert p.x - q.x == wx - s * dx && p.y - q.y == wy - s * dy;
    assert DistSq(p, q) == Mul(wx - s * dx, wx - s * dx) + Mul(wy - s * dy, wy - s * dy);
    AxisAlong(wx, dx, s);
    AxisAlong(wy, dy, s);
    QuadSum(Mul(wx, wx), Mul(wy, wy), Mul(wx, dx), Mul(wy, dy), Mul(dx, dx), Mul(dy, dy), s);
  }

  lemma QuadSum(w1: real, w2: real, d1: real, d2: real, l1: real, l2: real, s: real)
    ensures Quad(w1, d1, l1, s) + Quad(w2, d2, l2, s) == Quad(w1 + w2, d1 + d2, l1 + l2, s)
  {
  }

  lemma AxisAlong(w: real, d: real, s: real)
    ensures Mul(w - s * d, w - s * d) == Quad(Mul(w, w), Mul(w, d), Mul(d, d), s)
  {
    MulExpand(w, d, w, d, s);
    MulComm(d, w);
  }

  lemma QuadLeast(w: real, dot: real, len: real, s: real)
    requires len > 0.0 && 0.0 <= s <= 1.0
    ensures Quad(w, dot, len, Clamp01(dot / len)) <= Quad(w, dot, len, s)
  {
    ClampedVertexIsLeast(dot, len, s);
  }

  lemma ClampedVertexIsLeast(dot: real, len: real, s: real)
    requires len > 0.0 && 0.0 <= s <= 1.0
    ensures var t := Clamp01(dot / len);
      -2.0 * t * dot + Mul(t, t) * len <= -2.0 * s * dot + Mul(s, s) * len
  {
    var q := dot / len;
    assert dot == q * len;
    ClampedVertex(q, len, s);
  }

  lemma ClampedVertex(q: real, len: real, s: real)
    requires len > 0.0 && 0.0 <= s <= 1.0
    ensures var t := Clamp01(q);
      -2.0 * t * (q * len) + Mul(t, t) * len <= -2.0 * s * (q * len) + Mul(s, s) * len
  {
    if 0.0 <= q <= 1.0 {
      InteriorVertex(q, len, s);
    } else if q < 0.0 {
      LeftOfSegment(q, len, s);
    } else {
      RightOfSegment(q, len, s);
    }
  }

  lemma InteriorVertex(q: real, len: real, s: real)
    requires len > 0.0
    ensures -2.0 * q * (q * len) + Mul(q, q) * len <= -2.0 * s * (q * len) + Mul(s, s) * len
  {
    var e := s - q;
    SquareNonneg(e);
    MulNonneg(len, Mul(e, e));
    assert (-2.0 * s * (q * len) + Mul(s, s) * len) - (-2.0 * q * (q * len) + Mul(q, q) * len) == Mul(len, Mul(e, e));
  }

  lemma LeftOfSegment(q: real, len: real, s: real)
    requires len > 0.0 && q < 0.0 && 0.0 <= s
    ensures 0.0 <= -2.0 * s * (q * len) + Mul(s, s) * len
  {
    MulNonneg(s, len);
    MulNonneg(-q, len);
    MulNonneg(s, Mul(s, len) - 2.0 * (q * len));
    assert -2.0 * s * (q * len) + Mul(s, s) * len == Mul(s, Mul(s, len) - 2.0 * (q * len));
  }

  lemma RightOfSegment(q: real, len: real, s: real)
    requires len > 0.0 && q > 1.0 && 0.0 <= s <= 1.0
    ensures 0.0 <= (-2.0 * s * (q * len) + Mul(s, s) * len) - (-2.0 * (q * len) + len)
  {
    MulNonneg(q - 1.0, len);
    MulNonneg(1.0 - s, len);
    MulNonneg(1.0 - s, 2.0 * Mul(q - 1.0, len) + Mul(1.0 - s, len));
    assert (-2.0 * s * (q * len) + Mul(s, s) * len) - (-2.0 * (q * len) + len)
        == Mul(1.0 - s, 2.0 * Mul(q - 1.0, len) + Mul(1.0 - s, len));
  }

  /** A segment of zero squared length is a single point. */
  lemma ZeroLengthSegment(a: Point, b: Point)
    requires LengthSq(a, b) == 0.0
    ensures a == b
  {
    SquareNonneg(b.x - a.x);
    SquareNonneg(b.y - a.y);
    if b.x - a.x != 0.0 { SquarePos(b.x - a.x); }
    if b.y - a.y != 0.0 { SquarePos(b.y - a.y); }
  }

  lemma SegmentDistSqIsLeast(p: Point, a: Point, b: Point, s: real)
    requires 0.0 <= s <= 1.0
    ensures SegmentDistSq(p, a, b) <= DistSq(p, PointOnSegment(a, b, s))
  {
    if LengthSq(a, b) == 0.0 {
      ZeroLengthSegment(a, b);
      assert PointOnSegment(a, b, s) == a;
    } else {
      SquareNonneg(b.x - a.x);
      SquareNonneg(b.y - a.y);
      DistSqAlong(p, a, b, s);
      DistSqAlong(p, a, b, Clamp01(Projection(p, a, b) / LengthSq(a, b)));
      QuadLeast(DistSq(p, a), Projection(p, a, b), LengthSq(a, b), s);
    }
  }

  lemma SegmentDistSqIsAttained(p: Point, a: Point, b: Point)
    ensures exists s :: 0.0 <= s <= 1.0 && SegmentDistSq(p, a, b) == DistSq(p, PointOnSegment(a, b, s))
  {
    if LengthSq(a, b) == 0.0 {
      ZeroLengthSegment(a, b);
      assert PointOnSegment(a, b, 0.0) == a;
      assert SegmentDistSq(p, a, b) == DistSq(p, PointOnSegment(a, b, 0.0));
    } else {
      var t := Clamp01(Projection(p, a, b) / LengthSq(a, b));
      assert SegmentDistSq(p, a, b) == DistSq(p, PointOnSegment(a, b, t));
    }
  }

  lemma EndpointsOnSegment(a: Point, b: Point)
    ensures SegmentDistSq(a, a, b) == 0.0 && SegmentDistSq(b, a, b) == 0.0
  {
    SegmentDistSqIsLeast(a, a, b, 0.0);
    SegmentDistSqIsLeast(b, a, b, 1.0);
    assert PointOnSegment(a, b, 0.0) == a;
    assert PointOnSegment(a, b, 1.0) == b;
    assert DistSq(a, a) == 0.0;
    assert DistSq(b, b) == 0.0;
    SegmentDistSqNonneg(a, a, b);
    SegmentDistSqNonneg(b, a, b);
  }

  lemma DistSqNonneg(p: Point, q: Point)
    ensures 0.0 <= DistSq(p, q)
  {
    SquareNonneg(p.x - q.x);
    SquareNonneg(p.y - q.y);
  }

  lemma SegmentDistSqNonneg(p: Point, a: Point, b: Point)
    ensures 0.0 <= SegmentDistSq(p, a, b)
  {
    SegmentDistSqIsAttained(p, a, b);
    var s :| 0.0 <= s <= 1.0 && SegmentDistSq(p, a, b) == DistSq(p, PointOnSegment(a, b, s));
    DistSqNonneg(p, PointOnSegment(a, b, s));
  }

  // ---------------------------------------------------------------------------
  // Extremes of a non-empty sequence, and the bounding box of a point list.
  // ---------------------------------------------------------------------------

  function MinOf(s: seq<real>): real
    requires |s| > 0
  {
    if |s| == 1 then s[0] else Min(MinOf(s[..|s| - 1]), s[|s| - 1])
  }

  function MaxOf(s: seq<real>): real
    requires |s| > 0
  {
    if |s| == 1 then s[0] else Max(MaxOf(s[..|s| - 1]), s[|s| - 1])
  }

  /** MinOf is a lower bound of s that s attains. */
  lemma {:induction false} MinOfIsLeast(s: seq<real>)
    requires |s| > 0
    ensures forall i :: 0 <= i < |s| ==> MinOf(s) <= s[i]
    ensures exists i :: 0 <= i < |s| && s[i] == MinOf(s)
  {
    if |s| > 1 {
      var init := s[..|s| - 1];
      MinOfIsLeast(init);
      assert forall i :: 0 <= i < |s| - 1 ==> s[i] == init[i];
      var k :| 0 <= k < |init| && init[k] == MinOf(init);
      if MinOf(s) != s[|s| - 1] {
        assert s[k] == MinOf(s);
      } else {
        assert s[|s| - 1] == MinOf(s);
      }
    } else {
      assert s[0] == MinOf(s);
    }
  }

  /** MaxOf is an upper bound of s that s attains. */
  lemma {:induction false} MaxOfIsGreatest(s: seq<real>)
    requires |s| > 0
    ensures forall i :: 0 <= i < |s| ==> s[i] <= MaxOf(s)
    ensures exists i :: 0 <= i < |s| && s[i] == MaxOf(s)
  {
    if |s| > 1 {
      var init := s[..|s| - 1];
      MaxOfIsGreatest(init);
      assert forall i :: 0 <= i < |s| - 1 ==> s[i] == init[i];
      var k :| 0 <= k < |init| && init[k] == MaxOf(init);
      if MaxOf(s) != s[|s| - 1] {
        assert s[k] == MaxOf(s);
      } else {
        assert s[|s| - 1] == MaxOf(s);
      }
    } else {
      assert s[0] == MaxOf(s);
    }
  }

  /** A lower bound that is attained is the minimum. */
  lemma MinOfUnique(s: seq<real>, m: real)
    requires |s| > 0
    requires forall i :: 0 <= i < |s| ==> m <= s[i]
    requires exists i :: 0 <= i < |s| && s[i] == m
    ensures MinOf(s) == m
  {
    MinOfIsLeast(s);
  }

  lemma MaxOfUnique(s: seq<real>, m: real)
    requires |s| > 0
    requires forall i :: 0 <= i < |s| ==> s[i] <= m
    requires exists i :: 0 <= i < |s| && s[i] == m
    ensures MaxOf(s) == m
  {
    MaxOfIsGreatest(s);
  }

  /** The image of s under f, element by element. */
  function Map(s: seq<real>, f: real -> real): (r: seq<real>)
    ensures |r| == |s|
    ensures forall i :: 0 <= i < |s| ==> r[i] == f(s[i])
  {
    seq(|s|, i requires 0 <= i < |s| => f(s[i]))
  }

  ghost predicate Monotone(f: real -> real) {
    forall u, v :: u <= v ==> f(u) <= f(v)
  }

  /** A non-decreasing map carries the minimum of s to the minimum of the image ... */
  lemma MinOfMonotone(s: seq<real>, f: real -> real)
    requires |s| > 0 && Monotone(f)
    ensures MinOf(Map(s, f)) == f(MinOf(s))
  {
    MinOfIsLeast(s);
    var i :| 0 <= i < |s| && s[i] == MinOf(s);
    assert Map(s, f)[i] == f(MinOf(s));
    MinOfUnique(Map(s, f), f(MinOf(s)));
  }

  /** ... and the maximum to the maximum. */
  lemma MaxOfMonotone(s: seq<real>, f: real -> real)
    requires |s| > 0 && Monotone(f)
    ensures MaxOf(Map(s, f)) == f(MaxOf(s))
  {
    MaxOfIsGreatest(s);
    var i :| 0 <= i < |s| && s[i] == MaxOf(s);
    assert Map(s, f)[i] == f(MaxOf(s));
    MaxOfUnique(Map(s, f), f(MaxOf(s)));
  }

  /** A sequence that is the image of s under a non-decreasing map has the images of s's extremes as its extremes. */
  lemma ExtremesOfImage(s: seq<real>, t: seq<real>, f: real -> real)
    requires |s| == |t| > 0 && Monotone(f)
    requires forall i :: 0 <= i < |s| ==> t[i] == f(s[i])
    ensures MinOf(t) == f(MinOf(s)) && MaxOf(t) == f(MaxOf(s))
  {
    assert t == Map(s, f);
    MinOfMonotone(s, f);
    MaxOfMonotone(s, f);
  }

  function Xs(ps: seq<Point>): (r: seq<real>)
    ensures |r| == |ps| && forall i :: 0 <= i < |ps| ==> r[i] == ps[i].x
  {
    seq(|ps|, i requires 0 <= i < |ps| => ps[i].x)
  }

  function Ys(ps: seq<Point>): (r: seq<real>)
    ensures |r| == |ps| && forall i :: 0 <= i < |ps| ==> r[i] == ps[i].y
  {
    seq(|ps|, i requires 0 <= i < |ps| => ps[i].y)
  }

  /** The tight axis-aligned box of a non-empty point list. */
  function PointsBounds(ps: seq<Point>): Bounds
    requires |ps| > 0
  {
    Bounds(MinOf(Xs(ps)), MinOf(Ys(ps)), MaxOf(Xs(ps)), MaxOf(Ys(ps)))
  }

  /** The box of a point list is normal, holds every point, and touches a point on each side. */
  lemma PointsBoundsTight(ps: seq<Point>)
    requires |ps| > 0
    ensures Normal(PointsBounds(ps))
    ensures forall i :: 0 <= i < |ps| ==>
      PointsBounds(ps).minX <= ps[i].x <= PointsBounds(ps).maxX && PointsBounds(ps).minY <= ps[i].y <= PointsBounds(ps).maxY
    ensures exists i :: 0 <= i < |ps| && ps[i].x == PointsBounds(ps).minX
    ensures exists i :: 0 <= i < |ps| && ps[i].x == PointsBounds(ps).maxX
    ensures exists i :: 0 <= i < |ps| && ps[i].y == PointsBounds(ps).minY
    ensures exists i :: 0 <= i < |ps| && ps[i].y == PointsBounds(ps).maxY
  {
    MinOfIsLeast(Xs(ps));
    MaxOfIsGreatest(Xs(ps));
    MinOfIsLeast(Ys(ps));
    MaxOfIsGreatest(Ys(ps));
    assert Xs(ps)[0] == ps[0].x && Ys(ps)[0] == ps[0].y;
  }

  /** One more point widens the running extremes by at most that point. */
  lemma PointsBoundsSnoc(ps: seq<Point>, i: int)
    requires 1 <= i < |ps|
    ensures PointsBounds(ps[..i + 1]) ==
      Bounds(Min(PointsBounds(ps[..i]).minX, ps[i].x), Min(PointsBounds(ps[..i]).minY, ps[i].y),
             Max(PointsBounds(ps[..i]).maxX, ps[i].x), Max(PointsBounds(ps[..i]).maxY, ps[i].y))
  {
    assert Xs(ps[..i + 1])[..i] == Xs(ps[..i]);
    assert Ys(ps[..i + 1])[..i] == Ys(ps[..i]);
  }

  /**
    `calculateBoundingRect`: a single pass keeping running extremes. The
    running extremes start at the first point rather than at +/- infinity,
    which gives the same rectangle for a non-empty list; an empty list gives
    the zero rectangle.
   */
  method BoundingRect(ps: seq<Point>) returns (r: Rect)
    ensures r.Rect?
    ensures |ps| == 0 ==> r == ZeroRect
    ensures |ps| > 0 ==> r == BoundingRectOf(ps)
  {
    if |ps| == 0 {
      return ZeroRect;
    }
    var minX, maxX, minY, maxY := ps[0].x, ps[0].x, ps[0].y, ps[0].y;
    var i := 1;
    while i < |ps|
      invariant 1 <= i <= |ps|
      invariant PointsBounds(ps[..i]) == Bounds(minX, minY, maxX, maxY)
    {
      PointsBoundsSnoc(ps, i);
      minX := Min(minX, ps[i].x);
      maxX := Max(maxX, ps[i].x);
      minY := Min(minY, ps[i].y);
      maxY := Max(maxY, ps[i].y);
      i := i + 1;
    }
    assert ps[..i] == ps;
    r := Rect(minX, minY, maxX - minX, maxY - minY);
  }

  /** The pure counterpart of BoundingRect, used by the shape functions. */
  function BoundingRectOf(ps: seq<Point>): (r: Rect)
    requires |ps| > 0
    ensures r.Rect? && r.width >= 0.0 && r.height >= 0.0
    ensures RectBounds(r) == PointsBounds(ps)
  {
    PointsBoundsTight(ps);
    var b := PointsBounds(ps);
    Rect(b.minX, b.minY, b.maxX - b.minX, b.maxY - b.minY)
  }
}
