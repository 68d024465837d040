/**
  Worked hit-testing cases for a pen stroke that turns a corner.
 */
module EditOperationExamples {
  import opened Geometry
  import opened DrawingTools
  import opened EditOperations

  /** The stroke (0,0)-(w,0)-(w,w): along the bottom edge, then up the right edge. */
  function CornerStroke(w: real): (ps: seq<Point>)
    ensures |ps| == 3
  {
    [Point(0.0, 0.0), Point(w, 0.0), Point(w, w)]
  }

  /** For the stroke of size 100: (50,0) and (100,50) lie on it and hit; (50,50), 50 away from both segments, misses. */
  lemma PenHitExamples(m: TextMeasure)
    ensures var op := PenOperation(0, CornerStroke(100.0), NSColor.SystemRed, DefaultLineWidth);
      Contains(op, Point(50.0, 0.0), m) && Contains(op, Point(100.0, 50.0), m) && !Contains(op, Point(50.0, 50.0), m)
  {
    CornerStrokeHitTest(100.0);
  }

  /** Midpoints of both segments hit; the centre of the corner misses once it is farther than HitThreshold from both. */
  lemma CornerStrokeHitTest(w: real)
    requires w > 2.0 * HitThreshold
    ensures PolylineHit(CornerStroke(w), Point(w / 2.0, 0.0))
    ensures PolylineHit(CornerStroke(w), Point(w, w / 2.0))
    ensures !PolylineHit(CornerStroke(w), Point(w / 2.0, w / 2.0))
  {
    var ps := CornerStroke(w);
    assert PointOnSegment(ps[0], ps[1], 0.5) == Point(w / 2.0, 0.0);
    OnSegmentHit(Point(w / 2.0, 0.0), ps[0], ps[1], 0.5);
    PolylineHitAt(ps, Point(w / 2.0, 0.0), 0);
    assert PointOnSegment(ps[1], ps[2], 0.5) == Point(w, w / 2.0);
    OnSegmentHit(Point(w, w / 2.0), ps[1], ps[2], 0.5);
    PolylineHitAt(ps, Point(w, w / 2.0), 1);
    var c := Point(w / 2.0, w / 2.0);
    AboveHorizontalSegment(c, ps[0], ps[1], w / 2.0);
    LeftOfVerticalSegment(c, ps[1], ps[2], w / 2.0);
    BeyondThreshold(w / 2.0);
    PolylineMissEverywhere(ps, c);
  }

  lemma PolylineHitAt(ps: seq<Point>, p: Point, i: int)
    requires 0 <= i < |ps| - 1 && NearStroke(p, ps[i], ps[i + 1])
    ensures PolylineHit(ps, p)
  {
  }

  lemma PolylineMissEverywhere(ps: seq<Point>, p: Point)
    requires |ps| == 3 && !NearStroke(p, ps[0], ps[1]) && !NearStroke(p, ps[1], ps[2])
    ensures !PolylineHit(ps, p)
  {
  }

  /** A gap wider than HitThreshold, squared, exceeds HitThresholdSq. */
  lemma BeyondThreshold(h: real)
    requires h > HitThreshold
    ensures HitThresholdSq < Mul(h, h)
  {
    MulPos(h - HitThreshold, h + HitThreshold);
    assert Mul(h, h) - Mul(HitThreshold, HitThreshold) == Mul(h - HitThreshold, h + HitThreshold);
    assert Mul(HitThreshold, HitThreshold) == HitThresholdSq;
  }

  /** A point of a segment hits it. */
  lemma OnSegmentHit(p: Point, a: Point, b: Point, s: real)
    requires 0.0 <= s <= 1.0 && p == PointOnSegment(a, b, s)
    ensures NearStroke(p, a, b)
  {
    SegmentDistSqIsLeast(p, a, b, s);
    assert DistSq(p, p) == 0.0;
  }

  lemma SquareMonotone(h: real, u: real)
    requires 0.0 <= h <= u
    ensures 0.0 <= Mul(u, u) - Mul(h, h)
  {
    MulNonneg(u - h, u + h);
    assert Mul(u, u) - Mul(h, h) == Mul(u - h, u + h);
  }

  /** Two points whose heights differ by at least h are at least h apart. */
  lemma VerticalGap(p: Point, q: Point, h: real)
    requires 0.0 <= h <= p.y - q.y
    ensures Mul(h, h) <= DistSq(p, q)
  {
    SquareNonneg(p.x - q.x);
    SquareMonotone(h, p.y - q.y);
  }

  /** Two points whose x coordinates differ by at least h are at least h apart. */
  lemma HorizontalGap(p: Point, q: Point, h: real)
    requires 0.0 <= h <= q.x - p.x
    ensures Mul(h, h) <= DistSq(p, q)
  {
    SquareNonneg(p.y - q.y);
    SquareMonotone(h, q.x - p.x);
    MulNeg(q.x - p.x);
  }

  /** A point at height at least h above a horizontal segment is at least h away from it. */
  lemma AboveHorizontalSegment(p: Point, a: Point, b: Point, h: real)
    requires a.y == b.y && 0.0 <= h <= p.y - a.y
    ensures Mul(h, h) <= SegmentDistSq(p, a, b)
  {
    SegmentDistSqIsAttained(p, a, b);
    var s :| 0.0 <= s <= 1.0 && SegmentDistSq(p, a, b) == DistSq(p, PointOnSegment(a, b, s));
    VerticalGap(p, PointOnSegment(a, b, s), h);
  }

  /** A point at least h to the left of a vertical segment is at least h away from it. */
  lemma LeftOfVerticalSegment(p: Point, a: Point, b: Point, h: real)
    requires a.x == b.x && 0.0 <= h <= a.x - p.x
    ensures Mul(h, h) <= SegmentDistSq(p, a, b)
  {
    SegmentDistSqIsAttained(p, a, b);
    var s :| 0.0 <= s <= 1.0 && SegmentDistSq(p, a, b) == DistSq(p, PointOnSegment(a, b, s));
    HorizontalGap(p, PointOnSegment(a, b, s), h);
  }

  lemma MulNeg(u: real)
    ensures Mul(u, u) == Mul(-u, -u)
  {
  }
}
