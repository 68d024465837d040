/**
  The six annotation shapes an image can carry (line, rectangle, pixelate
  region, arrow, text, freehand pen stroke) and what the editor does with
  them: move by an offset, expose resize handles, resize by dragging a
  handle, and hit-test a cursor position.

  Shapes are immutable values: every operation returns a new shape with the
  same id.
 */
module EditOperations {
  import opened Geometry
  import opened DrawingTools

  /** Shape and layer identities (UUIDs), supplied by the caller. */
  type Uuid = nat

  const DefaultLineWidth: real := 3.0
  const DefaultFontSize: real := 16.0

  /** Cursor distance within which a stroke or a rectangle border is hit. */
  const HitThreshold: real := 10.0

  /** HitThreshold squared: `hypot(..) <= HitThreshold` is decided on squared distances. */
  const HitThresholdSq: real := 100.0

  datatype ResizeHandle = TopLeft | Top | TopRight | Left | Right | BottomLeft | Bottom | BottomRight

  const AllHandles: set<ResizeHandle> := {TopLeft, Top, TopRight, Left, Right, BottomLeft, Bottom, BottomRight}

  /** Where a handle sits horizontally: on the min edge, the centre line, or the max edge. */
  datatype Column = West | Center | East

  /** Where a handle sits vertically: `top` handles sit on the max-y edge. */
  datatype Row = North | Middle | South

  function ColumnOf(h: ResizeHandle): Column {
    match h
    case TopLeft | Left | BottomLeft => West
    case Top | Bottom => Center
    case TopRight | Right | BottomRight => East
  }

  function RowOf(h: ResizeHandle): Row {
    match h
    case TopLeft | Top | TopRight => North
    case Left | Right => Middle
    case BottomLeft | Bottom | BottomRight => South
  }

  /** The size a string occupies when typeset at a font size. */
  datatype Size = Size(width: real, height: real)

  /** Font metrics (`NSAttributedString.size()`), supplied by the caller. */
  type TextMeasure = (string, real) -> Size

  datatype Op =
    | LineOperation(id: Uuid, startPoint: Point, endPoint: Point, color: NSColor, lineWidth: real)
    | RectangleOperation(id: Uuid, startPoint: Point, endPoint: Point, color: NSColor, lineWidth: real)
    | PixelateOperation(id: Uuid, startPoint: Point, endPoint: Point)
    | ArrowOperation(id: Uuid, startPoint: Point, endPoint: Point, color: NSColor, lineWidth: real)
    | TextOperation(id: Uuid, position: Point, text: string, color: NSColor, fontSize: real)
    | PenOperation(id: Uuid, points: seq<Point>, color: NSColor, lineWidth: real)

  /** Shapes drawn between two corner or end points. */
  predicate TwoPoint(op: Op) {
    op.LineOperation? || op.RectangleOperation? || op.PixelateOperation? || op.ArrowOperation?
  }

  // ---------------------------------------------------------------------------
  // Geometry and style of a shape
  // ---------------------------------------------------------------------------

  /** Every point a shape stores, in order. */
  function Points(op: Op): seq<Point> {
    match op
    case TextOperation(_, pos, _, _, _) => [pos]
    case PenOperation(_, ps, _, _) => ps
    case _ => [op.startPoint, op.endPoint]
  }

  /** The shape with its geometry erased: its kind, id, colour, width, text and font size. */
  function Style(op: Op): Op {
    match op
    case LineOperation(id, _, _, c, w) => LineOperation(id, Origin, Origin, c, w)
    case RectangleOperation(id, _, _, c, w) => RectangleOperation(id, Origin, Origin, c, w)
    case PixelateOperation(id, _, _) => PixelateOperation(id, Origin, Origin)
    case ArrowOperation(id, _, _, c, w) => ArrowOperation(id, Origin, Origin, c, w)
    case TextOperation(id, _, t, c, f) => TextOperation(id, Origin, t, c, f)
    case PenOperation(id, _, c, w) => PenOperation(id, [], c, w)
  }

  /** Style and points together determine a shape. */
  lemma StyleAndPointsDetermine(a: Op, b: Op)
    requires Style(a) == Style(b) && Points(a) == Points(b)
    ensures a == b
  {
    match a
    case TextOperation(_, _, _, _, _) =>
      assert Points(a)[0] == Points(b)[0];
    case PenOperation(_, _, _, _) =>
    case _ =>
      assert Points(a)[0] == Points(b)[0] && Points(a)[1] == Points(b)[1];
  }

  // ---------------------------------------------------------------------------
  // Offset
  // ---------------------------------------------------------------------------

  function Shifted(ps: seq<Point>, d: Point): (r: seq<Point>)
    ensures |r| == |ps|
    ensures forall i :: 0 <= i < |ps| ==> r[i] == Add(ps[i], d)
  {
    seq(|ps|, i requires 0 <= i < |ps| => Add(ps[i], d))
  }

  /** `offset(by:)`: every stored point moves by d; nothing else changes. */
  function Offset(op: Op, d: Point): (r: Op)
    ensures Style(r) == Style(op)
    ensures Points(r) == Shifted(Points(op), d)
  {
    match op
    case LineOperation(id, s, e, c, w) => LineOperation(id, Add(s, d), Add(e, d), c, w)
    case RectangleOperation(id, s, e, c, w) => RectangleOperation(id, Add(s, d), Add(e, d), c, w)
    case PixelateOperation(id, s, e) => PixelateOperation(id, Add(s, d), Add(e, d))
    case ArrowOperation(id, s, e, c, w) => ArrowOperation(id, Add(s, d), Add(e, d), c, w)
    case TextOperation(id, pos, t, c, f) => TextOperation(id, Add(pos, d), t, c, f)
    case PenOperation(id, ps, c, w) => PenOperation(id, Shifted(ps, d), c, w)
  }

  /** Offsetting by (0, 0) gives back an equal shape. */
  lemma OffsetZero(op: Op)
    ensures Offset(op, Origin) == op
  {
    assert Points(Offset(op, Origin)) == Points(op);
    StyleAndPointsDetermine(Offset(op, Origin), op);
  }

  /** Two offsets compose into one by the summed delta. */
  lemma OffsetCompose(op: Op, d1: Point, d2: Point)
    ensures Offset(Offset(op, d1), d2) == Offset(op, Add(d1, d2))
  {
    assert Points(Offset(Offset(op, d1), d2)) == Points(Offset(op, Add(d1, d2)));
    StyleAndPointsDetermine(Offset(Offset(op, d1), d2), Offset(op, Add(d1, d2)));
  }

  // ---------------------------------------------------------------------------
  // Resize handles
  // ---------------------------------------------------------------------------

  /** The box spanned by two corner points given in any order. */
  function Box(a: Point, b: Point): (r: Bounds)
    ensures Normal(r)
  {
    Span(a.x, a.y, b.x, b.y)
  }

  /** Where a handle sits on a box: top handles on the max-y edge, left handles on the min-x edge. */
  function Anchor(b: Bounds, h: ResizeHandle): Point {
    var x := match ColumnOf(h)
      case West => b.minX
      case Center => (b.minX + b.maxX) / 2.0
      case East => b.maxX;
    var y := match RowOf(h)
      case North => b.maxY
      case Middle => (b.minY + b.maxY) / 2.0
      case South => b.minY;
    Point(x, y)
  }

  /** The eight handles of a box: corners and edge midpoints. */
  function BoxHandles(b: Bounds): (hs: map<ResizeHandle, Point>)
    ensures hs.Keys == AllHandles
    ensures forall h :: h in hs ==> hs[h] == Anchor(b, h)
  {
    var centerX := (b.minX + b.maxX) / 2.0;
    var centerY := (b.minY + b.maxY) / 2.0;
    map[
      TopLeft := Point(b.minX, b.maxY),
      Top := Point(centerX, b.maxY),
      TopRight := Point(b.maxX, b.maxY),
      Left := Point(b.minX, centerY),
      Right := Point(b.maxX, centerY),
      BottomLeft := Point(b.minX, b.minY),
      Bottom := Point(centerX, b.minY),
      BottomRight := Point(b.maxX, b.minY)
    ]
  }

  /** `getResizeHandles()`. */
  function Handles(op: Op): (hs: map<ResizeHandle, Point>)
    ensures (op.LineOperation? || op.ArrowOperation?) ==>
      hs.Keys == {TopLeft, BottomRight} && hs[TopLeft] == op.startPoint && hs[BottomRight] == op.endPoint
    ensures (op.RectangleOperation? || op.PixelateOperation?) ==>
      hs.Keys == AllHandles && forall h :: h in hs ==> hs[h] == Anchor(Box(op.startPoint, op.endPoint), h)
    ensures op.PenOperation? && |op.points| > 0 ==>
      hs.Keys == AllHandles && forall h :: h in hs ==> hs[h] == Anchor(PointsBounds(op.points), h)
    ensures op.TextOperation? || (op.PenOperation? && |op.points| == 0) ==> hs == map[]
  {
    match op
    case LineOperation(_, s, e, _, _) => map[TopLeft := s, BottomRight := e]
    case ArrowOperation(_, s, e, _, _) => map[TopLeft := s, BottomRight := e]
    case RectangleOperation(_, s, e, _, _) => BoxHandles(Box(s, e))
    case PixelateOperation(_, s, e) => BoxHandles(Box(s, e))
    case TextOperation(_, _, _, _, _) => map[]
    case PenOperation(_, ps, _, _) =>
      if |ps| == 0 then map[] else BoxHandles(RectBounds(BoundingRectOf(ps)))
  }

  /** The handles of a moved shape are its old handles moved by the same delta. */
  lemma OffsetShiftsHandles(op: Op, d: Point)
    ensures Handles(Offset(op, d)).Keys == Handles(op).Keys
    ensures forall h :: h in Handles(op) ==> Handles(Offset(op, d))[h] == Add(Handles(op)[h], d)
  {
    match op
    case LineOperation(_, _, _, _, _) =>
    case ArrowOperation(_, _, _, _, _) =>
    case TextOperation(_, _, _, _, _) =>
    case RectangleOperation(_, s, e, _, _) =>
      assert Box(Add(s, d), Add(e, d)) == ShiftBounds(Box(s, e), d);
      AnchorsShift(Box(s, e), d);
    case PixelateOperation(_, s, e) =>
      assert Box(Add(s, d), Add(e, d)) == ShiftBounds(Box(s, e), d);
      AnchorsShift(Box(s, e), d);
    case PenOperation(_, ps, _, _) =>
      if |ps| > 0 {
        PointsBoundsShift(ps, d);
        AnchorsShift(PointsBounds(ps), d);
      }
  }

  function ShiftBounds(b: Bounds, d: Point): Bounds {
    Bounds(b.minX + d.x, b.minY + d.y, b.maxX + d.x, b.maxY + d.y)
  }

  lemma AnchorsShift(b: Bounds, d: Point)
    ensures forall h :: Anchor(ShiftBounds(b, d), h) == Add(Anchor(b, h), d)
  {
  }

  lemma PointsBoundsShift(ps: seq<Point>, d: Point)
    requires |ps| > 0
    ensures PointsBounds(Shifted(ps, d)) == ShiftBounds(PointsBounds(ps), d)
  {
    var qs := Shifted(ps, d);
    TranslateMonotone(d.x);
    TranslateMonotone(d.y);
    ExtremesOfImage(Xs(ps), Xs(qs), (v: real) => v + d.x);
    ExtremesOfImage(Ys(ps), Ys(qs), (v: real) => v + d.y);
  }

  lemma TranslateMonotone(c: real)
    ensures Monotone((v: real) => v + c)
  {
  }

  // ---------------------------------------------------------------------------
  // Resize
  // ---------------------------------------------------------------------------

  /**
    The box that results from dragging handle h of box b to p: the edges the
    handle sits on follow p, the opposite edges stay, and an edge dragged
    past its opposite flips the box.
   */
  function Dragged(b: Bounds, h: ResizeHandle, p: Point): (r: Bounds)
    ensures Normal(r)
    ensures ColumnOf(h) == West ==> (r.minX == p.x && r.maxX == b.maxX) || (r.minX == b.maxX && r.maxX == p.x)
    ensures ColumnOf(h) == East ==> (r.minX == b.minX && r.maxX == p.x) || (r.minX == p.x && r.maxX == b.minX)
    ensures ColumnOf(h) == Center && Normal(b) ==> r.minX == b.minX && r.maxX == b.maxX
    ensures RowOf(h) == North ==> (r.minY == b.minY && r.maxY == p.y) || (r.minY == p.y && r.maxY == b.minY)
    ensures RowOf(h) == South ==> (r.minY == p.y && r.maxY == b.maxY) || (r.minY == b.maxY && r.maxY == p.y)
    ensures RowOf(h) == Middle && Normal(b) ==> r.minY == b.minY && r.maxY == b.maxY
  {
    var (x1, x2) := match ColumnOf(h)
      case West => (p.x, b.maxX)
      case Center => (b.minX, b.maxX)
      case East => (b.minX, p.x);
    var (y1, y2) := match RowOf(h)
      case North => (b.minY, p.y)
      case Middle => (b.minY, b.maxY)
      case South => (p.y, b.maxY);
    Span(x1, y1, x2, y2)
  }

  /** Dragging a handle onto the place where it already is leaves a normal box unchanged. */
  lemma DraggedToOwnAnchor(b: Bounds, h: ResizeHandle)
    requires Normal(b)
    ensures Dragged(b, h, Anchor(b, h)) == b
  {
  }

  /** The new start and end points of a rectangle or pixelate region whose handle h is dragged to p. */
  function BoxResize(s: Point, e: Point, h: ResizeHandle, p: Point): (r: (Point, Point))
    ensures Box(r.0, r.1) == Dragged(Box(s, e), h, p)
  {
    var minX, maxX := Min(s.x, e.x), Max(s.x, e.x);
    var minY, maxY := Min(s.y, e.y), Max(s.y, e.y);
    match h
    case TopLeft => (Point(p.x, minY), Point(maxX, p.y))
    case Top => (Point(minX, minY), Point(maxX, p.y))
    case TopRight => (Point(minX, minY), Point(p.x, p.y))
    case Left => (Point(p.x, minY), Point(maxX, maxY))
    case Right => (Point(minX, minY), Point(p.x, maxY))
    case BottomLeft => (Point(p.x, p.y), Point(maxX, maxY))
    case Bottom => (Point(minX, p.y), Point(maxX, maxY))
    case BottomRight => (Point(minX, maxY), Point(p.x, p.y))
  }

  /** The frame a pen stroke is stretched into when handle h of its box `frame` is dragged to p. */
  function NewPenRect(frame: Rect, h: ResizeHandle, p: Point): (r: Rect)
    requires frame.Rect?
    ensures r.Rect?
  {
    match h
    case TopLeft => Rect(p.x, MinY(frame), MaxX(frame) - p.x, p.y - MinY(frame))
    case Top => Rect(MinX(frame), MinY(frame), Width(frame), p.y - MinY(frame))
    case TopRight => Rect(MinX(frame), MinY(frame), p.x - MinX(frame), p.y - MinY(frame))
    case Left => Rect(p.x, MinY(frame), MaxX(frame) - p.x, Height(frame))
    case Right => Rect(MinX(frame), MinY(frame), p.x - MinX(frame), Height(frame))
    case BottomLeft => Rect(p.x, p.y, MaxX(frame) - p.x, MaxY(frame) - p.y)
    case Bottom => Rect(MinX(frame), p.y, Width(frame), MaxY(frame) - p.y)
    case BottomRight => Rect(MinX(frame), p.y, p.x - MinX(frame), MaxY(frame) - p.y)
  }

  /** Once standardized, the pen's new frame is the dragged box of its old frame. */
  lemma NewPenRectIsDragged(frame: Rect, h: ResizeHandle, p: Point)
    requires frame.Rect?
    ensures RectBounds(NewPenRect(frame, h, p)) == Dragged(RectBounds(frame), h, p)
  {
  }

  /** v moved from the interval starting at oldMin of length oldLen to the one at newMin of length newLen. */
  function Rescale(v: real, oldMin: real, oldLen: real, newMin: real, newLen: real): real
    requires oldLen > 0.0
  {
    newMin + (v - oldMin) * (newLen / oldLen)
  }

  function ScalePoints(ps: seq<Point>, ob: Bounds, nb: Bounds): (r: seq<Point>)
    requires ob.minX < ob.maxX && ob.minY < ob.maxY
    ensures |r| == |ps|
  {
    seq(|ps|, i requires 0 <= i < |ps| =>
      Point(Rescale(ps[i].x, ob.minX, ob.maxX - ob.minX, nb.minX, nb.maxX - nb.minX),
            Rescale(ps[i].y, ob.minY, ob.maxY - ob.minY, nb.minY, nb.maxY - nb.minY)))
  }

  /** When a pen resize takes effect: the stroke has a box of positive area and so does the dragged box. */
  predicate PenResizable(ps: seq<Point>, h: ResizeHandle, p: Point) {
    |ps| > 0 &&
    var b := PointsBounds(ps);
    var nb := Dragged(b, h, p);
    b.minX < b.maxX && b.minY < b.maxY && nb.minX < nb.maxX && nb.minY < nb.maxY
  }

  function PenResize(op: Op, h: ResizeHandle, p: Point): (r: Op)
    requires op.PenOperation?
    ensures Style(r) == Style(op) && |r.points| == |op.points|
    ensures !PenResizable(op.points, h, p) ==> r == op
  {
    if |op.points| == 0 then op
    else
      var oldRect := BoundingRectOf(op.points);
      if !(Width(oldRect) > 0.0 && Height(oldRect) > 0.0) then op
      else
        var newRect := NewPenRect(oldRect, h, p);
        NewPenRectIsDragged(oldRect, h, p);
        if !(Width(newRect) > 0.0 && Height(newRect) > 0.0) then op
        else PenOperation(op.id, ScalePoints(op.points, RectBounds(oldRect), RectBounds(newRect)), op.color, op.lineWidth)
  }

  /** `resize(handle:to:)`. */
  function Resize(op: Op, h: ResizeHandle, p: Point): (r: Op)
    ensures Style(r) == Style(op)
    ensures (op.LineOperation? || op.ArrowOperation?) && h in Handles(op) ==>
      Handles(r).Keys == Handles(op).Keys && Handles(r)[h] == p &&
      forall g :: g in Handles(op) && g != h ==> Handles(r)[g] == Handles(op)[g]
    ensures (op.LineOperation? || op.ArrowOperation?) && h !in Handles(op) ==> r == op
    ensures op.TextOperation? ==> r == op
  {
    match op
    case LineOperation(id, s, e, c, w) =>
      if h == TopLeft then LineOperation(id, p, e, c, w)
      else if h == BottomRight then LineOperation(id, s, p, c, w)
      else op
    case ArrowOperation(id, s, e, c, w) =>
      if h == TopLeft then ArrowOperation(id, p, e, c, w)
      else if h == BottomRight then ArrowOperation(id, s, p, c, w)
      else op
    case RectangleOperation(id, s, e, c, w) =>
      var (s', e') := BoxResize(s, e, h, p);
      RectangleOperation(id, s', e', c, w)
    case PixelateOperation(id, s, e) =>
      var (s', e') := BoxResize(s, e, h, p);
      PixelateOperation(id, s', e')
    case TextOperation(_, _, _, _, _) => op
    case PenOperation(_, _, _, _) => PenResize(op, h, p)
  }

  /** A rectangle or pixelate region resized by a handle spans the dragged box. */
  lemma ResizeBoxIsDragged(op: Op, h: ResizeHandle, p: Point)
    requires op.RectangleOperation? || op.PixelateOperation?
    ensures Box(Resize(op, h, p).startPoint, Resize(op, h, p).endPoint) == Dragged(Box(op.startPoint, op.endPoint), h, p)
  {
  }

  /** Resizing a rectangle or pixelate region by a handle to where it already is keeps its box. */
  lemma ResizeBoxInPlace(op: Op, h: ResizeHandle)
    requires op.RectangleOperation? || op.PixelateOperation?
    ensures Box(Resize(op, h, Handles(op)[h]).startPoint, Resize(op, h, Handles(op)[h]).endPoint) == Box(op.startPoint, op.endPoint)
  {
    ResizeBoxIsDragged(op, h, Handles(op)[h]);
    DraggedToOwnAnchor(Box(op.startPoint, op.endPoint), h);
  }

  /**
    A pen stroke resized by a handle keeps its point count; when the resize
    takes effect, the new stroke's box is exactly the dragged box.
   */
  lemma PenResizeIsDragged(op: Op, h: ResizeHandle, p: Point)
    requires op.PenOperation? && PenResizable(op.points, h, p)
    ensures Resize(op, h, p).PenOperation? && |Resize(op, h, p).points| == |op.points|
    ensures PointsBounds(Resize(op, h, p).points) == Dragged(PointsBounds(op.points), h, p)
  {
    var ps := op.points;
    var oldRect := BoundingRectOf(ps);
    var ob := RectBounds(oldRect);
    var newRect := NewPenRect(oldRect, h, p);
    NewPenRectIsDragged(oldRect, h, p);
    var nb := RectBounds(newRect);
    assert ob == PointsBounds(ps);
    assert nb == Dragged(ob, h, p);
    ScalePointsBounds(ps, ob, nb);
  }

  lemma ScalePointsBounds(ps: seq<Point>, ob: Bounds, nb: Bounds)
    requires |ps| > 0 && ob == PointsBounds(ps)
    requires ob.minX < ob.maxX && ob.minY < ob.maxY && nb.minX < nb.maxX && nb.minY < nb.maxY
    ensures PointsBounds(ScalePoints(ps, ob, nb)) == nb
  {
    var qs := ScalePoints(ps, ob, nb);
    RescaleMonotone(ob.minX, ob.maxX - ob.minX, nb.minX, nb.maxX - nb.minX);
    RescaleMonotone(ob.minY, ob.maxY - ob.minY, nb.minY, nb.maxY - nb.minY);
    ExtremesOfImage(Xs(ps), Xs(qs), (v: real) => Rescale(v, ob.minX, ob.maxX - ob.minX, nb.minX, nb.maxX - nb.minX));
    ExtremesOfImage(Ys(ps), Ys(qs), (v: real) => Rescale(v, ob.minY, ob.maxY - ob.minY, nb.minY, nb.maxY - nb.minY));
    RescaleEnds(ob.minX, ob.maxX - ob.minX, nb.minX, nb.maxX - nb.minX);
    RescaleEnds(ob.minY, ob.maxY - ob.minY, nb.minY, nb.maxY - nb.minY);
  }

  lemma RescaleMonotone(oldMin: real, oldLen: real, newMin: real, newLen: real)
    requires oldLen > 0.0 && newLen > 0.0
    ensures Monotone((v: real) => Rescale(v, oldMin, oldLen, newMin, newLen))
  {
    var k := newLen / oldLen;
    assert 0.0 < k;
    forall u: real, v: real | u <= v
      ensures Rescale(u, oldMin, oldLen, newMin, newLen) <= Rescale(v, oldMin, oldLen, newMin, newLen)
    {
      MulNonneg(v - u, k);
      assert (v - oldMin) * k - (u - oldMin) * k == Mul(v - u, k);
    }
  }

  lemma RescaleEnds(oldMin: real, oldLen: real, newMin: real, newLen: real)
    requires oldLen > 0.0
    ensures Rescale(oldMin, oldMin, oldLen, newMin, newLen) == newMin
    ensures Rescale(oldMin + oldLen, oldMin, oldLen, newMin, newLen) == newMin + newLen
  {
    assert oldLen * (newLen / oldLen) == newLen;
  }

  // ---------------------------------------------------------------------------
  // Pen strokes
  // ---------------------------------------------------------------------------

  /** `PenOperation.addPoint`: one more point at the end of the stroke. */
  function AddPoint(op: Op, p: Point): (r: Op)
    requires op.PenOperation?
    ensures r.PenOperation? && Style(r) == Style(op)
    ensures |r.points| == |op.points| + 1 && r.points[..|op.points|] == op.points && r.points[|op.points|] == p
  {
    PenOperation(op.id, op.points + [p], op.color, op.lineWidth)
  }

  // ---------------------------------------------------------------------------
  // Hit-testing
  // ---------------------------------------------------------------------------

  /** `hypot(..) <= HitThreshold` for the distance from p to the segment [a, b]. */
  predicate NearStroke(p: Point, a: Point, b: Point) {
    NearSegment(p, a, b, HitThresholdSq)
  }

  lemma HitThresholdSqIsSquare()
    ensures HitThresholdSq == HitThreshold * HitThreshold
  {
  }

  /** Some segment of the polyline through ps passes within the threshold of p. */
  predicate PolylineHit(ps: seq<Point>, p: Point) {
    exists i :: 0 <= i < |ps| - 1 && NearStroke(p, ps[i], ps[i + 1])
  }

  /** The CGRect a two-point box shape draws in. */
  function ShapeRect(s: Point, e: Point): (r: Rect)
    ensures r.Rect? && RectBounds(r) == Box(s, e)
  {
    Rect(Min(s.x, e.x), Min(s.y, e.y), Abs(e.x - s.x), Abs(e.y - s.y))
  }

  /** The box a text label occupies: its baseline-left corner at `pos`, extending downwards. */
  function TextRect(pos: Point, size: Size): Rect {
    Rect(pos.x, pos.y - size.height, size.width, size.height)
  }

  /** A pen stroke with no points cannot be hit-tested: its segment range is `0..<-1`. */
  predicate Hittable(op: Op) {
    op.PenOperation? ==> |op.points| > 0
  }

  /** `contains(point:)`. */
  predicate Contains(op: Op, p: Point, measure: TextMeasure)
    requires Hittable(op)
  {
    match op
    case LineOperation(_, s, e, _, _) => NearStroke(p, s, e)
    case ArrowOperation(_, s, e, _, _) => NearStroke(p, s, e)
    case RectangleOperation(_, s, e, _, _) =>
      var rect := ShapeRect(s, e);
      RectContains(InsetBy(rect, -HitThreshold, -HitThreshold), p) &&
      !RectContains(InsetBy(rect, HitThreshold, HitThreshold), p)
    case PixelateOperation(_, s, e) => RectContains(ShapeRect(s, e), p)
    case TextOperation(_, pos, t, _, f) => RectContains(TextRect(pos, measure(t, f)), p)
    case PenOperation(_, ps, _, _) => PolylineHit(ps, p)
  }

  /** `PenOperation.contains`: scan the segments, returning at the first one near enough. */
  method PenContains(points: seq<Point>, p: Point) returns (hit: bool)
    requires |points| > 0
    ensures hit <==> PolylineHit(points, p)
  {
    var index := 0;
    while index < |points| - 1
      invariant 0 <= index <= |points| - 1
      invariant forall j :: 0 <= j < index ==> !NearStroke(p, points[j], points[j + 1])
    {
      if SegmentDistSq(p, points[index], points[index + 1]) <= HitThresholdSq {
        return true;
      }
      index := index + 1;
    }
    return false;
  }

  /**
    The clamped-projection distance is the distance to the nearest point of
    the segment: p is near [a, b] exactly when some point of the segment
    lies within the threshold of p.
   */
  lemma NearSegmentMeaning(p: Point, a: Point, b: Point, tSq: real)
    ensures NearSegment(p, a, b, tSq) <==>
      exists s :: 0.0 <= s <= 1.0 && DistSq(p, PointOnSegment(a, b, s)) <= tSq
  {
    if NearSegment(p, a, b, tSq) {
      SegmentDistSqIsAttained(p, a, b);
    }
    forall s | 0.0 <= s <= 1.0 && DistSq(p, PointOnSegment(a, b, s)) <= tSq
      ensures NearSegment(p, a, b, tSq)
    {
      SegmentDistSqIsLeast(p, a, b, s);
    }
  }

  /** A line or arrow is hit at both of its end points. */
  lemma StrokeEndpointsHit(op: Op, m: TextMeasure)
    requires op.LineOperation? || op.ArrowOperation?
    ensures Contains(op, op.startPoint, m) && Contains(op, op.endPoint, m)
  {
    EndpointsOnSegment(op.startPoint, op.endPoint);
  }

  /** Every point of a pen stroke with at least two points hits it. */
  lemma PenPointsHit(op: Op, i: int, m: TextMeasure)
    requires op.PenOperation? && |op.points| >= 2 && 0 <= i < |op.points|
    ensures Contains(op, op.points[i], m)
  {
    if i < |op.points| - 1 {
      EndpointsOnSegment(op.points[i], op.points[i + 1]);
      assert NearStroke(op.points[i], op.points[i], op.points[i + 1]);
    } else {
      EndpointsOnSegment(op.points[i - 1], op.points[i]);
      assert NearStroke(op.points[i], op.points[i - 1], op.points[i]);
    }
  }

  /** A one-point pen stroke has no segment, so no point hits it. */
  lemma SinglePointPenNeverHit(op: Op, p: Point, m: TextMeasure)
    requires op.PenOperation? && |op.points| == 1
    ensures !Contains(op, p, m)
  {
  }

  /** A rectangle is hit on its outline: here, anywhere along its lower edge. */
  lemma RectangleEdgeHit(op: Op, p: Point, m: TextMeasure)
    requires op.RectangleOperation?
    requires Box(op.startPoint, op.endPoint).minX <= p.x <= Box(op.startPoint, op.endPoint).maxX
    requires p.y == Box(op.startPoint, op.endPoint).minY
    ensures Contains(op, p, m)
  {
  }

  /** A rectangle is not hit more than the threshold inside its outline. */
  lemma RectangleInteriorMiss(op: Op, p: Point, m: TextMeasure)
    requires op.RectangleOperation?
    requires var b := Box(op.startPoint, op.endPoint);
      b.minX + HitThreshold <= p.x < b.maxX - HitThreshold && b.minY + HitThreshold <= p.y < b.maxY - HitThreshold
    ensures !Contains(op, p, m)
  {
  }

  /** A rectangle is not hit at the threshold or further outside its outline. */
  lemma RectangleOutsideMiss(op: Op, p: Point, m: TextMeasure)
    requires op.RectangleOperation?
    requires p.x >= Box(op.startPoint, op.endPoint).maxX + HitThreshold
    ensures !Contains(op, p, m)
  {
  }

  /** A pixelate region is hit exactly on its half-open box. */
  lemma PixelateHitIsBox(op: Op, p: Point, m: TextMeasure)
    requires op.PixelateOperation?
    ensures Contains(op, p, m) <==>
      var b := Box(op.startPoint, op.endPoint);
      b.minX <= p.x < b.maxX && b.minY <= p.y < b.maxY
  {
  }

  /** Moving a shape moves its hit area with it. */
  lemma OffsetMovesHitArea(op: Op, d: Point, p: Point, m: TextMeasure)
    requires Hittable(op)
    ensures Hittable(Offset(op, d))
    ensures Contains(Offset(op, d), Add(p, d), m) == Contains(op, p, m)
  {
    match op
    case LineOperation(_, s, e, _, _) => SegmentDistSqShift(p, s, e, d);
    case ArrowOperation(_, s, e, _, _) => SegmentDistSqShift(p, s, e, d);
    case RectangleOperation(_, s, e, _, _) => BorderBandShift(s, e, d, p);
    case PixelateOperation(_, s, e) => ShapeRectShift(s, e, d, p);
    case TextOperation(_, _, _, _, _) =>
    case PenOperation(_, ps, _, _) => PolylineHitShift(ps, d, p);
  }

  lemma ShapeRectShift(s: Point, e: Point, d: Point, p: Point)
    ensures RectContains(ShapeRect(Add(s, d), Add(e, d)), Add(p, d)) == RectContains(ShapeRect(s, e), p)
  {
  }

  lemma BorderBandShift(s: Point, e: Point, d: Point, p: Point)
    ensures RectContains(InsetBy(ShapeRect(Add(s, d), Add(e, d)), -HitThreshold, -HitThreshold), Add(p, d))
         == RectContains(InsetBy(ShapeRect(s, e), -HitThreshold, -HitThreshold), p)
    ensures RectContains(InsetBy(ShapeRect(Add(s, d), Add(e, d)), HitThreshold, HitThreshold), Add(p, d))
         == RectContains(InsetBy(ShapeRect(s, e), HitThreshold, HitThreshold), p)
  {
  }

  lemma PolylineHitShift(ps: seq<Point>, d: Point, p: Point)
    ensures PolylineHit(Shifted(ps, d), Add(p, d)) == PolylineHit(ps, p)
  {
    var qs := Shifted(ps, d);
    forall i | 0 <= i < |ps| - 1
      ensures NearStroke(Add(p, d), qs[i], qs[i + 1]) == NearStroke(p, ps[i], ps[i + 1])
    {
      SegmentDistSqShift(p, ps[i], ps[i + 1], d);
    }
  }

  lemma SegmentDistSqShift(p: Point, a: Point, b: Point, d: Point)
    ensures SegmentDistSq(Add(p, d), Add(a, d), Add(b, d)) == SegmentDistSq(p, a, b)
  {
    var p', a', b' := Add(p, d), Add(a, d), Add(b, d);
    assert b'.x - a'.x == b.x - a.x && b'.y - a'.y == b.y - a.y;
    assert p'.x - a'.x == p.x - a.x && p'.y - a'.y == p.y - a.y;
    assert LengthSq(a', b') == LengthSq(a, b);
    assert Projection(p', a', b') == Projection(p, a, b);
    forall s: real
      ensures DistSq(p', PointOnSegment(a', b', s)) == DistSq(p, PointOnSegment(a, b, s))
    {
      var q, q' := PointOnSegment(a, b, s), PointOnSegment(a', b', s);
      assert p'.x - q'.x == p.x - q.x && p'.y - q'.y == p.y - q.y;
    }
    assert DistSq(p', a') == DistSq(p, a) by {
      assert p'.x - a'.x == p.x - a.x && p'.y - a'.y == p.y - a.y;
    }
  }
}
