/**
  `CanvasViewModel`: the mouse-gesture state machine of the canvas. A press
  either grabs a resize handle of the selected shape, selects the topmost
  shape under the cursor, or starts drawing; a drag grows the shape being
  drawn; a release hands the finished shape (or a request for text) to the
  caller.

  The state is first given as a value, `Canvas`, with one function per
  gesture step; class `CanvasViewModel` holds the same fields and its
  methods are proved to move them as those functions say.
 */
module CanvasViewModels {
  import opened Wrappers
  import opened Geometry
  import opened DrawingTools
  import opened EditOperations

  /** `handleThreshold`: how close to a handle a press has to land, and its square. */
  const HandleThreshold: real := 8.0
  const HandleThresholdSq: real := 64.0

  lemma HandleThresholdSqIsSquare()
    ensures HandleThresholdSq == HandleThreshold * HandleThreshold
  {
  }

  datatype Canvas = Canvas(
    currentOperation: Option<Op>,
    selectedOperationId: Option<Uuid>,
    resizingHandle: Option<ResizeHandle>,
    startPoint: Option<Point>,
    dragStartPoint: Option<Point>,
    isDragging: bool,
    isResizing: bool)

  /** A fresh view model, and the state `cancelOperation` returns to. */
  const Idle := Canvas(None, None, None, None, None, false, false)

  /** What a release hands back to the caller. */
  datatype Emission =
    | NoEmission
    | Completed(op: Op)                                // `completion(operation)`
    | TextRequested(at: Point, color: DrawingColor)    // `onTextInputRequested(point, color) { .. }`

  // ---------------------------------------------------------------------------
  // Press
  // ---------------------------------------------------------------------------

  /** `operations.first(where: { $0.id == id })`. */
  function FirstOpWithId(ops: seq<Op>, id: Uuid): (r: Option<Op>)
    ensures r.None? <==> forall i :: 0 <= i < |ops| ==> ops[i].id != id
    ensures r.Some? ==>
      exists i :: 0 <= i < |ops| && ops[i] == r.value && r.value.id == id &&
        forall j :: 0 <= j < i ==> ops[j].id != id
    decreases |ops|
  {
    if ops == [] then None
    else if ops[0].id == id then Some(ops[0])
    else
      var r := FirstOpWithId(ops[1..], id);
      assert forall j :: 1 <= j < |ops| ==> ops[j] == ops[1..][j - 1];
      r
  }

  function SelectedOperation(c: Canvas, ops: seq<Op>): Option<Op> {
    if c.selectedOperationId.None? then None else FirstOpWithId(ops, c.selectedOperationId.value)
  }

  /** `hypot(..) <= handleThreshold`. */
  predicate NearHandle(p: Point, q: Point) {
    DistSq(p, q) <= HandleThresholdSq
  }

  /** The press lands on a resize handle of the selected shape. */
  predicate OnSelectedHandle(c: Canvas, ops: seq<Op>, p: Point) {
    var sel := SelectedOperation(c, ops);
    sel.Some? && exists h :: h in Handles(sel.value) && NearHandle(p, Handles(sel.value)[h])
  }

  predicate AllHittable(ops: seq<Op>) {
    forall i :: 0 <= i < |ops| ==> Hittable(ops[i])
  }

  /** The last (frontmost) shape containing p: the one the reversed scan stops at. */
  function TopmostHit(ops: seq<Op>, p: Point, measure: TextMeasure): (r: Option<nat>)
    requires AllHittable(ops)
    ensures r.Some? ==>
      r.value < |ops| && Contains(ops[r.value], p, measure) &&
      forall j :: r.value < j < |ops| ==> !Contains(ops[j], p, measure)
    ensures r.None? ==> forall j :: 0 <= j < |ops| ==> !Contains(ops[j], p, measure)
    decreases |ops|
  {
    if ops == [] then None
    else if Contains(ops[|ops| - 1], p, measure) then Some(|ops| - 1)
    else TopmostHit(ops[..|ops| - 1], p, measure)
  }

  /** A press with a drawing tool: remember where, drop the selection. */
  function PressToDraw(c: Canvas, p: Point): (r: Canvas)
    ensures r.startPoint == Some(p) && r.selectedOperationId == None
    ensures r.(startPoint := c.startPoint, selectedOperationId := c.selectedOperationId) == c
  {
    c.(startPoint := Some(p), selectedOperationId := None)
  }

  /**
    A press with the selection tool that misses every handle: select the
    topmost shape under the cursor and start dragging it, or select nothing.
    The second component is what `onOperationSelected` is told.
   */
  function PressToSelect(c: Canvas, p: Point, ops: seq<Op>, measure: TextMeasure): (r: (Canvas, Option<Uuid>))
    requires AllHittable(ops)
    ensures r.0.startPoint == Some(p) && r.1 == r.0.selectedOperationId
    ensures r.1.Some? <==> exists i :: 0 <= i < |ops| && Contains(ops[i], p, measure)
    ensures r.1.Some? ==> r.0.isDragging && r.0.dragStartPoint == Some(p)
    ensures r.1.None? ==> r.0 == PressToDraw(c, p)
  {
    match TopmostHit(ops, p, measure)
    case Some(i) =>
      (c.(startPoint := Some(p), selectedOperationId := Some(ops[i].id),
          dragStartPoint := Some(p), isDragging := true), Some(ops[i].id))
    case None => (PressToDraw(c, p), None)
  }

  /** TopmostHit is the only index that is a hit with no hit after it. */
  lemma TopmostHitIsLast(ops: seq<Op>, p: Point, measure: TextMeasure, i: nat)
    requires AllHittable(ops)
    requires i < |ops| && Contains(ops[i], p, measure)
    requires forall j :: i < j < |ops| ==> !Contains(ops[j], p, measure)
    ensures TopmostHit(ops, p, measure) == Some(i)
  {
    var t := TopmostHit(ops, p, measure);
    assert t.Some?;
    assert t.value == i by {
      if t.value < i {
      } else if t.value > i {
      }
    }
  }

  /** The shape a press selects is the frontmost one under the cursor. */
  lemma PressSelectsFrontmost(c: Canvas, p: Point, ops: seq<Op>, measure: TextMeasure, i: nat)
    requires AllHittable(ops)
    requires i < |ops| && Contains(ops[i], p, measure)
    requires forall j :: i < j < |ops| ==> !Contains(ops[j], p, measure)
    ensures PressToSelect(c, p, ops, measure) ==
      (c.(startPoint := Some(p), selectedOperationId := Some(ops[i].id),
          dragStartPoint := Some(p), isDragging := true), Some(ops[i].id))
  {
    TopmostHitIsLast(ops, p, measure, i);
  }

  // ---------------------------------------------------------------------------
  // Drag
  // ---------------------------------------------------------------------------

  /** The shape a drawing tool makes from the press point to p; `freshId` is the new shape's `UUID()`. */
  function Drag(c: Canvas, p: Point, tool: DrawingTool, color: DrawingColor, freshId: Uuid): (r: Canvas)
    ensures r.(currentOperation := c.currentOperation) == c
    ensures c.startPoint.None? || tool == Select || tool == Text ==> r == c
  {
    if c.startPoint.None? then c
    else
      var start := c.startPoint.value;
      var nc := ToNSColor(color);
      match tool
      case Select => c
      case Text => c
      case Pen =>
        if c.currentOperation.Some? && c.currentOperation.value.PenOperation? then
          c.(currentOperation := Some(AddPoint(c.currentOperation.value, p)))
        else
          c.(currentOperation := Some(PenOperation(freshId, [start, p], nc, DefaultLineWidth)))
      case Line => c.(currentOperation := Some(LineOperation(freshId, start, p, nc, DefaultLineWidth)))
      case Rectangle => c.(currentOperation := Some(RectangleOperation(freshId, start, p, nc, DefaultLineWidth)))
      case Pixelate => c.(currentOperation := Some(PixelateOperation(freshId, start, p)))
      case Arrow => c.(currentOperation := Some(ArrowOperation(freshId, start, p, nc, DefaultLineWidth)))
  }

  predicate ShapeTool(tool: DrawingTool) {
    tool == Line || tool == Rectangle || tool == Pixelate || tool == Arrow
  }

  /** A two-point shape spans the press point and the latest drag point, in the chosen colour. */
  lemma DragDrawsShape(c: Canvas, p: Point, tool: DrawingTool, color: DrawingColor, freshId: Uuid)
    requires c.startPoint.Some? && ShapeTool(tool)
    ensures var op := Drag(c, p, tool, color, freshId).currentOperation;
      && op.Some? && TwoPoint(op.value) && op.value.id == freshId
      && Points(op.value) == [c.startPoint.value, p]
      && (tool != Pixelate ==> op.value.color == ToNSColor(color) && op.value.lineWidth == DefaultLineWidth)
  {
  }

  /** For a two-point shape only the latest drag counts: earlier drags are forgotten. */
  lemma ShapeDragForgetsEarlier(c: Canvas, p: Point, q: Point, tool: DrawingTool, color: DrawingColor, id1: Uuid, id2: Uuid)
    requires ShapeTool(tool)
    ensures Drag(Drag(c, p, tool, color, id1), q, tool, color, id2) == Drag(c, q, tool, color, id2)
  {
  }

  /** A run of drags, all with the same tool and colour. */
  function DragAll(c: Canvas, ps: seq<Point>, tool: DrawingTool, color: DrawingColor, freshId: Uuid): (r: Canvas)
    decreases |ps|
  {
    if ps == [] then c else DragAll(Drag(c, ps[0], tool, color, freshId), ps[1..], tool, color, freshId)
  }

  /** Once a pen stroke has started, each further drag appends exactly its point. */
  lemma {:induction false} PenDragsAppend(c: Canvas, ps: seq<Point>, color: DrawingColor, freshId: Uuid)
    requires c.startPoint.Some? && c.currentOperation.Some? && c.currentOperation.value.PenOperation?
    ensures var r := DragAll(c, ps, Pen, color, freshId);
      && r.currentOperation.Some? && r.currentOperation.value.PenOperation?
      && Style(r.currentOperation.value) == Style(c.currentOperation.value)
      && r.currentOperation.value.points == c.currentOperation.value.points + ps
    decreases |ps|
  {
    if ps != [] {
      var c' := Drag(c, ps[0], Pen, color, freshId);
      PenDragsAppend(c', ps[1..], color, freshId);
      assert [ps[0]] + ps[1..] == ps;
    }
  }

  /**
    A pen stroke: after a press at p0 with no shape under way, k drags give a
    pen shape through p0 and the k drag points, in order.
   */
  lemma PenStrokeCollectsPoints(c: Canvas, p0: Point, ps: seq<Point>, color: DrawingColor, freshId: Uuid)
    requires c.currentOperation.None? && |ps| > 0
    ensures DragAll(PressToDraw(c, p0), ps, Pen, color, freshId).currentOperation
      == Some(PenOperation(freshId, [p0] + ps, ToNSColor(color), DefaultLineWidth))
  {
    var c1 := Drag(PressToDraw(c, p0), ps[0], Pen, color, freshId);
    assert c1.currentOperation == Some(PenOperation(freshId, [p0, ps[0]], ToNSColor(color), DefaultLineWidth));
    PenDragsAppend(c1, ps[1..], color, freshId);
    assert [p0, ps[0]] + ps[1..] == [p0] + ps;
    var r := DragAll(c1, ps[1..], Pen, color, freshId);
    StyleAndPointsDetermine(r.currentOperation.value, PenOperation(freshId, [p0] + ps, ToNSColor(color), DefaultLineWidth));
  }

  /** `getDragOffset(currentPoint:)`: how far the cursor is from where the drag started. */
  function DragOffset(c: Canvas, current: Point): (r: Option<Point>)
    ensures r.Some? <==> c.isDragging && c.dragStartPoint.Some?
    ensures r.Some? ==> Add(c.dragStartPoint.value, r.value) == current
  {
    if c.isDragging && c.dragStartPoint.Some? then Some(Sub(current, c.dragStartPoint.value)) else None
  }

  /** After grabbing a shape, the offset is measured from the press point. */
  lemma GrabThenOffset(c: Canvas, p: Point, q: Point, ops: seq<Op>, measure: TextMeasure)
    requires AllHittable(ops)
    requires PressToSelect(c, p, ops, measure).1.Some?
    ensures DragOffset(PressToSelect(c, p, ops, measure).0, q) == Some(Sub(q, p))
  {
  }

  // ---------------------------------------------------------------------------
  // Release and cancel
  // ---------------------------------------------------------------------------

  /** `handleMouseUp(tool:color:completion:)`: the new state and what the caller receives. */
  function Release(c: Canvas, tool: DrawingTool, color: DrawingColor): (r: (Canvas, Emission))
    ensures r.0.startPoint.None?
    ensures tool == Select ==>
      && r.1 == NoEmission && !r.0.isDragging && !r.0.isResizing
      && r.0.resizingHandle.None? && r.0.dragStartPoint.None?
      && r.0.currentOperation == c.currentOperation && r.0.selectedOperationId == c.selectedOperationId
    ensures tool != Select ==>
      r.0 == c.(currentOperation := None, startPoint := None)
    ensures r.1.TextRequested? <==> tool == Text && c.startPoint.Some?
    ensures r.1.TextRequested? ==> r.1 == TextRequested(c.startPoint.value, color)
    ensures r.1.Completed? <==>
      tool != Select && !(tool == Text && c.startPoint.Some?) && c.currentOperation.Some?
    ensures r.1.Completed? ==> r.1.op == c.currentOperation.value
  {
    if tool == Select then
      (c.(isDragging := false, isResizing := false, resizingHandle := None,
          dragStartPoint := None, startPoint := None), NoEmission)
    else
      var e :=
        if tool == Text && c.startPoint.Some? then TextRequested(c.startPoint.value, color)
        else if c.currentOperation.Some? then Completed(c.currentOperation.value)
        else NoEmission;
      (c.(currentOperation := None, startPoint := None), e)
  }

  /** The completion the text prompt runs: a text shape at the press point, in the chosen colour. */
  function TextFor(request: Emission, text: string, freshId: Uuid): (op: Op)
    requires request.TextRequested?
    ensures op.TextOperation? && op.position == request.at && op.text == text
    ensures op.color == ToNSColor(request.color) && op.fontSize == DefaultFontSize && op.id == freshId
  {
    TextOperation(freshId, request.at, text, ToNSColor(request.color), DefaultFontSize)
  }

  /** Press, drag, release with a two-point tool yields the shape from press to last drag point. */
  lemma ShapeGesture(c: Canvas, a: Point, ps: seq<Point>, tool: DrawingTool, color: DrawingColor, freshId: Uuid)
    requires ShapeTool(tool) && |ps| > 0
    ensures var r := Release(DragAll(PressToDraw(c, a), ps, tool, color, freshId), tool, color);
      && r.1.Completed? && TwoPoint(r.1.op) && Points(r.1.op) == [a, ps[|ps| - 1]]
      && r.0.currentOperation.None? && r.0.startPoint.None?
  {
    ShapeDragsKeepStart(PressToDraw(c, a), ps, tool, color, freshId);
  }

  lemma {:induction false} ShapeDragsKeepStart(c: Canvas, ps: seq<Point>, tool: DrawingTool, color: DrawingColor, freshId: Uuid)
    requires ShapeTool(tool) && c.startPoint.Some? && |ps| > 0
    ensures var r := DragAll(c, ps, tool, color, freshId);
      && r.startPoint == c.startPoint && r.currentOperation.Some? && TwoPoint(r.currentOperation.value)
      && Points(r.currentOperation.value) == [c.startPoint.value, ps[|ps| - 1]]
    decreases |ps|
  {
    var c1 := Drag(c, ps[0], tool, color, freshId);
    DragDrawsShape(c, ps[0], tool, color, freshId);
    if |ps| > 1 {
      ShapeDragsKeepStart(c1, ps[1..], tool, color, freshId);
      assert ps[1..][|ps[1..]| - 1] == ps[|ps| - 1];
    }
  }

  /** A click with the text tool asks for text at the click point and emits no shape. */
  lemma TextClickRequestsText(c: Canvas, a: Point, color: DrawingColor)
    ensures Release(PressToDraw(c, a), Text, color).1 == TextRequested(a, color)
  {
  }

  /** A click with a two-point tool and no drag emits nothing. */
  lemma ClickWithoutDragEmitsNothing(c: Canvas, a: Point, tool: DrawingTool, color: DrawingColor)
    requires ShapeTool(tool) && c.currentOperation.None?
    ensures Release(PressToDraw(c, a), tool, color).1 == NoEmission
  {
  }

  /** `for (handle, handlePoint) in handles`: some handle within reach of p, tried in no fixed order. */
  method FindHandle(p: Point, handles: map<ResizeHandle, Point>) returns (r: Option<ResizeHandle>)
    ensures r.Some? ==> r.value in handles && NearHandle(p, handles[r.value])
    ensures r.None? ==> forall h :: h in handles ==> !NearHandle(p, handles[h])
  {
    var remaining := handles.Keys;
    while remaining != {}
      invariant remaining <= handles.Keys
      invariant forall h :: h in handles && h !in remaining ==> !NearHandle(p, handles[h])
      decreases |remaining|
    {
      var h :| h in remaining;
      if DistSq(p, handles[h]) <= HandleThresholdSq {
        return Some(h);
      }
      remaining := remaining - {h};
    }
    return None;
  }

  /** `for operation in operations.reversed()`: the first hit scanning from the back. */
  method FindTopmost(ops: seq<Op>, p: Point, measure: TextMeasure) returns (r: Option<nat>)
    requires AllHittable(ops)
    ensures r == TopmostHit(ops, p, measure)
  {
    var k := |ops|;
    while k > 0
      invariant 0 <= k <= |ops|
      invariant forall j :: k <= j < |ops| ==> !Contains(ops[j], p, measure)
    {
      k := k - 1;
      if Contains(ops[k], p, measure) {
        TopmostHitIsLast(ops, p, measure, k);
        return Some(k);
      }
    }
    return None;
  }

  // ---------------------------------------------------------------------------
  // The object
  // ---------------------------------------------------------------------------

  class CanvasViewModel {
    var currentOperation: Option<Op>
    var selectedOperationId: Option<Uuid>
    var resizingHandle: Option<ResizeHandle>
    var startPoint: Option<Point>
    var dragStartPoint: Option<Point>
    var isDragging: bool
    var isResizing: bool

    function State(): Canvas
      reads this
    {
      Canvas(currentOperation, selectedOperationId, resizingHandle, startPoint,
             dragStartPoint, isDragging, isResizing)
    }

    constructor ()
      ensures State() == Idle
    {
      currentOperation := None;
      selectedOperationId := None;
      resizingHandle := None;
      startPoint := None;
      dragStartPoint := None;
      isDragging := false;
      isResizing := false;
    }

    /**
      `handleMouseDown(at:tool:operations:)`. The result is what
      `onOperationSelected` is called with, `None` when it is not called.
      The handles are tried in no particular order, as a dictionary is.
     */
    method HandleMouseDown(point: Point, tool: DrawingTool, operations: seq<Op>, measure: TextMeasure)
      returns (notified: Option<Option<Uuid>>)
      requires tool == Select ==> AllHittable(operations)
      modifies this
      ensures tool != Select ==> State() == PressToDraw(old(State()), point) && notified == Some(None)
      ensures tool == Select && OnSelectedHandle(old(State()), operations, point) ==>
        && notified == None && resizingHandle.Some?
        && var op := SelectedOperation(old(State()), operations).value;
        && resizingHandle.value in Handles(op) && NearHandle(point, Handles(op)[resizingHandle.value])
        && State() == old(State()).(startPoint := Some(point), resizingHandle := resizingHandle, isResizing := true)
      ensures tool == Select && !OnSelectedHandle(old(State()), operations, point) ==>
        var (s, n) := PressToSelect(old(State()), point, operations, measure);
        State() == s && notified == Some(n)
    {
      startPoint := Some(point);
      if tool != Select {
        selectedOperationId := None;
        return Some(None);
      }
      var selected := SelectedOperation(State(), operations);
      if selected.Some? {
        var handle := FindHandle(point, Handles(selected.value));
        if handle.Some? {
          resizingHandle := handle;
          isResizing := true;
          return None;
        }
      }
      var hit := FindTopmost(operations, point, measure);
      if hit.Some? {
        selectedOperationId := Some(operations[hit.value].id);
        dragStartPoint := Some(point);
        isDragging := true;
        return Some(Some(operations[hit.value].id));
      }
      selectedOperationId := None;
      return Some(None);
    }

    /** `handleMouseDragged(to:tool:color:)`; `freshId` is the id a new shape gets. */
    method HandleMouseDragged(point: Point, tool: DrawingTool, color: DrawingColor, freshId: Uuid)
      modifies this
      ensures State() == Drag(old(State()), point, tool, color, freshId)
    {
      if startPoint.None? {
        return;
      }
      var start := startPoint.value;
      if tool == Select && (isDragging || isResizing) {
        return;
      }
      var nc := ToNSColor(color);
      match tool {
        case Select =>
        case Text =>
        case Pen =>
          if currentOperation.Some? && currentOperation.value.PenOperation? {
            currentOperation := Some(AddPoint(currentOperation.value, point));
          } else {
            currentOperation := Some(PenOperation(freshId, [start, point], nc, DefaultLineWidth));
          }
        case Line =>
          currentOperation := Some(LineOperation(freshId, start, point, nc, DefaultLineWidth));
        case Rectangle =>
          currentOperation := Some(RectangleOperation(freshId, start, point, nc, DefaultLineWidth));
        case Pixelate =>
          currentOperation := Some(PixelateOperation(freshId, start, point));
        case Arrow =>
          currentOperation := Some(ArrowOperation(freshId, start, point, nc, DefaultLineWidth));
      }
    }

    /** `getDragOffset(currentPoint:)`. */
    method GetDragOffset(currentPoint: Point) returns (r: Option<Point>)
      ensures r.Some? <==> isDragging && dragStartPoint.Some?
      ensures r.Some? ==> Add(dragStartPoint.value, r.value) == currentPoint
    {
      if !isDragging || dragStartPoint.None? {
        return None;
      }
      var dragStart := dragStartPoint.value;
      return Some(Point(currentPoint.x - dragStart.x, currentPoint.y - dragStart.y));
    }

    /** `handleMouseUp(tool:color:completion:)`: the emission is what reaches the completion or the prompt. */
    method HandleMouseUp(tool: DrawingTool, color: DrawingColor) returns (e: Emission)
      modifies this
      ensures (State(), e) == Release(old(State()), tool, color)
    {
      if tool == Select {
        isDragging := false;
        isResizing := false;
        resizingHandle := None;
        dragStartPoint := None;
        startPoint := None;
        return NoEmission;
      }
      if tool == Text && startPoint.Some? {
        e := TextRequested(startPoint.value, color);
      } else if currentOperation.Some? {
        e := Completed(currentOperation.value);
      } else {
        e := NoEmission;
      }
      currentOperation := None;
      startPoint := None;
    }

    /** `cancelOperation()`: every field back to its initial value. */
    method CancelOperation()
      modifies this
      ensures State() == Idle
    {
      currentOperation := None;
      startPoint := None;
      isDragging := false;
      isResizing := false;
      resizingHandle := None;
      dragStartPoint := None;
      selectedOperationId := None;
    }
  }
}
