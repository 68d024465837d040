/**
  The canvas `Coordinator`: routes the three mouse events of the canvas view
  to the canvas view model and the document. With the selection tool a
  press starts a move or resize transaction on the document, a drag moves
  or resizes the selected shape, and a release commits; with a drawing tool
  the gesture is drawn by the view model and the finished shape is handed
  to the completion hook that `makeCoordinator` installs, which appends it
  to the document.
 */
module Coordinators {
  import opened Wrappers
  import opened Geometry
  import opened DrawingTools
  import opened EditOperations
  import opened Document
  import opened ImageDocuments
  import opened CanvasViewModels
  import opened MainViewModels

  /** A shape the press selects in the active layer becomes the one the transaction holds. */
  lemma GrabStartsTransaction(d: Doc, i: nat)
    requires ActiveUnlocked(d) && i < |Operations(d)|
    ensures var s := StartTransaction(d, Operations(d)[i].id);
      && InTransaction(s) && TransactionFits(s)
      && s.originalOperationBeingMoved.value.id == Operations(d)[i].id
      && s.layers == d.layers && s.undoStack == d.undoStack
  {
    ActiveLayerAgrees(d);
    var ops := d.layers[ActiveLayerIndex(d).value].operations;
    assert ops == Operations(d);
    var found := FindOperation(ops, ops[i].id);
    assert found.Some?;
  }

  class Coordinator {
    const canvasViewModel: CanvasViewModel
    const viewModel: MainViewModel
    /** The document the completion hook appends finished shapes to. */
    const completionTarget: ImageDocument

    /** `makeCoordinator()`: the completion hook is `document.addOperation`. */
    constructor (document: ImageDocument, canvasViewModel: CanvasViewModel, viewModel: MainViewModel)
      ensures this.canvasViewModel == canvasViewModel && this.viewModel == viewModel
      ensures completionTarget == document
    {
      this.canvasViewModel := canvasViewModel;
      this.viewModel := viewModel;
      completionTarget := document;
    }

    /**
      `canvasView(_:mouseDownAt:)`. With the selection tool, once the press
      has left a shape selected the document starts a transaction on it
      (`startResizingOperation` when a handle is held, `startMovingOperation`
      otherwise — the two do the same thing).
     */
    method MouseDown(point: Point, measure: TextMeasure) returns (notified: Option<Option<Uuid>>)
      requires viewModel.selectedTool == Select ==> AllHittable(viewModel.document.Operations())
      modifies canvasViewModel, viewModel.document
      ensures viewModel.selectedTool != Select ==>
        && canvasViewModel.State() == PressToDraw(old(canvasViewModel.State()), point)
        && notified == Some(None)
        && viewModel.document.State() == old(viewModel.document.State())
      ensures viewModel.selectedTool == Select && OnSelectedHandle(old(canvasViewModel.State()), old(viewModel.document.Operations()), point) ==>
        && notified == None && canvasViewModel.resizingHandle.Some?
        && var op := SelectedOperation(old(canvasViewModel.State()), old(viewModel.document.Operations())).value;
        && canvasViewModel.resizingHandle.value in Handles(op)
        && NearHandle(point, Handles(op)[canvasViewModel.resizingHandle.value])
        && canvasViewModel.State() == old(canvasViewModel.State()).(startPoint := Some(point),
             resizingHandle := canvasViewModel.resizingHandle, isResizing := true)
        && viewModel.document.State() == StartTransaction(old(viewModel.document.State()), op.id)
      ensures viewModel.selectedTool == Select && !OnSelectedHandle(old(canvasViewModel.State()), old(viewModel.document.Operations()), point) ==>
        (canvasViewModel.State(), notified) == (
          var (s, n) := PressToSelect(old(canvasViewModel.State()), point, old(viewModel.document.Operations()), measure);
          (s, Some(n)))
      ensures viewModel.selectedTool == Select && canvasViewModel.selectedOperationId.Some? ==>
        viewModel.document.State() == StartTransaction(old(viewModel.document.State()), canvasViewModel.selectedOperationId.value)
      ensures viewModel.selectedTool == Select && canvasViewModel.selectedOperationId.None? ==>
        viewModel.document.State() == old(viewModel.document.State())
    {
      var tool := viewModel.selectedTool;
      var operations := viewModel.document.Operations();
      notified := canvasViewModel.HandleMouseDown(point, tool, operations, measure);
      if tool == Select && canvasViewModel.resizingHandle.Some? && canvasViewModel.selectedOperationId.Some? {
        viewModel.document.StartResizingOperation(canvasViewModel.selectedOperationId.value);
      } else if tool == Select && canvasViewModel.selectedOperationId.Some? {
        viewModel.document.StartMovingOperation(canvasViewModel.selectedOperationId.value);
      }
    }

    /**
      `canvasView(_:mouseDraggedTo:)`. With the selection tool and a shape
      selected, the held handle resizes it, or else the drag offset moves
      it; otherwise the view model draws. `freshId` is the id a new shape gets.
     */
    method MouseDragged(point: Point, freshId: Uuid)
      requires TransactionFits(viewModel.document.State())
      modifies canvasViewModel, viewModel.document
      ensures viewModel.selectedTool == Select && canvasViewModel.selectedOperationId.Some? ==>
        && canvasViewModel.State() == old(canvasViewModel.State())
        && viewModel.document.State() ==
          if canvasViewModel.resizingHandle.Some? then
            Document.ResizeOperation(old(viewModel.document.State()), canvasViewModel.resizingHandle.value, point)
          else if DragOffset(canvasViewModel.State(), point).Some? then
            Document.MoveOperation(old(viewModel.document.State()), DragOffset(canvasViewModel.State(), point).value)
          else old(viewModel.document.State())
      ensures !(viewModel.selectedTool == Select && old(canvasViewModel.selectedOperationId).Some?) ==>
        && canvasViewModel.State() == Drag(old(canvasViewModel.State()), point, viewModel.selectedTool, viewModel.selectedColor, freshId)
        && viewModel.document.State() == old(viewModel.document.State())
    {
      var tool := viewModel.selectedTool;
      var color := viewModel.selectedColor;
      if tool == Select && canvasViewModel.selectedOperationId.Some? {
        var selectedId := canvasViewModel.selectedOperationId.value;
        if canvasViewModel.resizingHandle.Some? {
          viewModel.document.ResizeOperation(selectedId, canvasViewModel.resizingHandle.value, point);
        } else {
          var offset := canvasViewModel.GetDragOffset(point);
          if offset.Some? {
            viewModel.document.MoveOperation(selectedId, offset.value);
          }
        }
      } else {
        canvasViewModel.HandleMouseDragged(point, tool, color, freshId);
      }
    }

    /**
      `canvasView(_:mouseUpAt:)`. A selection gesture commits on the
      document; then the view model releases, and a finished shape goes
      through the completion hook. A text request is returned to the caller,
      which answers it with `CompleteText`.
     */
    method MouseUp() returns (e: Emission)
      modifies canvasViewModel, viewModel.document, completionTarget
      ensures (canvasViewModel.State(), e) ==
        Release(old(canvasViewModel.State()), viewModel.selectedTool, viewModel.selectedColor)
      ensures viewModel.selectedTool == Select && old(canvasViewModel.selectedOperationId).Some? ==>
        viewModel.document.State() == Commit(old(viewModel.document.State()))
        && (completionTarget != viewModel.document ==> completionTarget.State() == old(completionTarget.State()))
      ensures viewModel.selectedTool == Select && old(canvasViewModel.selectedOperationId).None? ==>
        viewModel.document.State() == old(viewModel.document.State())
        && completionTarget.State() == old(completionTarget.State())
      ensures viewModel.selectedTool != Select ==>
        && completionTarget.State() ==
          (if e.Completed? then Document.AddOperation(old(completionTarget.State()), e.op) else old(completionTarget.State()))
        && (completionTarget != viewModel.document ==> viewModel.document.State() == old(viewModel.document.State()))
    {
      var tool := viewModel.selectedTool;
      var color := viewModel.selectedColor;
      if tool == Select && canvasViewModel.selectedOperationId.Some? {
        if canvasViewModel.resizingHandle.Some? {
          viewModel.document.CommitResize();
        } else {
          viewModel.document.CommitMove();
        }
      }
      e := canvasViewModel.HandleMouseUp(tool, color);
      if e.Completed? {
        completionTarget.AddOperation(e.op);
      }
    }

    /** The closure given to `onTextInputRequested`: the typed text becomes a text shape in the document. */
    method CompleteText(request: Emission, text: string, freshId: Uuid)
      requires request.TextRequested?
      modifies completionTarget
      ensures completionTarget.State() == Document.AddOperation(old(completionTarget.State()), TextFor(request, text, freshId))
    {
      completionTarget.AddOperation(TextFor(request, text, freshId));
    }
  }
}
