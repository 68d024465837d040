/**
  `ImageDocument`: the mutable document object. Each method updates the
  fields in place as the source does and is proved to leave the object in
  the state the matching function of module Document computes.
 */
module ImageDocuments {
  import opened Wrappers
  import opened Geometry
  import opened EditOperations
  import opened Layers
  import opened Decimal
  import opened Sequences
  import opened Document

  class ImageDocument {
    var originalImage: Option<Image>
    var layers: seq<Layer>
    var activeLayerId: Option<Uuid>
    var undoStack: seq<seq<Layer>>
    var redoStack: seq<seq<Layer>>
    var originalOperationBeingMoved: Option<Op>
    var movingOperationIndex: Option<nat>
    var layerCount: int

    /** All the fields, as one value. */
    function State(): Doc
      reads this
    {
      Doc(originalImage, layers, activeLayerId, undoStack, redoStack,
          originalOperationBeingMoved, movingOperationIndex, layerCount)
    }

    function ActiveLayerIndex(): Option<nat>
      reads this
    {
      Document.ActiveLayerIndex(State())
    }

    function ActiveLayer(): Option<Layer>
      reads this
    {
      Document.ActiveLayer(State())
    }

    function Operations(): seq<Op>
      reads this
    {
      Document.Operations(State())
    }

    predicate CanUndo()
      reads this
    {
      Document.CanUndo(State())
    }

    predicate CanRedo()
      reads this
    {
      Document.CanRedo(State())
    }

    constructor (image: Option<Image>)
      ensures State() == Init(image)
    {
      originalImage := image;
      layers := [];
      activeLayerId := None;
      undoStack := [];
      redoStack := [];
      originalOperationBeingMoved := None;
      movingOperationIndex := None;
      layerCount := 0;
    }

    method SetImage(image: Image, freshId: Uuid)
      modifies this
      ensures State() == Document.SetImage(old(State()), image, freshId)
    {
      originalImage := Some(image);
      layerCount := 1;
      var defaultLayer := NewLayer(freshId, "Layer 1");
      layers := [defaultLayer];
      activeLayerId := Some(freshId);
      undoStack := [[defaultLayer]];
      redoStack := [];
    }

    method Clear(freshId: Uuid)
      modifies this
      ensures State() == Document.Clear(old(State()), freshId)
    {
      layerCount := 1;
      var defaultLayer := NewLayer(freshId, "Layer 1");
      layers := [defaultLayer];
      activeLayerId := Some(freshId);
      undoStack := [[defaultLayer]];
      redoStack := [];
    }

    method SaveStateForUndo()
      modifies this
      ensures undoStack == old(undoStack) + [layers]
      ensures State() == old(State()).(undoStack := old(undoStack) + [layers])
    {
      undoStack := undoStack + [layers];
    }

    method AddLayer(name: Option<string>, freshId: Uuid) returns (id: Uuid)
      modifies this
      ensures State() == Document.AddLayer(old(State()), name, freshId)
      ensures id == freshId
    {
      layerCount := layerCount + 1;
      var layerName := if name.Some? then name.value else "Layer " + IntToString(layerCount);
      var newLayer := NewLayer(freshId, layerName);
      SaveStateForUndo();
      layers := InsertAt(layers, 0, newLayer);
      activeLayerId := Some(freshId);
      redoStack := [];
      id := freshId;
    }

    method DeleteLayer(id: Uuid)
      modifies this
      ensures State() == Document.DeleteLayer(old(State()), id)
    {
      if |layers| <= 1 {
        return;
      }
      var found := FindLayer(layers, id);
      if found.None? {
        return;
      }
      var index := found.value;
      SaveStateForUndo();
      layers := RemoveAt(layers, index);
      if activeLayerId == Some(id) {
        activeLayerId := Some(layers[0].id);
      }
      redoStack := [];
    }

    method DuplicateLayer(id: Uuid, freshId: Uuid) returns (r: Option<Uuid>)
      modifies this
      ensures State() == Document.DuplicateLayer(old(State()), id, freshId)
      ensures r == (if HasLayer(old(layers), id) then Some(freshId) else None)
    {
      var found := FindLayer(layers, id);
      if found.None? {
        return None;
      }
      var index := found.value;
      var original := layers[index];
      layerCount := layerCount + 1;
      var duplicate := Layer(freshId, original.name + " copy", original.operations,
                             original.isVisible, original.isLocked, original.opacity);
      SaveStateForUndo();
      layers := InsertAt(layers, index, duplicate);
      activeLayerId := Some(freshId);
      redoStack := [];
      return Some(freshId);
    }

    method MoveLayer(fromIndex: int, toIndex: int)
      modifies this
      ensures State() == Document.MoveLayer(old(State()), fromIndex, toIndex)
    {
      if !(fromIndex != toIndex && 0 <= fromIndex < |layers| && 0 <= toIndex < |layers|) {
        return;
      }
      SaveStateForUndo();
      var layer := layers[fromIndex];
      layers := RemoveAt(layers, fromIndex);
      layers := InsertAt(layers, toIndex, layer);
      redoStack := [];
    }

    /** The shared shape of the four single-layer setters. */
    method EditLayer(id: Uuid, e: LayerEdit)
      modifies this
      ensures State() == Document.EditLayer(old(State()), id, e)
    {
      var found := FindLayer(layers, id);
      if found.None? {
        return;
      }
      var index := found.value;
      SaveStateForUndo();
      layers := layers[index := ApplyEdit(layers[index], e)];
      redoStack := [];
    }

    method SetLayerVisibility(id: Uuid, isVisible: bool)
      modifies this
      ensures State() == Document.EditLayer(old(State()), id, SetVisibility(isVisible))
    {
      EditLayer(id, SetVisibility(isVisible));
    }

    method SetLayerLocked(id: Uuid, isLocked: bool)
      modifies this
      ensures State() == Document.EditLayer(old(State()), id, SetLocked(isLocked))
    {
      EditLayer(id, SetLocked(isLocked));
    }

    method SetLayerOpacity(id: Uuid, opacity: real)
      modifies this
      ensures State() == Document.EditLayer(old(State()), id, SetOpacity(opacity))
    {
      EditLayer(id, SetOpacity(opacity));
    }

    method RenameLayer(id: Uuid, name: string)
      modifies this
      ensures State() == Document.EditLayer(old(State()), id, Rename(name))
    {
      EditLayer(id, Rename(name));
    }

    method SelectLayer(id: Uuid)
      modifies this
      ensures State() == Document.SelectLayer(old(State()), id)
    {
      if !HasLayer(layers, id) {
        return;
      }
      activeLayerId := Some(id);
    }

    /** Appends the operations of `ls` from the last layer to the first, skipping hidden ones when `visibleOnly`. */
    method CollectOperations(ls: seq<Layer>, visibleOnly: bool) returns (ops: seq<Op>)
      ensures visibleOnly ==> ops == StackedOperations(Visible(ls))
      ensures !visibleOnly ==> ops == StackedOperations(ls)
    {
      ops := [];
      var k := |ls|;
      while k > 0
        invariant 0 <= k <= |ls|
        invariant visibleOnly ==> ops == StackedOperations(Visible(ls[k..]))
        invariant !visibleOnly ==> ops == StackedOperations(ls[k..])
      {
        k := k - 1;
        assert ls[k..][1..] == ls[k + 1..];
        StackedVisibleUnfold(ls[k..]);
        if !visibleOnly || ls[k].isVisible {
          ops := ops + ls[k].operations;
        }
      }
      assert ls[0..] == ls;
    }

    method MergeVisibleLayers(freshId: Uuid)
      modifies this
      ensures State() == Document.MergeVisibleLayers(old(State()), freshId)
    {
      var visibleLayers := Visible(layers);
      if |visibleLayers| <= 1 {
        return;
      }
      SaveStateForUndo();
      var mergedOperations := CollectOperations(visibleLayers, false);
      layerCount := layerCount + 1;
      var mergedLayer := Layer(freshId, "Merged Layer", mergedOperations, true, false, 1.0);
      layers := [mergedLayer] + Hidden(layers);
      activeLayerId := Some(freshId);
      redoStack := [];
    }

    method FlattenAllLayers(freshId: Uuid)
      modifies this
      ensures State() == Document.FlattenAllLayers(old(State()), freshId)
    {
      if |layers| <= 1 {
        return;
      }
      SaveStateForUndo();
      var allOperations := CollectOperations(layers, true);
      var flattenedLayer := Layer(freshId, "Background", allOperations, true, false, 1.0);
      layers := [flattenedLayer];
      activeLayerId := Some(freshId);
      redoStack := [];
    }

    method AddOperation(op: Op)
      modifies this
      ensures State() == Document.AddOperation(old(State()), op)
    {
      var found := ActiveLayerIndex();
      if found.None? {
        return;
      }
      var index := found.value;
      if layers[index].isLocked {
        return;
      }
      SaveStateForUndo();
      layers := layers[index := AddingOperation(layers[index], op)];
      redoStack := [];
    }

    /** `startMovingOperation` and `startResizingOperation` share this body. */
    method StartTransaction(id: Uuid)
      modifies this
      ensures State() == Document.StartTransaction(old(State()), id)
    {
      var found := ActiveLayerIndex();
      if found.None? {
        return;
      }
      var layerIndex := found.value;
      if layers[layerIndex].isLocked {
        return;
      }
      var opFound := FindOperation(layers[layerIndex].operations, id);
      if opFound.None? {
        return;
      }
      var opIndex := opFound.value;
      originalOperationBeingMoved := Some(layers[layerIndex].operations[opIndex]);
      movingOperationIndex := Some(opIndex);
    }

    method StartMovingOperation(id: Uuid)
      modifies this
      ensures State() == Document.StartTransaction(old(State()), id)
    {
      StartTransaction(id);
    }

    method StartResizingOperation(id: Uuid)
      modifies this
      ensures State() == Document.StartTransaction(old(State()), id)
    {
      StartTransaction(id);
    }

    /** Writes `op` into the remembered slot, when a gesture is in progress. */
    method ReplaceMovingWith(op: Op)
      requires InTransaction(State()) && TransactionFits(State())
      modifies this
      ensures State() == ReplaceMoving(old(State()), op)
    {
      var layerIndex := ActiveLayerIndex().value;
      var opIndex := movingOperationIndex.value;
      var ops := layers[layerIndex].operations;
      ops := ops[opIndex := op];
      layers := layers[layerIndex := WithOperations(layers[layerIndex], ops)];
    }

    /** The id is not consulted: the remembered index decides the slot. */
    method MoveOperation(id: Uuid, delta: Point)
      requires TransactionFits(State())
      modifies this
      ensures State() == Document.MoveOperation(old(State()), delta)
    {
      if ActiveLayerIndex().None? || movingOperationIndex.None? || originalOperationBeingMoved.None? {
        return;
      }
      var movedOperation := Offset(originalOperationBeingMoved.value, delta);
      ReplaceMovingWith(movedOperation);
    }

    method ResizeOperation(id: Uuid, handle: ResizeHandle, to: Point)
      requires TransactionFits(State())
      modifies this
      ensures State() == Document.ResizeOperation(old(State()), handle, to)
    {
      if ActiveLayerIndex().None? || movingOperationIndex.None? || originalOperationBeingMoved.None? {
        return;
      }
      var resizedOperation := Resize(originalOperationBeingMoved.value, handle, to);
      ReplaceMovingWith(resizedOperation);
    }

    method Commit()
      modifies this
      ensures State() == Document.Commit(old(State()))
    {
      originalOperationBeingMoved := None;
      movingOperationIndex := None;
      SaveStateForUndo();
      redoStack := [];
    }

    method CommitMove()
      modifies this
      ensures State() == Document.Commit(old(State()))
    {
      Commit();
    }

    method CommitResize()
      modifies this
      ensures State() == Document.Commit(old(State()))
    {
      Commit();
    }

    method Cancel()
      requires TransactionFits(State())
      modifies this
      ensures State() == Document.Cancel(old(State()))
    {
      if ActiveLayerIndex().Some? && movingOperationIndex.Some? && originalOperationBeingMoved.Some? {
        ReplaceMovingWith(originalOperationBeingMoved.value);
      }
      originalOperationBeingMoved := None;
      movingOperationIndex := None;
    }

    method CancelMove()
      requires TransactionFits(State())
      modifies this
      ensures State() == Document.Cancel(old(State()))
    {
      Cancel();
    }

    method CancelResize()
      requires TransactionFits(State())
      modifies this
      ensures State() == Document.Cancel(old(State()))
    {
      Cancel();
    }

    method Undo()
      modifies this
      ensures State() == Document.Undo(old(State()))
    {
      if |undoStack| <= 1 {
        return;
      }
      redoStack := redoStack + [layers];
      undoStack := undoStack[..|undoStack| - 1];
      if |undoStack| > 0 {
        layers := undoStack[|undoStack| - 1];
        if activeLayerId.Some? && !HasLayer(layers, activeLayerId.value) {
          activeLayerId := if layers == [] then None else Some(layers[0].id);
        }
      }
    }

    method Redo()
      modifies this
      ensures State() == Document.Redo(old(State()))
    {
      if redoStack == [] {
        return;
      }
      var nextState := redoStack[|redoStack| - 1];
      redoStack := redoStack[..|redoStack| - 1];
      undoStack := undoStack + [nextState];
      layers := nextState;
      if activeLayerId.Some? && !HasLayer(layers, activeLayerId.value) {
        activeLayerId := if layers == [] then None else Some(layers[0].id);
      }
    }
  }
}
