/**
  What holds of the document across its commands: the invariant every command
  keeps, how each command treats the undo and redo histories, the laws of
  undo and redo, and the move/resize gesture, merge and layer reordering.
 */
module DocumentLaws {
  import opened Wrappers
  import opened Geometry
  import opened EditOperations
  import opened Layers
  import opened Sequences
  import opened Document

  /** Every `ImageDocument` entry point, with the values its caller supplies (fresh ids included). */
  datatype Action =
    | SetImage(image: Image, freshId: Uuid)
    | Clear(freshId: Uuid)
    | AddLayer(name: Option<string>, freshId: Uuid)
    | DeleteLayer(id: Uuid)
    | DuplicateLayer(id: Uuid, freshId: Uuid)
    | MoveLayer(fromIndex: int, toIndex: int)
    | EditLayer(id: Uuid, edit: LayerEdit)
    | SelectLayer(id: Uuid)
    | MergeVisibleLayers(freshId: Uuid)
    | FlattenAllLayers(freshId: Uuid)
    | AddOperation(op: Op)
    | StartMovingOperation(id: Uuid)
    | MoveOperation(delta: Point)
    | CommitMove
    | CancelMove
    | StartResizingOperation(id: Uuid)
    | ResizeOperation(handle: ResizeHandle, to: Point)
    | CommitResize
    | CancelResize
    | Undo
    | Redo

  /** Only the gesture steps that write into the remembered slot can trap. */
  predicate Enabled(d: Doc, a: Action) {
    a.MoveOperation? || a.ResizeOperation? || a.CancelMove? || a.CancelResize? ==> TransactionFits(d)
  }

  function Apply(d: Doc, a: Action): Doc
    requires Enabled(d, a)
  {
    match a
    case SetImage(image, freshId) => Document.SetImage(d, image, freshId)
    case Clear(freshId) => Document.Clear(d, freshId)
    case AddLayer(name, freshId) => Document.AddLayer(d, name, freshId)
    case DeleteLayer(id) => Document.DeleteLayer(d, id)
    case DuplicateLayer(id, freshId) => Document.DuplicateLayer(d, id, freshId)
    case MoveLayer(fromIndex, toIndex) => Document.MoveLayer(d, fromIndex, toIndex)
    case EditLayer(id, e) => Document.EditLayer(d, id, e)
    case SelectLayer(id) => Document.SelectLayer(d, id)
    case MergeVisibleLayers(freshId) => Document.MergeVisibleLayers(d, freshId)
    case FlattenAllLayers(freshId) => Document.FlattenAllLayers(d, freshId)
    case AddOperation(op) => Document.AddOperation(d, op)
    case StartMovingOperation(id) => StartTransaction(d, id)
    case MoveOperation(delta) => Document.MoveOperation(d, delta)
    case CommitMove => Commit(d)
    case CancelMove => Cancel(d)
    case StartResizingOperation(id) => StartTransaction(d, id)
    case ResizeOperation(h, p) => Document.ResizeOperation(d, h, p)
    case CommitResize => Commit(d)
    case CancelResize => Cancel(d)
    case Undo => Document.Undo(d)
    case Redo => Document.Redo(d)
  }

  // -------------------------------------------------------------- invariant

  /** The active id, when set, names a layer of the stack. */
  predicate ActiveValid(d: Doc) {
    d.activeLayerId.Some? ==> HasLayer(d.layers, d.activeLayerId.value)
  }

  /** The gesture's original operation and index are set and cleared together. */
  predicate GesturePaired(d: Doc) {
    d.originalOperationBeingMoved.Some? <==> d.movingOperationIndex.Some?
  }

  /** Once an image is set there is always a layer, at least one snapshot, and no snapshot is empty. */
  predicate ImageReady(d: Doc) {
    d.originalImage.Some? ==>
      && d.layers != []
      && |d.undoStack| >= 1
      && (forall i :: 0 <= i < |d.undoStack| ==> d.undoStack[i] != [])
      && (forall i :: 0 <= i < |d.redoStack| ==> d.redoStack[i] != [])
  }

  predicate Valid(d: Doc) {
    ActiveValid(d) && GesturePaired(d) && ImageReady(d)
  }

  /**
    The document the application builds (`ImageDocument()` in the main view
    model) is well-formed. `init(image:)` with an image is never called by
    the application and would not be: it has an image but no layer, which
    `ImageIntoEmptyDocument` exhibits.
   */
  lemma InitValid()
    ensures Valid(Init(None))
  {
  }

  /** `init(image:)` with an image leaves the document without a layer, so not well-formed. */
  lemma ImageIntoEmptyDocument(image: Image)
    ensures !ImageReady(Init(Some(image))) && Operations(Init(Some(image))) == []
  {
  }

  /**
    `addOperation` on a document without layers changes nothing: the
    `activeLayerIndex` guard returns before the undo snapshot is taken.
   */
  lemma AddOperationBeforeImage(image: Option<Image>, op: Op)
    ensures Document.AddOperation(Init(image), op) == Init(image)
    ensures Operations(Document.AddOperation(Init(image), op)) == [] && !CanUndo(Document.AddOperation(Init(image), op))
  {
  }

  /** Every command keeps the invariant. */
  lemma ActionKeepsValid(d: Doc, a: Action)
    requires Valid(d) && Enabled(d, a)
    ensures Valid(Apply(d, a))
  {
    if IsCommand(a) {
      CommandKeepsValid(d, a);
    } else {
      OtherStepKeepsValid(d, a);
    }
  }

  lemma CommandKeepsValid(d: Doc, a: Action)
    requires Valid(d) && IsCommand(a)
    ensures Valid(Apply(d, a))
  {
    if a.AddLayer? || a.DeleteLayer? || a.DuplicateLayer? || a.MoveLayer? {
      StackCommandKeepsValid(d, a);
    } else {
      ContentCommandKeepsValid(d, a);
    }
  }

  lemma StackCommandKeepsValid(d: Doc, a: Action)
    requires Valid(d) && (a.AddLayer? || a.DeleteLayer? || a.DuplicateLayer? || a.MoveLayer?)
    ensures Valid(Apply(d, a))
  {
    match a
    case AddLayer(name, freshId) => AddLayerKeepsValid(d, name, freshId);
    case DeleteLayer(id) => DeleteKeepsValid(d, id);
    case DuplicateLayer(id, freshId) => DuplicateKeepsValid(d, id, freshId);
    case MoveLayer(fromIndex, toIndex) => MoveLayerKeepsValid(d, fromIndex, toIndex);
  }

  lemma AddLayerKeepsValid(d: Doc, name: Option<string>, freshId: Uuid)
    requires Valid(d)
    ensures Valid(Document.AddLayer(d, name, freshId))
  {
    assert Document.AddLayer(d, name, freshId).layers[0].id == freshId;
  }

  lemma DuplicateKeepsValid(d: Doc, id: Uuid, freshId: Uuid)
    requires Valid(d)
    ensures Valid(Document.DuplicateLayer(d, id, freshId))
  {
    if HasLayer(d.layers, id) {
      assert Document.DuplicateLayer(d, id, freshId).layers[FindLayer(d.layers, id).value].id == freshId;
    }
  }

  lemma ContentCommandKeepsValid(d: Doc, a: Action)
    requires Valid(d) && (a.EditLayer? || a.MergeVisibleLayers? || a.FlattenAllLayers? || a.AddOperation?)
    ensures Valid(Apply(d, a))
  {
    match a
    case EditLayer(id, e) => EditKeepsValid(d, id, e);
    case MergeVisibleLayers(freshId) => MergeKeepsValid(d, freshId);
    case FlattenAllLayers(freshId) => FlattenKeepsValid(d, freshId);
    case AddOperation(op) => AddOperationKeepsValid(d, op);
  }

  lemma EditKeepsValid(d: Doc, id: Uuid, e: LayerEdit)
    requires Valid(d)
    ensures Valid(Document.EditLayer(d, id, e))
  {
    if HasLayer(d.layers, id) {
      IdsKept(d.layers, Document.EditLayer(d, id, e).layers, d.activeLayerId);
    }
  }

  lemma AddOperationKeepsValid(d: Doc, op: Op)
    requires Valid(d)
    ensures Valid(Document.AddOperation(d, op))
  {
    if ActiveUnlocked(d) {
      IdsKept(d.layers, Document.AddOperation(d, op).layers, d.activeLayerId);
    }
  }

  lemma MergeKeepsValid(d: Doc, freshId: Uuid)
    requires Valid(d)
    ensures Valid(Document.MergeVisibleLayers(d, freshId))
  {
    if |Visible(d.layers)| > 1 {
      assert Document.MergeVisibleLayers(d, freshId).layers[0].id == freshId;
    }
  }

  lemma FlattenKeepsValid(d: Doc, freshId: Uuid)
    requires Valid(d)
    ensures Valid(Document.FlattenAllLayers(d, freshId))
  {
    if |d.layers| > 1 {
      assert Document.FlattenAllLayers(d, freshId).layers[0].id == freshId;
    }
  }

  lemma OtherStepKeepsValid(d: Doc, a: Action)
    requires Valid(d) && Enabled(d, a) && !IsCommand(a)
    ensures Valid(Apply(d, a))
  {
    match a
    case SetImage(image, freshId) => ResetKeepsValid(d, Some(image), freshId);
    case Clear(freshId) => ResetKeepsValid(d, d.originalImage, freshId);
    case MoveOperation(delta) => MoveKeepsValid(d, delta);
    case CancelMove => CancelKeepsValid(d);
    case ResizeOperation(h, p) => ResizeKeepsValid(d, h, p);
    case CancelResize => CancelKeepsValid(d);
    case StartMovingOperation(id) => StartKeepsValid(d, id);
    case StartResizingOperation(id) => StartKeepsValid(d, id);
    case CommitMove => CommitKeepsValid(d);
    case CommitResize => CommitKeepsValid(d);
    case SelectLayer(id) =>
    case Undo => UndoKeepsValid(d);
    case Redo => RedoKeepsValid(d);
  }

  lemma ResetKeepsValid(d: Doc, image: Option<Image>, freshId: Uuid)
    requires Valid(d)
    ensures Valid(Reset(d, image, freshId))
  {
    assert Reset(d, image, freshId).layers[0].id == freshId;
  }

  lemma MoveKeepsValid(d: Doc, delta: Point)
    requires Valid(d) && TransactionFits(d)
    ensures Valid(Document.MoveOperation(d, delta))
  {
    if InTransaction(d) {
      ReplaceMovingKeepsIds(d, Offset(d.originalOperationBeingMoved.value, delta));
    }
  }

  lemma ResizeKeepsValid(d: Doc, h: ResizeHandle, p: Point)
    requires Valid(d) && TransactionFits(d)
    ensures Valid(Document.ResizeOperation(d, h, p))
  {
    if InTransaction(d) {
      ReplaceMovingKeepsIds(d, Resize(d.originalOperationBeingMoved.value, h, p));
    }
  }

  lemma StartKeepsValid(d: Doc, id: Uuid)
    requires Valid(d)
    ensures Valid(StartTransaction(d, id))
  {
  }

  lemma CommitKeepsValid(d: Doc)
    requires Valid(d)
    ensures Valid(Commit(d))
  {
  }

  lemma UndoKeepsValid(d: Doc)
    requires Valid(d)
    ensures Valid(Document.Undo(d))
  {
  }

  lemma RedoKeepsValid(d: Doc)
    requires Valid(d)
    ensures Valid(Document.Redo(d))
  {
  }

  /** A stack whose ids agree slot by slot with the old one still holds the active layer. */
  lemma IdsKept(ls: seq<Layer>, ls': seq<Layer>, active: Option<Uuid>)
    requires |ls'| == |ls| && forall k :: 0 <= k < |ls| ==> ls'[k].id == ls[k].id
    requires active.Some? ==> HasLayer(ls, active.value)
    ensures active.Some? ==> HasLayer(ls', active.value)
  {
    if active.Some? {
      var k :| 0 <= k < |ls| && ls[k].id == active.value;
      assert ls'[k].id == active.value;
    }
  }

  lemma ReplaceMovingKeepsIds(d: Doc, op: Op)
    requires Valid(d) && InTransaction(d) && TransactionFits(d)
    ensures Valid(ReplaceMoving(d, op))
  {
    IdsKept(d.layers, ReplaceMoving(d, op).layers, d.activeLayerId);
  }

  lemma CancelKeepsValid(d: Doc)
    requires Valid(d) && TransactionFits(d)
    ensures Valid(Cancel(d))
  {
    if InTransaction(d) {
      ReplaceMovingKeepsIds(d, d.originalOperationBeingMoved.value);
    }
  }

  lemma DeleteKeepsValid(d: Doc, id: Uuid)
    requires Valid(d)
    ensures Valid(Document.DeleteLayer(d, id))
  {
    var r := Document.DeleteLayer(d, id);
    if |d.layers| > 1 && HasLayer(d.layers, id) && d.activeLayerId.Some? && d.activeLayerId != Some(id) {
      var i := FindLayer(d.layers, id).value;
      var k :| 0 <= k < |d.layers| && d.layers[k].id == d.activeLayerId.value;
      assert k != i;
      if k < i {
        assert r.layers[k] == d.layers[k];
      } else {
        assert r.layers[k - 1] == d.layers[k];
      }
    }
  }

  /** The same layers in any order hold the same ids. */
  lemma PermutationKeepsIds(ls: seq<Layer>, ls': seq<Layer>, id: Uuid)
    requires multiset(ls') == multiset(ls) && HasLayer(ls, id)
    ensures HasLayer(ls', id)
  {
    var k :| 0 <= k < |ls| && ls[k].id == id;
    assert ls[k] in multiset(ls');
    var k' :| 0 <= k' < |ls'| && ls'[k'] == ls[k];
  }

  lemma MoveLayerKeepsValid(d: Doc, fromIndex: int, toIndex: int)
    requires Valid(d)
    ensures Valid(Document.MoveLayer(d, fromIndex, toIndex))
  {
    if MoveLayerAllowed(d, fromIndex, toIndex) && d.activeLayerId.Some? {
      MoveLayerPermutes(d, fromIndex, toIndex);
      PermutationKeepsIds(d.layers, Document.MoveLayer(d, fromIndex, toIndex).layers, d.activeLayerId.value);
    }
  }

  // ------------------------------------------------------ history discipline

  /** The layer commands: each either changes nothing or records one snapshot. */
  predicate IsCommand(a: Action) {
    a.AddLayer? || a.DeleteLayer? || a.DuplicateLayer? || a.MoveLayer? || a.EditLayer? ||
    a.MergeVisibleLayers? || a.FlattenAllLayers? || a.AddOperation?
  }

  /** The steps that never touch either history. */
  predicate IsQuiet(a: Action) {
    a.SelectLayer? || a.StartMovingOperation? || a.StartResizingOperation? ||
    a.MoveOperation? || a.ResizeOperation? || a.CancelMove? || a.CancelResize?
  }

  /** A refused command changes nothing; an accepted one pushes exactly the layers it found and empties redo. */
  lemma CommandPushesOneSnapshot(d: Doc, a: Action)
    requires IsCommand(a)
    ensures var r := Apply(d, a);
      r == d || (r.undoStack == d.undoStack + [d.layers] && r.redoStack == [])
  {
  }

  lemma QuietStepsKeepHistory(d: Doc, a: Action)
    requires IsQuiet(a) && Enabled(d, a)
    ensures Apply(d, a).undoStack == d.undoStack && Apply(d, a).redoStack == d.redoStack
  {
  }

  /** `commit*` always records a snapshot, even when no gesture was started. */
  lemma CommitAlwaysPushes(d: Doc, a: Action)
    requires a.CommitMove? || a.CommitResize?
    ensures Apply(d, a).undoStack == d.undoStack + [d.layers] && Apply(d, a).redoStack == []
    ensures Apply(d, a).layers == d.layers
  {
  }

  // ----------------------------------------------------------- undo / redo

  /** Once an image is set the undo history never shrinks below one snapshot, so `canUndo` is exactly "more than one". */
  lemma UndoKeepsOneSnapshot(d: Doc)
    requires |d.undoStack| >= 1
    ensures |Document.Undo(d).undoStack| >= 1
    ensures CanUndo(d) <==> |Document.Undo(d).undoStack| == |d.undoStack| - 1
  {
  }

  /** Undo then redo gives back the layers, the redo history and the number of snapshots. */
  lemma UndoThenRedo(d: Doc)
    requires CanUndo(d)
    ensures var r := Document.Redo(Document.Undo(d));
      r.layers == d.layers && r.redoStack == d.redoStack && |r.undoStack| == |d.undoStack|
  {
    var u := Document.Undo(d);
    assert Last(u.redoStack) == d.layers;
    assert DropLast(u.redoStack) == d.redoStack;
  }

  /**
    The layers match the newest snapshot: true after `setImage`, `clear` and
    `commit*`, false after a command that changed the layers.
   */
  predicate InStep(d: Doc) {
    |d.undoStack| > 0 && Last(d.undoStack) == d.layers
  }

  lemma InStepAfterResetAndCommit(d: Doc, image: Image, freshId: Uuid)
    ensures InStep(Document.SetImage(d, image, freshId)) && InStep(Document.Clear(d, freshId)) && InStep(Commit(d))
  {
  }

  /**
    Undo right after a command restores the newest snapshot from before the
    command. Commands snapshot the layers they found, but undo discards the
    newest snapshot and restores the one below it, so only from an in-step
    state is that the layers the command started from.
   */
  lemma UndoAfterCommand(d: Doc, ls: seq<Layer>, active: Option<Uuid>)
    requires |d.undoStack| >= 1
    ensures Document.Undo(Command(d, ls, active)).layers == Last(d.undoStack)
    ensures Document.Undo(Command(d, ls, active)).undoStack == d.undoStack
    ensures InStep(d) ==> Document.Undo(Command(d, ls, active)).layers == d.layers
  {
    assert DropLast(d.undoStack + [d.layers]) == d.undoStack;
  }

  /** Two operations added after `setImage`, then one undo: both are gone. */
  lemma AddAddUndoLosesBoth(d: Doc, image: Image, freshId: Uuid, a: Op, b: Op)
    ensures var s := Document.SetImage(d, image, freshId);
      var r := Document.Undo(Document.AddOperation(Document.AddOperation(s, a), b));
      Operations(r) == [] && |r.undoStack| == 2 && |r.redoStack| == 1
  {
    var s := Document.SetImage(d, image, freshId);
    var s1 := Document.AddOperation(s, a);
    assert ActiveLayerIndex(s) == Some(0);
    assert s1.layers[0].operations == [a];
    assert ActiveLayerIndex(s1) == Some(0);
    var s2 := Document.AddOperation(s1, b);
    UndoAfterCommand(s1, s2.layers, s2.activeLayerId);
    var r := Document.Undo(s2);
    assert r.layers == s.layers;
    assert FirstLayerWithId(r.layers, freshId) == Some(r.layers[0]);
  }

  /** One operation added after `setImage`, then undo: back to the empty layer, as intended. */
  lemma AddUndoRestores(d: Doc, image: Image, freshId: Uuid, a: Op)
    ensures var s := Document.SetImage(d, image, freshId);
      Document.Undo(Document.AddOperation(s, a)).layers == s.layers
  {
    var s := Document.SetImage(d, image, freshId);
    assert ActiveLayerIndex(s) == Some(0);
    UndoAfterCommand(s, Document.AddOperation(s, a).layers, s.activeLayerId);
  }

  // -------------------------------------------------------- move / resize

  /** Rewriting the slot keeps the active layer and the gesture, so a further step is well-defined. */
  lemma ReplaceMovingKeepsGesture(d: Doc, op: Op)
    requires InTransaction(d) && TransactionFits(d)
    ensures var r := ReplaceMoving(d, op);
      ActiveLayerIndex(r) == ActiveLayerIndex(d) && InTransaction(r) && TransactionFits(r)
  {
    var r := ReplaceMoving(d, op);
    if d.activeLayerId.Some? { FindLayerSameIds(d.layers, r.layers, d.activeLayerId.value); }
  }

  /** Each step of a gesture overwrites the previous one: only the last replacement is left. */
  lemma ReplaceIsNotCumulative(d: Doc, a: Op, b: Op)
    requires InTransaction(d) && TransactionFits(d)
    ensures InTransaction(ReplaceMoving(d, a)) && TransactionFits(ReplaceMoving(d, a))
    ensures ReplaceMoving(ReplaceMoving(d, a), b) == ReplaceMoving(d, b)
  {
    ReplaceMovingKeepsGesture(d, a);
    var i := ActiveLayerIndex(d).value;
    var j := d.movingOperationIndex.value;
    var ops := d.layers[i].operations;
    var m := ReplaceMoving(d, a);
    assert m.layers[i].operations[j := b] == ops[j := b];
  }

  /** Each drag step recomputes from the original: moving by d1 and then by d2 is moving by d2. */
  lemma MoveIsNotCumulative(d: Doc, d1: Point, d2: Point)
    requires TransactionFits(d)
    ensures TransactionFits(Document.MoveOperation(d, d1))
    ensures Document.MoveOperation(Document.MoveOperation(d, d1), d2) == Document.MoveOperation(d, d2)
  {
    if InTransaction(d) {
      var o := d.originalOperationBeingMoved.value;
      ReplaceIsNotCumulative(d, Offset(o, d1), Offset(o, d2));
    }
  }

  /** Successive resize steps recompute from the original, so only the last handle position counts. */
  lemma ResizeIsNotCumulative(d: Doc, h1: ResizeHandle, p1: Point, h2: ResizeHandle, p2: Point)
    requires TransactionFits(d)
    ensures TransactionFits(Document.ResizeOperation(d, h1, p1))
    ensures Document.ResizeOperation(Document.ResizeOperation(d, h1, p1), h2, p2) == Document.ResizeOperation(d, h2, p2)
  {
    if InTransaction(d) {
      var o := d.originalOperationBeingMoved.value;
      ReplaceIsNotCumulative(d, Resize(o, h1, p1), Resize(o, h2, p2));
    }
  }

  /** `firstIndex` only looks at ids. */
  lemma {:induction false} FindLayerSameIds(ls: seq<Layer>, ls': seq<Layer>, id: Uuid)
    requires |ls'| == |ls| && forall k :: 0 <= k < |ls| ==> ls'[k].id == ls[k].id
    ensures FindLayer(ls', id) == FindLayer(ls, id)
  {
    if ls != [] && ls[0].id != id {
      FindLayerSameIds(ls[1..], ls'[1..], id);
    }
  }

  /** Moving rewrites only the remembered slot of the active layer. */
  lemma MoveTouchesOneSlot(d: Doc, delta: Point)
    requires TransactionFits(d) && InTransaction(d)
    ensures var r := Document.MoveOperation(d, delta);
      var i := ActiveLayerIndex(d).value;
      var j := d.movingOperationIndex.value;
      && |r.layers| == |d.layers|
      && (forall k :: 0 <= k < |d.layers| && k != i ==> r.layers[k] == d.layers[k])
      && |r.layers[i].operations| == |d.layers[i].operations|
      && r.layers[i].operations[j] == Offset(d.originalOperationBeingMoved.value, delta)
      && (forall k :: 0 <= k < |d.layers[i].operations| && k != j ==> r.layers[i].operations[k] == d.layers[i].operations[k])
  {
  }

  /** A resize step rewrites only the remembered slot, with the original resized by the handle. */
  lemma ResizeTouchesOneSlot(d: Doc, h: ResizeHandle, p: Point)
    requires TransactionFits(d) && InTransaction(d)
    ensures var r := Document.ResizeOperation(d, h, p);
      var i := ActiveLayerIndex(d).value;
      var j := d.movingOperationIndex.value;
      && |r.layers| == |d.layers|
      && (forall k :: 0 <= k < |d.layers| && k != i ==> r.layers[k] == d.layers[k])
      && |r.layers[i].operations| == |d.layers[i].operations|
      && r.layers[i].operations[j] == Resize(d.originalOperationBeingMoved.value, h, p)
      && (forall k :: 0 <= k < |d.layers[i].operations| && k != j ==> r.layers[i].operations[k] == d.layers[i].operations[k])
  {
  }

  /** A gesture started on an operation, whatever its last step wrote into the slot, cancels back to the layers it started from. */
  lemma StartReplaceCancelRestores(d: Doc, id: Uuid, op: Op)
    requires ActiveUnlocked(d) && FindOperation(d.layers[ActiveLayerIndex(d).value].operations, id).Some?
    ensures var s := StartTransaction(d, id);
      && InTransaction(s) && TransactionFits(s)
      && TransactionFits(ReplaceMoving(s, op))
      && Cancel(ReplaceMoving(s, op)).layers == d.layers
      && Cancel(s).layers == d.layers
  {
    var s := StartTransaction(d, id);
    var i := ActiveLayerIndex(d).value;
    var ops := d.layers[i].operations;
    var j := FindOperation(ops, id).value;
    assert ActiveLayerIndex(s) == Some(i);
    assert s.movingOperationIndex == Some(j) && s.originalOperationBeingMoved == Some(ops[j]);
    ReplaceMovingKeepsGesture(s, op);
    ReplaceIsNotCumulative(s, op, ops[j]);
    var c := ReplaceMoving(s, ops[j]);
    assert c.layers[i].operations == ops;
    assert c.layers == d.layers;
  }

  /** A gesture started on an operation, moved and then cancelled, leaves the layers as they were. */
  lemma StartMoveCancelRestores(d: Doc, id: Uuid, delta: Point)
    requires ActiveUnlocked(d) && FindOperation(d.layers[ActiveLayerIndex(d).value].operations, id).Some?
    ensures var s := StartTransaction(d, id);
      TransactionFits(s) && TransactionFits(Document.MoveOperation(s, delta))
      && Cancel(Document.MoveOperation(s, delta)).layers == d.layers
      && Cancel(s).layers == d.layers
  {
    var s := StartTransaction(d, id);
    StartReplaceCancelRestores(d, id, Offset(s.originalOperationBeingMoved.value, delta));
  }

  /** A gesture started on an operation, resized and then cancelled, leaves the layers as they were. */
  lemma StartResizeCancelRestores(d: Doc, id: Uuid, h: ResizeHandle, p: Point)
    requires ActiveUnlocked(d) && FindOperation(d.layers[ActiveLayerIndex(d).value].operations, id).Some?
    ensures var s := StartTransaction(d, id);
      TransactionFits(s) && TransactionFits(Document.ResizeOperation(s, h, p))
      && Cancel(Document.ResizeOperation(s, h, p)).layers == d.layers
      && Cancel(s).layers == d.layers
  {
    var s := StartTransaction(d, id);
    StartReplaceCancelRestores(d, id, Resize(s.originalOperationBeingMoved.value, h, p));
  }

  /** `start*` refuses a locked active layer or an id not on it. */
  lemma StartRefuses(d: Doc, id: Uuid)
    requires !ActiveUnlocked(d) || FindOperation(d.layers[ActiveLayerIndex(d).value].operations, id).None?
    ensures StartTransaction(d, id) == d
  {
  }

  // ------------------------------------------------------- merge / reorder

  lemma {:induction false} VisibleHiddenSplit(ls: seq<Layer>)
    ensures multiset(Visible(ls)) + multiset(Hidden(ls)) == multiset(ls)
    ensures |Visible(ls)| + |Hidden(ls)| == |ls|
  {
    if ls != [] {
      VisibleHiddenSplit(ls[1..]);
      assert ls == [ls[0]] + ls[1..];
    }
  }

  /** All operations of a stack, as a bag. */
  function OperationBag(ls: seq<Layer>): multiset<Op> {
    multiset(StackedOperations(ls))
  }

  lemma {:induction false} OperationBagSplit(ls: seq<Layer>)
    ensures OperationBag(Visible(ls)) + OperationBag(Hidden(ls)) == OperationBag(ls)
  {
    if ls != [] {
      OperationBagSplit(ls[1..]);
      var t := ls[1..];
      assert StackedOperations(ls) == StackedOperations(t) + ls[0].operations;
      if ls[0].isVisible {
        assert Visible(ls) == [ls[0]] + Visible(t);
        assert Visible(ls)[1..] == Visible(t);
        assert StackedOperations(Visible(ls)) == StackedOperations(Visible(t)) + ls[0].operations;
        assert Hidden(ls) == Hidden(t);
      } else {
        assert Hidden(ls) == [ls[0]] + Hidden(t);
        assert Hidden(ls)[1..] == Hidden(t);
        assert StackedOperations(Hidden(ls)) == StackedOperations(Hidden(t)) + ls[0].operations;
        assert Visible(ls) == Visible(t);
      }
    }
  }

  /** Merging loses no operation and adds none. */
  lemma MergeKeepsEveryOperation(d: Doc, freshId: Uuid)
    ensures OperationBag(Document.MergeVisibleLayers(d, freshId).layers) == OperationBag(d.layers)
  {
    var r := Document.MergeVisibleLayers(d, freshId);
    if |Visible(d.layers)| > 1 {
      assert r.layers[1..] == Hidden(d.layers);
      OperationBagSplit(d.layers);
    }
  }

  /** Flattening keeps exactly the visible layers' operations. */
  lemma FlattenKeepsVisibleOperations(d: Doc, freshId: Uuid)
    requires |d.layers| > 1
    ensures OperationBag(Document.FlattenAllLayers(d, freshId).layers) == OperationBag(Visible(d.layers))
    ensures OperationBag(d.layers) - OperationBag(Hidden(d.layers)) == OperationBag(Visible(d.layers))
  {
    var r := Document.FlattenAllLayers(d, freshId);
    assert r.layers[1..] == [];
    assert StackedOperations(r.layers) == StackedOperations(r.layers[1..]) + r.layers[0].operations;
    OperationBagSplit(d.layers);
  }

  /** Reordering is a permutation of the stack. */
  lemma MoveLayerPermutes(d: Doc, fromIndex: int, toIndex: int)
    ensures multiset(Document.MoveLayer(d, fromIndex, toIndex).layers) == multiset(d.layers)
  {
    if MoveLayerAllowed(d, fromIndex, toIndex) {
      var l := d.layers[fromIndex];
      var rest := RemoveAt(d.layers, fromIndex);
      RemoveAtMultiset(d.layers, fromIndex);
      InsertAtMultiset(rest, toIndex, l);
      assert Document.MoveLayer(d, fromIndex, toIndex).layers == InsertAt(rest, toIndex, l);
    }
  }

  /** Deleting never removes the last layer. */
  lemma DeleteKeepsALayer(d: Doc, id: Uuid)
    requires d.layers != []
    ensures Document.DeleteLayer(d, id).layers != []
  {
  }
}
