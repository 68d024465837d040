/**
  The annotated image document as a value: the layer stack, the active layer,
  the snapshot-based undo and redo histories and the transient state of a
  move or resize gesture. Every `ImageDocument` method is a function from the
  state before to the state after; the class in image_document.dfy is proved
  against these functions.
 */
module Document {
  import opened Wrappers
  import opened Geometry
  import opened EditOperations
  import opened Layers
  import opened Decimal
  import opened Sequences

  /** An `NSImage`, as an opaque handle. */
  type Image = nat

  datatype Doc = Doc(
    originalImage: Option<Image>,
    layers: seq<Layer>,
    activeLayerId: Option<Uuid>,
    undoStack: seq<seq<Layer>>,
    redoStack: seq<seq<Layer>>,
    originalOperationBeingMoved: Option<Op>,
    movingOperationIndex: Option<nat>,
    layerCount: int)

  /** `ImageDocument(image:)`: no layers, no history, no gesture. */
  function Init(image: Option<Image>): (d: Doc)
    ensures d.originalImage == image && d.layers == [] && d.activeLayerId == None
    ensures d.undoStack == [] && d.redoStack == [] && d.layerCount == 0
    ensures d.originalOperationBeingMoved == None && d.movingOperationIndex == None
  {
    Doc(image, [], None, [], [], None, None, 0)
  }

  // ---------------------------------------------------------------- queries

  predicate HasLayer(ls: seq<Layer>, id: Uuid) {
    exists i :: 0 <= i < |ls| && ls[i].id == id
  }

  /** `layers.firstIndex(where: { $0.id == id })`. */
  function FindLayer(ls: seq<Layer>, id: Uuid): (r: Option<nat>)
    ensures r.Some? ==> r.value < |ls| && ls[r.value].id == id
    ensures r.Some? ==> forall j :: 0 <= j < r.value ==> ls[j].id != id
    ensures r.None? <==> !HasLayer(ls, id)
  {
    if ls == [] then None
    else if ls[0].id == id then Some(0)
    else match FindLayer(ls[1..], id)
      case None => assert forall i :: 1 <= i < |ls| ==> ls[i] == ls[1..][i - 1]; None
      case Some(k) => Some(k + 1)
  }

  /** `layers.first(where: { $0.id == id })`. */
  function FirstLayerWithId(ls: seq<Layer>, id: Uuid): Option<Layer> {
    if ls == [] then None
    else if ls[0].id == id then Some(ls[0])
    else FirstLayerWithId(ls[1..], id)
  }

  /** `operations.firstIndex(where: { $0.id == id })`. */
  function FindOperation(ops: seq<Op>, id: Uuid): (r: Option<nat>)
    ensures r.Some? ==> r.value < |ops| && ops[r.value].id == id
    ensures r.Some? ==> forall j :: 0 <= j < r.value ==> ops[j].id != id
    ensures r.None? ==> forall j :: 0 <= j < |ops| ==> ops[j].id != id
  {
    if ops == [] then None
    else if ops[0].id == id then Some(0)
    else match FindOperation(ops[1..], id)
      case None => assert forall i :: 1 <= i < |ops| ==> ops[i] == ops[1..][i - 1]; None
      case Some(k) => Some(k + 1)
  }

  /** `activeLayerIndex`: the first layer when no id is set, else the first layer carrying it. */
  function ActiveLayerIndex(d: Doc): (r: Option<nat>)
    ensures r.Some? ==> r.value < |d.layers|
    ensures d.activeLayerId.None? ==> (r.Some? <==> d.layers != []) && (r.Some? ==> r.value == 0)
    ensures d.activeLayerId.Some? && r.Some? ==> d.layers[r.value].id == d.activeLayerId.value
    ensures d.activeLayerId.Some? ==> (r.None? <==> !HasLayer(d.layers, d.activeLayerId.value))
  {
    match d.activeLayerId
    case None => if d.layers == [] then None else Some(0)
    case Some(id) => FindLayer(d.layers, id)
  }

  /** `activeLayer`, which the source computes independently of `activeLayerIndex`. */
  function ActiveLayer(d: Doc): Option<Layer> {
    match d.activeLayerId
    case None => if d.layers == [] then None else Some(d.layers[0])
    case Some(id) => FirstLayerWithId(d.layers, id)
  }

  /** `operations`: the active layer's operations, or none. */
  function Operations(d: Doc): (ops: seq<Op>)
    ensures ActiveLayer(d).None? ==> ops == []
  {
    match ActiveLayer(d)
    case None => []
    case Some(l) => l.operations
  }

  predicate CanUndo(d: Doc) {
    |d.undoStack| > 1
  }

  predicate CanRedo(d: Doc) {
    d.redoStack != []
  }

  lemma {:induction false} FirstLayerWithIdAgrees(ls: seq<Layer>, id: Uuid)
    ensures FindLayer(ls, id).None? ==> FirstLayerWithId(ls, id).None?
    ensures FindLayer(ls, id).Some? ==> FirstLayerWithId(ls, id) == Some(ls[FindLayer(ls, id).value])
  {
    if ls != [] && ls[0].id != id {
      FirstLayerWithIdAgrees(ls[1..], id);
    }
  }

  /** The two ways the source finds the active layer agree. */
  lemma ActiveLayerAgrees(d: Doc)
    ensures ActiveLayer(d).Some? <==> ActiveLayerIndex(d).Some?
    ensures ActiveLayer(d).Some? ==> ActiveLayer(d).value == d.layers[ActiveLayerIndex(d).value]
  {
    if d.activeLayerId.Some? {
      FirstLayerWithIdAgrees(d.layers, d.activeLayerId.value);
    }
  }

  // ------------------------------------------------------- image management

  /** The document as `setImage` and `clear` leave it: one fresh "Layer 1", active, as the only snapshot. */
  function Reset(d: Doc, image: Option<Image>, freshId: Uuid): (r: Doc)
    ensures r.originalImage == image && r.layers == [NewLayer(freshId, "Layer 1")]
    ensures r.activeLayerId == Some(freshId) && r.undoStack == [r.layers] && r.redoStack == []
    ensures r.layerCount == 1 && !CanUndo(r) && !CanRedo(r)
    ensures r.originalOperationBeingMoved == d.originalOperationBeingMoved
    ensures r.movingOperationIndex == d.movingOperationIndex
  {
    var l := NewLayer(freshId, "Layer 1");
    d.(originalImage := image, layerCount := 1, layers := [l], activeLayerId := Some(freshId),
       undoStack := [[l]], redoStack := [])
  }

  function SetImage(d: Doc, image: Image, freshId: Uuid): (r: Doc)
    ensures r == Reset(d, Some(image), freshId)
  {
    Reset(d, Some(image), freshId)
  }

  /** `clear` keeps the image. */
  function Clear(d: Doc, freshId: Uuid): (r: Doc)
    ensures r == Reset(d, d.originalImage, freshId)
  {
    Reset(d, d.originalImage, freshId)
  }

  // --------------------------------------------------------------- commands

  /**
    What every layer command does around its own change: `saveStateForUndo`
    pushes the layers as they were, the layers become `ls`, the active layer
    becomes `active`, and the redo history is dropped.
   */
  function Command(d: Doc, ls: seq<Layer>, active: Option<Uuid>): (r: Doc)
    ensures r.undoStack == d.undoStack + [d.layers] && r.redoStack == []
    ensures r.layers == ls && r.activeLayerId == active
    ensures r.originalImage == d.originalImage && r.layerCount == d.layerCount
    ensures r.originalOperationBeingMoved == d.originalOperationBeingMoved
    ensures r.movingOperationIndex == d.movingOperationIndex
  {
    d.(undoStack := d.undoStack + [d.layers], layers := ls, activeLayerId := active, redoStack := [])
  }

  /** The name `addLayer` gives: the caller's, else "Layer n" for the incremented counter. */
  function NewLayerName(name: Option<string>, count: int): string {
    match name
    case Some(n) => n
    case None => "Layer " + IntToString(count)
  }

  /** `addLayer(named:)`: a fresh layer on top (index 0), made active. */
  function AddLayer(d: Doc, name: Option<string>, freshId: Uuid): (r: Doc)
    ensures |r.layers| == |d.layers| + 1 && r.layers[1..] == d.layers
    ensures r.layers[0] == NewLayer(freshId, NewLayerName(name, d.layerCount + 1))
    ensures r.activeLayerId == Some(freshId) && r.layerCount == d.layerCount + 1
    ensures r.undoStack == d.undoStack + [d.layers] && r.redoStack == []
    ensures r.originalImage == d.originalImage && r.originalOperationBeingMoved == d.originalOperationBeingMoved && r.movingOperationIndex == d.movingOperationIndex
  {
    var count := d.layerCount + 1;
    var l := NewLayer(freshId, NewLayerName(name, count));
    Command(d.(layerCount := count), InsertAt(d.layers, 0, l), Some(freshId))
  }

  /** `deleteLayer(withId:)`: refused for the last layer or an unknown id; a deleted active layer hands over to the first. */
  function DeleteLayer(d: Doc, id: Uuid): (r: Doc)
    ensures |d.layers| <= 1 || !HasLayer(d.layers, id) ==> r == d
    ensures |d.layers| > 1 && HasLayer(d.layers, id) ==>
      var i := FindLayer(d.layers, id).value;
      && r == Command(d, RemoveAt(d.layers, i), r.activeLayerId)
      && r.activeLayerId == (if d.activeLayerId == Some(id) then Some(r.layers[0].id) else d.activeLayerId)
  {
    if |d.layers| <= 1 then d
    else match FindLayer(d.layers, id)
      case None => d
      case Some(i) =>
        var ls := RemoveAt(d.layers, i);
        Command(d, ls, if d.activeLayerId == Some(id) then Some(ls[0].id) else d.activeLayerId)
  }

  /** `duplicateLayer(withId:)`: a copy named "<name> copy" inserted at the original's index, made active. */
  function DuplicateLayer(d: Doc, id: Uuid, freshId: Uuid): (r: Doc)
    ensures !HasLayer(d.layers, id) ==> r == d
    ensures HasLayer(d.layers, id) ==>
      var i := FindLayer(d.layers, id).value;
      var o := d.layers[i];
      && r.layers == InsertAt(d.layers, i, Layer(freshId, o.name + " copy", o.operations, o.isVisible, o.isLocked, o.opacity))
      && r.layers[i + 1] == o
      && r.activeLayerId == Some(freshId) && r.layerCount == d.layerCount + 1
      && r.undoStack == d.undoStack + [d.layers] && r.redoStack == []
    ensures r.originalImage == d.originalImage && r.originalOperationBeingMoved == d.originalOperationBeingMoved && r.movingOperationIndex == d.movingOperationIndex
  {
    match FindLayer(d.layers, id)
    case None => d
    case Some(i) =>
      var o := d.layers[i];
      var copy := Layer(freshId, o.name + " copy", o.operations, o.isVisible, o.isLocked, o.opacity);
      Command(d.(layerCount := d.layerCount + 1), InsertAt(d.layers, i, copy), Some(freshId))
  }

  predicate MoveLayerAllowed(d: Doc, fromIndex: int, toIndex: int) {
    fromIndex != toIndex && 0 <= fromIndex < |d.layers| && 0 <= toIndex < |d.layers|
  }

  /** `moveLayer(fromIndex:toIndex:)`: take the layer out, put it back at `toIndex`. */
  function MoveLayer(d: Doc, fromIndex: int, toIndex: int): (r: Doc)
    ensures !MoveLayerAllowed(d, fromIndex, toIndex) ==> r == d
    ensures MoveLayerAllowed(d, fromIndex, toIndex) ==>
      && |r.layers| == |d.layers| && r.layers[toIndex] == d.layers[fromIndex]
      && RemoveAt(r.layers, toIndex) == RemoveAt(d.layers, fromIndex)
      && r == Command(d, r.layers, d.activeLayerId)
  {
    if !MoveLayerAllowed(d, fromIndex, toIndex) then d
    else
      var l := d.layers[fromIndex];
      var rest := RemoveAt(d.layers, fromIndex);
      InsertRemoveInverse(rest, toIndex, l);
      Command(d, InsertAt(rest, toIndex, l), d.activeLayerId)
  }

  /** The commands that rewrite one layer found by id, through a `Layer` helper. */
  datatype LayerEdit = SetVisibility(isVisible: bool) | SetLocked(isLocked: bool) | SetOpacity(opacity: real) | Rename(name: string)

  function ApplyEdit(l: Layer, e: LayerEdit): (r: Layer)
    ensures r.id == l.id
  {
    match e
    case SetVisibility(v) => WithVisibility(l, v)
    case SetLocked(k) => WithLocked(l, k)
    case SetOpacity(x) => WithOpacity(l, x)
    case Rename(n) => WithName(l, n)
  }

  /** `setLayerVisibility`, `setLayerLocked`, `setLayerOpacity` and `renameLayer`. */
  function EditLayer(d: Doc, id: Uuid, e: LayerEdit): (r: Doc)
    ensures !HasLayer(d.layers, id) ==> r == d
    ensures HasLayer(d.layers, id) ==>
      var i := FindLayer(d.layers, id).value;
      r == Command(d, d.layers[i := ApplyEdit(d.layers[i], e)], d.activeLayerId)
  {
    match FindLayer(d.layers, id)
    case None => d
    case Some(i) => Command(d, d.layers[i := ApplyEdit(d.layers[i], e)], d.activeLayerId)
  }

  /** `selectLayer(withId:)`: only an existing id is taken; the histories are untouched. */
  function SelectLayer(d: Doc, id: Uuid): (r: Doc)
    ensures HasLayer(d.layers, id) ==> r == d.(activeLayerId := Some(id))
    ensures !HasLayer(d.layers, id) ==> r == d
  {
    if HasLayer(d.layers, id) then d.(activeLayerId := Some(id)) else d
  }

  function Visible(ls: seq<Layer>): (r: seq<Layer>)
    ensures |r| <= |ls| && forall i :: 0 <= i < |r| ==> r[i].isVisible
  {
    if ls == [] then [] else (if ls[0].isVisible then [ls[0]] else []) + Visible(ls[1..])
  }

  function Hidden(ls: seq<Layer>): (r: seq<Layer>)
    ensures |r| <= |ls| && forall i :: 0 <= i < |r| ==> !r[i].isVisible
  {
    if ls == [] then [] else (if ls[0].isVisible then [] else [ls[0]]) + Hidden(ls[1..])
  }

  /** The operations of `ls` in drawing order: bottom layer (last) first, each layer's own order kept. */
  function StackedOperations(ls: seq<Layer>): seq<Op> {
    if ls == [] then [] else StackedOperations(ls[1..]) + ls[0].operations
  }

  /** Peeling the top layer off a stack: its operations, if visible, come last. */
  lemma StackedVisibleUnfold(ls: seq<Layer>)
    requires ls != []
    ensures StackedOperations(Visible(ls)) ==
      StackedOperations(Visible(ls[1..])) + (if ls[0].isVisible then ls[0].operations else [])
  {
    if ls[0].isVisible {
      assert Visible(ls)[1..] == Visible(ls[1..]);
    } else {
      assert Visible(ls) == Visible(ls[1..]);
    }
  }

  /** `mergeVisibleLayers`: needs two visible layers; they give way to one "Merged Layer" on top. */
  function MergeVisibleLayers(d: Doc, freshId: Uuid): (r: Doc)
    ensures |Visible(d.layers)| <= 1 ==> r == d
    ensures |Visible(d.layers)| > 1 ==>
      && r.layers == [Layer(freshId, "Merged Layer", StackedOperations(Visible(d.layers)), true, false, 1.0)] + Hidden(d.layers)
      && r.activeLayerId == Some(freshId) && r.layerCount == d.layerCount + 1
      && r.undoStack == d.undoStack + [d.layers] && r.redoStack == []
    ensures r.originalImage == d.originalImage && r.originalOperationBeingMoved == d.originalOperationBeingMoved && r.movingOperationIndex == d.movingOperationIndex
  {
    var visible := Visible(d.layers);
    if |visible| <= 1 then d
    else
      var merged := Layer(freshId, "Merged Layer", StackedOperations(visible), true, false, 1.0);
      Command(d.(layerCount := d.layerCount + 1), [merged] + Hidden(d.layers), Some(freshId))
  }

  /** `flattenAllLayers`: needs two layers; one "Background" layer holding what was visible. */
  function FlattenAllLayers(d: Doc, freshId: Uuid): (r: Doc)
    ensures |d.layers| <= 1 ==> r == d
    ensures |d.layers| > 1 ==>
      && r.layers == [Layer(freshId, "Background", StackedOperations(Visible(d.layers)), true, false, 1.0)]
      && r.activeLayerId == Some(freshId) && r.layerCount == d.layerCount
      && r.undoStack == d.undoStack + [d.layers] && r.redoStack == []
    ensures r.originalImage == d.originalImage && r.originalOperationBeingMoved == d.originalOperationBeingMoved && r.movingOperationIndex == d.movingOperationIndex
  {
    if |d.layers| <= 1 then d
    else
      var flat := Layer(freshId, "Background", StackedOperations(Visible(d.layers)), true, false, 1.0);
      Command(d, [flat], Some(freshId))
  }

  /** Whether `addOperation` and the `start*` gestures may touch the active layer. */
  predicate ActiveUnlocked(d: Doc) {
    ActiveLayerIndex(d).Some? && !d.layers[ActiveLayerIndex(d).value].isLocked
  }

  /** `addOperation`: appends to the active layer when there is one and it is unlocked. */
  function AddOperation(d: Doc, op: Op): (r: Doc)
    ensures !ActiveUnlocked(d) ==> r == d
    ensures ActiveUnlocked(d) ==>
      var i := ActiveLayerIndex(d).value;
      && |r.layers| == |d.layers| && r.layers[i].operations == d.layers[i].operations + [op]
      && (forall j :: 0 <= j < |d.layers| && j != i ==> r.layers[j] == d.layers[j])
      && r == Command(d, r.layers, d.activeLayerId)
  {
    if !ActiveUnlocked(d) then d
    else
      var i := ActiveLayerIndex(d).value;
      Command(d, d.layers[i := AddingOperation(d.layers[i], op)], d.activeLayerId)
  }

  // ------------------------------------------------------ move and resize

  /**
    `startMovingOperation` and `startResizingOperation` (the same code):
    remember the operation with that id on the active, unlocked layer and its index.
   */
  function StartTransaction(d: Doc, id: Uuid): (r: Doc)
    ensures !ActiveUnlocked(d) ==> r == d
    ensures ActiveUnlocked(d) ==>
      var ops := d.layers[ActiveLayerIndex(d).value].operations;
      && (FindOperation(ops, id).None? ==> r == d)
      && (FindOperation(ops, id).Some? ==>
            var j := FindOperation(ops, id).value;
            r == d.(originalOperationBeingMoved := Some(ops[j]), movingOperationIndex := Some(j)))
  {
    if !ActiveUnlocked(d) then d
    else
      var ops := d.layers[ActiveLayerIndex(d).value].operations;
      match FindOperation(ops, id)
      case None => d
      case Some(j) => d.(originalOperationBeingMoved := Some(ops[j]), movingOperationIndex := Some(j))
  }

  /** A gesture is in progress against a layer that has an active index. */
  predicate InTransaction(d: Doc) {
    ActiveLayerIndex(d).Some? && d.movingOperationIndex.Some? && d.originalOperationBeingMoved.Some?
  }

  /**
    `ops[opIndex] = ...` traps when the remembered index is past the end of the
    active layer's operations (the active layer changed mid-gesture); callers
    must not let that happen.
   */
  predicate TransactionFits(d: Doc) {
    InTransaction(d) ==> d.movingOperationIndex.value < |d.layers[ActiveLayerIndex(d).value].operations|
  }

  /**
    Writes `op` into the remembered slot of the active layer: that slot
    becomes `op`, every other operation and every other layer stays, and so
    does everything in the document besides the layers.
   */
  function ReplaceMoving(d: Doc, op: Op): (r: Doc)
    requires InTransaction(d) && TransactionFits(d)
    ensures var i := ActiveLayerIndex(d).value;
      var j := d.movingOperationIndex.value;
      && |r.layers| == |d.layers|
      && (forall k :: 0 <= k < |d.layers| && k != i ==> r.layers[k] == d.layers[k])
      && r.layers[i] == d.layers[i].(operations := r.layers[i].operations)
      && |r.layers[i].operations| == |d.layers[i].operations|
      && r.layers[i].operations[j] == op
      && (forall k :: 0 <= k < |d.layers[i].operations| && k != j ==> r.layers[i].operations[k] == d.layers[i].operations[k])
    ensures r == d.(layers := r.layers)
  {
    var i := ActiveLayerIndex(d).value;
    var ops := d.layers[i].operations;
    d.(layers := d.layers[i := WithOperations(d.layers[i], ops[d.movingOperationIndex.value := op])])
  }

  /** `moveOperation(withId:by:)`: the remembered slot becomes the original moved by the whole offset. */
  function MoveOperation(d: Doc, delta: Point): (r: Doc)
    requires TransactionFits(d)
    ensures !InTransaction(d) ==> r == d
    ensures InTransaction(d) ==> r == ReplaceMoving(d, Offset(d.originalOperationBeingMoved.value, delta))
  {
    if !InTransaction(d) then d else ReplaceMoving(d, Offset(d.originalOperationBeingMoved.value, delta))
  }

  /** `resizeOperation(withId:handle:to:)`: the remembered slot becomes the original resized. */
  function ResizeOperation(d: Doc, h: ResizeHandle, p: Point): (r: Doc)
    requires TransactionFits(d)
    ensures !InTransaction(d) ==> r == d
    ensures InTransaction(d) ==> r == ReplaceMoving(d, Resize(d.originalOperationBeingMoved.value, h, p))
  {
    if !InTransaction(d) then d else ReplaceMoving(d, Resize(d.originalOperationBeingMoved.value, h, p))
  }

  /** `commitMove` and `commitResize`: forget the gesture, push the current layers, drop redo. */
  function Commit(d: Doc): (r: Doc)
    ensures r.originalOperationBeingMoved == None && r.movingOperationIndex == None
    ensures r.layers == d.layers && r.activeLayerId == d.activeLayerId
    ensures r.undoStack == d.undoStack + [d.layers] && r.redoStack == []
    ensures r.originalImage == d.originalImage && r.layerCount == d.layerCount
  {
    d.(originalOperationBeingMoved := None, movingOperationIndex := None,
       undoStack := d.undoStack + [d.layers], redoStack := [])
  }

  /** `cancelMove` and `cancelResize`: put the original back, forget the gesture. */
  function Cancel(d: Doc): (r: Doc)
    requires TransactionFits(d)
    ensures r.originalOperationBeingMoved == None && r.movingOperationIndex == None
    ensures r.undoStack == d.undoStack && r.redoStack == d.redoStack && r.activeLayerId == d.activeLayerId
    ensures InTransaction(d) ==> r.layers == ReplaceMoving(d, d.originalOperationBeingMoved.value).layers
    ensures !InTransaction(d) ==> r.layers == d.layers
    ensures r.originalImage == d.originalImage && r.layerCount == d.layerCount
  {
    var e := if InTransaction(d) then ReplaceMoving(d, d.originalOperationBeingMoved.value) else d;
    e.(originalOperationBeingMoved := None, movingOperationIndex := None)
  }

  // ------------------------------------------------------------ undo / redo

  /** After a restore, an active id that no longer exists falls back to the first layer (or nil). */
  function Retarget(ls: seq<Layer>, active: Option<Uuid>): (r: Option<Uuid>)
    ensures r.Some? ==> HasLayer(ls, r.value)
    ensures active.Some? && HasLayer(ls, active.value) ==> r == active
    ensures active.None? ==> r == None
  {
    if active.Some? && !HasLayer(ls, active.value) then
      (if ls == [] then None else Some(ls[0].id))
    else active
  }

  /** `undo`: with two or more snapshots, push the current layers for redo, drop the top snapshot and restore the one below. */
  function Undo(d: Doc): (r: Doc)
    ensures !CanUndo(d) ==> r == d
    ensures CanUndo(d) ==>
      && r.undoStack == DropLast(d.undoStack) && r.redoStack == d.redoStack + [d.layers]
      && r.layers == Last(r.undoStack) && r.activeLayerId == Retarget(r.layers, d.activeLayerId)
    ensures r.originalImage == d.originalImage && r.layerCount == d.layerCount
    // A gesture in progress survives: its remembered index is not checked against the restored layers.
    ensures r.originalOperationBeingMoved == d.originalOperationBeingMoved && r.movingOperationIndex == d.movingOperationIndex
  {
    if !CanUndo(d) then d
    else
      var u := DropLast(d.undoStack);
      d.(redoStack := d.redoStack + [d.layers], undoStack := u, layers := Last(u),
         activeLayerId := Retarget(Last(u), d.activeLayerId))
  }

  /** `redo`: pop the newest redo snapshot, push it as a snapshot and restore it. */
  function Redo(d: Doc): (r: Doc)
    ensures !CanRedo(d) ==> r == d
    ensures CanRedo(d) ==>
      && r.redoStack == DropLast(d.redoStack) && r.undoStack == d.undoStack + [Last(d.redoStack)]
      && r.layers == Last(d.redoStack) && r.activeLayerId == Retarget(r.layers, d.activeLayerId)
    ensures r.originalImage == d.originalImage && r.layerCount == d.layerCount
    ensures r.originalOperationBeingMoved == d.originalOperationBeingMoved && r.movingOperationIndex == d.movingOperationIndex
  {
    if !CanRedo(d) then d
    else
      var next := Last(d.redoStack);
      d.(redoStack := DropLast(d.redoStack), undoStack := d.undoStack + [next], layers := next,
         activeLayerId := Retarget(next, d.activeLayerId))
  }
}
