/**
  A layer: a named, ordered list of annotation operations with visibility,
  lock and opacity. Layers are values; every helper returns an altered copy.
 */
module Layers {
  import opened Geometry
  import opened EditOperations

  datatype Layer = Layer(id: Uuid, name: string, operations: seq<Op>, isVisible: bool, isLocked: bool, opacity: real)

  /** `Layer(id:name:)` with every other argument defaulted. */
  function NewLayer(id: Uuid, name: string): (l: Layer)
    ensures l.id == id && l.name == name
    ensures l.operations == [] && l.isVisible && !l.isLocked && l.opacity == 1.0
  {
    Layer(id, name, [], true, false, 1.0)
  }

  /*
    Each helper's contract says which field it sets, and that putting the old
    value back gives the original layer, so no other field (the id included)
    changes.
   */

  function WithOperations(l: Layer, ops: seq<Op>): (r: Layer)
    ensures r.operations == ops && r.id == l.id
    ensures r.(operations := l.operations) == l
  {
    l.(operations := ops)
  }

  function AddingOperation(l: Layer, op: Op): (r: Layer)
    ensures |r.operations| == |l.operations| + 1
    ensures r.operations[..|l.operations|] == l.operations && r.operations[|l.operations|] == op
    ensures r.id == l.id && r.(operations := l.operations) == l
  {
    l.(operations := l.operations + [op])
  }

  function WithVisibility(l: Layer, isVisible: bool): (r: Layer)
    ensures r.isVisible == isVisible && r.id == l.id
    ensures r.(isVisible := l.isVisible) == l
  {
    l.(isVisible := isVisible)
  }

  function WithLocked(l: Layer, isLocked: bool): (r: Layer)
    ensures r.isLocked == isLocked && r.id == l.id
    ensures r.(isLocked := l.isLocked) == l
  {
    l.(isLocked := isLocked)
  }

  /** Stores the opacity clamped into [0, 1]. */
  function WithOpacity(l: Layer, opacity: real): (r: Layer)
    ensures 0.0 <= r.opacity <= 1.0
    ensures 0.0 <= opacity <= 1.0 ==> r.opacity == opacity
    ensures opacity > 1.0 ==> r.opacity == 1.0
    ensures opacity < 0.0 ==> r.opacity == 0.0
    ensures r.id == l.id && r.(opacity := l.opacity) == l
  {
    l.(opacity := Clamp01(opacity))
  }

  function WithName(l: Layer, name: string): (r: Layer)
    ensures r.name == name && r.id == l.id
    ensures r.(name := l.name) == l
  {
    l.(name := name)
  }

  /** Appending one operation is replacing the list by the list extended with it. */
  lemma AddingIsWithOperations(l: Layer, op: Op)
    ensures AddingOperation(l, op) == WithOperations(l, l.operations + [op])
  {
    var a := AddingOperation(l, op);
    assert a.operations == a.operations[..|l.operations|] + [a.operations[|l.operations|]];
  }

  /** Applying the same opacity twice is applying it once, and re-applying the stored value changes nothing. */
  lemma WithOpacityIdempotent(l: Layer, opacity: real)
    ensures WithOpacity(WithOpacity(l, opacity), opacity) == WithOpacity(l, opacity)
    ensures var r := WithOpacity(l, opacity); WithOpacity(r, r.opacity) == r
  {
  }

  lemma WithOpacityExamples(l: Layer)
    ensures WithOpacity(l, 1.5).opacity == 1.0
    ensures WithOpacity(l, -0.5).opacity == 0.0
    ensures WithOpacity(l, 0.5).opacity == 0.5
  {
  }

  /** Helpers touching different fields commute. */
  lemma VisibilityAndLockCommute(l: Layer, v: bool, k: bool)
    ensures WithLocked(WithVisibility(l, v), k) == WithVisibility(WithLocked(l, k), v)
  {
  }
}
