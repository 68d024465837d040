/**
  `MainViewModel`: the window's state — the document being edited, the
  chosen tool and colour, and the zoom factor, which is kept between 50 %
  and 300 % and shown as a whole percentage.
 */
module MainViewModels {
  import opened Wrappers
  import opened Decimal
  import opened DrawingTools
  import opened EditOperations
  import opened Document
  import opened ImageDocuments

  const MinZoomScale: real := 0.5
  const MaxZoomScale: real := 3.0

  /** `min(max(scale, minZoomScale), maxZoomScale)`. */
  function ClampZoom(scale: real): (r: real)
    ensures MinZoomScale <= r <= MaxZoomScale
    ensures MinZoomScale <= scale <= MaxZoomScale ==> r == scale
    ensures scale < MinZoomScale ==> r == MinZoomScale
    ensures MaxZoomScale < scale ==> r == MaxZoomScale
  {
    var lower := if scale >= MinZoomScale then scale else MinZoomScale;
    if lower <= MaxZoomScale then lower else MaxZoomScale
  }

  /** Clamping twice is clamping once. */
  lemma ClampZoomIdempotent(scale: real)
    ensures ClampZoom(ClampZoom(scale)) == ClampZoom(scale)
  {
  }

  /** Clamping never reverses the order of two scales. */
  lemma ClampZoomMonotone(a: real, b: real)
    requires a <= b
    ensures ClampZoom(a) <= ClampZoom(b)
  {
  }

  /** Swift's `Int(x)` for a finite x: the fraction is dropped, toward zero. */
  function Truncate(x: real): (n: int)
    ensures 0.0 <= x ==> n as real <= x < n as real + 1.0
    ensures x < 0.0 ==> n as real - 1.0 < x <= n as real
  {
    if x >= 0.0 then x.Floor else -((-x).Floor)
  }

  /** `zoomScaleFormatted`: `"\(Int(zoomScale * 100))%"`. */
  function ZoomScaleFormatted(zoom: real): (s: string)
    ensures |s| >= 2 && s[|s| - 1] == '%'
    ensures s[..|s| - 1] == IntToString(Truncate(zoom * 100.0))
  {
    IntToString(Truncate(zoom * 100.0)) + "%"
  }

  /**
    Any zoom the clamp allows shows as a plain number of percent between 50
    and 300, and reading the digits back gives the truncated percentage.
   */
  lemma ZoomScaleFormattedReadsBack(zoom: real)
    requires MinZoomScale <= zoom <= MaxZoomScale
    ensures var s := ZoomScaleFormatted(zoom);
      && (forall i :: 0 <= i < |s| - 1 ==> IsDigit(s[i]))
      && 50 <= ParseDigits(s[..|s| - 1]) <= 300
      && ParseDigits(s[..|s| - 1]) as real <= zoom * 100.0 < ParseDigits(s[..|s| - 1]) as real + 1.0
  {
    var n := Truncate(zoom * 100.0);
    assert 50 <= n <= 300;
    NatToStringRoundTrip(n);
  }

  lemma ZoomScaleFormattedExamples()
    ensures ZoomScaleFormatted(1.0) == "100%"
    ensures ZoomScaleFormatted(1.5) == "150%"
    ensures ZoomScaleFormatted(0.755) == "75%"
  {
    assert Truncate(100.0) == 100;
    assert Truncate(150.0) == 150;
    assert Truncate(75.5) == 75;
    assert NatToString(100) == "100";
    assert NatToString(150) == "150";
    assert NatToString(75) == "75";
  }

  class MainViewModel {
    const document: ImageDocument
    var selectedTool: DrawingTool
    var selectedColor: DrawingColor
    var autoCloseAfterSave: bool
    var zoomScale: real

    constructor ()
      ensures fresh(document) && document.State() == Init(None)
      ensures selectedTool == Line && selectedColor == Red
      ensures !autoCloseAfterSave && zoomScale == 1.0
    {
      document := new ImageDocument(None);
      selectedTool := Line;
      selectedColor := Red;
      autoCloseAfterSave := false;
      zoomScale := 1.0;
    }

    /** `setZoomScale(_:)`. */
    method SetZoomScale(scale: real)
      modifies this
      ensures zoomScale == ClampZoom(scale)
      ensures selectedTool == old(selectedTool) && selectedColor == old(selectedColor)
      ensures autoCloseAfterSave == old(autoCloseAfterSave)
    {
      zoomScale := if scale >= MinZoomScale then scale else MinZoomScale;
      if zoomScale > MaxZoomScale {
        zoomScale := MaxZoomScale;
      }
    }

    /** `resetZoomScale()`. */
    method ResetZoomScale()
      modifies this
      ensures zoomScale == 1.0
      ensures selectedTool == old(selectedTool) && selectedColor == old(selectedColor)
      ensures autoCloseAfterSave == old(autoCloseAfterSave)
    {
      zoomScale := 1.0;
    }

    /** `undo()`: hands over to the document. */
    method Undo()
      modifies document
      ensures document.State() == Document.Undo(old(document.State()))
    {
      document.Undo();
    }

    /** `redo()`: hands over to the document. */
    method Redo()
      modifies document
      ensures document.State() == Document.Redo(old(document.State()))
    {
      document.Redo();
    }

    /** `clear()`: hands over to the document; `freshId` is the new layer's id. */
    method Clear(freshId: Uuid)
      modifies document
      ensures document.State() == Document.Clear(old(document.State()), freshId)
    {
      document.Clear(freshId);
    }
  }
}
