/**
  The editor's tool palette and colour palette: `String`-backed enums whose
  raw value doubles as their identity, and the AppKit colour each palette
  entry stands for.
 */
module DrawingTools {
  import opened Wrappers

  /** The AppKit colours the palette can produce, as opaque tags. */
  datatype NSColor = SystemRed | SystemBlue | SystemGreen | SystemYellow | Black

  datatype DrawingTool = Select | Pen | Line | Rectangle | Pixelate | Arrow | Text

  /** `DrawingTool.allCases`, in declaration order. */
  const AllTools: seq<DrawingTool> := [Select, Pen, Line, Rectangle, Pixelate, Arrow, Text]

  function ToolRawValue(t: DrawingTool): (s: string)
    ensures |s| > 0
  {
    match t
    case Select => "Select"
    case Pen => "Pen"
    case Line => "Line"
    case Rectangle => "Rectangle"
    case Pixelate => "Pixelate"
    case Arrow => "Arrow"
    case Text => "Text"
  }

  /** `DrawingTool(rawValue:)`, the failable initializer Swift derives. */
  function ToolFromRawValue(s: string): (r: Option<DrawingTool>)
    ensures r.Some? ==> ToolRawValue(r.value) == s
  {
    if s == "Select" then Some(Select)
    else if s == "Pen" then Some(Pen)
    else if s == "Line" then Some(Line)
    else if s == "Rectangle" then Some(Rectangle)
    else if s == "Pixelate" then Some(Pixelate)
    else if s == "Arrow" then Some(Arrow)
    else if s == "Text" then Some(Text)
    else None
  }

  /** `Identifiable.id` is the raw value. */
  function ToolId(t: DrawingTool): (s: string)
    ensures ToolFromRawValue(s) == Some(t)
  {
    ToolRawValue(t)
  }

  /** Every tool survives a trip through its raw value. */
  lemma ToolRawValueRoundTrip(t: DrawingTool)
    ensures ToolFromRawValue(ToolRawValue(t)) == Some(t)
  {
    match t
    case Select =>
    case Pen =>
    case Line =>
    case Rectangle =>
    case Pixelate =>
    case Arrow =>
    case Text =>
  }

  /** ... so raw values, and with them ids, are pairwise distinct. */
  lemma ToolIdInjective(a: DrawingTool, b: DrawingTool)
    requires ToolId(a) == ToolId(b)
    ensures a == b
  {
    ToolRawValueRoundTrip(a);
    ToolRawValueRoundTrip(b);
  }

  lemma AllToolsComplete(t: DrawingTool)
    ensures t in AllTools
    ensures |AllTools| == 7
    ensures forall i, j :: 0 <= i < j < |AllTools| ==> AllTools[i] != AllTools[j]
  {
  }

  /** The SF Symbols name shown for each tool. */
  function SystemImage(t: DrawingTool): (s: string)
    ensures |s| > 0
  {
    match t
    case Select => "arrow.up.left.and.arrow.down.right"
    case Pen => "pencil.tip"
    case Line => "pencil.line"
    case Rectangle => "rectangle"
    case Pixelate => "square.grid.3x3.fill"
    case Arrow => "arrow.up.right"
    case Text => "textformat"
  }

  /** No two tools share a symbol. */
  lemma SystemImageInjective(a: DrawingTool, b: DrawingTool)
    requires SystemImage(a) == SystemImage(b)
    ensures a == b
  {
    match a
    case Select =>
    case Pen =>
    case Line =>
    case Rectangle =>
    case Pixelate =>
    case Arrow =>
    case Text =>
  }

  datatype DrawingColor = Red | Blue | Green | Yellow | Black

  const AllColors: seq<DrawingColor> := [Red, Blue, Green, Yellow, DrawingColor.Black]

  function ColorRawValue(c: DrawingColor): (s: string)
    ensures |s| > 0
  {
    match c
    case Red => "Red"
    case Blue => "Blue"
    case Green => "Green"
    case Yellow => "Yellow"
    case Black => "Black"
  }

  function ColorFromRawValue(s: string): (r: Option<DrawingColor>)
    ensures r.Some? ==> ColorRawValue(r.value) == s
  {
    if s == "Red" then Some(Red)
    else if s == "Blue" then Some(Blue)
    else if s == "Green" then Some(Green)
    else if s == "Yellow" then Some(Yellow)
    else if s == "Black" then Some(DrawingColor.Black)
    else None
  }

  function ColorId(c: DrawingColor): (s: string)
    ensures ColorFromRawValue(s) == Some(c)
  {
    ColorRawValue(c)
  }

  lemma ColorRawValueRoundTrip(c: DrawingColor)
    ensures ColorFromRawValue(ColorRawValue(c)) == Some(c)
  {
    match c
    case Red =>
    case Blue =>
    case Green =>
    case Yellow =>
    case Black =>
  }

  lemma ColorIdInjective(a: DrawingColor, b: DrawingColor)
    requires ColorId(a) == ColorId(b)
    ensures a == b
  {
    ColorRawValueRoundTrip(a);
    ColorRawValueRoundTrip(b);
  }

  lemma AllColorsComplete(c: DrawingColor)
    ensures c in AllColors
    ensures |AllColors| == 5
    ensures forall i, j :: 0 <= i < j < |AllColors| ==> AllColors[i] != AllColors[j]
  {
  }

  /** The AppKit colour a palette entry draws with. */
  function ToNSColor(c: DrawingColor): NSColor
  {
    match c
    case Red => SystemRed
    case Blue => SystemBlue
    case Green => SystemGreen
    case Yellow => SystemYellow
    case Black => NSColor.Black
  }

  /** Distinct palette entries draw with distinct AppKit colours. */
  lemma ToNSColorInjective(a: DrawingColor, b: DrawingColor)
    requires ToNSColor(a) == ToNSColor(b)
    ensures a == b
  {
  }
}
