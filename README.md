# Capture and Edit — a Dafny model of the annotation editor

Capture and Edit is a macOS tool that picks up screenshots from the
clipboard. It opens them in an editor where the user draws annotations on top
of the image:

- lines, arrows, rectangles and free-hand pen strokes;
- pixelation boxes;
- text.

Annotations live on layers. Every change of the layers is recorded for undo
and redo. With the selection tool a shape can be picked, dragged by its body
or resized by one of its handles. Past captures are kept in a history
directory, and a global hot key brings the window forward.

This project models the editor's core in Dafny and proves what it promises.

- **Shapes.** `edit_operation.dfy` and `geometry.dfy` model the six kinds of
  shape, including how they:
  - move by an offset;
  - expose their resize handles;
  - are resized;
  - answer a hit test;
  - compute their bounds (a pen stroke's).

  The reference for resizing is one function, `Dragged`: it moves the sides
  of a box that a handle controls. Rectangles, pixelation boxes and pen
  strokes are all proved to resize as that function says. A pen stroke's
  points are rescaled into the dragged box. The hit test of a segment is
  proved to measure the least distance to the segment.
- **Layers.** `layer.dfy` models the layer record and its copy-with
  functions.
- **Tools and colours.** `drawing_tool.dfy` models the two enumerations of
  the toolbar.
- **The document.** `document_spec.dfy` describes every document operation
  as a function of the document state. `image_document.dfy` is the mutable
  `ImageDocument` class. Each of its methods is proved to move the state as
  that function says.

  `document_laws.dfy` proves that every operation keeps the document
  well-formed:
  - the active layer exists;
  - a move or resize gesture is either fully absent or fully present;
  - a document with an image always has at least one layer.

  It also proves how the undo and redo histories evolve, that merging and
  flattening lose no visible annotation, and what cancelling a gesture
  restores.
- **The canvas.** `canvas.dfy` models the canvas view model, the class that
  turns mouse presses, drags and releases into a shape under construction or
  a selection. `coordinator.dfy` models the coordinator that routes the
  canvas view's mouse events to the canvas view model and to the document,
  and hands finished shapes to the document.
- **The main window.** `main_view_model.dfy` models the main window's view
  model: the initial tool and colour, the zoom factor clamped to 50 %–300 %
  and its percentage label, and undo/redo/clear.
- **History.** `history.dfy` models the history service over a directory
  described as a value. Loading keeps the 25 newest PNG files. Loading and
  deleting an item fail with "item not found" exactly when the file is
  absent. Deleting everything works through the loaded list and ignores
  individual failures.
- **The hot key.** `hotkey.dfy` models the conversion of the hot key's
  four-character signature into a 32-bit code. It is a big-endian reading
  of the UTF-8 bytes, taken modulo 2^32.

`wrappers.dfy`, `sequences.dfy` and `decimal.dfy` hold small helpers:
- option and result types;
- sequence insertion and removal;
- the decimal digits of an integer, as Swift's string interpolation writes
  them.

Undo is modelled as written:
- A command pushes the layers it found before changing them.
- `undo` drops the newest snapshot and restores the one below it.

So after `setImage`, adding two shapes and then undoing once removes both
shapes (`DocumentLaws.AddAddUndoLosesBoth`). Undo restores the layers the
command started from only when the layers matched the newest snapshot
(`DocumentLaws.UndoAfterCommand`). That holds after `setImage`, `clear` and
a committed gesture.

`addOperation` returns early when the document has no active layer
(Sources/CaptureAndEdit/Models/ImageDocument.swift:199-201), so on a new
document it adds nothing. The package's tests
(Tests/CaptureAndEditTests/ImageDocumentTests.swift:26-69) call it on a new
document and expect one operation and an enabled undo. The model follows the
source, not the tests (`DocumentLaws.AddOperationBeforeImage`); the tests
were not executed.

## Model

Source paths are under `Sources/CaptureAndEdit/`.

| member | source | states |
|---|---|---|
| Geometry.InsetBy | Sources/CaptureAndEdit/Models/EditOperation.swift:129-139 | Insetting a rectangle moves each side inward by the inset, and gives the null rectangle exactly when the rectangle is null or too small for the inset |
| Geometry.Span | Sources/CaptureAndEdit/Models/EditOperation.swift:171-215 | The box spanned by two corners is normalised and takes its sides from those corners |
| Geometry.RectBounds | Sources/CaptureAndEdit/Models/EditOperation.swift:572-611 | A rectangle's sides form a normalised box of the same width and height |
| Geometry.Clamp01 | Sources/CaptureAndEdit/Models/EditOperation.swift:91 | `max(0, min(1, t))` lies in [0, 1], is `t` inside that range and the nearer end outside it |
| Geometry.SegmentDistSqIsLeast | Sources/CaptureAndEdit/Models/EditOperation.swift:82-96 | The clamped-projection distance is no more than the distance to any point of the segment |
| Geometry.SegmentDistSqIsAttained | Sources/CaptureAndEdit/Models/EditOperation.swift:82-96 | Some point of the segment is at exactly the computed distance, so the computed distance is the least one |
| Geometry.ZeroLengthSegment | Sources/CaptureAndEdit/Models/EditOperation.swift:87-89 | A segment of squared length zero has equal ends, so the point-to-start distance of that branch is the distance to the segment |
| Geometry.EndpointsOnSegment | Sources/CaptureAndEdit/Models/EditOperation.swift:82-96 | Both ends of a segment are at distance zero from it |
| Geometry.SegmentDistSqNonneg | Sources/CaptureAndEdit/Models/EditOperation.swift:82-96 | The distance to a segment is never negative |
| Geometry.PointsBoundsTight | Sources/CaptureAndEdit/Models/EditOperation.swift:613-629 | The bounds of a non-empty point list contain every point, and each side touches some point |
| Geometry.BoundingRect | Sources/CaptureAndEdit/Models/EditOperation.swift:613-629 | The loop over the points gives the zero rectangle for no points, otherwise the rectangle of the points' bounds |
| Geometry.BoundingRectOf | Sources/CaptureAndEdit/Models/EditOperation.swift:613-629 | The bounding rectangle has non-negative size and exactly the bounds of the points |
| Geometry.MinOfMonotone | Sources/CaptureAndEdit/Models/EditOperation.swift:544-552 | A monotone map carries the least coordinate to the least coordinate of the image |
| Geometry.MaxOfMonotone | Sources/CaptureAndEdit/Models/EditOperation.swift:544-552 | A monotone map carries the greatest coordinate to the greatest coordinate of the image |
| EditOperations.Offset | Sources/CaptureAndEdit/Models/EditOperation.swift:53-61 | Offsetting keeps a shape's id, colour, width, text and font, and shifts every defining point by the delta |
| EditOperations.OffsetZero | Sources/CaptureAndEdit/Models/EditOperation.swift:14 | For every kind of shape, offsetting by zero changes nothing (each kind's own `offset(by:)` is at lines 53, 141, 252, 382, 476 and 544) |
| EditOperations.OffsetCompose | Sources/CaptureAndEdit/Models/EditOperation.swift:14 | For every kind of shape, offsetting twice is offsetting once by the sum of the deltas (each kind's own `offset(by:)` is at lines 53, 141, 252, 382, 476 and 544) |
| EditOperations.BoxHandles | Sources/CaptureAndEdit/Models/EditOperation.swift:151-169 | A box has all eight handles, each at its corner or the middle of its edge |
| EditOperations.Handles | Sources/CaptureAndEdit/Models/EditOperation.swift:63-69 | Lines and arrows have a start and an end handle; rectangles, pixelation boxes and non-empty pen strokes have the eight box handles of their bounds; text and empty strokes have none |
| EditOperations.OffsetShiftsHandles | Sources/CaptureAndEdit/Models/EditOperation.swift:554-570 | An offset shape has the same handles, each shifted by the delta |
| EditOperations.PointsBoundsShift | Sources/CaptureAndEdit/Models/EditOperation.swift:613-629 | Shifting the points shifts their bounding box |
| EditOperations.Dragged | Sources/CaptureAndEdit/Models/EditOperation.swift:171-215 | Dragging a handle moves the sides in its column and row to the point, keeps the opposite sides, leaves a middle column or row alone, and normalises |
| EditOperations.DraggedToOwnAnchor | Sources/CaptureAndEdit/Models/EditOperation.swift:171-215 | Dragging a handle to where it already is leaves the box unchanged |
| EditOperations.BoxResize | Sources/CaptureAndEdit/Models/EditOperation.swift:171-215 | Resizing a rectangle's two corners spans exactly the dragged box |
| EditOperations.NewPenRect | Sources/CaptureAndEdit/Models/EditOperation.swift:575-597 | The pen's new frame is a rectangle |
| EditOperations.NewPenRectIsDragged | Sources/CaptureAndEdit/Models/EditOperation.swift:575-597 | The pen's new frame has exactly the bounds of the dragged box |
| EditOperations.ScalePoints | Sources/CaptureAndEdit/Models/EditOperation.swift:599-611 | Rescaling keeps the number of points |
| EditOperations.PenResize | Sources/CaptureAndEdit/Models/EditOperation.swift:572-611 | Resizing a pen stroke keeps its style and point count, and leaves it unchanged when the old or new frame is degenerate |
| EditOperations.Resize | Sources/CaptureAndEdit/Models/EditOperation.swift:71-80 | Resizing keeps the style; a line's or arrow's start or end handle moves that end to the point; other handles and text leave the shape unchanged |
| EditOperations.ResizeBoxIsDragged | Sources/CaptureAndEdit/Models/EditOperation.swift:171-215 | A resized rectangle or pixelation box spans the dragged box |
| EditOperations.ResizeBoxInPlace | Sources/CaptureAndEdit/Models/EditOperation.swift:280-322 | Resizing a box by one of its handles to that handle's own position leaves its box unchanged |
| EditOperations.PenResizeIsDragged | Sources/CaptureAndEdit/Models/EditOperation.swift:572-611 | A resizable pen stroke's new points have exactly the dragged box as bounds |
| EditOperations.ScalePointsBounds | Sources/CaptureAndEdit/Models/EditOperation.swift:599-611 | Points rescaled from their own bounds into a new box have that box as bounds |
| EditOperations.RescaleMonotone | Sources/CaptureAndEdit/Models/EditOperation.swift:599-611 | Rescaling a coordinate preserves order |
| EditOperations.RescaleEnds | Sources/CaptureAndEdit/Models/EditOperation.swift:599-611 | Rescaling sends the old minimum to the new minimum and the old maximum to the new maximum |
| EditOperations.AddPoint | Sources/CaptureAndEdit/Models/EditOperation.swift:647-651 | Adding a point to a pen stroke keeps its style and all earlier points and appends the point |
| EditOperations.HitThresholdSqIsSquare | Sources/CaptureAndEdit/Models/EditOperation.swift:47-51 | The squared threshold used by the model is the square of the 10-point tolerance |
| EditOperations.ShapeRect | Sources/CaptureAndEdit/Models/EditOperation.swift:129-139 | The rectangle of two corners has as bounds the box they span |
| EditOperations.PenContains | Sources/CaptureAndEdit/Models/EditOperation.swift:528-542 | The loop over consecutive points reports a hit exactly when some segment of the stroke is within the tolerance |
| EditOperations.NearSegmentMeaning | Sources/CaptureAndEdit/Models/EditOperation.swift:47-51 | Being near a segment means some point of the segment is within the tolerance |
| EditOperations.StrokeEndpointsHit | Sources/CaptureAndEdit/Models/EditOperation.swift:376-380 | A line or arrow contains both of its ends |
| EditOperations.PenPointsHit | Sources/CaptureAndEdit/Models/EditOperation.swift:528-542 | A pen stroke of two or more points contains every one of its points |
| EditOperations.SinglePointPenNeverHit | Sources/CaptureAndEdit/Models/EditOperation.swift:528-542 | A one-point stroke has no segment and contains nothing |
| EditOperations.RectangleEdgeHit | Sources/CaptureAndEdit/Models/EditOperation.swift:129-139 | A point on a rectangle's bottom edge (its least y; the canvas is not flipped, so y points up) is a hit |
| EditOperations.RectangleInteriorMiss | Sources/CaptureAndEdit/Models/EditOperation.swift:129-139 | A point deep inside a rectangle's outline is not a hit |
| EditOperations.RectangleOutsideMiss | Sources/CaptureAndEdit/Models/EditOperation.swift:129-139 | A point a tolerance or more to the right of the rectangle is not a hit |
| EditOperations.PixelateHitIsBox | Sources/CaptureAndEdit/Models/EditOperation.swift:242-250 | A pixelation box is hit exactly inside its normalised rectangle |
| EditOperations.OffsetMovesHitArea | Sources/CaptureAndEdit/Models/EditOperation.swift:13-14 | An offset shape is hit at a shifted point exactly when the original is hit at the point (for every kind of shape; each kind's `contains(point:)` is at lines 47, 129, 242, 376, 459 and 528) |
| EditOperations.SegmentDistSqShift | Sources/CaptureAndEdit/Models/EditOperation.swift:410-424 | The distance to a segment does not change when point and segment shift together |
| EditOperationExamples.PenHitExamples | Sources/CaptureAndEdit/Models/EditOperation.swift:528-542 | An L-shaped stroke is hit on both legs and missed inside the corner |
| EditOperationExamples.CornerStrokeHitTest | Sources/CaptureAndEdit/Models/EditOperation.swift:631-645 | For any L-shaped stroke wider than twice the tolerance: hits at the middle of each leg, a miss at the centre |
| Layers.NewLayer | Sources/CaptureAndEdit/Models/Layer.swift:12-26 | A new layer has the given id and name, no operations, is visible, unlocked and fully opaque |
| Layers.WithOperations | Sources/CaptureAndEdit/Models/Layer.swift:28-32 | Only the operations change |
| Layers.AddingOperation | Sources/CaptureAndEdit/Models/Layer.swift:34-38 | The operation is appended and nothing else changes |
| Layers.WithVisibility | Sources/CaptureAndEdit/Models/Layer.swift:40-44 | Only the visibility changes |
| Layers.WithLocked | Sources/CaptureAndEdit/Models/Layer.swift:46-50 | Only the lock changes |
| Layers.WithOpacity | Sources/CaptureAndEdit/Models/Layer.swift:52-56 | The opacity is clamped into [0, 1] and nothing else changes |
| Layers.WithName | Sources/CaptureAndEdit/Models/Layer.swift:58-62 | Only the name changes |
| Layers.AddingIsWithOperations | Sources/CaptureAndEdit/Models/Layer.swift:34-38 | Adding an operation is replacing the operations by the list with it appended |
| Layers.WithOpacityIdempotent | Sources/CaptureAndEdit/Models/Layer.swift:52-56 | Setting the same opacity twice is setting it once, and re-setting a layer's own opacity changes nothing |
| Layers.WithOpacityExamples | Sources/CaptureAndEdit/Models/Layer.swift:52-56 | 1.5 becomes 1, -0.5 becomes 0, and 0.5 stays |
| Layers.VisibilityAndLockCommute | Sources/CaptureAndEdit/Models/Layer.swift:40-50 | Setting visibility and lock in either order gives the same layer |
| DrawingTools.ToolRawValue | Sources/CaptureAndEdit/Models/DrawingTool.swift:4-11 | Every tool's raw value is non-empty |
| DrawingTools.ToolFromRawValue | Sources/CaptureAndEdit/Models/DrawingTool.swift:4-11 | A tool recognised from a string has that string as its raw value |
| DrawingTools.ToolId | Sources/CaptureAndEdit/Models/DrawingTool.swift:13 | A tool's id reads back as the tool |
| DrawingTools.ToolRawValueRoundTrip | Sources/CaptureAndEdit/Models/DrawingTool.swift:4-11 | Reading a tool's raw value gives back the tool |
| DrawingTools.ToolIdInjective | Sources/CaptureAndEdit/Models/DrawingTool.swift:13 | Distinct tools have distinct ids |
| DrawingTools.AllToolsComplete | Sources/CaptureAndEdit/Models/DrawingTool.swift:4-11 | The list of all tools has each of the seven tools exactly once |
| DrawingTools.SystemImage | Sources/CaptureAndEdit/Models/DrawingTool.swift:15-32 | Every tool has a non-empty icon name |
| DrawingTools.SystemImageInjective | Sources/CaptureAndEdit/Models/DrawingTool.swift:15-32 | Distinct tools have distinct icons |
| DrawingTools.ColorRawValue | Sources/CaptureAndEdit/Models/DrawingTool.swift:35-40 | Every colour's raw value is non-empty |
| DrawingTools.ColorFromRawValue | Sources/CaptureAndEdit/Models/DrawingTool.swift:35-40 | A colour recognised from a string has that string as its raw value |
| DrawingTools.ColorId | Sources/CaptureAndEdit/Models/DrawingTool.swift:42 | A colour's id reads back as the colour |
| DrawingTools.ColorRawValueRoundTrip | Sources/CaptureAndEdit/Models/DrawingTool.swift:35-40 | Reading a colour's raw value gives back the colour |
| DrawingTools.ColorIdInjective | Sources/CaptureAndEdit/Models/DrawingTool.swift:42 | Distinct colours have distinct ids |
| DrawingTools.AllColorsComplete | Sources/CaptureAndEdit/Models/DrawingTool.swift:35-40 | The list of all colours has each of the five colours exactly once |
| DrawingTools.ToNSColorInjective | Sources/CaptureAndEdit/Models/DrawingTool.swift:44-57 | Distinct colours map to distinct system colours |
| Document.Init | Sources/CaptureAndEdit/Models/ImageDocument.swift:41-43 | A new document has the given image, no layers, no active layer, empty histories and no gesture |
| Document.FindLayer | Sources/CaptureAndEdit/Models/ImageDocument.swift:26-29 | The first index of a layer with the id, or none exactly when no layer has it |
| Document.FindOperation | Sources/CaptureAndEdit/Models/ImageDocument.swift:209-216 | The first index of an operation with the id, or none when no operation has it |
| Document.ActiveLayerIndex | Sources/CaptureAndEdit/Models/ImageDocument.swift:26-29 | With no active id the first layer is active if there is one; otherwise the active layer is the one with the id, absent exactly when no layer has it |
| Document.Operations | Sources/CaptureAndEdit/Models/ImageDocument.swift:17-19 | With no active layer there are no operations |
| Document.FirstLayerWithIdAgrees | Sources/CaptureAndEdit/Models/ImageDocument.swift:21-24 | Looking up the active layer by `first(where:)` and by `firstIndex(where:)` agree |
| Document.ActiveLayerAgrees | Sources/CaptureAndEdit/Models/ImageDocument.swift:21-29 | The active layer exists exactly when the active index does, and is the layer at that index |
| Document.Reset | Sources/CaptureAndEdit/Models/ImageDocument.swift:47-55 | One fresh "Layer 1", active, snapshotted once, no redo, nothing to undo; the gesture fields are untouched |
| Document.SetImage | Sources/CaptureAndEdit/Models/ImageDocument.swift:47-55 | Setting an image resets the layers and histories around the new image |
| Document.Clear | Sources/CaptureAndEdit/Models/ImageDocument.swift:341-348 | Clearing resets the layers and histories and keeps the image |
| Document.Command | Sources/CaptureAndEdit/Models/ImageDocument.swift:293-296 | A command snapshots the layers it found, empties redo, and installs the new layers and active id |
| Document.AddLayer | Sources/CaptureAndEdit/Models/ImageDocument.swift:60-72 | A new layer, named by the caller or by the counter, goes in front and becomes active; the counter rises by one; one snapshot is pushed; the image and any gesture in progress are kept |
| Document.DeleteLayer | Sources/CaptureAndEdit/Models/ImageDocument.swift:74-86 | The last layer and unknown ids are refused; otherwise the layer is removed and the active layer moves to the first when it was the deleted one |
| Document.DuplicateLayer | Sources/CaptureAndEdit/Models/ImageDocument.swift:88-108 | An unknown id is refused; otherwise a copy named "… copy" with a fresh id goes just in front of the original and becomes active; the image and any gesture in progress are kept |
| Document.MoveLayer | Sources/CaptureAndEdit/Models/ImageDocument.swift:110-120 | Out-of-range or equal indices are refused; otherwise the layer is removed and reinserted at the target index |
| Document.ApplyEdit | Sources/CaptureAndEdit/Models/ImageDocument.swift:122-152 | A property edit keeps the layer's id |
| Document.EditLayer | Sources/CaptureAndEdit/Models/ImageDocument.swift:122-152 | An unknown id is refused; otherwise only that layer is edited and one snapshot is pushed |
| Document.SelectLayer | Sources/CaptureAndEdit/Models/ImageDocument.swift:154-157 | A known id becomes active, with no snapshot; an unknown id changes nothing |
| Document.Visible | Sources/CaptureAndEdit/Models/ImageDocument.swift:159-178 | The visible layers, all of them visible |
| Document.Hidden | Sources/CaptureAndEdit/Models/ImageDocument.swift:159-178 | The hidden layers, none of them visible |
| Document.StackedVisibleUnfold | Sources/CaptureAndEdit/Models/ImageDocument.swift:159-178 | The merged operations are the bottom layer's first, then those above |
| Document.MergeVisibleLayers | Sources/CaptureAndEdit/Models/ImageDocument.swift:159-178 | Fewer than two visible layers are refused; otherwise one "Merged" layer holding the visible operations bottom-up goes in front of the hidden layers and becomes active; the image and any gesture in progress are kept |
| Document.FlattenAllLayers | Sources/CaptureAndEdit/Models/ImageDocument.swift:180-195 | A single layer is refused; otherwise one "Background" layer holds the visible layers' operations bottom-up and becomes active; the image and any gesture in progress are kept, and so is the layer counter |
| Document.AddOperation | Sources/CaptureAndEdit/Models/ImageDocument.swift:199-207 | With no active layer, or a locked one, nothing changes; otherwise the operation is appended to the active layer and one snapshot is pushed |
| Document.StartTransaction | Sources/CaptureAndEdit/Models/ImageDocument.swift:209-216 | On an unlocked active layer holding the id, the operation and its index are remembered; otherwise nothing changes |
| Document.ReplaceMoving | Sources/CaptureAndEdit/Models/ImageDocument.swift:218-228 | Writing an operation into the remembered slot makes that slot the operation and leaves every other operation of the active layer, every other layer and every other field of the document as they were |
| Document.MoveOperation | Sources/CaptureAndEdit/Models/ImageDocument.swift:218-228 | Outside a gesture nothing changes; inside one the remembered slot becomes the original offset by the delta |
| Document.ResizeOperation | Sources/CaptureAndEdit/Models/ImageDocument.swift:259-269 | Outside a gesture nothing changes; inside one the remembered slot becomes the original resized by the handle |
| Document.Commit | Sources/CaptureAndEdit/Models/ImageDocument.swift:230-236 | Committing forgets the gesture, keeps the layers and always pushes one snapshot; the image and the layer counter stay |
| Document.Cancel | Sources/CaptureAndEdit/Models/ImageDocument.swift:238-248 | Cancelling forgets the gesture, leaves both histories alone, and inside a gesture writes the original back into the remembered slot (outside one the layers stay); the image and the layer counter stay |
| Document.Retarget | Sources/CaptureAndEdit/Models/ImageDocument.swift:313-315 | The active id is kept while its layer exists, otherwise it becomes the first layer's |
| Document.Undo | Sources/CaptureAndEdit/Models/ImageDocument.swift:298-320 | With two or more snapshots, the current layers go to redo, the newest snapshot is dropped and the one below restored; otherwise nothing changes; the image, the layer counter and a gesture in progress stay, its remembered index unchecked against the restored layers |
| Document.Redo | Sources/CaptureAndEdit/Models/ImageDocument.swift:322-339 | With something to redo, the newest redo snapshot is popped, pushed for undo and restored; otherwise nothing changes; the image, the layer counter and a gesture in progress stay |
| DocumentLaws.InitValid | Sources/CaptureAndEdit/Models/ImageDocument.swift:41-43 | A new document without an image, the one the application builds, is well-formed |
| DocumentLaws.ImageIntoEmptyDocument | Sources/CaptureAndEdit/Models/ImageDocument.swift:41-43 | A document built with an image has no layer and no operation, so it is not well-formed |
| DocumentLaws.AddOperationBeforeImage | Sources/CaptureAndEdit/Models/ImageDocument.swift:199-201 | Adding an operation to a new document changes nothing: it keeps no operation and cannot undo |
| DocumentLaws.ActionKeepsValid | Sources/CaptureAndEdit/Models/ImageDocument.swift:5-13 | Every document operation keeps the document well-formed (active layer exists, gesture fields paired, at least one layer once an image is set) |
| DocumentLaws.CommandKeepsValid | Sources/CaptureAndEdit/Models/ImageDocument.swift:60-207 | Every command keeps the document well-formed |
| DocumentLaws.StackCommandKeepsValid | Sources/CaptureAndEdit/Models/ImageDocument.swift:60-120 | Adding, deleting, duplicating and moving layers keep the document well-formed |
| DocumentLaws.ContentCommandKeepsValid | Sources/CaptureAndEdit/Models/ImageDocument.swift:122-207 | Editing layers, merging, flattening and adding operations keep the document well-formed |
| DocumentLaws.MergeKeepsValid | Sources/CaptureAndEdit/Models/ImageDocument.swift:159-178 | Merging keeps the document well-formed |
| DocumentLaws.FlattenKeepsValid | Sources/CaptureAndEdit/Models/ImageDocument.swift:180-195 | Flattening keeps the document well-formed |
| DocumentLaws.OtherStepKeepsValid | Sources/CaptureAndEdit/Models/ImageDocument.swift:209-348 | Setting an image, clearing, selecting a layer, the gesture steps and undo/redo keep the document well-formed |
| DocumentLaws.AddLayerKeepsValid | Sources/CaptureAndEdit/Models/ImageDocument.swift:60-72 | Adding a layer keeps the document well-formed |
| DocumentLaws.DuplicateKeepsValid | Sources/CaptureAndEdit/Models/ImageDocument.swift:88-108 | Duplicating a layer keeps the document well-formed |
| DocumentLaws.EditKeepsValid | Sources/CaptureAndEdit/Models/ImageDocument.swift:122-152 | Editing a layer's properties keeps the document well-formed |
| DocumentLaws.AddOperationKeepsValid | Sources/CaptureAndEdit/Models/ImageDocument.swift:199-207 | Adding an operation keeps the document well-formed |
| DocumentLaws.ResetKeepsValid | Sources/CaptureAndEdit/Models/ImageDocument.swift:47-55 | Setting an image or clearing keeps the document well-formed |
| DocumentLaws.MoveKeepsValid | Sources/CaptureAndEdit/Models/ImageDocument.swift:218-228 | A move step keeps the document well-formed |
| DocumentLaws.ResizeKeepsValid | Sources/CaptureAndEdit/Models/ImageDocument.swift:259-269 | A resize step keeps the document well-formed |
| DocumentLaws.StartKeepsValid | Sources/CaptureAndEdit/Models/ImageDocument.swift:209-216 | Starting a gesture keeps the document well-formed |
| DocumentLaws.CommitKeepsValid | Sources/CaptureAndEdit/Models/ImageDocument.swift:230-236 | Committing keeps the document well-formed |
| DocumentLaws.UndoKeepsValid | Sources/CaptureAndEdit/Models/ImageDocument.swift:298-320 | Undo keeps the document well-formed |
| DocumentLaws.RedoKeepsValid | Sources/CaptureAndEdit/Models/ImageDocument.swift:322-339 | Redo keeps the document well-formed |
| DocumentLaws.ReplaceMovingKeepsIds | Sources/CaptureAndEdit/Models/ImageDocument.swift:218-228 | Rewriting the remembered slot keeps the document well-formed |
| DocumentLaws.CancelKeepsValid | Sources/CaptureAndEdit/Models/ImageDocument.swift:238-248 | Cancelling keeps the document well-formed |
| DocumentLaws.DeleteKeepsValid | Sources/CaptureAndEdit/Models/ImageDocument.swift:74-86 | Deleting a layer keeps the document well-formed |
| DocumentLaws.PermutationKeepsIds | Sources/CaptureAndEdit/Models/ImageDocument.swift:110-120 | Reordering layers loses no layer id |
| DocumentLaws.MoveLayerKeepsValid | Sources/CaptureAndEdit/Models/ImageDocument.swift:110-120 | Moving a layer keeps the document well-formed |
| DocumentLaws.CommandPushesOneSnapshot | Sources/CaptureAndEdit/Models/ImageDocument.swift:293-296 | A command either changes nothing or pushes exactly the layers it found and empties redo |
| DocumentLaws.QuietStepsKeepHistory | Sources/CaptureAndEdit/Models/ImageDocument.swift:154-157 | Selecting a layer and the gesture steps other than commit leave both histories alone |
| DocumentLaws.CommitAlwaysPushes | Sources/CaptureAndEdit/Models/ImageDocument.swift:230-236 | Committing pushes a snapshot and empties redo even when no gesture was started |
| DocumentLaws.UndoKeepsOneSnapshot | Sources/CaptureAndEdit/Models/ImageDocument.swift:298-304 | Undo never empties a non-empty history, and it drops one snapshot exactly when undo is possible |
| DocumentLaws.UndoThenRedo | Sources/CaptureAndEdit/Models/ImageDocument.swift:298-339 | Undo followed by redo gives back the layers, the redo history and the number of snapshots |
| DocumentLaws.InStepAfterResetAndCommit | Sources/CaptureAndEdit/Models/ImageDocument.swift:230-236 | After setting an image, clearing or committing, the layers equal the newest snapshot |
| DocumentLaws.UndoAfterCommand | Sources/CaptureAndEdit/Models/ImageDocument.swift:298-320 | Undo right after a command restores the newest snapshot from before it, which is the command's starting layers only when those matched it |
| DocumentLaws.AddAddUndoLosesBoth | Sources/CaptureAndEdit/Models/ImageDocument.swift:199-207 | After setting an image, adding two operations and undoing once leaves no operation |
| DocumentLaws.AddUndoRestores | Sources/CaptureAndEdit/Models/ImageDocument.swift:199-207 | After setting an image, adding one operation and undoing restores the empty layer |
| DocumentLaws.MoveIsNotCumulative | Sources/CaptureAndEdit/Models/ImageDocument.swift:218-228 | Each move recomputes from the original: moving by one delta and then another is moving by the second |
| DocumentLaws.FindLayerSameIds | Sources/CaptureAndEdit/Models/ImageDocument.swift:26-29 | Looking up a layer depends only on the ids |
| DocumentLaws.ReplaceMovingKeepsGesture | Sources/CaptureAndEdit/Models/ImageDocument.swift:218-228 | Rewriting the slot keeps the active layer, the gesture and its fitting index, so the next step is well-defined |
| DocumentLaws.ReplaceIsNotCumulative | Sources/CaptureAndEdit/Models/ImageDocument.swift:218-228 | Two successive rewrites of the slot leave only the second |
| DocumentLaws.ResizeIsNotCumulative | Sources/CaptureAndEdit/Models/ImageDocument.swift:259-269 | Each resize recomputes from the original: resizing by one handle position and then another is resizing by the second |
| DocumentLaws.ResizeTouchesOneSlot | Sources/CaptureAndEdit/Models/ImageDocument.swift:259-269 | A resize rewrites only the remembered slot of the active layer, with the original resized by the handle |
| DocumentLaws.StartReplaceCancelRestores | Sources/CaptureAndEdit/Models/ImageDocument.swift:279-289 | Starting a gesture, writing any operation into its slot, and cancelling gives back the original layers |
| DocumentLaws.StartResizeCancelRestores | Sources/CaptureAndEdit/Models/ImageDocument.swift:279-289 | Starting a gesture, resizing, and cancelling gives back the original layers |
| DocumentLaws.MoveTouchesOneSlot | Sources/CaptureAndEdit/Models/ImageDocument.swift:218-228 | A move rewrites only the remembered slot of the active layer |
| DocumentLaws.StartMoveCancelRestores | Sources/CaptureAndEdit/Models/ImageDocument.swift:238-248 | Starting a gesture, moving, and cancelling gives back the original layers |
| DocumentLaws.StartRefuses | Sources/CaptureAndEdit/Models/ImageDocument.swift:209-216 | Starting a gesture on a locked layer or an unknown id changes nothing |
| DocumentLaws.VisibleHiddenSplit | Sources/CaptureAndEdit/Models/ImageDocument.swift:159-178 | The visible and hidden layers together are all the layers |
| DocumentLaws.OperationBagSplit | Sources/CaptureAndEdit/Models/ImageDocument.swift:159-178 | The operations of the visible and hidden layers together are all the operations |
| DocumentLaws.MergeKeepsEveryOperation | Sources/CaptureAndEdit/Models/ImageDocument.swift:159-178 | Merging keeps every operation of every layer |
| DocumentLaws.FlattenKeepsVisibleOperations | Sources/CaptureAndEdit/Models/ImageDocument.swift:180-195 | Flattening keeps exactly the visible layers' operations and drops the hidden layers' |
| DocumentLaws.MoveLayerPermutes | Sources/CaptureAndEdit/Models/ImageDocument.swift:110-120 | Moving a layer permutes the layers |
| DocumentLaws.DeleteKeepsALayer | Sources/CaptureAndEdit/Models/ImageDocument.swift:74-86 | Deleting never removes the last layer |
| ImageDocuments.ImageDocument.constructor | Sources/CaptureAndEdit/Models/ImageDocument.swift:41-43 | The new document's state is the initial one |
| ImageDocuments.ImageDocument.SetImage | Sources/CaptureAndEdit/Models/ImageDocument.swift:47-55 | The state moves as `Document.SetImage` says |
| ImageDocuments.ImageDocument.Clear | Sources/CaptureAndEdit/Models/ImageDocument.swift:341-348 | The state moves as `Document.Clear` says |
| ImageDocuments.ImageDocument.SaveStateForUndo | Sources/CaptureAndEdit/Models/ImageDocument.swift:293-296 | The current layers are pushed onto the undo history and nothing else changes |
| ImageDocuments.ImageDocument.AddLayer | Sources/CaptureAndEdit/Models/ImageDocument.swift:60-72 | The state moves as `Document.AddLayer` says and the new id is returned |
| ImageDocuments.ImageDocument.DeleteLayer | Sources/CaptureAndEdit/Models/ImageDocument.swift:74-86 | The state moves as `Document.DeleteLayer` says |
| ImageDocuments.ImageDocument.DuplicateLayer | Sources/CaptureAndEdit/Models/ImageDocument.swift:88-108 | The state moves as `Document.DuplicateLayer` says; the copy's id is returned exactly when the layer existed |
| ImageDocuments.ImageDocument.MoveLayer | Sources/CaptureAndEdit/Models/ImageDocument.swift:110-120 | The state moves as `Document.MoveLayer` says |
| ImageDocuments.ImageDocument.EditLayer | Sources/CaptureAndEdit/Models/ImageDocument.swift:122-152 | The state moves as `Document.EditLayer` says |
| ImageDocuments.ImageDocument.SetLayerVisibility | Sources/CaptureAndEdit/Models/ImageDocument.swift:122-128 | The state moves as the visibility edit says |
| ImageDocuments.ImageDocument.SetLayerLocked | Sources/CaptureAndEdit/Models/ImageDocument.swift:130-136 | The state moves as the lock edit says |
| ImageDocuments.ImageDocument.SetLayerOpacity | Sources/CaptureAndEdit/Models/ImageDocument.swift:138-144 | The state moves as the opacity edit says |
| ImageDocuments.ImageDocument.RenameLayer | Sources/CaptureAndEdit/Models/ImageDocument.swift:146-152 | The state moves as the rename edit says |
| ImageDocuments.ImageDocument.SelectLayer | Sources/CaptureAndEdit/Models/ImageDocument.swift:154-157 | The state moves as `Document.SelectLayer` says |
| ImageDocuments.ImageDocument.CollectOperations | Sources/CaptureAndEdit/Models/ImageDocument.swift:163-168 | The loop collects the (visible) layers' operations bottom layer first |
| ImageDocuments.ImageDocument.MergeVisibleLayers | Sources/CaptureAndEdit/Models/ImageDocument.swift:159-178 | The state moves as `Document.MergeVisibleLayers` says |
| ImageDocuments.ImageDocument.FlattenAllLayers | Sources/CaptureAndEdit/Models/ImageDocument.swift:180-195 | The state moves as `Document.FlattenAllLayers` says |
| ImageDocuments.ImageDocument.AddOperation | Sources/CaptureAndEdit/Models/ImageDocument.swift:199-207 | The state moves as `Document.AddOperation` says |
| ImageDocuments.ImageDocument.StartMovingOperation | Sources/CaptureAndEdit/Models/ImageDocument.swift:209-216 | The state moves as `Document.StartTransaction` says |
| ImageDocuments.ImageDocument.StartResizingOperation | Sources/CaptureAndEdit/Models/ImageDocument.swift:250-257 | The state moves as `Document.StartTransaction` says |
| ImageDocuments.ImageDocument.MoveOperation | Sources/CaptureAndEdit/Models/ImageDocument.swift:218-228 | The state moves as `Document.MoveOperation` says |
| ImageDocuments.ImageDocument.ResizeOperation | Sources/CaptureAndEdit/Models/ImageDocument.swift:259-269 | The state moves as `Document.ResizeOperation` says |
| ImageDocuments.ImageDocument.CommitMove | Sources/CaptureAndEdit/Models/ImageDocument.swift:230-236 | The state moves as `Document.Commit` says |
| ImageDocuments.ImageDocument.CommitResize | Sources/CaptureAndEdit/Models/ImageDocument.swift:271-277 | The state moves as `Document.Commit` says |
| ImageDocuments.ImageDocument.CancelMove | Sources/CaptureAndEdit/Models/ImageDocument.swift:238-248 | The state moves as `Document.Cancel` says |
| ImageDocuments.ImageDocument.CancelResize | Sources/CaptureAndEdit/Models/ImageDocument.swift:279-289 | The state moves as `Document.Cancel` says |
| ImageDocuments.ImageDocument.Undo | Sources/CaptureAndEdit/Models/ImageDocument.swift:298-320 | The state moves as `Document.Undo` says |
| ImageDocuments.ImageDocument.Redo | Sources/CaptureAndEdit/Models/ImageDocument.swift:322-339 | The state moves as `Document.Redo` says |
| CanvasViewModels.HandleThresholdSqIsSquare | Sources/CaptureAndEdit/ViewModels/CanvasViewModel.swift:21-35 | The squared handle tolerance is the square of 8 points |
| CanvasViewModels.FirstOpWithId | Sources/CaptureAndEdit/ViewModels/CanvasViewModel.swift:21-23 | The selected operation is the first with its id, absent exactly when none has it |
| CanvasViewModels.TopmostHit | Sources/CaptureAndEdit/ViewModels/CanvasViewModel.swift:39-48 | The found index contains the point and no later operation does; none is found exactly when no operation contains the point |
| CanvasViewModels.TopmostHitIsLast | Sources/CaptureAndEdit/ViewModels/CanvasViewModel.swift:39-48 | The last operation containing the point is the one found |
| CanvasViewModels.PressToDraw | Sources/CaptureAndEdit/ViewModels/CanvasViewModel.swift:50-57 | A press that selects nothing records the start point, clears the selection and changes nothing else |
| CanvasViewModels.PressToSelect | Sources/CaptureAndEdit/ViewModels/CanvasViewModel.swift:37-51 | Something is selected exactly when some operation contains the point; then a drag starts at the point; otherwise the press is the plain one |
| CanvasViewModels.PressSelectsFrontmost | Sources/CaptureAndEdit/ViewModels/CanvasViewModel.swift:39-48 | The press selects the frontmost operation under the point |
| CanvasViewModels.Drag | Sources/CaptureAndEdit/ViewModels/CanvasViewModel.swift:60-108 | A drag changes only the shape under construction, and nothing without a start point or with the selection or text tool |
| CanvasViewModels.DragDrawsShape | Sources/CaptureAndEdit/ViewModels/CanvasViewModel.swift:81-103 | With a line, arrow, rectangle or pixelation tool the shape spans from the start point to the cursor; lines, arrows and rectangles take the chosen colour and the default width |
| CanvasViewModels.ShapeDragForgetsEarlier | Sources/CaptureAndEdit/ViewModels/CanvasViewModel.swift:81-103 | Two-point shapes depend only on the last cursor position |
| CanvasViewModels.PenDragsAppend | Sources/CaptureAndEdit/ViewModels/CanvasViewModel.swift:72-74 | Dragging a pen stroke appends the cursor positions in order |
| CanvasViewModels.PenStrokeCollectsPoints | Sources/CaptureAndEdit/ViewModels/CanvasViewModel.swift:72-80 | A pen stroke from a press and its drags holds the press point followed by every cursor position |
| CanvasViewModels.DragOffset | Sources/CaptureAndEdit/ViewModels/CanvasViewModel.swift:110-113 | An offset exists exactly while dragging from a known point, and it leads from that point to the cursor |
| CanvasViewModels.GrabThenOffset | Sources/CaptureAndEdit/ViewModels/CanvasViewModel.swift:37-48 | After a press that selects, the drag offset is the cursor minus the press point |
| CanvasViewModels.Release | Sources/CaptureAndEdit/ViewModels/CanvasViewModel.swift:115-145 | Release clears the start point; the selection tool only ends the gesture; text with a start point requests text there; other tools emit the shape under construction, if any, and clear it |
| CanvasViewModels.TextFor | Sources/CaptureAndEdit/ViewModels/CanvasViewModel.swift:128-139 | The typed text becomes a text shape at the requested point in the chosen colour and default font size |
| CanvasViewModels.ShapeGesture | Sources/CaptureAndEdit/ViewModels/CanvasViewModel.swift:115-145 | Press, drags and release with a two-point tool emit the shape from the press point to the last cursor position |
| CanvasViewModels.ShapeDragsKeepStart | Sources/CaptureAndEdit/ViewModels/CanvasViewModel.swift:60-103 | After drags with a two-point tool the start point is kept and the shape spans from it to the last position |
| CanvasViewModels.TextClickRequestsText | Sources/CaptureAndEdit/ViewModels/CanvasViewModel.swift:128-139 | A click with the text tool requests text at the click |
| CanvasViewModels.ClickWithoutDragEmitsNothing | Sources/CaptureAndEdit/ViewModels/CanvasViewModel.swift:140-144 | A click with a two-point tool and no drag emits nothing |
| CanvasViewModels.FindHandle | Sources/CaptureAndEdit/ViewModels/CanvasViewModel.swift:24-33 | The handle loop finds a handle within 8 points, or none exactly when no handle is that near |
| CanvasViewModels.FindTopmost | Sources/CaptureAndEdit/ViewModels/CanvasViewModel.swift:39-48 | The reversed loop finds the topmost operation under the point |
| CanvasViewModels.CanvasViewModel.constructor | Sources/CaptureAndEdit/ViewModels/CanvasViewModel.swift:5-14 | A new canvas is idle |
| CanvasViewModels.CanvasViewModel.HandleMouseDown | Sources/CaptureAndEdit/ViewModels/CanvasViewModel.swift:16-58 | Drawing tools press to draw; the selection tool grabs a near handle of the selected shape, or else selects as `PressToSelect` says and reports the selection |
| CanvasViewModels.CanvasViewModel.HandleMouseDragged | Sources/CaptureAndEdit/ViewModels/CanvasViewModel.swift:60-108 | The state moves as `Drag` says |
| CanvasViewModels.CanvasViewModel.GetDragOffset | Sources/CaptureAndEdit/ViewModels/CanvasViewModel.swift:110-113 | An offset exists exactly while dragging from a known point, and it leads from that point to the cursor |
| CanvasViewModels.CanvasViewModel.HandleMouseUp | Sources/CaptureAndEdit/ViewModels/CanvasViewModel.swift:115-145 | The state and the emission are as `Release` says |
| CanvasViewModels.CanvasViewModel.CancelOperation | Sources/CaptureAndEdit/ViewModels/CanvasViewModel.swift:147-155 | Cancelling returns the canvas to idle |
| Coordinators.GrabStartsTransaction | Sources/CaptureAndEdit/Views/CanvasView.swift:56-62 | Starting a gesture on an operation of an unlocked active layer remembers exactly that operation and leaves layers and history alone |
| Coordinators.Coordinator.constructor | Sources/CaptureAndEdit/Views/CanvasView.swift:25-33 | The coordinator's completion hook adds finished shapes to the canvas's document |
| Coordinators.Coordinator.MouseDown | Sources/CaptureAndEdit/Views/CanvasView.swift:50-63 | A drawing tool's press starts a shape, reports no selection and leaves the document alone. A selection press on a handle of the selected shape grabs that handle (the canvas is otherwise unchanged, nothing is reported) and starts a gesture on that shape. Any other selection press selects as `PressToSelect` says, and a resulting selection starts a gesture on the document |
| Coordinators.Coordinator.MouseDragged | Sources/CaptureAndEdit/Views/CanvasView.swift:65-85 | With a selection, the held handle resizes or the drag offset moves the shape on the document; otherwise the canvas drags and the document is unchanged |
| Coordinators.Coordinator.MouseUp | Sources/CaptureAndEdit/Views/CanvasView.swift:87-103 | A selection gesture commits; the canvas releases; a completed shape is added to the document through the hook |
| Coordinators.Coordinator.CompleteText | Sources/CaptureAndEdit/ViewModels/CanvasViewModel.swift:128-139 | The typed text is added to the document as a text shape |
| MainViewModels.ClampZoom | Sources/CaptureAndEdit/ViewModels/MainViewModel.swift:117-119 | The zoom lies in [0.5, 3], is unchanged inside that range and the nearer limit outside it |
| MainViewModels.ClampZoomIdempotent | Sources/CaptureAndEdit/ViewModels/MainViewModel.swift:117-119 | Clamping twice is clamping once |
| MainViewModels.ClampZoomMonotone | Sources/CaptureAndEdit/ViewModels/MainViewModel.swift:117-119 | Clamping preserves order |
| MainViewModels.Truncate | Sources/CaptureAndEdit/ViewModels/MainViewModel.swift:125-127 | `Int(x)` drops the fraction toward zero |
| MainViewModels.ZoomScaleFormatted | Sources/CaptureAndEdit/ViewModels/MainViewModel.swift:125-127 | The label is the truncated percentage followed by "%" |
| MainViewModels.ZoomScaleFormattedReadsBack | Sources/CaptureAndEdit/ViewModels/MainViewModel.swift:125-127 | For any allowed zoom the label is digits for a number from 50 to 300 that reads back as the whole part of the percentage |
| MainViewModels.ZoomScaleFormattedExamples | Sources/CaptureAndEdit/ViewModels/MainViewModel.swift:125-127 | 1.0 shows "100%", 1.5 shows "150%", 0.755 shows "75%" |
| MainViewModels.MainViewModel.constructor | Sources/CaptureAndEdit/ViewModels/MainViewModel.swift:6-10 | A new window model has an empty document, the line tool, red, no auto-close and zoom 1 |
| MainViewModels.MainViewModel.SetZoomScale | Sources/CaptureAndEdit/ViewModels/MainViewModel.swift:117-119 | The zoom becomes the clamped value and nothing else changes |
| MainViewModels.MainViewModel.ResetZoomScale | Sources/CaptureAndEdit/ViewModels/MainViewModel.swift:121-123 | The zoom becomes 1 and nothing else changes |
| MainViewModels.MainViewModel.Undo | Sources/CaptureAndEdit/ViewModels/MainViewModel.swift:100-103 | The document undoes |
| MainViewModels.MainViewModel.Redo | Sources/CaptureAndEdit/ViewModels/MainViewModel.swift:105-108 | The document redoes |
| MainViewModels.MainViewModel.Clear | Sources/CaptureAndEdit/ViewModels/MainViewModel.swift:110-113 | The document clears |
| History.OlderIsStrictOrder | Sources/CaptureAndEdit/Models/HistoryItem.swift:24-26 | Ordering items by timestamp is a strict order, and items with the same timestamp are interchangeable |
| History.FileName | Sources/CaptureAndEdit/Models/HistoryItem.swift:15-22 | The file name is "capture_", the formatted date, then ".png" |
| History.ExtensionDot | Sources/CaptureAndEdit/Services/HistoryService.swift:81 | The extension starts after the last dot of the last path component |
| History.FileNameHasPngExtension | Sources/CaptureAndEdit/Services/HistoryService.swift:81 | A history file name in any directory has the extension "png" |
| History.FileAt | Sources/CaptureAndEdit/Services/HistoryService.swift:100 | The entry at a path is in the directory, or none exactly when no entry has that path |
| History.WithoutPath | Sources/CaptureAndEdit/Services/HistoryService.swift:116 | Removing a path removes exactly the entries at that path and leaves every other path as it was |
| History.Candidates | Sources/CaptureAndEdit/Services/HistoryService.swift:80-92 | Every item comes from a listed PNG file with a creation date, and every such file yields one |
| History.InsertByDate | Sources/CaptureAndEdit/Services/HistoryService.swift:93 | Inserting into a newest-first list keeps it newest-first and adds exactly the item |
| History.SortNewestFirst | Sources/CaptureAndEdit/Services/HistoryService.swift:93 | The sort orders newest first and is a permutation |
| History.LoadHistory | Sources/CaptureAndEdit/Services/HistoryService.swift:69-97 | A missing directory gives no items; loading fails exactly when the directory exists but cannot be listed |
| History.LoadHistoryIsPrefix | Sources/CaptureAndEdit/Services/HistoryService.swift:93-94 | Loading gives exactly the first min(n, 25) of the n sorted candidates: 25 items when there are more than 25, all of them otherwise |
| History.LoadHistoryShape | Sources/CaptureAndEdit/Services/HistoryService.swift:80-96 | At most 25 items, newest first, drawn from the candidates, each from a listed PNG file |
| History.FromListing | Sources/CaptureAndEdit/Services/HistoryService.swift:80-92 | Items drawn from the candidates each come from a listed PNG file with its creation date |
| History.LoadHistoryKeepsNewest | Sources/CaptureAndEdit/Services/HistoryService.swift:93-94 | Every candidate left out is no newer than every item kept |
| History.LoadHistoryAllWhenFew | Sources/CaptureAndEdit/Services/HistoryService.swift:94 | With 25 candidates or fewer, all of them are loaded |
| History.LoadImage | Sources/CaptureAndEdit/Services/HistoryService.swift:99-109 | "Item not found" exactly when the file is absent; an unreadable file gives "image load failed"; success gives the image file at the path |
| History.DeleteItem | Sources/CaptureAndEdit/Services/HistoryService.swift:111-117 | An absent file gives "item not found"; a file that cannot be removed gives a file-system error; success removes exactly that path |
| History.DeleteTwiceNotFound | Sources/CaptureAndEdit/Services/HistoryService.swift:111-117 | Deleting an item a second time gives "item not found" |
| History.DeleteAll | Sources/CaptureAndEdit/Services/HistoryService.swift:119-125 | Deleting everything fails exactly when loading fails; otherwise exactly the removable files of the loaded items are gone and every other file is kept |
| History.PathsSnoc | Sources/CaptureAndEdit/Services/HistoryService.swift:122-124 | The paths of one more item are the earlier paths plus its own |
| HotKeys.ShiftInByte | Sources/CaptureAndEdit/Services/HotKeyManager.swift:75 | One step of the loop stays below 2^32 |
| HotKeys.ShiftKeepsRoom | Sources/CaptureAndEdit/Services/HotKeyManager.swift:75 | After the shift the low byte is zero, so adding a byte cannot overflow |
| HotKeys.Packed | Sources/CaptureAndEdit/Services/HotKeyManager.swift:71-79 | The code of any byte string is below 2^32 |
| HotKeys.BigEndianBound | Sources/CaptureAndEdit/Services/HotKeyManager.swift:71-79 | n bytes read big-endian stay below 256^n |
| HotKeys.BigEndianAppend | Sources/CaptureAndEdit/Services/HotKeyManager.swift:71-79 | Reading a concatenation puts the front part |b| bytes higher |
| HotKeys.ShiftIsModular | Sources/CaptureAndEdit/Services/HotKeyManager.swift:75 | One step of the loop is one step of the big-endian reading modulo 2^32 |
| HotKeys.PackedIsBigEndianModWord | Sources/CaptureAndEdit/Services/HotKeyManager.swift:71-79 | The code is the big-endian reading of all the bytes modulo 2^32 |
| HotKeys.ShortStringsExact | Sources/CaptureAndEdit/Services/HotKeyManager.swift:71-79 | Up to four bytes the code is exactly the big-endian number |
| HotKeys.LastFourBytesDecide | Sources/CaptureAndEdit/Services/HotKeyManager.swift:71-79 | Only the last four bytes matter |
| HotKeys.FourCharCodeValue | Sources/CaptureAndEdit/Services/HotKeyManager.swift:71-79 | The loop computes the code of the bytes |
| HotKeys.AsciiBytes | Sources/CaptureAndEdit/Services/HotKeyManager.swift:74 | An ASCII string's UTF-8 bytes are its character codes, one per character |
| HotKeys.SignatureCode | Sources/CaptureAndEdit/Services/HotKeyManager.swift:21 | The signature "CPED" is 0x43504544, and the empty string is 0 |
| Decimal.NatToString | Sources/CaptureAndEdit/ViewModels/MainViewModel.swift:126 | A natural number is written as decimal digits without a leading zero |
| Decimal.IntToString | Sources/CaptureAndEdit/ViewModels/MainViewModel.swift:126 | An integer is written with a minus sign exactly when it is negative |
| Decimal.NatToStringRoundTrip | Sources/CaptureAndEdit/ViewModels/MainViewModel.swift:126 | Reading the digits back gives the number |
| Decimal.NatToStringInjective | Sources/CaptureAndEdit/ViewModels/MainViewModel.swift:126 | Distinct numbers are written differently |

## Left out

- Drawing and rendering (`draw(in:)`, the canvas view's display, layer opacity when painting) are not modelled; only the data the drawing reads is.
- The text shape's hit area depends on font metrics. They enter as a `TextMeasure` function parameter, which stands for the size of `NSAttributedString(string:attributes:)` set in `NSFont.systemFont(ofSize:weight: .medium)`. The parameter hides both the font size's effect and the medium weight.
- `CGFloat` arithmetic is modelled on exact reals. `hypot` is compared through squared distances and squared tolerances (10 points for hits, 8 for handles), so rounding is not modelled.
- `UUID()` calls are replaced by a fresh id that the caller passes in. History items get their ids from a function of the path.
- `NSImage` is an opaque number. `NSColor` is an enumeration of the five system colours in use.
- `objectWillChange`, `@Published` observation, the debug `print` calls and the SwiftUI views other than the canvas's coordinator are not modelled.
- The file system is a value listing the history directory's entries. A failure of `contentsOfDirectory` or `removeItem` appears as a single file-system error.
- `DateFormatter` enters as a function parameter of `History.FileName`.
- `saveImage` and the creation of the history directory are not modelled, because they write images through AppKit.
- Swift's sort is not stable. `History.SortNewestFirst` is one admissible order, and the lemmas about loading hold for it.
- The UTF-8 encoding of a Swift string is not modelled: `HotKeys.FourCharCodeValue` takes the bytes. `HotKeys.AsciiBytes` covers ASCII strings such as the signature.
- The Carbon hot-key registration, event handler and their error paths are not modelled.
- The clipboard monitor, window handling, saving and copying, and the rest of `MainViewModel` are not modelled.
- CanvasViewModels.CanvasViewModel.HandleMouseDown: requires with the selection tool that every operation be hittable, because the source traps (an empty range) on a pen stroke with no points.
- Coordinators.Coordinator.MouseDown: requires the same as `HandleMouseDown` for the same reason.
- ImageDocuments.ImageDocument.MoveOperation: requires that a remembered gesture index fit the active layer, because the source traps on an index out of range.
- ImageDocuments.ImageDocument.ResizeOperation: requires the same as `MoveOperation`, for the same reason.
- ImageDocuments.ImageDocument.CancelMove: requires the same as `MoveOperation`, for the same reason.
- ImageDocuments.ImageDocument.CancelResize: requires the same as `MoveOperation`, for the same reason.
- Coordinators.Coordinator.MouseDragged: requires the same as `MoveOperation`, for the same reason.
- Coordinators.Coordinator.MouseUp: states the document's new state under the assumption that the completion hook's document is the window's document, or is kept apart from it. The application passes `viewModel.document` to the canvas (Sources/CaptureAndEdit/Views/MainView.swift:27-31), so the two are the same object.
- MainViewModels.MainViewModel.constructor: the document is never reassigned, so it is a constant field. The clipboard callback set up by `init` is not modelled.
- The move and resize ids passed to `moveOperation`/`resizeOperation` are ignored by the source, which uses the remembered index; the model does the same.
