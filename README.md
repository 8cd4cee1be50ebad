# Image editor core: a Dafny model

This project models the editing core of a small raster-image editor
(`assignment3.py`). It covers two parts.

- `FilterSettings` holds the five slider values: brightness, blur, contrast, scale and grayscale.
- `ImageProcessor` owns the image state machine:
  - the loaded image (`true_original`);
  - the working base image that destructive edits replace (`original_image`);
  - the rendered preview (`current_image`);
  - the undo stack (`history`) and the redo stack (`redo_stack`), most recent last.

The preview is recomputed from the base and the settings on every call. It
runs grayscale, then brightness/contrast, then Gaussian blur, then resize.
The destructive edits are rotate 90° clockwise, flip, and Canny edge
detection. Each one first pushes a snapshot of the base onto the undo stack
and empties the redo stack.

Modules:

- `Images`: pixels, rectangular grids, `Rotate90` and `Flip` with their laws.
- `Primitives`: luminance planes, the brightness/contrast channel map, and
  the edge map. The image-library operations the program calls but whose
  numerics are not visible are parameters, collected in a `Library`: the
  luminance weights, the Gaussian blur, the area resize and Canny.
  `Sound(lib)` states the only things the model assumes about them: blur keeps
  the shape, resize produces the size it is asked for, and Canny keeps the
  shape.
- `Settings`: the `FilterSettings` class and its `Adjustments` value.
- `Preview`: the preview pipeline (`Render`) and its size arithmetic.
- `Editor`: the processor's state as a value, one transition function per
  operation, and the laws relating them. These laws cover undo/redo round
  trips, the linear timeline `history + [base] + reversed(redo)`, and
  multi-step undo followed by redo.
- `Processor`: the `ImageProcessor` class. Its methods reassign its fields in
  place, and each one is specified by the matching `Editor` transition. It
  also has a client method that replays a load, flip, undo, redo scenario.

Three details follow the code exactly:

- Brightness/contrast is the library's scale-absolute conversion (`ScaleAbs`),
  which takes the absolute value before saturating. The clamped map the
  program evidently means (`Tone`, and `IntendedRender` for the whole
  preview) is defined alongside. With non-negative brightness and contrast
  the two are proved equal (`RenderMatchesIntended`); see Findings.

- The resize truncates `w*scale/100` rather than rounding it.
- A flip mode of 0 mirrors top to bottom, a positive mode mirrors left to
  right, and a negative mode does both. These are the image library's flip
  codes; the program passes 1 for horizontal and 0 for vertical.

## Model

| member | source | states |
|---|---|---|
| Images.Rotate90 | assignment3.py:127-130 | result is as wide as the input is high and vice versa; result pixel (x, y) is input pixel (y, H-1-x), i.e. a clockwise quarter turn |
| Images.Rotate180At | assignment3.py:127-130 | two quarter turns keep the shape and send pixel (x, y) to (W-1-x, H-1-y) |
| Images.RotateFourTimes | assignment3.py:127-130 | four quarter turns give back the original image exactly |
| Images.FlipIndexInvolution | assignment3.py:132-136 | the row and column maps of every flip mode are their own inverses, so a flip only swaps pixels in pairs |
| Images.Flip | assignment3.py:132-136 | shape kept; each pixel comes from the mirrored row and/or column the mode selects |
| Images.FlipInvolution | assignment3.py:132-136 | flipping twice with the same mode gives back the original image |
| Images.FlipUniform | assignment3.py:132-136 | flipping a single-colour image leaves it unchanged |
| Primitives.ToGray | assignment3.py:91 | luminance plane of the same shape, each cell the luminance of the pixel there |
| Primitives.GrayToRgb | assignment3.py:92 | same shape, each pixel the plane value repeated on all three channels |
| Primitives.EdgeMap | assignment3.py:122-124 | the edge-detection result has every pixel gray (three equal channels), and keeps the shape when the library is sound |
| Primitives.RoundHalfEven | assignment3.py:95 | result within 1/2 of the input, ties going to the even integer |
| Primitives.RoundMonotone | assignment3.py:95 | rounding preserves order |
| Primitives.RoundNegate | assignment3.py:95 | half-to-even rounding is symmetric: rounding -v gives minus the rounding of v |
| Primitives.SaturateLaws | assignment3.py:95 | saturation to [0, 255] preserves order and is idempotent |
| Primitives.ClampMonotone | assignment3.py:94-95 | rounding followed by saturation preserves order |
| Primitives.ScaleAbsChannel | assignment3.py:95 | the conversion as the program calls it: the saturated rounded affine value where that is non-negative, and the saturated negation of it where it is negative |
| Primitives.ScaleAbsAgreesWithTone | assignment3.py:94-95 | with non-negative gain and offset the as-written conversion equals the clamped map on every channel |
| Primitives.ScaleAbsNotMonotone | assignment3.py:95 | as written, gain 1 and offset -100 map channel 30 to 70 but channel 100 to 0 |
| Primitives.ToneChannel | assignment3.py:94-95 | the affine map alpha*x+beta: 0 at or below 0, 255 at or above 255, rounded in between |
| Primitives.ToneExample | assignment3.py:94-95 | gain 1 and offset 50 map channel 200 to 250, both in the clamped map and in the conversion as written |
| Primitives.ToneMonotone | assignment3.py:94-95 | with non-negative gain the adjustment never reverses the order of two channel values |
| Primitives.ToneNeutral | assignment3.py:94-95 | gain 1 and offset 0 leave a channel unchanged |
| Primitives.Tone | assignment3.py:94-95 | the intended adjustment: same shape, the clamped channel map applied to every channel of every pixel |
| Primitives.ScaleAbs | assignment3.py:95 | the conversion as written: same shape, the as-written channel map applied to every channel of every pixel |
| Primitives.ScaleAbsImageAgreesWithTone | assignment3.py:94-95 | with non-negative gain and offset the as-written image conversion equals the intended one |
| Primitives.ToneIdentity | assignment3.py:95 | gain 1 and offset 0 leave the image pixel-identical |
| Preview.TruncDiv | assignment3.py:105-106 | quotient truncated toward zero, as the float-to-int conversion does |
| Preview.ScaledDim | assignment3.py:105-110 | at least 1; the truncated product n*scale/100 when that is at least 1 |
| Preview.KernelSize | assignment3.py:99-100 | the blur kernel side is odd, with radius equal to the blur amount |
| Preview.GrayStage | assignment3.py:90-92 | shape kept; unchanged when grayscale is off, every pixel gray when it is on |
| Preview.BlurStage | assignment3.py:98-101 | unchanged when blur is not positive; shape kept when the library is sound |
| Preview.ResizeStage | assignment3.py:104-112 | unchanged at scale 100; otherwise exactly ScaledDim of each side when the library is sound |
| Preview.Render | assignment3.py:87-114 | the program's preview (grayscale, as-written conversion, blur, resize) has the base's size at scale 100, otherwise each side truncated to scale percent and clamped to at least 1 |
| Preview.RenderMatchesIntended | assignment3.py:94-95 | with non-negative brightness and contrast the program's preview equals the preview with the clamped adjustment |
| Preview.RenderDefaultsIdentity | assignment3.py:84-115 | under the default settings the preview is pixel-identical to the base |
| Preview.RenderSizeExamples | assignment3.py:104-110 | a 100 x 100 base previews as 10 x 10 at scale 10 and 200 x 200 at scale 200 |
| Settings.FilterSettings.constructor | assignment3.py:13-18 | brightness 0, blur 0, contrast 1.0, scale 100, grayscale off, all within the slider ranges |
| Settings.FilterSettings.Reset | assignment3.py:20-25 | restores exactly the constructor's values |
| Editor.Valid | assignment3.py:30-48 | the state invariant; a valid state without a base is exactly the start state |
| Editor.Load | assignment3.py:37-48 | a failed decode changes nothing; a successful one gives a valid state whose preview is the decoded image, with both stacks empty |
| Editor.Revert | assignment3.py:56-62 | keeps validity, the loaded image and the preview; after a load the base is the loaded image and both stacks are empty |
| Editor.Commit | assignment3.py:65-68 | keeps validity and all three images; with a base, history grows by one and redo is emptied |
| Editor.Undo | assignment3.py:70-74 | keeps validity, the loaded image, the preview and the snapshot count; on non-empty history it shrinks history by one and only pushes onto redo |
| Editor.Redo | assignment3.py:76-80 | keeps validity, the loaded image, the preview and the snapshot count; on a non-empty redo stack it shrinks redo by one and only pushes onto history |
| Editor.Edit | assignment3.py:119-136 | keeps validity; the base becomes the edited image, redo is emptied, history keeps its old entries and gains the old base on top; loaded image and preview untouched |
| Editor.Refresh | assignment3.py:84-115 | keeps validity and changes nothing but the preview; with a base it yields a preview whose size follows the truncate-and-clamp rule |
| Editor.OperationsPreserveValid | assignment3.py:30-136 | the start state is valid, and every operation keeps "base present iff loaded, no preview or history before a load" |
| Editor.LoadLaw | assignment3.py:37-48 | a failed decode changes nothing; otherwise loaded image, base and preview all equal the decoded image and both stacks are empty |
| Editor.RevertLaw | assignment3.py:56-62 | no change before a load; otherwise base := loaded image, both stacks empty, loaded image and preview untouched |
| Editor.CommitLaw | assignment3.py:65-68 | no change without a base; otherwise history grows by exactly the base, redo is emptied, nothing else changes |
| Editor.UndoLaw | assignment3.py:70-74 | no change on empty history; otherwise old base pushed on redo, top of history becomes the base, history shrinks by one; total snapshot count kept |
| Editor.RedoLaw | assignment3.py:76-80 | the mirror of UndoLaw for the redo stack |
| Editor.UndoRedoRoundTrip | assignment3.py:70-80 | a successful undo followed by redo, or redo followed by undo, restores the whole state exactly |
| Editor.EditUndoRedo | assignment3.py:119-136 | after a destructive edit redo does nothing; undo restores the pre-edit base and history; redo after that restores the edited base |
| Editor.Reversed | assignment3.py:70-80 | same length, element i is the element \|s\|-1-i of the input: the redo stack read from the top down |
| Editor.Timeline | assignment3.py:70-80 | the linear timeline of reachable bases, with the current base at index \|history\| |
| Editor.UndoRedoKeepTimeline | assignment3.py:70-80 | undo and redo only move the cursor; the timeline is unchanged |
| Editor.EditTimeline | assignment3.py:65-68 | a destructive edit discards everything after the cursor and appends the edited image |
| Editor.UndoTimes | assignment3.py:70-74 | n undos keep validity, the loaded image and the preview, and move n snapshots from history to redo |
| Editor.RedoTimes | assignment3.py:76-80 | n redos keep validity, the loaded image and the preview, and move n snapshots from redo to history |
| Editor.UndoTimesThenRedoTimes | assignment3.py:70-80 | n undos followed by n redos restore the state exactly |
| Editor.UndoTimesKeepTimeline | assignment3.py:70-74 | n undos keep the timeline and make the base the timeline entry n steps back |
| Editor.RedoTimesKeepTimeline | assignment3.py:76-80 | n redos keep the timeline and make the base the timeline entry n steps forward |
| Editor.RefreshLaw | assignment3.py:84-115 | no change before a load; otherwise only the preview changes, to the rendering of the base, whose size follows the truncate-and-clamp rule |
| Processor.ImageProcessor.constructor | assignment3.py:30-35 | nothing loaded, both stacks empty |
| Processor.ImageProcessor.LoadFile | assignment3.py:37-48 | new state is the load transition of the old one; returns the decoded image, which is also the preview |
| Processor.ImageProcessor.SaveFile | assignment3.py:50-54 | hands the preview to the encoder, or nothing when there is none; no field changes |
| Processor.ImageProcessor.RevertToOriginal | assignment3.py:56-62 | new state is the revert transition; returns None before a load, else the new base |
| Processor.ImageProcessor.SaveStateForUndo | assignment3.py:65-68 | new state is the commit transition |
| Processor.ImageProcessor.Undo | assignment3.py:70-74 | new state is the undo transition; returns None on empty history, else the new base |
| Processor.ImageProcessor.Redo | assignment3.py:76-80 | new state is the redo transition; returns None on empty redo stack, else the new base |
| Processor.ImageProcessor.ApplyTransformations | assignment3.py:84-115 | the stage-by-stage pipeline leaves exactly the refresh transition's state; returns None before a load, else the preview |
| Processor.ImageProcessor.ApplyCannyEdge | assignment3.py:119-125 | commit, then the base becomes its edge map |
| Processor.ImageProcessor.Rotate90 | assignment3.py:127-130 | commit, then the base becomes its clockwise quarter turn |
| Processor.ImageProcessor.Flip | assignment3.py:132-136 | commit, then the base becomes its flip in the given mode |

## Left out

- The GUI class `ImageEditorApp` (assignment3.py:139-348) is left out. Its widgets, dialogs, message boxes and canvas are presentation only. `Processor.RedSquareScenario` plays the part of a caller.
- File I/O is left out: reading and writing files, and the BGR/RGB channel swaps around them. `LoadFile` takes the decoder's result as an `Option<Image>`. None stands for an unreadable file; there the program raises inside the colour conversion before assigning any field. `SaveFile` returns the image that would be encoded.
- Library numerics are parameters: the luminance weights, Gaussian kernel values, area resampling and Canny. Only their shape guarantees (`Sound`) are assumed. So the model does not prove that edge detection on a uniform image is all black.
- Floating point is not modelled. Contrast is an exact `real`, and the channel map is computed exactly, not in single precision. The size `int(w*scale/100)` is taken as the exact truncated quotient; a float rounding error near an integer boundary is ignored.
- Processor.ImageProcessor.ApplyCannyEdge, Rotate90 and Flip require a loaded image. With none, `save_state_for_undo` does nothing and the following library call fails on the missing image (assignment3.py:122, 129, 135).
- Processor.ImageProcessor.SaveFile: only chooses which image is written. Encoding and the file are not modelled.
- `.copy()` needs no model, because images are values.
- Out-of-range slider values are taken as they are, as in the program. `Settings.InSliderRange` records the slider ranges, and only the constructor and `Reset` mention it.

## Findings

| source | as written | input that shows it | evidently intended | confidence | as-written member | corrected member |
|---|---|---|---|---|---|---|
| assignment3.py:95 | brightness/contrast use the absolute-value conversion, so an affine value below 0 is reflected instead of clamped | contrast 1.0, brightness -100: channel 30 becomes 70 while channel 100 becomes 0 | `new = alpha*old + beta` clamped to [0, 255], an order-preserving map | medium, not executed | Primitives.ScaleAbsNotMonotone | Primitives.ToneMonotone |
