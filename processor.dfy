/**
 * The image processor: an object whose methods reassign its image fields
 * and grow and shrink its two history stacks. Each method is specified by
 * the matching transition of `Editor`, applied to the abstract state.
 */
module Processor {
  import opened Wrappers
  import opened Images
  import opened Primitives
  import opened Settings
  import opened Preview
  import opened Editor

  class ImageProcessor {
    var trueOriginal: Option<Image>
    var originalImage: Option<Image>
    var currentImage: Option<Image>
    var history: seq<Image>
    var redoStack: seq<Image>

    function State(): EditorState
      reads this
    {
      EditorState(trueOriginal, originalImage, currentImage, history, redoStack)
    }

    ghost predicate Valid()
      reads this
    {
      Editor.Valid(State())
    }

    constructor ()
      ensures Valid() && State() == Initial
    {
      trueOriginal := None;
      originalImage := None;
      currentImage := None;
      history := [];
      redoStack := [];
    }

    /**
     * Install a decoded image as loaded image, base and preview, with empty
     * history. `decoded` is the decoder's result; None stands for a file
     * that could not be decoded, which leaves every field as it was.
     */
    method LoadFile(decoded: Option<Image>) returns (r: Option<Image>)
      requires Valid()
      modifies this
      ensures Valid() && State() == Load(old(State()), decoded)
      ensures r == decoded && (r.Some? ==> r == currentImage)
    {
      if decoded.None? {
        return None;
      }
      trueOriginal := decoded;
      originalImage := trueOriginal;
      currentImage := originalImage;
      history := [];
      redoStack := [];
      r := currentImage;
    }

    /** The image handed to the encoder, if there is a preview to save; no field changes. */
    method SaveFile() returns (written: Option<Image>)
      ensures written == currentImage
    {
      if currentImage.None? {
        return None;
      }
      written := currentImage;
    }

    method RevertToOriginal() returns (r: Option<Image>)
      requires Valid()
      modifies this
      ensures Valid() && State() == Revert(old(State()))
      ensures r == (if old(trueOriginal).None? then None else originalImage)
    {
      if trueOriginal.None? {
        return None;
      }
      originalImage := trueOriginal;
      history := [];
      redoStack := [];
      r := originalImage;
    }

    method SaveStateForUndo()
      requires Valid()
      modifies this
      ensures Valid() && State() == Commit(old(State()))
    {
      if originalImage.Some? {
        history := history + [originalImage.value];
        redoStack := [];
      }
    }

    /** Returns the restored base, or None when there is nothing to undo. */
    method Undo() returns (r: Option<Image>)
      requires Valid()
      modifies this
      ensures Valid() && State() == Editor.Undo(old(State()))
      ensures r == (if old(history) == [] then None else originalImage)
    {
      if history == [] {
        return None;
      }
      redoStack := redoStack + [originalImage.value];
      originalImage := Some(history[|history| - 1]);
      history := history[..|history| - 1];
      r := originalImage;
    }

    /** Returns the restored base, or None when there is nothing to redo. */
    method Redo() returns (r: Option<Image>)
      requires Valid()
      modifies this
      ensures Valid() && State() == Editor.Redo(old(State()))
      ensures r == (if old(redoStack) == [] then None else originalImage)
    {
      if redoStack == [] {
        return None;
      }
      history := history + [originalImage.value];
      originalImage := Some(redoStack[|redoStack| - 1]);
      redoStack := redoStack[..|redoStack| - 1];
      r := originalImage;
    }

    /**
     * Render the preview from the base and the adjustments in `settings`,
     * stage by stage. Returns the preview, or None when nothing is loaded.
     */
    method ApplyTransformations(settings: FilterSettings, lib: Library) returns (r: Option<Image>)
      requires Valid()
      modifies this
      ensures Valid() && State() == Refresh(old(State()), settings.Value(), lib)
      ensures r == (if old(originalImage).None? then None else currentImage)
    {
      if originalImage.None? {
        return None;
      }
      var temp := originalImage.value;
      if settings.grayscale {
        var gray := ToGray(temp, lib.luma);
        temp := GrayToRgb(gray);
      }
      temp := ScaleAbs(temp, settings.contrast, settings.brightness);
      if settings.blur > 0 {
        var ksize := settings.blur * 2 + 1;
        temp := lib.gaussian(temp, ksize);
      }
      if settings.scale != 100 {
        var width := TruncDiv(temp.width * settings.scale, 100);
        var height := TruncDiv(temp.height * settings.scale, 100);
        if width < 1 { width := 1; }
        if height < 1 { height := 1; }
        temp := lib.resizeArea(temp, width, height);
      }
      currentImage := Some(temp);
      r := currentImage;
    }

    /** Commit, then replace the base with its edge map. */
    method ApplyCannyEdge(lib: Library) returns (r: Image)
      requires Valid() && originalImage.Some?
      modifies this
      ensures Valid() && State() == Edit(old(State()), EdgeMap(old(originalImage).value, lib))
      ensures originalImage == Some(r)
    {
      SaveStateForUndo();
      var gray := ToGray(originalImage.value, lib.luma);
      var edges := lib.canny(gray, CannyLow, CannyHigh);
      r := GrayToRgb(edges);
      originalImage := Some(r);
    }

    /** Commit, then turn the base a quarter turn clockwise. */
    method Rotate90() returns (r: Image)
      requires Valid() && originalImage.Some?
      modifies this
      ensures Valid() && State() == Edit(old(State()), Images.Rotate90(old(originalImage).value))
      ensures originalImage == Some(r)
    {
      SaveStateForUndo();
      r := Images.Rotate90(originalImage.value);
      originalImage := Some(r);
    }

    /** Commit, then mirror the base: 1 horizontally, 0 vertically, negative both ways. */
    method Flip(mode: int) returns (r: Image)
      requires Valid() && originalImage.Some?
      modifies this
      ensures Valid() && State() == Edit(old(State()), Images.Flip(old(originalImage).value, mode))
      ensures originalImage == Some(r)
    {
      SaveStateForUndo();
      r := Images.Flip(originalImage.value, mode);
      originalImage := Some(r);
    }
  }

  /**
   * A caller's view: load a 4 x 4 red image, flip it horizontally, undo and
   * redo, using only the processor's contracts and the editor's laws.
   */
  method RedSquareScenario(lib: Library) {
    var red := Filled(4, 4, Pixel(255, 0, 0));
    var p := new ImageProcessor();
    var loaded := p.LoadFile(Some(red));
    assert loaded == Some(red);

    var flipped := p.Flip(1);
    FlipUniform(red, Pixel(255, 0, 0), 1);
    assert flipped == red && p.history == [red] && p.redoStack == [];
    var none := p.Redo();
    assert none == None;

    var undone := p.Undo();
    assert undone == Some(red) && p.history == [] && |p.redoStack| == 1;

    var redone := p.Redo();
    assert redone == Some(red) && p.history == [red] && p.redoStack == [];
  }
}
