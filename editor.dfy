/**
 * The editor's state machine as values. The processor keeps the loaded
 * image, a working base image that destructive edits replace, the
 * rendered preview, and two stacks of base-image snapshots (most recent
 * last) for undo and redo. Each operation is a function from the old
 * state to the new one; `Processor.ImageProcessor` performs them in place.
 */
module Editor {
  import opened Wrappers
  import opened Images
  import opened Primitives
  import opened Settings
  import opened Preview

  datatype EditorState = EditorState(
    trueOriginal: Option<Image>,   // the image as loaded
    originalImage: Option<Image>,  // the base image destructive edits change
    currentImage: Option<Image>,   // the rendered preview
    history: seq<Image>,           // undo stack
    redoStack: seq<Image>)         // redo stack

  /** Nothing loaded, both stacks empty. */
  const Initial := EditorState(None, None, None, [], [])

  /**
   * The state invariant: a base image exists exactly when a file is loaded,
   * and before that there is neither a preview nor any history.
   */
  predicate Valid(s: EditorState): (b: bool)
    ensures b && s.originalImage.None? ==> s == Initial
  {
    (s.trueOriginal.Some? <==> s.originalImage.Some?) &&
    (s.originalImage.None? ==> s.currentImage.None? && s.history == [] && s.redoStack == [])
  }

  /** Loading a decoded image; a failed decode (None) changes nothing. */
  function Load(s: EditorState, decoded: Option<Image>): (t: EditorState)
    ensures decoded.None? ==> t == s
    ensures decoded.Some? ==>
      Valid(t) && t.currentImage == decoded && t.history == [] && t.redoStack == []
  {
    match decoded
    case None => s
    case Some(img) => EditorState(Some(img), Some(img), Some(img), [], [])
  }

  /** Back to the loaded image with empty history; nothing happens before a load. */
  function Revert(s: EditorState): (t: EditorState)
    ensures Valid(s) ==> Valid(t)
    ensures t.trueOriginal == s.trueOriginal && t.currentImage == s.currentImage
    ensures s.trueOriginal.Some? ==> t.originalImage == s.trueOriginal && |t.history| + |t.redoStack| == 0
  {
    if s.trueOriginal.None? then s
    else s.(originalImage := s.trueOriginal, history := [], redoStack := [])
  }

  /** Snapshot the base onto the undo stack and drop the redo stack; nothing happens without a base. */
  function Commit(s: EditorState): (t: EditorState)
    ensures Valid(s) ==> Valid(t)
    ensures t.originalImage == s.originalImage && t.trueOriginal == s.trueOriginal && t.currentImage == s.currentImage
    ensures s.originalImage.Some? ==> |t.history| == |s.history| + 1 && t.redoStack == []
  {
    match s.originalImage
    case None => s
    case Some(base) => s.(history := s.history + [base], redoStack := [])
  }

  /** Step the base back to the top of history; nothing happens on empty history. */
  function Undo(s: EditorState): (t: EditorState)
    requires Valid(s)
    ensures Valid(t) && t.trueOriginal == s.trueOriginal && t.currentImage == s.currentImage
    ensures |t.history| + |t.redoStack| == |s.history| + |s.redoStack|
    ensures s.history != [] ==> |t.history| + 1 == |s.history| && t.redoStack[..|s.redoStack|] == s.redoStack
  {
    if s.history == [] then s
    else s.(redoStack := s.redoStack + [s.originalImage.value],
            originalImage := Some(s.history[|s.history| - 1]),
            history := s.history[..|s.history| - 1])
  }

  /** Step the base forward to the top of the redo stack; nothing happens when it is empty. */
  function Redo(s: EditorState): (t: EditorState)
    requires Valid(s)
    ensures Valid(t) && t.trueOriginal == s.trueOriginal && t.currentImage == s.currentImage
    ensures |t.history| + |t.redoStack| == |s.history| + |s.redoStack|
    ensures s.redoStack != [] ==> |t.redoStack| + 1 == |s.redoStack| && t.history[..|s.history|] == s.history
  {
    if s.redoStack == [] then s
    else s.(history := s.history + [s.originalImage.value],
            originalImage := Some(s.redoStack[|s.redoStack| - 1]),
            redoStack := s.redoStack[..|s.redoStack| - 1])
  }

  /** A destructive edit: commit, then replace the base with `edited`. */
  function Edit(s: EditorState, edited: Image): (t: EditorState)
    requires s.originalImage.Some?
    ensures Valid(s) ==> Valid(t)
    ensures t.originalImage == Some(edited) && t.redoStack == []
    ensures |t.history| == |s.history| + 1 && t.history[..|s.history|] == s.history
    ensures t.history[|s.history|] == s.originalImage.value
    ensures t.trueOriginal == s.trueOriginal && t.currentImage == s.currentImage
  {
    Commit(s).(originalImage := Some(edited))
  }

  /** Recompute the preview from the base; nothing happens without a base. */
  function Refresh(s: EditorState, a: Adjustments, lib: Library): (t: EditorState)
    ensures Valid(s) ==> Valid(t)
    ensures t.(currentImage := s.currentImage) == s
    ensures s.originalImage.Some? ==> t.currentImage.Some?
    ensures s.originalImage.Some? && Sound(lib) && a.scale != 100 ==>
      t.currentImage.value.width == ScaledDim(s.originalImage.value.width, a.scale) &&
      t.currentImage.value.height == ScaledDim(s.originalImage.value.height, a.scale)
  {
    match s.originalImage
    case None => s
    case Some(base) => s.(currentImage := Some(Render(base, a, lib)))
  }

  /** Every operation keeps the state invariant. */
  lemma OperationsPreserveValid(s: EditorState, decoded: Option<Image>, edited: Image, a: Adjustments, lib: Library)
    requires Valid(s)
    ensures Valid(Initial)
    ensures Valid(Load(s, decoded)) && Valid(Revert(s)) && Valid(Commit(s))
    ensures Valid(Undo(s)) && Valid(Redo(s)) && Valid(Refresh(s, a, lib))
    ensures s.originalImage.Some? ==> Valid(Edit(s, edited))
  {
  }

  /** After a successful load all three images are the decoded one and both stacks are empty. */
  lemma LoadLaw(s: EditorState, decoded: Option<Image>)
    ensures decoded.None? ==> Load(s, decoded) == s
    ensures decoded.Some? ==>
      var t := Load(s, decoded);
      t.trueOriginal == t.originalImage == t.currentImage == decoded &&
      t.history == [] && t.redoStack == []
  {
  }

  /**
   * Revert does nothing before a load; otherwise it restores the base to the
   * loaded image and empties both stacks, leaving the loaded image and the
   * preview as they were.
   */
  lemma RevertLaw(s: EditorState)
    ensures s.trueOriginal.None? ==> Revert(s) == s
    ensures s.trueOriginal.Some? ==>
      var t := Revert(s);
      t.originalImage == s.trueOriginal && t.history == [] && t.redoStack == [] &&
      t.trueOriginal == s.trueOriginal && t.currentImage == s.currentImage
  {
  }

  /** A commit pushes exactly the current base and empties redo; without a base it does nothing. */
  lemma CommitLaw(s: EditorState)
    ensures s.originalImage.None? ==> Commit(s) == s
    ensures s.originalImage.Some? ==>
      var t := Commit(s);
      |t.history| == |s.history| + 1 && t.history[..|s.history|] == s.history &&
      t.history[|s.history|] == s.originalImage.value && t.redoStack == [] &&
      t.originalImage == s.originalImage && t.trueOriginal == s.trueOriginal &&
      t.currentImage == s.currentImage
  {
  }

  /**
   * Undo with empty history changes nothing. Otherwise the old base goes on
   * top of redo, the top of history becomes the base, history shrinks by
   * one and the total number of snapshots is kept.
   */
  lemma UndoLaw(s: EditorState)
    requires Valid(s)
    ensures s.history == [] ==> Undo(s) == s
    ensures s.history != [] ==>
      var t := Undo(s);
      t.redoStack == s.redoStack + [s.originalImage.value] &&
      t.originalImage == Some(s.history[|s.history| - 1]) &&
      t.history + [s.history[|s.history| - 1]] == s.history &&
      t.trueOriginal == s.trueOriginal && t.currentImage == s.currentImage
    ensures |Undo(s).history| + |Undo(s).redoStack| == |s.history| + |s.redoStack|
  {
  }

  /** Redo is the mirror image of undo. */
  lemma RedoLaw(s: EditorState)
    requires Valid(s)
    ensures s.redoStack == [] ==> Redo(s) == s
    ensures s.redoStack != [] ==>
      var t := Redo(s);
      t.history == s.history + [s.originalImage.value] &&
      t.originalImage == Some(s.redoStack[|s.redoStack| - 1]) &&
      t.redoStack + [s.redoStack[|s.redoStack| - 1]] == s.redoStack &&
      t.trueOriginal == s.trueOriginal && t.currentImage == s.currentImage
    ensures |Redo(s).history| + |Redo(s).redoStack| == |s.history| + |s.redoStack|
  {
  }

  /** A successful undo is exactly cancelled by redo, and a successful redo by undo. */
  lemma UndoRedoRoundTrip(s: EditorState)
    requires Valid(s)
    ensures s.history != [] ==> Redo(Undo(s)) == s
    ensures s.redoStack != [] ==> Undo(Redo(s)) == s
  {
  }

  /**
   * After a destructive edit: redo has nothing to do, undo brings back the
   * pre-edit base with the pre-edit history, and redo after that brings back
   * the edited base.
   */
  lemma EditUndoRedo(s: EditorState, edited: Image)
    requires Valid(s) && s.originalImage.Some?
    ensures Edit(s, edited).redoStack == [] && Redo(Edit(s, edited)) == Edit(s, edited)
    ensures Undo(Edit(s, edited)).originalImage == s.originalImage
    ensures Undo(Edit(s, edited)).history == s.history
    ensures Undo(Edit(s, edited)).redoStack == [edited]
    ensures Redo(Undo(Edit(s, edited))) == Edit(s, edited)
  {
  }

  /** The elements of `s` in the opposite order. */
  function Reversed<T>(s: seq<T>): (r: seq<T>)
    ensures |r| == |s|
    ensures forall i :: 0 <= i < |s| ==> r[i] == s[|s| - 1 - i]
  {
    if s == [] then [] else [s[|s| - 1]] + Reversed(s[..|s| - 1])
  }

  /**
   * The linear edit timeline: every base image reachable by undo or redo,
   * oldest first. The current base sits at index |history|.
   */
  function Timeline(s: EditorState): (t: seq<Image>)
    requires s.originalImage.Some?
    ensures |t| == |s.history| + 1 + |s.redoStack| && t[|s.history|] == s.originalImage.value
  {
    s.history + [s.originalImage.value] + Reversed(s.redoStack)
  }

  /** Undo and redo only move the cursor along the timeline, never change it. */
  lemma UndoRedoKeepTimeline(s: EditorState)
    requires Valid(s) && s.originalImage.Some?
    ensures Timeline(Undo(s)) == Timeline(s)
    ensures Timeline(Redo(s)) == Timeline(s)
  {
  }

  /** A destructive edit discards everything after the cursor and appends the edited image. */
  lemma EditTimeline(s: EditorState, edited: Image)
    requires s.originalImage.Some?
    ensures Timeline(Edit(s, edited)) == s.history + [s.originalImage.value, edited]
  {
  }

  /** `n` successive undos. */
  function UndoTimes(s: EditorState, n: nat): (r: EditorState)
    requires Valid(s) && n <= |s.history|
    ensures Valid(r) && |r.history| + n == |s.history| && |r.redoStack| == |s.redoStack| + n
    ensures r.trueOriginal == s.trueOriginal && r.currentImage == s.currentImage
    decreases n
  {
    if n == 0 then s else Undo(UndoTimes(s, n - 1))
  }

  /** `n` successive redos. */
  function RedoTimes(s: EditorState, n: nat): (r: EditorState)
    requires Valid(s) && n <= |s.redoStack|
    ensures Valid(r) && |r.history| == |s.history| + n && |r.redoStack| + n == |s.redoStack|
    ensures r.trueOriginal == s.trueOriginal && r.currentImage == s.currentImage
    decreases n
  {
    if n == 0 then s else RedoTimes(Redo(s), n - 1)
  }

  /** Undoing n steps and redoing n steps restores the state exactly. */
  lemma {:induction false} UndoTimesThenRedoTimes(s: EditorState, n: nat)
    requires Valid(s) && n <= |s.history|
    ensures RedoTimes(UndoTimes(s, n), n) == s
  {
    if n > 0 {
      var u := UndoTimes(s, n - 1);
      UndoRedoRoundTrip(u);
      assert RedoTimes(UndoTimes(s, n), n) == RedoTimes(u, n - 1);
      UndoTimesThenRedoTimes(s, n - 1);
    }
  }

  /** Any number of undos keeps the timeline and moves the cursor back by that many steps. */
  lemma {:induction false} UndoTimesKeepTimeline(s: EditorState, n: nat)
    requires Valid(s) && s.originalImage.Some? && n <= |s.history|
    ensures UndoTimes(s, n).originalImage.Some?
    ensures Timeline(UndoTimes(s, n)) == Timeline(s)
    ensures UndoTimes(s, n).originalImage.value == Timeline(s)[|s.history| - n]
  {
    if n > 0 {
      UndoTimesKeepTimeline(s, n - 1);
      UndoRedoKeepTimeline(UndoTimes(s, n - 1));
    }
  }

  /** Any number of redos keeps the timeline and moves the cursor forward by that many steps. */
  lemma {:induction false} RedoTimesKeepTimeline(s: EditorState, n: nat)
    requires Valid(s) && s.originalImage.Some? && n <= |s.redoStack|
    ensures RedoTimes(s, n).originalImage.Some?
    ensures Timeline(RedoTimes(s, n)) == Timeline(s)
    ensures RedoTimes(s, n).originalImage.value == Timeline(s)[|s.history| + n]
    decreases n
  {
    if n > 0 {
      UndoRedoKeepTimeline(s);
      RedoTimesKeepTimeline(Redo(s), n - 1);
    }
  }

  /**
   * Refreshing the preview touches nothing but the preview, which becomes the
   * rendering of the base; its size follows the truncate-and-clamp rule.
   */
  lemma RefreshLaw(s: EditorState, a: Adjustments, lib: Library)
    ensures s.originalImage.None? ==> Refresh(s, a, lib) == s
    ensures s.originalImage.Some? ==>
      var t := Refresh(s, a, lib);
      t == s.(currentImage := t.currentImage) && t.currentImage.Some? &&
      t.currentImage.value == Render(s.originalImage.value, a, lib)
    ensures s.originalImage.Some? && Sound(lib) ==>
      var p := Refresh(s, a, lib).currentImage.value;
      var base := s.originalImage.value;
      (a.scale == 100 ==> SameShape(p, base)) &&
      (a.scale != 100 ==> p.width == ScaledDim(base.width, a.scale) && p.height == ScaledDim(base.height, a.scale))
  {
  }
}
