/**
 * The undo and redo history of the image editor in `028_project/image_editor.py`.
 * Pictures are values here (a `copy()` is the picture itself); what a filter
 * or transform computes is an input, since the `ImageFilters` and
 * `ImageTransforms` classes are not part of this model, and neither are the
 * file dialogs and the Tk canvas.
 */
module ImageEditor {
  import opened Wrappers

  /** A picture as the editor handles it: replaced, copied and stacked whole. */
  datatype Image = Image(width: nat, height: nat, pixels: seq<int>)

  /** The editor's fields that the history touches. */
  datatype State = State(original: Option<Image>, current: Option<Image>, undo: seq<Image>, redo: seq<Image>)

  /**
   * What every method keeps: an image is open exactly when there is an
   * original, and nothing is stacked before an image is open.
   */
  predicate Consistent(s: State) {
    (s.original.Some? <==> s.current.Some?) && ((s.undo != [] || s.redo != []) ==> s.current.Some?)
  }

  /** `push_undo`: the current picture on top of the undo stack, the redo stack emptied. */
  function PushOf(s: State): (r: State)
    requires s.current.Some?
    ensures r.undo == s.undo + [s.current.value] && r.redo == [] && r.current == s.current && r.original == s.original
  {
    s.(undo := s.undo + [s.current.value], redo := [])
  }

  /** `undo`: nothing on an empty undo stack; else the current picture goes to redo and the undo top becomes current. */
  function UndoOf(s: State): (r: State)
    requires Consistent(s)
    ensures Consistent(r) && |r.undo| + |r.redo| == |s.undo| + |s.redo| && r.original == s.original
    ensures s.undo == [] ==> r == s
    ensures s.undo != [] ==> r.current == Some(s.undo[|s.undo| - 1]) && r.undo == s.undo[..|s.undo| - 1]
                             && r.redo == s.redo + [s.current.value]
  {
    if s.undo == [] then s
    else s.(redo := s.redo + [s.current.value], current := Some(s.undo[|s.undo| - 1]), undo := s.undo[..|s.undo| - 1])
  }

  /** `redo`: the mirror image of `undo`. */
  function RedoOf(s: State): (r: State)
    requires Consistent(s)
    ensures Consistent(r) && |r.undo| + |r.redo| == |s.undo| + |s.redo| && r.original == s.original
    ensures s.redo == [] ==> r == s
    ensures s.redo != [] ==> r.current == Some(s.redo[|s.redo| - 1]) && r.redo == s.redo[..|s.redo| - 1]
                             && r.undo == s.undo + [s.current.value]
  {
    if s.redo == [] then s
    else s.(undo := s.undo + [s.current.value], current := Some(s.redo[|s.redo| - 1]), redo := s.redo[..|s.redo| - 1])
  }

  /** An undo that did something is taken back by a redo: picture and both stacks as before. */
  lemma RedoUndo(s: State)
    requires Consistent(s) && s.undo != []
    ensures RedoOf(UndoOf(s)) == s
  {
    var u := UndoOf(s);
    assert u.redo != [];
    assert u.undo + [u.current.value] == s.undo;
  }

  /** A redo that did something is taken back by an undo. */
  lemma UndoRedo(s: State)
    requires Consistent(s) && s.redo != []
    ensures UndoOf(RedoOf(s)) == s
  {
    var r := RedoOf(s);
    assert r.redo + [r.current.value] == s.redo;
  }

  /**
   * One of the edits (brightness, contrast, blur, sharpen, grayscale, edge
   * enhance, rotate, the two flips): nothing without a picture; otherwise
   * the picture is pushed, then replaced by what the edit computes.
   */
  function EditOf(s: State, edit: Image -> Image): (r: State)
    requires Consistent(s)
    ensures Consistent(r) && r.original == s.original
    ensures s.current.None? ==> r == s
    ensures s.current.Some? ==> r.undo == s.undo + [s.current.value] && r.redo == []
                                && r.current == Some(edit(s.current.value))
  {
    if s.current.None? then s else PushOf(s).(current := Some(edit(s.current.value)))
  }

  /** An edit followed by an undo gives back the picture from before the edit. */
  lemma UndoEdit(s: State, edit: Image -> Image)
    requires Consistent(s) && s.current.Some?
    ensures UndoOf(EditOf(s, edit)).current == s.current && UndoOf(EditOf(s, edit)).undo == s.undo
  {
    assert (s.undo + [s.current.value])[..|s.undo|] == s.undo;
  }

  /** `reset_image`: nothing without an original; else the picture is pushed and the original becomes current. */
  function ResetOf(s: State): (r: State)
    requires Consistent(s)
    ensures Consistent(r) && r.original == s.original
    ensures s.original.None? ==> r == s
    ensures s.original.Some? ==> r.current == s.original && r.undo == s.undo + [s.current.value] && r.redo == []
  {
    if s.original.None? then s else PushOf(s).(current := s.original)
  }

  /** `open_image` once the picture has loaded: it is both original and current, and the history is empty. */
  function OpenOf(s: State, picture: Image): (r: State)
    ensures Consistent(r) && r.original == Some(picture) && r.current == Some(picture)
    ensures r.undo == [] && r.redo == []
  {
    State(Some(picture), Some(picture), [], [])
  }

  class Editor {
    var originalImage: Option<Image>
    var currentImage: Option<Image>
    var undoStack: seq<Image>
    var redoStack: seq<Image>

    function St(): State
      reads this
    {
      State(originalImage, currentImage, undoStack, redoStack)
    }

    ghost predicate Valid()
      reads this
    {
      Consistent(St())
    }

    constructor()
      ensures Valid() && St() == State(None, None, [], [])
    {
      originalImage, currentImage, undoStack, redoStack := None, None, [], [];
    }

    /** `open_image`: `None` when the dialog was cancelled or the file did not load, which changes nothing. */
    method OpenImage(picked: Option<Image>)
      requires Valid()
      modifies this
      ensures Valid() && St() == if picked.Some? then OpenOf(old(St()), picked.value) else old(St())
    {
      if picked.Some? {
        originalImage := picked;
        currentImage := picked;
        undoStack := [];
        redoStack := [];
      }
    }

    method PushUndo()
      requires Valid() && currentImage.Some?
      modifies this
      ensures Valid() && St() == PushOf(old(St()))
    {
      undoStack := undoStack + [currentImage.value];
      redoStack := [];
    }

    method Undo()
      requires Valid()
      modifies this
      ensures Valid() && St() == UndoOf(old(St()))
    {
      if undoStack == [] {
        return;
      }
      redoStack := redoStack + [currentImage.value];
      currentImage := Some(undoStack[|undoStack| - 1]);
      undoStack := undoStack[..|undoStack| - 1];
    }

    method Redo()
      requires Valid()
      modifies this
      ensures Valid() && St() == RedoOf(old(St()))
    {
      if redoStack == [] {
        return;
      }
      undoStack := undoStack + [currentImage.value];
      currentImage := Some(redoStack[|redoStack| - 1]);
      redoStack := redoStack[..|redoStack| - 1];
    }

    method ResetImage()
      requires Valid()
      modifies this
      ensures Valid() && St() == ResetOf(old(St()))
    {
      if originalImage.None? {
        return;
      }
      PushUndo();
      currentImage := originalImage;
    }

    /** Any of the nine edit methods, `edit` being what its filter or transform computes. */
    method ApplyEdit(edit: Image -> Image)
      requires Valid()
      modifies this
      ensures Valid() && St() == EditOf(old(St()), edit)
    {
      if currentImage.None? {
        return;
      }
      PushUndo();
      currentImage := Some(edit(currentImage.value));
    }
  }
}
