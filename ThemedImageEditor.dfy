/**
 * The history of the image editor in `023_project/themes/image_editor/image_editor.py`.
 * Unlike the other editor, the picture on screen is pushed when it is
 * loaded and before every edit, and `undo` shows the picture that is left
 * on top of the undo stack.  Pictures are values; what PIL computes (or the
 * exception it raises) is an input; the PySimpleGUI window is not modelled.
 */
module ThemedImageEditor {
  import opened Wrappers

  datatype Image = Image(width: nat, height: nat, pixels: seq<int>)

  datatype State = State(
    image: Option<Image>, original: Option<Image>, currentFile: Option<string>,
    undo: seq<Image>, redo: seq<Image>)

  /** `_push_to_undo_stack`: nothing without a picture; else a copy on the undo stack and the redo stack cleared. */
  function PushOf(s: State): (r: State)
    ensures s.image.None? ==> r == s
    ensures s.image.Some? ==> r == s.(undo := s.undo + [s.image.value], redo := [])
  {
    if s.image.None? then s else s.(undo := s.undo + [s.image.value], redo := [])
  }

  /**
   * `load_image`: `picked` is what `Image.open` gave, `None` when it raised.
   * A loaded picture becomes current and original and is pushed; the undo
   * stack keeps what an earlier picture left on it.
   */
  function LoadOf(s: State, path: string, picked: Option<Image>): (r: (State, bool))
    ensures r.1 <==> picked.Some?
    ensures !r.1 ==> r.0 == s
    ensures r.1 ==> r.0.image == Some(picked.value) && r.0.original == Some(picked.value)
                    && r.0.currentFile == Some(path)
                    && r.0.undo == s.undo + [picked.value] && r.0.redo == []
  {
    if picked.None? then (s, false)
    else (PushOf(s.(image := picked, original := picked, currentFile := Some(path))), true)
  }

  /**
   * `undo`: only with more than one picture stacked; the top moves to the
   * redo stack and the picture below it is shown.
   */
  function UndoOf(s: State): (r: (State, bool))
    ensures r.1 <==> |s.undo| > 1
    ensures !r.1 ==> r.0 == s
    ensures r.1 ==> r.0.undo == s.undo[..|s.undo| - 1] && r.0.redo == s.redo + [s.undo[|s.undo| - 1]]
                    && r.0.image == Some(s.undo[|s.undo| - 2])
    ensures |r.0.undo| + |r.0.redo| == |s.undo| + |s.redo| && r.0.original == s.original
  {
    if |s.undo| > 1 then
      var undo := s.undo[..|s.undo| - 1];
      (s.(redo := s.redo + [s.undo[|s.undo| - 1]], undo := undo, image := Some(undo[|undo| - 1])), true)
    else (s, false)
  }

  /** `redo`: with something to redo, its top moves back to the undo stack and is shown. */
  function RedoOf(s: State): (r: (State, bool))
    ensures r.1 <==> s.redo != []
    ensures !r.1 ==> r.0 == s
    ensures r.1 ==> r.0.undo == s.undo + [s.redo[|s.redo| - 1]] && r.0.redo == s.redo[..|s.redo| - 1]
                    && r.0.image == Some(s.redo[|s.redo| - 1])
    ensures |r.0.undo| + |r.0.redo| == |s.undo| + |s.redo| && r.0.original == s.original
  {
    if s.redo != [] then
      var top := s.redo[|s.redo| - 1];
      (s.(undo := s.undo + [top], redo := s.redo[..|s.redo| - 1], image := Some(top)), true)
    else (s, false)
  }

  /** A redo after an undo that did something puts both stacks back, showing the picture that was on top. */
  lemma RedoUndo(s: State)
    requires |s.undo| > 1
    ensures var r := RedoOf(UndoOf(s).0);
      r.1 && r.0.undo == s.undo && r.0.redo == s.redo && r.0.image == Some(s.undo[|s.undo| - 1])
  {
    var u := UndoOf(s).0;
    assert u.redo[|u.redo| - 1] == s.undo[|s.undo| - 1];
    assert u.undo + [s.undo[|s.undo| - 1]] == s.undo;
    assert u.redo[..|u.redo| - 1] == s.redo;
  }

  /**
   * An edit (a filter, brightness, contrast, rotation or resize): `False`
   * and nothing changed without a picture; otherwise the picture is pushed,
   * then replaced by `result`, or left as it is when PIL raised (`None`), in
   * which case the push stays and the answer is `False`.
   */
  function EditOf(s: State, result: Option<Image>): (r: (State, bool))
    ensures s.image.None? ==> r == (s, false)
    ensures s.image.Some? ==> r.0.undo == s.undo + [s.image.value] && r.0.redo == []
                              && r.0.original == s.original && (r.1 <==> result.Some?)
                              && r.0.image == (if result.Some? then result else s.image)
  {
    if s.image.None? then (s, false)
    else
      var pushed := PushOf(s);
      if result.Some? then (pushed.(image := result), true) else (pushed, false)
  }

  /**
   * Loading a picture and editing it twice, an undo shows the loaded
   * picture, not the result of the first edit: loading pushes the loaded
   * picture and each edit pushes the picture it replaces, so the top of the
   * stack is the result of the first edit, and `undo` moves that top to the
   * redo stack and shows the picture below it.
   */
  lemma UndoAfterTwoEdits(s: State, path: string, picture: Image, first: Image, second: Image)
    ensures var loaded := LoadOf(s, path, Some(picture)).0;
      var once := EditOf(loaded, Some(first)).0;
      var twice := EditOf(once, Some(second)).0;
      var undone := UndoOf(twice);
      undone.1 && undone.0.image == Some(picture) && undone.0.redo == [first]
  {
    var loaded := LoadOf(s, path, Some(picture)).0;
    var once := EditOf(loaded, Some(first)).0;
    assert once.undo == s.undo + [picture, picture];
    var twice := EditOf(once, Some(second)).0;
    assert twice.undo == s.undo + [picture, picture, first];
  }

  class Editor {
    var image: Option<Image>
    var originalImage: Option<Image>
    var currentFile: Option<string>
    var undoStack: seq<Image>
    var redoStack: seq<Image>

    function St(): State
      reads this
    {
      State(image, originalImage, currentFile, undoStack, redoStack)
    }

    constructor()
      ensures St() == State(None, None, None, [], [])
    {
      image, originalImage, currentFile, undoStack, redoStack := None, None, None, [], [];
    }

    method PushToUndoStack()
      modifies this
      ensures St() == PushOf(old(St()))
    {
      if image.Some? {
        undoStack := undoStack + [image.value];
        redoStack := [];
      }
    }

    method LoadImage(path: string, picked: Option<Image>) returns (ok: bool)
      modifies this
      ensures (St(), ok) == LoadOf(old(St()), path, picked)
    {
      if picked.None? {
        return false;
      }
      image := picked;
      originalImage := picked;
      currentFile := Some(path);
      PushToUndoStack();
      return true;
    }

    method Undo() returns (ok: bool)
      modifies this
      ensures (St(), ok) == UndoOf(old(St()))
    {
      if |undoStack| > 1 {
        redoStack := redoStack + [undoStack[|undoStack| - 1]];
        undoStack := undoStack[..|undoStack| - 1];
        image := Some(undoStack[|undoStack| - 1]);
        return true;
      }
      return false;
    }

    method Redo() returns (ok: bool)
      modifies this
      ensures (St(), ok) == RedoOf(old(St()))
    {
      if redoStack != [] {
        undoStack := undoStack + [redoStack[|redoStack| - 1]];
        redoStack := redoStack[..|redoStack| - 1];
        image := Some(undoStack[|undoStack| - 1]);
        return true;
      }
      return false;
    }

    /** `apply_filter`, `adjust_brightness`, `adjust_contrast`, `rotate_image` and `resize_image`. */
    method ApplyEdit(result: Option<Image>) returns (ok: bool)
      modifies this
      ensures (St(), ok) == EditOf(old(St()), result)
    {
      if image.None? {
        return false;
      }
      PushToUndoStack();
      if result.None? {
        return false;
      }
      image := result;
      return true;
    }
  }
}
