/**
 * The stroke history of `paint_app.py`: strokes are gathered while the
 * mouse button is down, pushed as one group when it is released, and moved
 * between the history and the redo stack.  The Tk canvas is reduced to the
 * item ids it hands out (one more per line drawn); what is on screen, the
 * colour chooser and the file `drawing.json` itself are not modelled, and
 * the brush size read from the slider is an input of `draw`.
 */
module PaintApp {
  import opened Wrappers

  datatype Coords = Coords(x0: int, y0: int, x1: int, y1: int)

  /** One line on the canvas: `{'type': 'line', 'coords', 'color', 'width', 'id'}`. */
  datatype Stroke = Stroke(coords: Coords, color: string, width: int, id: nat)

  /** A stroke as `save_drawing` writes it: without its canvas id. */
  datatype Saved = Saved(coords: Coords, color: string, width: int)

  function SaveStroke(s: Stroke): Saved {
    Saved(s.coords, s.color, s.width)
  }

  /** One group as saved: its strokes in order, ids dropped. */
  function SaveGroup(g: seq<Stroke>): (r: seq<Saved>)
    ensures |r| == |g| && forall k :: 0 <= k < |g| ==> r[k] == SaveStroke(g[k])
  {
    seq(|g|, k requires 0 <= k < |g| => SaveStroke(g[k]))
  }

  /** The whole history as saved, group by group. */
  function SaveHistory(h: seq<seq<Stroke>>): (r: seq<seq<Saved>>)
    ensures |r| == |h| && forall k :: 0 <= k < |h| ==> r[k] == SaveGroup(h[k])
  {
    seq(|h|, k requires 0 <= k < |h| => SaveGroup(h[k]))
  }

  /** A saved group drawn again, the canvas giving ids from `first` on. */
  function Redraw(g: seq<Saved>, first: nat): (r: seq<Stroke>)
    ensures |r| == |g| && forall k :: 0 <= k < |g| ==> r[k] == Stroke(g[k].coords, g[k].color, g[k].width, first + k)
  {
    seq(|g|, k requires 0 <= k < |g| => Stroke(g[k].coords, g[k].color, g[k].width, first + k))
  }

  /** Redrawing changes nothing but the ids. */
  lemma SaveRedraw(g: seq<Saved>, first: nat)
    ensures SaveGroup(Redraw(g, first)) == g
  {
  }

  class Paint {
    var currentColor: string
    var drawing: bool
    var lastX: int
    var lastY: int
    var history: seq<seq<Stroke>>
    var currentDrawing: seq<Stroke>
    var redoStack: seq<seq<Stroke>>
    /** The id the canvas gives to the next line. */
    var nextId: nat

    /** `PaintApp(root)`: black, not drawing, empty history. */
    constructor()
      ensures currentColor == "black" && !drawing && history == [] && currentDrawing == [] && redoStack == []
    {
      currentColor, drawing, lastX, lastY := "black", false, 0, 0;
      history, currentDrawing, redoStack, nextId := [], [], [], 1;
    }

    /** `choose_color`: the chooser's answer, unless it was cancelled (`None` or empty). */
    method ChooseColor(picked: Option<string>)
      modifies this`currentColor
      ensures currentColor == if picked.Some? && picked.value != [] then picked.value else old(currentColor)
    {
      if picked.Some? && picked.value != [] {
        currentColor := picked.value;
      }
    }

    /** `start_drawing`: a new, empty stroke group begins at the pressed point. */
    method StartDrawing(x: int, y: int)
      modifies this`drawing, this`lastX, this`lastY, this`currentDrawing
      ensures drawing && lastX == x && lastY == y && currentDrawing == []
    {
      drawing, lastX, lastY := true, x, y;
      currentDrawing := [];
    }

    /** `draw`: while drawing, one line from the last point to this one, which becomes the last point. */
    method Draw(x: int, y: int, brushSize: int)
      modifies this`lastX, this`lastY, this`currentDrawing, this`nextId
      ensures !drawing ==> lastX == old(lastX) && lastY == old(lastY)
                           && currentDrawing == old(currentDrawing) && nextId == old(nextId)
      ensures drawing ==> currentDrawing == old(currentDrawing)
                            + [Stroke(Coords(old(lastX), old(lastY), x, y), currentColor, brushSize, old(nextId))]
                          && lastX == x && lastY == y && nextId == old(nextId) + 1
    {
      if drawing {
        var line := nextId;
        nextId := nextId + 1;
        currentDrawing := currentDrawing + [Stroke(Coords(lastX, lastY, x, y), currentColor, brushSize, line)];
        lastX, lastY := x, y;
      }
    }

    /** `stop_drawing`: a non-empty group drawn is pushed and clears the redo stack; drawing ends either way. */
    method StopDrawing()
      modifies this`drawing, this`history, this`redoStack
      ensures !drawing
      ensures old(drawing) && currentDrawing != [] ==> history == old(history) + [currentDrawing] && redoStack == []
      ensures !(old(drawing) && currentDrawing != []) ==> history == old(history) && redoStack == old(redoStack)
    {
      if drawing && currentDrawing != [] {
        history := history + [currentDrawing];
        redoStack := [];
      }
      drawing := false;
    }

    /** `clear_canvas`. */
    method ClearCanvas()
      modifies this`history, this`redoStack
      ensures history == [] && redoStack == []
    {
      history, redoStack := [], [];
    }

    /** `undo`: the last group moves from the history to the redo stack. */
    method Undo()
      modifies this`history, this`redoStack
      ensures old(history) == [] ==> history == [] && redoStack == old(redoStack)
      ensures old(history) != [] ==> history == old(history)[..|old(history)| - 1]
                                     && redoStack == old(redoStack) + [old(history)[|old(history)| - 1]]
      ensures |history| + |redoStack| == old(|history| + |redoStack|)
    {
      if history != [] {
        var strokes := history[|history| - 1];
        history := history[..|history| - 1];
        redoStack := redoStack + [strokes];
      }
    }

    /** `redo`: the last undone group is drawn again, with new ids, and goes back on the history. */
    method Redo()
      modifies this`history, this`redoStack, this`nextId
      ensures old(redoStack) == [] ==> history == old(history) && redoStack == [] && nextId == old(nextId)
      ensures old(redoStack) != [] ==>
        var strokes := old(redoStack)[|old(redoStack)| - 1];
        redoStack == old(redoStack)[..|old(redoStack)| - 1]
        && history == old(history) + [Redraw(SaveGroup(strokes), old(nextId))]
        && nextId == old(nextId) + |strokes|
      ensures |history| + |redoStack| == old(|history| + |redoStack|)
    {
      if redoStack != [] {
        var strokes := redoStack[|redoStack| - 1];
        redoStack := redoStack[..|redoStack| - 1];
        var newStrokes: seq<Stroke> := [];
        var i := 0;
        while i < |strokes|
          invariant 0 <= i <= |strokes| && nextId == old(nextId) + i
          invariant newStrokes == Redraw(SaveGroup(strokes[..i]), old(nextId))
          invariant history == old(history) && redoStack == old(redoStack)[..|old(redoStack)| - 1]
        {
          var line := nextId;
          nextId := nextId + 1;
          newStrokes := newStrokes + [strokes[i].(id := line)];
          i := i + 1;
        }
        assert strokes[..i] == strokes;
        history := history + [newStrokes];
      }
    }

    /** `save_drawing`: what goes into `drawing.json`, groups and strokes in order, without ids. */
    method SaveDrawing() returns (data: seq<seq<Saved>>)
      ensures data == SaveHistory(history)
    {
      data := [];
      var i := 0;
      while i < |history|
        invariant 0 <= i <= |history|
        invariant data == SaveHistory(history[..i])
      {
        var strokes := history[i];
        var strokeData: seq<Saved> := [];
        var j := 0;
        while j < |strokes|
          invariant 0 <= j <= |strokes|
          invariant strokeData == SaveGroup(strokes[..j])
        {
          strokeData := strokeData + [Saved(strokes[j].coords, strokes[j].color, strokes[j].width)];
          j := j + 1;
        }
        assert strokes[..j] == strokes;
        data := data + [strokeData];
        i := i + 1;
      }
      assert history[..i] == history;
    }

    /**
     * `load_drawing` once the file has been read: the canvas is cleared and
     * every saved group is drawn again, in order, as one history group.
     */
    method LoadDrawing(data: seq<seq<Saved>>)
      modifies this`history, this`redoStack, this`nextId
      ensures SaveHistory(history) == data && redoStack == [] && nextId >= old(nextId)
    {
      ClearCanvas();
      var i := 0;
      while i < |data|
        invariant 0 <= i <= |data| && nextId >= old(nextId) && redoStack == []
        invariant SaveHistory(history) == data[..i]
      {
        var strokes := data[i];
        var newStrokes: seq<Stroke> := [];
        var j := 0;
        var first := nextId;
        while j < |strokes|
          invariant 0 <= j <= |strokes| && nextId == first + j
          invariant newStrokes == Redraw(strokes[..j], first)
          invariant SaveHistory(history) == data[..i] && redoStack == []
        {
          var line := nextId;
          nextId := nextId + 1;
          newStrokes := newStrokes + [Stroke(strokes[j].coords, strokes[j].color, strokes[j].width, line)];
          j := j + 1;
        }
        assert strokes[..j] == strokes;
        SaveRedraw(strokes, first);
        ghost var before := history;
        history := history + [newStrokes];
        assert SaveHistory(history) == SaveHistory(before) + [strokes];
        assert data[..i + 1] == data[..i] + [strokes];
        i := i + 1;
      }
      assert data[..i] == data;
    }
  }

  /** Loading what was saved gives the same groups and strokes back, ids aside. */
  lemma SaveLoadRoundTrip(h: seq<seq<Stroke>>, reloaded: seq<seq<Stroke>>)
    requires SaveHistory(reloaded) == SaveHistory(h)
    ensures |reloaded| == |h|
    ensures forall g, k :: 0 <= g < |h| && 0 <= k < |h[g]| ==>
      |reloaded[g]| == |h[g]| && SaveStroke(reloaded[g][k]) == SaveStroke(h[g][k])
  {
    forall g, k | 0 <= g < |h| && 0 <= k < |h[g]|
      ensures |reloaded[g]| == |h[g]| && SaveStroke(reloaded[g][k]) == SaveStroke(h[g][k])
    {
      assert SaveHistory(reloaded)[g] == SaveHistory(h)[g];
      assert SaveGroup(reloaded[g])[k] == SaveGroup(h[g])[k];
    }
  }

  /**
   * `undo` then `redo` leaves the history saving to the same file: the group
   * comes back, drawn again under new ids.
   */
  lemma UndoRedoSaves(h: seq<seq<Stroke>>, first: nat)
    requires h != []
    ensures SaveHistory(h[..|h| - 1] + [Redraw(SaveGroup(h[|h| - 1]), first)]) == SaveHistory(h)
  {
    var r := h[..|h| - 1] + [Redraw(SaveGroup(h[|h| - 1]), first)];
    forall k | 0 <= k < |h|
      ensures SaveHistory(r)[k] == SaveHistory(h)[k]
    {
      if k == |h| - 1 {
        SaveRedraw(SaveGroup(h[k]), first);
      }
    }
  }
}
