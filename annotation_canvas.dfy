/** The map annotation editor: a pen canvas and a list of committed rectangles, a bounded
    undo/redo history of snapshots of both, and the bookkeeping of the layers being drawn.
    Pixel data is an opaque sequence of RGBA bytes; what the browser draws into it (a pen
    stroke, a decoded layer image, the merged PNG) is passed in. */
module AnnotationCanvas {
  import opened Wrappers
  import opened Text
  import Sequences
  import opened AnnotationLayerList

  /** `MAX_HISTORY`: the most snapshots the undo stack keeps. */
  const MaxHistory: nat := 20

  /** Smallest extent, in pixels along each axis, of a rectangle that is kept. */
  const MinRectExtent: real := 2.0

  /** The default narration length of a fresh layer, in seconds. */
  const NewLayerSeconds: real := 3.0

  datatype Tool = Pen | RectTool

  datatype Point = Point(x: real, y: real)

  /** A rectangle as dragged: its start corner and a signed width and height. */
  datatype Rect = Rect(x: real, y: real, w: real, h: real, color: string)

  /** What `captureState` records: the pen pixels and a copy of the rectangles. */
  datatype Snapshot = Snapshot(canvasData: seq<int>, rects: seq<Rect>)

  /** The part of the editor the history touches. `mounted` says whether the pen canvas
      element exists: without it nothing is captured and nothing is restored. */
  datatype History = History(mounted: bool, canvas: seq<int>, rects: seq<Rect>, undo: seq<Snapshot>, redo: seq<Snapshot>)

  /** Both stacks together never hold more than `MaxHistory` snapshots. */
  predicate Bounded(h: History)
  {
    |h.undo| + |h.redo| <= MaxHistory
  }

  /** `captureState`. */
  function Capture(h: History): (s: Option<Snapshot>)
    ensures s.Some? <==> h.mounted
    ensures s.Some? ==> s.value.canvasData == h.canvas && s.value.rects == h.rects
  {
    if h.mounted then Some(Snapshot(h.canvas, h.rects)) else None
  }

  /** `restoreState`: puts a snapshot back, when the canvas exists. */
  function Restored(h: History, s: Snapshot): (r: History)
    ensures r.undo == h.undo && r.redo == h.redo && r.mounted == h.mounted
    ensures h.mounted ==> r.canvas == s.canvasData && r.rects == s.rects
    ensures !h.mounted ==> r == h
  {
    if h.mounted then h.(canvas := s.canvasData, rects := s.rects) else h
  }

  /** `pushUndo`: the current state goes on top of the undo stack, the oldest entry is
      dropped once there are more than `MaxHistory`, and the redo stack is emptied. */
  function Pushed(h: History): (r: History)
    requires |h.undo| <= MaxHistory
    ensures !h.mounted ==> r == h
    ensures h.mounted ==>
              && r.redo == [] && r.canvas == h.canvas && r.rects == h.rects
              && |r.undo| == (if |h.undo| == MaxHistory then MaxHistory else |h.undo| + 1)
              && r.undo[|r.undo| - 1] == Snapshot(h.canvas, h.rects)
              && r.undo[..|r.undo| - 1] == (if |h.undo| == MaxHistory then h.undo[1..] else h.undo)
  {
    if !h.mounted then h
    else
      var pushed := h.undo + [Snapshot(h.canvas, h.rects)];
      h.(undo := if |pushed| > MaxHistory then pushed[1..] else pushed, redo := [])
  }

  /** `undo`: nothing on an empty undo stack; otherwise the current state goes onto the redo
      stack (when it can be captured) and the top of the undo stack is popped and restored. */
  function Undone(h: History): (r: History)
    ensures |h.undo| == 0 ==> r == h
    ensures |h.undo| > 0 ==>
              && r.undo == h.undo[..|h.undo| - 1]
              && r.redo == (if h.mounted then h.redo + [Snapshot(h.canvas, h.rects)] else h.redo)
              && r == Restored(r.(canvas := h.canvas, rects := h.rects), h.undo[|h.undo| - 1])
  {
    if |h.undo| == 0 then h
    else
      var prev := h.undo[|h.undo| - 1];
      var redo := if h.mounted then h.redo + [Snapshot(h.canvas, h.rects)] else h.redo;
      Restored(h.(undo := h.undo[..|h.undo| - 1], redo := redo), prev)
  }

  /** `redo`: the mirror image of `undo`. */
  function Redone(h: History): (r: History)
    ensures |h.redo| == 0 ==> r == h
    ensures |h.redo| > 0 ==>
              && r.redo == h.redo[..|h.redo| - 1]
              && r.undo == (if h.mounted then h.undo + [Snapshot(h.canvas, h.rects)] else h.undo)
              && r == Restored(r.(canvas := h.canvas, rects := h.rects), h.redo[|h.redo| - 1])
  {
    if |h.redo| == 0 then h
    else
      var next := h.redo[|h.redo| - 1];
      var undo := if h.mounted then h.undo + [Snapshot(h.canvas, h.rects)] else h.undo;
      Restored(h.(undo := undo, redo := h.redo[..|h.redo| - 1]), next)
  }

  /** `resetHistory`: both stacks and the rectangles are emptied. */
  function Reset(h: History): (r: History)
    ensures Bounded(r) && r.undo == [] && r.redo == [] && r.rects == []
    ensures r.canvas == h.canvas && r.mounted == h.mounted
  {
    h.(undo := [], redo := [], rects := [])
  }

  /** Redoing right after an undo puts back the drawing and both stacks as they were. */
  lemma RedoUndoesUndo(h: History)
    requires h.mounted && |h.undo| > 0
    ensures Redone(Undone(h)) == h
  {
    var u := Undone(h);
    assert u.redo[|u.redo| - 1] == Snapshot(h.canvas, h.rects);
    assert u.redo[..|u.redo| - 1] == h.redo;
    assert u.undo + [h.undo[|h.undo| - 1]] == h.undo;
  }

  /** Undoing right after a redo puts back the drawing and both stacks as they were. */
  lemma UndoUndoesRedo(h: History)
    requires h.mounted && |h.redo| > 0
    ensures Undone(Redone(h)) == h
  {
    var r := Redone(h);
    assert r.undo[|r.undo| - 1] == Snapshot(h.canvas, h.rects);
    assert r.undo[..|r.undo| - 1] == h.undo;
    assert r.redo + [h.redo[|h.redo| - 1]] == h.redo;
  }

  /** Without a canvas, undo only discards the top of the undo stack. */
  lemma UnmountedUndoDiscards(h: History)
    requires !h.mounted && |h.undo| > 0
    ensures Undone(h) == h.(undo := h.undo[..|h.undo| - 1])
  {
  }

  /** Every history operation keeps both stacks together within `MaxHistory`. */
  lemma HistoryStaysBounded(h: History)
    requires Bounded(h)
    ensures Bounded(Pushed(h)) && Bounded(Undone(h)) && Bounded(Redone(h)) && Bounded(Reset(h))
  {
  }

  /** A pushed snapshot is what the next undo brings back, and nothing is left to redo. */
  lemma UndoAfterPushRestores(h: History, canvas: seq<int>, rects: seq<Rect>)
    requires h.mounted && |h.undo| <= MaxHistory
    ensures var u := Undone(Pushed(h).(canvas := canvas, rects := rects));
            u.canvas == h.canvas && u.rects == h.rects
            && u.redo == [Snapshot(canvas, rects)]
  {
  }

  // ---------------------------------------------------------------- rectangles

  function Abs(x: real): real { if x < 0.0 then -x else x }

  /** Point `p` lies on the closed segment from `a` to `a + d`, whatever the sign of `d`. */
  predicate InSpan(a: real, d: real, p: real)
  {
    if d >= 0.0 then a <= p <= a + d else a + d <= p <= a
  }

  /** A dragged rectangle is kept only when it is more than two pixels wide and high. */
  predicate NonTrivial(r: Rect)
  {
    Abs(r.w) > MinRectExtent && Abs(r.h) > MinRectExtent
  }

  /** The corner-and-size form the overlay draws: the origin moves back by a negative
      width (height) and the extent becomes its absolute value. */
  function Normalize(r: Rect): (n: Rect)
    ensures n.w >= 0.0 && n.h >= 0.0 && n.color == r.color
    ensures forall p :: InSpan(r.x, r.w, p) <==> n.x <= p <= n.x + n.w
    ensures forall p :: InSpan(r.y, r.h, p) <==> n.y <= p <= n.y + n.h
  {
    Rect(if r.w < 0.0 then r.x + r.w else r.x,
         if r.h < 0.0 then r.y + r.h else r.y,
         Abs(r.w), Abs(r.h), r.color)
  }

  /** Normalizing twice is normalizing once. */
  lemma NormalizeIdempotent(r: Rect)
    ensures Normalize(Normalize(r)) == Normalize(r)
  {
  }

  /** `canvasHasContent`: a committed rectangle, or a pixel with non-zero alpha on the pen
      canvas (every fourth byte is an alpha value). */
  predicate HasContent(mounted: bool, canvas: seq<int>, rects: seq<Rect>)
  {
    |rects| > 0 || (mounted && exists i :: 0 <= i < |canvas| && i % 4 == 3 && canvas[i] > 0)
  }

  /** The pen canvas with every pixel cleared to transparent black. */
  function Cleared(canvas: seq<int>): (c: seq<int>)
    ensures |c| == |canvas| && forall i :: 0 <= i < |c| ==> c[i] == 0
  {
    seq(|canvas|, _ => 0)
  }

  lemma ClearedHasNoInk(mounted: bool, canvas: seq<int>)
    ensures !HasContent(mounted, Cleared(canvas), [])
  {
  }

  // ---------------------------------------------------------------- layers

  /** `editingLayerId` is truthy: present and not empty. */
  predicate Editing(id: Option<string>)
  {
    id.Some? && id.value != ""
  }

  /** The layers with the one being edited given the merged drawing and the current colour. */
  function WithDrawing(layers: seq<AnnotationLayer>, id: string, dataUrl: string, color: string): (r: seq<AnnotationLayer>)
    ensures |r| == |layers|
    ensures forall i :: 0 <= i < |layers| && layers[i].id != id ==> r[i] == layers[i]
    ensures forall i :: 0 <= i < |layers| && layers[i].id == id ==>
              r[i].(drawingDataUrl := "", color := "") == layers[i].(drawingDataUrl := "", color := "")
              && r[i].drawingDataUrl == dataUrl && r[i].color == color
  {
    seq(|layers|, i requires 0 <= i < |layers| =>
      if layers[i].id == id then layers[i].(drawingDataUrl := dataUrl, color := color) else layers[i])
  }

  /** The layer carries a drawing. */
  predicate HasDrawing(l: AnnotationLayer)
  {
    l.drawingDataUrl != ""
  }

  /** `handleDone`: the edited layer takes the merged drawing when there is something
      drawn; then only the layers that have a drawing are saved, in order. */
  function FinalLayers(layers: seq<AnnotationLayer>, editing: Option<string>, hasContent: bool,
                       dataUrl: string, color: string): (r: seq<AnnotationLayer>)
    ensures forall i :: 0 <= i < |r| ==> r[i].drawingDataUrl != ""
    ensures !(Editing(editing) && hasContent) ==> r == Sequences.Filter(layers, HasDrawing)
    ensures Editing(editing) && hasContent ==>
              r == Sequences.Filter(WithDrawing(layers, editing.value, dataUrl, color), HasDrawing)
  {
    var updated := if Editing(editing) && hasContent then WithDrawing(layers, editing.value, dataUrl, color) else layers;
    var r := Sequences.Filter(updated, HasDrawing);
    assert forall i :: 0 <= i < |r| ==> r[i] in r;
    r
  }

  /** With something drawn and a merged drawing to give it, the edited layer is saved with
      that drawing and the current colour. */
  lemma FinalLayersSaveEdit(layers: seq<AnnotationLayer>, editing: Option<string>,
                            dataUrl: string, color: string, l: AnnotationLayer)
    requires Editing(editing) && l in layers && l.id == editing.value && dataUrl != ""
    ensures l.(drawingDataUrl := dataUrl, color := color) in FinalLayers(layers, editing, true, dataUrl, color)
  {
    var k :| 0 <= k < |layers| && layers[k] == l;
    var w := WithDrawing(layers, editing.value, dataUrl, color);
    assert w[k] == l.(drawingDataUrl := dataUrl, color := color);
    assert w[k] in w;
  }

  /** When the merged drawing is empty the edited layer is not saved at all, even if it
      had a drawing before. */
  lemma FinalLayersDropEmptyEdit(layers: seq<AnnotationLayer>, editing: Option<string>,
                                 color: string, l: AnnotationLayer)
    requires Editing(editing) && l in FinalLayers(layers, editing, true, "", color)
    ensures l.id != editing.value
  {
    var w := WithDrawing(layers, editing.value, "", color);
    var k :| 0 <= k < |w| && w[k] == l;
  }

  /** The saved layers keep the order of the list: of two layers that both leave
      `handleDone` with a drawing, the earlier one is saved earlier. */
  lemma FinalLayersKeepOrder(layers: seq<AnnotationLayer>, editing: Option<string>, hasContent: bool,
                             dataUrl: string, color: string, i: nat, j: nat)
    requires i < j < |layers|
    ensures var w := if Editing(editing) && hasContent then WithDrawing(layers, editing.value, dataUrl, color) else layers;
            var r := FinalLayers(layers, editing, hasContent, dataUrl, color);
            HasDrawing(w[i]) && HasDrawing(w[j]) ==>
              exists a, b :: 0 <= a < b < |r| && r[a] == w[i] && r[b] == w[j]
  {
    var w := if Editing(editing) && hasContent then WithDrawing(layers, editing.value, dataUrl, color) else layers;
    assert FinalLayers(layers, editing, hasContent, dataUrl, color) == Sequences.Filter(w, HasDrawing);
    if HasDrawing(w[i]) && HasDrawing(w[j]) {
      Sequences.FilterOrder(w, HasDrawing, i, j);
    }
  }

  /** Nothing is saved twice: a layer is saved exactly as often as it leaves `handleDone`
      with a drawing. */
  lemma FinalLayersCount(layers: seq<AnnotationLayer>, editing: Option<string>, hasContent: bool,
                         dataUrl: string, color: string, x: AnnotationLayer)
    ensures var w := if Editing(editing) && hasContent then WithDrawing(layers, editing.value, dataUrl, color) else layers;
            multiset(FinalLayers(layers, editing, hasContent, dataUrl, color))[x] ==
              if HasDrawing(x) then multiset(w)[x] else 0
  {
    var w := if Editing(editing) && hasContent then WithDrawing(layers, editing.value, dataUrl, color) else layers;
    Sequences.FilterMultiset(w, HasDrawing, x);
  }

  /** A saved layer that is not the edited one is one of the layers as they were. */
  lemma FinalLayersUntouched(layers: seq<AnnotationLayer>, editing: Option<string>, hasContent: bool,
                             dataUrl: string, color: string, l: AnnotationLayer)
    requires l in FinalLayers(layers, editing, hasContent, dataUrl, color)
    requires !Editing(editing) || l.id != editing.value
    ensures l in layers && l.drawingDataUrl != ""
  {
    var updated := if Editing(editing) && hasContent then WithDrawing(layers, editing.value, dataUrl, color) else layers;
    var k :| 0 <= k < |updated| && updated[k] == l;
    assert layers[k] == l;
  }

  /** A layer with a drawing that is not being edited is always saved. */
  lemma FinalLayersKeepDrawn(layers: seq<AnnotationLayer>, editing: Option<string>, hasContent: bool,
                             dataUrl: string, color: string, l: AnnotationLayer)
    requires l in layers && l.drawingDataUrl != ""
    requires !Editing(editing) || l.id != editing.value
    ensures l in FinalLayers(layers, editing, hasContent, dataUrl, color)
  {
    var updated := if Editing(editing) && hasContent then WithDrawing(layers, editing.value, dataUrl, color) else layers;
    var k :| 0 <= k < |layers| && layers[k] == l;
    assert updated[k] == l;
  }

  /** The layer `newLayer` appends: numbered after the existing ones, no drawing yet, and a
      three-second narration with an empty transcript. */
  function FreshLayer(count: nat, id: string, color: string): (l: AnnotationLayer)
    ensures l.id == id && l.order == count && l.drawingDataUrl == "" && l.color == color
    ensures StartsWith(l.name, "Layer ")
    ensures var digits := l.name[6..];
            |digits| > 0 && (forall i :: 0 <= i < |digits| ==> IsDigit(digits[i])) && DigitsValue(digits) == count + 1
    ensures Seconds(l) == NewLayerSeconds && Transcript(l) == Some("") && AudioUrl(l).None?
  {
    NatToStringValue(count + 1);
    var name := "Layer " + NatToString(count + 1);
    assert name[6..] == NatToString(count + 1);
    AnnotationLayer(id, name, "", color, count, Some(LayerAudio(None, Some(NewLayerSeconds), Some(""))))
  }

  /** `removeLayer`'s list: exactly the layers with another id, in order. */
  function WithoutLayer(layers: seq<AnnotationLayer>, id: string): (r: seq<AnnotationLayer>)
    ensures forall l :: l in r <==> l in layers && l.id != id
  {
    Sequences.Filter(layers, (l: AnnotationLayer) => l.id != id)
  }

  /** The editor. The pen canvas element may be missing (`canvasMounted`), in which case
      the pixel operations do nothing. */
  class AnnotationEditor {
    const canvasMounted: bool
    var canvas: seq<int>
    var rects: seq<Rect>
    var undoStack: seq<Snapshot>
    var redoStack: seq<Snapshot>
    var tool: Tool
    var color: string
    var isDrawing: bool
    var rectStart: Option<Point>
    var layers: seq<AnnotationLayer>
    var editingLayerId: Option<string>

    /** The state the history works on. */
    function State(): History
      reads this
    {
      History(canvasMounted, canvas, rects, undoStack, redoStack)
    }

    predicate Valid()
      reads this
    {
      Bounded(State())
    }

    /** The editor opens with the pen, the first preset colour, the existing layers, an
        empty history and no layer being edited. */
    constructor (mounted: bool, pixels: seq<int>, existingLayers: seq<AnnotationLayer>)
      ensures Valid() && canvasMounted == mounted && canvas == pixels
      ensures rects == [] && undoStack == [] && redoStack == []
      ensures tool == Pen && color == "#ef4444" && !isDrawing && rectStart.None?
      ensures layers == existingLayers && editingLayerId.None?
    {
      canvasMounted := mounted;
      canvas := pixels;
      rects := [];
      undoStack := [];
      redoStack := [];
      tool := Pen;
      color := "#ef4444";
      isDrawing := false;
      rectStart := None;
      layers := existingLayers;
      editingLayerId := None;
    }

    method PushUndo()
      requires Valid()
      modifies this
      ensures Valid() && State() == Pushed(old(State()))
      ensures tool == old(tool) && color == old(color) && isDrawing == old(isDrawing)
      ensures rectStart == old(rectStart) && layers == old(layers) && editingLayerId == old(editingLayerId)
    {
      if !canvasMounted { return; }
      undoStack := undoStack + [Snapshot(canvas, rects)];
      if |undoStack| > MaxHistory { undoStack := undoStack[1..]; }
      redoStack := [];
    }

    method Undo()
      requires Valid()
      modifies this
      ensures Valid() && State() == Undone(old(State()))
      ensures tool == old(tool) && color == old(color) && isDrawing == old(isDrawing)
      ensures rectStart == old(rectStart) && layers == old(layers) && editingLayerId == old(editingLayerId)
    {
      if |undoStack| == 0 { return; }
      if canvasMounted { redoStack := redoStack + [Snapshot(canvas, rects)]; }
      var prev := undoStack[|undoStack| - 1];
      undoStack := undoStack[..|undoStack| - 1];
      if canvasMounted {
        canvas := prev.canvasData;
        rects := prev.rects;
      }
    }

    method Redo()
      requires Valid()
      modifies this
      ensures Valid() && State() == Redone(old(State()))
      ensures tool == old(tool) && color == old(color) && isDrawing == old(isDrawing)
      ensures rectStart == old(rectStart) && layers == old(layers) && editingLayerId == old(editingLayerId)
    {
      if |redoStack| == 0 { return; }
      if canvasMounted { undoStack := undoStack + [Snapshot(canvas, rects)]; }
      var next := redoStack[|redoStack| - 1];
      redoStack := redoStack[..|redoStack| - 1];
      if canvasMounted {
        canvas := next.canvasData;
        rects := next.rects;
      }
    }

    method ResetHistory()
      modifies this
      ensures Valid() && State() == Reset(old(State()))
      ensures tool == old(tool) && color == old(color) && isDrawing == old(isDrawing)
      ensures rectStart == old(rectStart) && layers == old(layers) && editingLayerId == old(editingLayerId)
    {
      undoStack := [];
      redoStack := [];
      rects := [];
    }

    method SelectTool(t: Tool)
      modifies this`tool
      ensures tool == t
    {
      tool := t;
    }

    method SelectColor(c: string)
      modifies this`color
      ensures color == c
    {
      color := c;
    }

    /** `handleMouseDown`: starts a stroke or a rectangle, after saving the state for undo. */
    method MouseDown(pos: Point)
      requires Valid()
      modifies this
      ensures Valid() && isDrawing
      ensures State() == Pushed(old(State()))
      ensures rectStart == (if tool == RectTool then Some(pos) else old(rectStart))
      ensures tool == old(tool) && color == old(color) && layers == old(layers) && editingLayerId == old(editingLayerId)
    {
      isDrawing := true;
      PushUndo();
      if tool == RectTool {
        rectStart := Some(pos);
      }
    }

    /** `handleMouseMove`: with the pen, the stroke is drawn into the canvas (`stroked` is
        the canvas after the browser draws the segment); a rectangle is only previewed. */
    method MouseMove(stroked: seq<int>)
      modifies this`canvas
      ensures canvas == (if isDrawing && tool == Pen && canvasMounted then stroked else old(canvas))
    {
      if !isDrawing { return; }
      if tool == Pen && canvasMounted {
        canvas := stroked;
      }
    }

    /** `handleMouseUp` (also on leaving the canvas): ends the drag and, with the rectangle
        tool, commits the dragged rectangle when it is not trivial. */
    method MouseUp(pos: Point)
      requires Valid()
      modifies this
      ensures Valid() && !isDrawing
      ensures !(old(isDrawing) && tool == RectTool && old(rectStart).Some?) ==> rects == old(rects)
      ensures old(isDrawing) && tool == RectTool && old(rectStart).Some? ==>
                var start := old(rectStart).value;
                var dragged := Rect(start.x, start.y, pos.x - start.x, pos.y - start.y, color);
                rects == if NonTrivial(dragged) then old(rects) + [dragged] else old(rects)
      ensures rectStart == (if old(isDrawing) && tool == RectTool then None else old(rectStart))
      ensures canvas == old(canvas) && undoStack == old(undoStack) && redoStack == old(redoStack)
      ensures tool == old(tool) && color == old(color) && layers == old(layers) && editingLayerId == old(editingLayerId)
    {
      if !isDrawing { return; }
      isDrawing := false;
      if tool == RectTool && rectStart.Some? {
        var start := rectStart.value;
        var dragged := Rect(start.x, start.y, pos.x - start.x, pos.y - start.y, color);
        if NonTrivial(dragged) {
          rects := rects + [dragged];
        }
        rectStart := None;
      }
    }

    /** The Clear button: saves the state for undo, then wipes the pen canvas and the
        rectangles. */
    method Clear()
      requires Valid()
      modifies this
      ensures Valid()
      ensures canvas == (if canvasMounted then Cleared(old(canvas)) else old(canvas))
      ensures rects == (if canvasMounted then [] else old(rects))
      ensures undoStack == Pushed(old(State())).undo && redoStack == Pushed(old(State())).redo
      ensures layers == old(layers) && editingLayerId == old(editingLayerId) && color == old(color)
      ensures tool == old(tool) && isDrawing == old(isDrawing) && rectStart == old(rectStart)
    {
      PushUndo();
      if !canvasMounted { return; }
      canvas := Cleared(canvas);
      rects := [];
    }

    /** Whether there is anything drawn on the current layer. */
    method CanvasHasContent() returns (b: bool)
      ensures b == HasContent(canvasMounted, canvas, rects)
    {
      if |rects| > 0 { return true; }
      if !canvasMounted { return false; }
      b := false;
      var i := 0;
      while i < |canvas|
        invariant 0 <= i <= |canvas|
        invariant !b ==> forall k :: 0 <= k < i ==> !(k % 4 == 3 && canvas[k] > 0)
        invariant b ==> exists k :: 0 <= k < |canvas| && k % 4 == 3 && canvas[k] > 0
      {
        if i % 4 == 3 && canvas[i] > 0 {
          b := true;
        }
        i := i + 1;
      }
    }

    /** `getMergedDataUrl`: the PNG of pen canvas and overlay (`png`), or "" without a canvas. */
    function MergedDataUrl(png: string): (url: string)
      reads this
      ensures url == "" || url == png
      ensures canvasMounted ==> url == png
      ensures !canvasMounted ==> url == ""
    {
      if canvasMounted then png else ""
    }

    /** `autoSaveCurrentLayer`: the layer being edited takes the merged drawing and the
        current colour, if there is something drawn. */
    method AutoSave(png: string)
      modifies this`layers
      ensures layers == (if Editing(editingLayerId) && HasContent(canvasMounted, canvas, rects)
                         then WithDrawing(old(layers), editingLayerId.value, MergedDataUrl(png), color)
                         else old(layers))
    {
      if !Editing(editingLayerId) { return; }
      var drawn := CanvasHasContent();
      if !drawn { return; }
      layers := WithDrawing(layers, editingLayerId.value, MergedDataUrl(png), color);
    }

    /** Wipes the pen canvas and the rectangles and forgets the history. */
    method ClearAll()
      modifies this
      ensures Valid()
      ensures canvas == (if canvasMounted then Cleared(old(canvas)) else old(canvas))
      ensures rects == [] && undoStack == [] && redoStack == []
      ensures layers == old(layers) && editingLayerId == old(editingLayerId) && color == old(color)
      ensures tool == old(tool) && isDrawing == old(isDrawing) && rectStart == old(rectStart)
    {
      if canvasMounted { canvas := Cleared(canvas); }
      ResetHistory();
    }

    /** `newLayer`: saves the current layer, starts from a blank canvas and history, and
        appends a fresh layer that becomes the one being edited. `id` stands for the
        time-and-random identifier. */
    method NewLayer(png: string, id: string)
      modifies this
      ensures Valid()
      ensures var saved := if Editing(old(editingLayerId)) && HasContent(canvasMounted, old(canvas), old(rects))
                           then WithDrawing(old(layers), old(editingLayerId).value, MergedDataUrl(png), old(color))
                           else old(layers);
              layers == saved + [FreshLayer(|old(layers)|, id, old(color))]
      ensures editingLayerId == Some(id) && color == old(color)
      ensures canvas == (if canvasMounted then Cleared(old(canvas)) else old(canvas))
      ensures rects == [] && undoStack == [] && redoStack == []
      ensures tool == old(tool) && isDrawing == old(isDrawing) && rectStart == old(rectStart)
    {
      AutoSave(png);
      var count := |layers|;
      ClearAll();
      layers := layers + [FreshLayer(count, id, color)];
      editingLayerId := Some(id);
    }

    /** `removeLayer`: drops the layers with that id; the canvas and history are wiped only
        when that layer was being edited. */
    method RemoveLayer(id: string)
      requires Valid()
      modifies this
      ensures Valid()
      ensures layers == WithoutLayer(old(layers), id)
      ensures old(editingLayerId) == Some(id) ==>
                editingLayerId.None? && rects == [] && undoStack == [] && redoStack == []
                && canvas == (if canvasMounted then Cleared(old(canvas)) else old(canvas))
      ensures old(editingLayerId) != Some(id) ==>
                editingLayerId == old(editingLayerId) && rects == old(rects) && canvas == old(canvas)
                && undoStack == old(undoStack) && redoStack == old(redoStack)
      ensures color == old(color)
      ensures tool == old(tool) && isDrawing == old(isDrawing) && rectStart == old(rectStart)
    {
      if editingLayerId == Some(id) {
        editingLayerId := None;
        ClearAll();
      }
      layers := WithoutLayer(layers, id);
    }

    /** `loadLayerToCanvas`: saves the current layer, then edits `layer` from a blank canvas
        and history in its colour; `decoded` is the canvas once its drawing has been loaded. */
    method LoadLayer(layer: AnnotationLayer, png: string, decoded: seq<int>)
      modifies this
      ensures Valid()
      ensures layers == (if Editing(old(editingLayerId)) && HasContent(canvasMounted, old(canvas), old(rects))
                         then WithDrawing(old(layers), old(editingLayerId).value, MergedDataUrl(png), old(color))
                         else old(layers))
      ensures editingLayerId == Some(layer.id) && color == layer.color
      ensures rects == [] && undoStack == [] && redoStack == []
      ensures canvas == (if !canvasMounted then old(canvas)
                         else if layer.drawingDataUrl == "" then Cleared(old(canvas)) else decoded)
      ensures tool == old(tool) && isDrawing == old(isDrawing) && rectStart == old(rectStart)
    {
      AutoSave(png);
      ClearAll();
      editingLayerId := Some(layer.id);
      color := layer.color;
      if !canvasMounted || layer.drawingDataUrl == "" { return; }
      canvas := decoded;
    }

    /** `handleDone`: the layers handed to `onSave`. */
    method Done(png: string) returns (saved: seq<AnnotationLayer>)
      ensures saved == FinalLayers(layers, editingLayerId, HasContent(canvasMounted, canvas, rects),
                                   MergedDataUrl(png), color)
      ensures forall l :: l in saved ==> l.drawingDataUrl != ""
    {
      var drawn := false;
      if Editing(editingLayerId) {
        drawn := CanvasHasContent();
      }
      saved := FinalLayers(layers, editingLayerId, drawn, MergedDataUrl(png), color);
    }
  }
}
