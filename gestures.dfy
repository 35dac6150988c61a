/**
 * Drag-to-pan (src/hooks/useWhiteboardGestures.ts): a primary-button press
 * or a touch records the pointer, each move while dragging pans the view by
 * the pointer delta divided by the scale, and release stops the drag.
 */
module WhiteboardGestures {
  import opened WhiteboardTypes
  import opened WhiteboardView

  /** A mouse event with its button, or a touch event with its touch points. */
  datatype GestureEvent =
    | MouseEvent(button: int, clientX: real, clientY: real)
    | TouchEvent(touches: seq<Point>)

  /** The event carries a pointer position: a touch event has at least one touch. */
  predicate HasPointer(e: GestureEvent)
  {
    e.TouchEvent? ==> |e.touches| > 0
  }

  /** The pointer of an event: the first touch, or the mouse position. */
  function PointerOf(e: GestureEvent): Point
    requires HasPointer(e)
  {
    match e
    case MouseEvent(_, x, y) => Point(x, y)
    case TouchEvent(touches) => touches[0]
  }

  /** The updater `handleGestureMove` passes: the pan moved by the delta in world units. */
  function PanUpdater(deltaX: real, deltaY: real): Transform --> Transform
  {
    (prev: Transform) requires prev.scale != 0.0 =>
      prev.(x := prev.x + deltaX / prev.scale, y := prev.y + deltaY / prev.scale)
  }

  /** The transform after dragging the pointer from `from` to `to`. */
  function PanBy(t: Transform, from: Point, to: Point): (r: Transform)
    requires t.scale != 0.0
    ensures r.scale == t.scale
    ensures (r.x - t.x) * t.scale == to.x - from.x
    ensures (r.y - t.y) * t.scale == to.y - from.y
  {
    PanUpdater(to.x - from.x, to.y - from.y)(t)
  }

  /** Two successive drags pan as far as one drag over the whole path. */
  lemma PanComposes(t: Transform, p0: Point, p1: Point, p2: Point)
    requires t.scale != 0.0
    ensures PanBy(PanBy(t, p0, p1), p1, p2) == PanBy(t, p0, p2)
  {
    var a := PanBy(t, p0, p1);
    assert a.x + (p2.x - p1.x) / t.scale == t.x + (p2.x - p0.x) / t.scale;
    assert a.y + (p2.y - p1.y) / t.scale == t.y + (p2.y - p0.y) / t.scale;
  }

  /** Dragging back to the starting point restores the transform. */
  lemma PanReturns(t: Transform, p0: Point, p1: Point)
    requires t.scale != 0.0
    ensures PanBy(PanBy(t, p0, p1), p1, p0) == t
  {
    PanComposes(t, p0, p1, p0);
    assert PanBy(t, p0, p0) == t;
  }

  /** The drag state of `useWhiteboardGestures`. */
  class PanGesture {
    var isDragging: bool
    var lastMousePos: Point

    constructor ()
      ensures !isDragging && lastMousePos == Point(0.0, 0.0)
    {
      isDragging := false;
      lastMousePos := Point(0.0, 0.0);
    }

    /** `handleGestureStart`: a non-primary mouse button is ignored. */
    method HandleGestureStart(e: GestureEvent)
      requires HasPointer(e)
      modifies this
      ensures e.MouseEvent? && e.button != 0 ==>
                isDragging == old(isDragging) && lastMousePos == old(lastMousePos)
      ensures !(e.MouseEvent? && e.button != 0) ==> isDragging && lastMousePos == PointerOf(e)
    {
      if e.MouseEvent? && e.button != 0 {
        return;
      }
      isDragging := true;
      lastMousePos := PointerOf(e);
    }

    /**
     * `handleGestureMove`: while dragging, pans `view` (through an
     * unanimated update) by the delta from the last pointer and records the
     * new pointer; otherwise nothing happens.
     */
    method HandleGestureMove(e: GestureEvent, view: View)
      requires view.Valid()
      requires isDragging ==> HasPointer(e) && view.transform.scale != 0.0
      modifies this, view
      ensures view.Valid() && view.TimerUpdated(false)
      ensures isDragging == old(isDragging)
      ensures !old(isDragging) ==> lastMousePos == old(lastMousePos) && view.transform == old(view.transform)
      ensures old(isDragging) ==> HasPointer(e) && lastMousePos == PointerOf(e)
      ensures old(isDragging) ==> HasPointer(e) && view.transform == PanBy(old(view.transform), old(lastMousePos), PointerOf(e))
    {
      if !isDragging {
        return;
      }
      var currentPos := PointerOf(e);
      var deltaX := currentPos.x - lastMousePos.x;
      var deltaY := currentPos.y - lastMousePos.y;
      view.UpdateTransform(Updater(PanUpdater(deltaX, deltaY)), false);
      lastMousePos := currentPos;
    }

    /** `handleGestureEnd`: the drag stops; the last pointer is kept. */
    method HandleGestureEnd()
      modifies this
      ensures !isDragging && lastMousePos == old(lastMousePos)
    {
      isDragging := false;
    }
  }
}
