/**
 * The camera controller (src/hooks/useWhiteboardView.ts): the transform
 * state, `updateTransform` with its animation flag and reset timer, and the
 * zoom, wheel and centring handlers. The container centre, the window size
 * and the timer handles are inputs; the 300 ms delay itself is not modelled.
 */
module WhiteboardView {
  import opened Wrappers
  import opened Constants
  import opened WhiteboardTypes
  import opened WhiteboardUtils

  /** The factor of one zoom-in or zoom-out step. */
  const ZoomStep: real := 1.2
  /** The relative scale change of one ctrl-wheel event. */
  const WheelZoomFactor: real := 0.005

  /** The transform the view starts with and `centerView` returns to. */
  const Centered: Transform := Transform(0.0, 0.0, ScaleInitial)

  /** The argument of `updateTransform`: a transform, or a function of the previous one. */
  datatype TransformUpdate = Value(next: Transform) | Updater(f: Transform --> Transform)

  ghost predicate Applicable(u: TransformUpdate, prev: Transform)
  {
    u.Updater? ==> u.f.requires(prev)
  }

  /** What `setTransform` stores for an update, given the previous transform. */
  function Apply(u: TransformUpdate, prev: Transform): Transform
    requires Applicable(u, prev)
  {
    match u
    case Value(t) => t
    case Updater(f) => f(prev)
  }

  /**
   * `handleZoom`: the new scale, and the pan moved by the focal point's
   * offset from the container centre times `newScale / scale - 1`.
   */
  function Zoom(t: Transform, newScale: real, focalX: real, focalY: real,
                centerX: real, centerY: real): (r: Transform)
    requires t.scale != 0.0
    ensures r.scale == newScale
    ensures t.x - r.x == (focalX - centerX) * (newScale / t.scale - 1.0)
    ensures t.y - r.y == (focalY - centerY) * (newScale / t.scale - 1.0)
    ensures newScale == t.scale ==> r == t
    ensures focalX == centerX && focalY == centerY ==> r.x == t.x && r.y == t.y
  {
    var offsetX := focalX - centerX;
    var offsetY := focalY - centerY;
    var scaleFactor := newScale / t.scale;
    Transform(t.x - offsetX * (scaleFactor - 1.0), t.y - offsetY * (scaleFactor - 1.0), newScale)
  }

  /** A wheel event: the ctrl modifier, the wheel deltas and the pointer position. */
  datatype WheelEvent = WheelEvent(ctrlKey: bool, deltaX: real, deltaY: real,
                                   clientX: real, clientY: real)

  /**
   * The ctrl-wheel zoom: only the sign of `deltaY` matters, and a zero
   * delta zooms out.
   */
  function WheelZoomScale(scale: real, deltaY: real): (r: real)
    ensures ScaleMin <= r <= ScaleMax
    ensures deltaY < 0.0 ==> r == ClampScale(scale * 1.005, ScaleMin, ScaleMax)
    ensures deltaY >= 0.0 ==> r == ClampScale(scale * 0.995, ScaleMin, ScaleMax)
  {
    var delta := -deltaY;
    ClampScale(scale * (1.0 + (if delta > 0.0 then WheelZoomFactor else -WheelZoomFactor)),
               ScaleMin, ScaleMax)
  }

  /**
   * `handleWheel`: with ctrl, a zoom towards the pointer; otherwise a pan by
   * the wheel deltas divided by the scale, with the scale unchanged.
   */
  function Wheel(t: Transform, e: WheelEvent, centerX: real, centerY: real,
                 innerWidth: real, innerHeight: real): (r: Transform)
    requires t.scale != 0.0
    ensures e.ctrlKey ==> r.scale == WheelZoomScale(t.scale, e.deltaY) && ScaleMin <= r.scale <= ScaleMax
    ensures e.ctrlKey ==> t.x - r.x == (e.clientX - centerX) * (r.scale / t.scale - 1.0)
    ensures e.ctrlKey ==> t.y - r.y == (e.clientY - centerY) * (r.scale / t.scale - 1.0)
    ensures !e.ctrlKey ==> r.scale == t.scale && r.x == t.x - e.deltaX / t.scale
    ensures !e.ctrlKey ==> r.y == t.y - e.deltaY / t.scale
  {
    if e.ctrlKey then
      Zoom(t, WheelZoomScale(t.scale, e.deltaY), e.clientX, e.clientY, centerX, centerY)
    else
      var newOffset := ClampOffset(Point(t.x - e.deltaX / t.scale, t.y - e.deltaY / t.scale),
                                   t.scale, innerWidth, innerHeight);
      t.(x := newOffset.x, y := newOffset.y)
  }

  /** `handleZoomIn`: one step in, clamped, towards the container centre, so the pan stays. */
  function ZoomIn(t: Transform, centerX: real, centerY: real): (r: Transform)
    requires t.scale != 0.0
    ensures r.scale == ClampScale(t.scale * ZoomStep, ScaleMin, ScaleMax)
    ensures ScaleMin <= r.scale <= ScaleMax
    ensures r.x == t.x && r.y == t.y
  {
    Zoom(t, ClampScale(t.scale * ZoomStep, ScaleMin, ScaleMax), centerX, centerY, centerX, centerY)
  }

  /** The scale after one zoom-out step. */
  function ZoomOutScale(scale: real): real
  {
    ClampScale(scale / ZoomStep, ScaleMin, ScaleMax)
  }

  /** `handleZoomOut`: one step out, clamped, towards the container centre, so the pan stays. */
  function ZoomOut(t: Transform, centerX: real, centerY: real): (r: Transform)
    requires t.scale != 0.0
    ensures r.scale == ZoomOutScale(t.scale)
    ensures ScaleMin <= r.scale <= ScaleMax
    ensures r.x == t.x && r.y == t.y
  {
    Zoom(t, ClampScale(t.scale / ZoomStep, ScaleMin, ScaleMax), centerX, centerY, centerX, centerY)
  }

  /** The scale after `n` zoom-out steps. */
  function ZoomOutTimes(scale: real, n: nat): real
    decreases n
  {
    if n == 0 then scale else ZoomOutTimes(ZoomOutScale(scale), n - 1)
  }

  /** Zooming out never goes below the minimum scale. */
  lemma {:induction false} ZoomOutNeverBelowMin(scale: real, n: nat)
    requires scale >= ScaleMin
    ensures ZoomOutTimes(scale, n) >= ScaleMin
    decreases n
  {
    if n > 0 {
      ZoomOutNeverBelowMin(ZoomOutScale(scale), n - 1);
    }
  }

  /** Once at the minimum, further zoom-out steps stay there. */
  lemma {:induction false} ZoomOutStaysAtMin(n: nat)
    ensures ZoomOutTimes(ScaleMin, n) == ScaleMin
  {
    if n > 0 {
      assert ZoomOutScale(ScaleMin) == ScaleMin;
      ZoomOutStaysAtMin(n - 1);
    }
  }

  /** `a` steps followed by `b` steps are `a + b` steps. */
  lemma {:induction false} ZoomOutSplit(scale: real, a: nat, b: nat)
    ensures ZoomOutTimes(scale, a + b) == ZoomOutTimes(ZoomOutTimes(scale, a), b)
    decreases a
  {
    if a > 0 {
      ZoomOutSplit(ZoomOutScale(scale), a - 1, b);
    }
  }

  /** From scale 1, eight steps stay above the minimum and the ninth reaches it exactly. */
  lemma ZoomOutFromOne(n: nat)
    ensures ZoomOutTimes(1.0, 8) > ScaleMin
    ensures n >= 9 ==> ZoomOutTimes(1.0, n) == ScaleMin
  {
    var s8 := 390625.0 / 1679616.0;
    assert ZoomOutScale(1.0) == 5.0 / 6.0;
    assert ZoomOutScale(5.0 / 6.0) == 25.0 / 36.0;
    assert ZoomOutScale(25.0 / 36.0) == 125.0 / 216.0;
    assert ZoomOutScale(125.0 / 216.0) == 625.0 / 1296.0;
    assert ZoomOutScale(625.0 / 1296.0) == 3125.0 / 7776.0;
    assert ZoomOutScale(3125.0 / 7776.0) == 15625.0 / 46656.0;
    assert ZoomOutScale(15625.0 / 46656.0) == 78125.0 / 279936.0;
    assert ZoomOutScale(78125.0 / 279936.0) == s8;
    assert ZoomOutScale(s8) == ScaleMin;
    assert ZoomOutTimes(1.0, 8) == ZoomOutTimes(5.0 / 6.0, 7) == ZoomOutTimes(25.0 / 36.0, 6)
        == ZoomOutTimes(125.0 / 216.0, 5) == ZoomOutTimes(625.0 / 1296.0, 4)
        == ZoomOutTimes(3125.0 / 7776.0, 3) == ZoomOutTimes(15625.0 / 46656.0, 2)
        == ZoomOutTimes(78125.0 / 279936.0, 1) == ZoomOutTimes(s8, 0);
    if n >= 9 {
      ZoomOutSplit(1.0, 8, n - 8);
      assert ZoomOutTimes(s8, n - 8) == ZoomOutTimes(ScaleMin, n - 9);
      ZoomOutStaysAtMin(n - 9);
    }
  }

  /**
   * The state of `useWhiteboardView`: the transform, the transition flag,
   * the timer handle held in `transitionTimeoutRef` and the resize listener.
   */
  class View {
    var transform: Transform
    var isTransitioning: bool
    /** `transitionTimeoutRef.current`: the handle of the last animation timer set. */
    var timerRef: Option<nat>
    /** The animation reset timers that are scheduled and have not fired or been cleared. */
    var pendingTimers: set<nat>
    /** The handle the next `setTimeout` returns. */
    var nextTimer: nat
    /** Whether the window `resize` listener is registered. */
    var resizeListener: bool

    /** At most the timer named by `timerRef` is pending, and handles are issued in order. */
    ghost predicate Valid()
      reads this
    {
      (forall h :: h in pendingTimers ==> timerRef == Some(h)) &&
      (timerRef.Some? ==> timerRef.value < nextTimer)
    }

    /** What an update does to the timers, with or without animation. */
    twostate predicate TimerUpdated(animate: bool)
      reads this
    {
      resizeListener == old(resizeListener) &&
      if animate then
        isTransitioning && timerRef == Some(old(nextTimer)) &&
        pendingTimers == {old(nextTimer)} && nextTimer == old(nextTimer) + 1
      else
        isTransitioning == old(isTransitioning) && timerRef == old(timerRef) &&
        pendingTimers == old(pendingTimers) && nextTimer == old(nextTimer)
    }

    /** The initial state: the centred transform, no transition, no timer. */
    constructor ()
      ensures Valid()
      ensures transform == Centered && !isTransitioning
      ensures timerRef == None && pendingTimers == {} && !resizeListener
    {
      transform := Centered;
      isTransitioning := false;
      timerRef := None;
      pendingTimers := {};
      nextTimer := 1;
      resizeListener := false;
    }

    /**
     * `updateTransform(update, animate)`: stores the value, or the function
     * of the previous transform, without clamping. An animated update sets
     * the flag and replaces the pending reset timer with a new one.
     */
    method UpdateTransform(u: TransformUpdate, animate: bool)
      requires Valid() && Applicable(u, transform)
      modifies this
      ensures Valid() && TimerUpdated(animate)
      ensures transform == Apply(u, old(transform))
    {
      if animate {
        isTransitioning := true;
        if timerRef.Some? {
          pendingTimers := pendingTimers - {timerRef.value};
        }
        timerRef := Some(nextTimer);
        pendingTimers := pendingTimers + {nextTimer};
        nextTimer := nextTimer + 1;
      }
      transform := Apply(u, transform);
    }

    /** The reset timer `h` fires: the transition flag is cleared; the ref keeps the stale handle. */
    method TransitionTimerFires(h: nat)
      requires Valid() && h in pendingTimers
      modifies this
      ensures Valid()
      ensures !isTransitioning && pendingTimers == old(pendingTimers) - {h}
      ensures transform == old(transform) && timerRef == old(timerRef)
      ensures nextTimer == old(nextTimer) && resizeListener == old(resizeListener)
    {
      isTransitioning := false;
      pendingTimers := pendingTimers - {h};
    }

    method HandleZoom(newScale: real, focalX: real, focalY: real, centerX: real, centerY: real,
                      animate: bool)
      requires Valid() && transform.scale != 0.0
      modifies this
      ensures Valid() && TimerUpdated(animate)
      ensures transform == Zoom(old(transform), newScale, focalX, focalY, centerX, centerY)
    {
      UpdateTransform(Value(Zoom(transform, newScale, focalX, focalY, centerX, centerY)), animate);
    }

    /** `handleWheel`, an unanimated update. */
    method HandleWheel(e: WheelEvent, centerX: real, centerY: real, innerWidth: real, innerHeight: real)
      requires Valid() && transform.scale != 0.0
      modifies this
      ensures Valid() && TimerUpdated(false)
      ensures transform == Wheel(old(transform), e, centerX, centerY, innerWidth, innerHeight)
    {
      if e.ctrlKey {
        HandleZoom(WheelZoomScale(transform.scale, e.deltaY), e.clientX, e.clientY, centerX, centerY, false);
      } else {
        var newOffset := ClampOffset(Point(transform.x - e.deltaX / transform.scale,
                                           transform.y - e.deltaY / transform.scale),
                                     transform.scale, innerWidth, innerHeight);
        UpdateTransform(Value(transform.(x := newOffset.x, y := newOffset.y)), false);
      }
    }

    method HandleZoomIn(animate: bool, centerX: real, centerY: real)
      requires Valid() && transform.scale != 0.0
      modifies this
      ensures Valid() && TimerUpdated(animate)
      ensures transform == ZoomIn(old(transform), centerX, centerY)
    {
      HandleZoom(ClampScale(transform.scale * ZoomStep, ScaleMin, ScaleMax), centerX, centerY,
                 centerX, centerY, animate);
    }

    method HandleZoomOut(animate: bool, centerX: real, centerY: real)
      requires Valid() && transform.scale != 0.0
      modifies this
      ensures Valid() && TimerUpdated(animate)
      ensures transform == ZoomOut(old(transform), centerX, centerY)
    {
      HandleZoom(ClampScale(transform.scale / ZoomStep, ScaleMin, ScaleMax), centerX, centerY,
                 centerX, centerY, animate);
    }

    /** `centerView`: back to the origin, and to the initial scale. */
    method CenterView(animate: bool)
      requires Valid()
      modifies this
      ensures Valid() && TimerUpdated(animate)
      ensures transform == Centered
    {
      UpdateTransform(Value(Centered), animate);
    }

    /** The mount effect: centre without animation and register the resize listener. */
    method Mount()
      requires Valid()
      modifies this
      ensures Valid() && transform == Centered && resizeListener
      ensures isTransitioning == old(isTransitioning) && pendingTimers == old(pendingTimers)
      ensures timerRef == old(timerRef) && nextTimer == old(nextTimer)
    {
      CenterView(false);
      resizeListener := true;
    }

    /** The effect's cleanup: the resize listener is removed. */
    method Unmount()
      requires Valid()
      modifies this
      ensures Valid() && !resizeListener
      ensures transform == old(transform) && pendingTimers == old(pendingTimers)
      ensures isTransitioning == old(isTransitioning)
      ensures timerRef == old(timerRef) && nextTimer == old(nextTimer)
    {
      resizeListener := false;
    }

    /** A window resize while the listener is registered re-centres the pan and resets the scale. */
    method OnWindowResize()
      requires Valid()
      modifies this
      ensures Valid() && TimerUpdated(false)
      ensures transform == if old(resizeListener) then Centered else old(transform)
    {
      if resizeListener {
        CenterView(false);
      }
    }
  }

  /** An animated update leaves exactly one reset timer pending. */
  lemma OnePendingTimer(v: View)
    requires v.Valid()
    ensures |v.pendingTimers| <= 1
    ensures v.pendingTimers != {} ==> v.pendingTimers == {v.timerRef.value}
  {
    if v.pendingTimers != {} {
      var h :| h in v.pendingTimers;
      assert v.pendingTimers == {h};
    }
  }
}
