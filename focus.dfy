/**
 * Keyboard card focus (src/hooks/useCardFocus.ts): a cyclic index kept in
 * range with JavaScript's truncating `%`, and the camera transform that
 * centres the focused card. The mobile test (user agent or narrow window)
 * is an input.
 */
module CardFocus {
  import opened WhiteboardTypes
  import opened WhiteboardView

  /** The largest window width that counts as mobile. */
  const MobileMaxWidth: real := 768.0

  /** JavaScript's `a % n` for `n > 0`: the remainder takes the sign of `a`. */
  function JsRem(a: int, n: int): (r: int)
    requires n > 0
    ensures a >= 0 ==> 0 <= r < n && r == a % n
    ensures a < 0 ==> -n < r <= 0 && r == -((-a) % n)
  {
    if a >= 0 then a % n else -((-a) % n)
  }

  /** A multiple of `n` strictly between `-n` and `n` is zero. */
  lemma SmallMultiple(n: int, d: int)
    requires n > 0 && -n < n * d < n
    ensures d == 0
  {
  }

  /** If `a = n * q + r` with `0 <= r < n`, then `a % n` is `r`. */
  lemma ModUnique(a: int, n: int, q: int, r: int)
    requires n > 0 && 0 <= r < n && a == n * q + r
    ensures a % n == r
  {
    var q0, r0 := a / n, a % n;
    assert n * (q0 - q) == r - r0;
    SmallMultiple(n, q0 - q);
  }

  /** Adding a multiple of `n` does not change the remainder. */
  lemma AddMultiple(a: int, n: int, q: int)
    requires n > 0
    ensures (n * q + a) % n == a % n
  {
    assert n * q + a == n * (q + a / n) + a % n;
    ModUnique(n * q + a, n, q + a / n, a % n);
  }

  /** Shifting a truncated remainder by `n` and taking it again lands on the Euclidean remainder. */
  lemma ShiftedRemainder(index: int, n: int)
    requires n > 0
    ensures JsRem(JsRem(index, n) + n, n) == index % n
  {
    var t := JsRem(index, n) + n;
    if index >= 0 {
      ModUnique(t, n, 1, index % n);
    } else {
      var m := (-index) % n;
      var q := (-index) / n;
      assert -index == n * q + m;
      if m == 0 {
        ModUnique(t, n, 1, 0);
        ModUnique(index, n, -q, 0);
      } else {
        ModUnique(t, n, 0, n - m);
        ModUnique(index, n, -q - 1, n - m);
      }
    }
  }

  /**
   * `((index % N) + N) % N`: always a valid index, in the same residue
   * class as `index`.
   */
  function NormalizeIndex(index: int, n: int): (r: int)
    requires n > 0
    ensures 0 <= r < n
    ensures r == index % n
  {
    ShiftedRemainder(index, n);
    JsRem(JsRem(index, n) + n, n)
  }

  /** An index already in range is kept. */
  lemma NormalizeInRange(i: int, n: int)
    requires n > 0
    ensures 0 <= i < n ==> NormalizeIndex(i, n) == i
  {
    if 0 <= i < n {
      ModUnique(i, n, 0, i);
    }
  }

  function NextIndex(i: int, n: int): int
    requires n > 0
  {
    NormalizeIndex(i + 1, n)
  }

  function PrevIndex(i: int, n: int): int
    requires n > 0
  {
    NormalizeIndex(i - 1, n)
  }

  /** The index after `k` presses of "next". */
  function NextTimes(i: int, n: int, k: nat): int
    requires n > 0
    decreases k
  {
    if k == 0 then i else NextTimes(NextIndex(i, n), n, k - 1)
  }

  /** `k` presses of "next" advance an in-range index by `k` modulo `n`. */
  lemma {:induction false} NextTimesAdvances(i: int, n: int, k: nat)
    requires 0 <= i < n
    ensures NextTimes(i, n, k) == (i + k) % n
    decreases k
  {
    if k > 0 {
      if i + 1 < n {
        NormalizeInRange(i + 1, n);
        NextTimesAdvances(i + 1, n, k - 1);
      } else {
        ModUnique(i + 1, n, 1, 0);
        NextTimesAdvances(0, n, k - 1);
        AddMultiple(k - 1, n, 1);
      }
    }
  }

  /** Pressing "next" `n` times returns to the starting card. */
  lemma FullCycle(i: int, n: int)
    requires 0 <= i < n
    ensures NextTimes(i, n, n) == i
  {
    NextTimesAdvances(i, n, n);
    ModUnique(i + n, n, 1, i);
  }

  /** "Previous" undoes "next", and "next" undoes "previous". */
  lemma PrevUndoesNext(i: int, n: int)
    requires 0 <= i < n
    ensures PrevIndex(NextIndex(i, n), n) == i
    ensures NextIndex(PrevIndex(i, n), n) == i
  {
    if i + 1 < n {
      NormalizeInRange(i + 1, n);
    } else {
      ModUnique(i + 1, n, 1, 0);
      ModUnique(-1, n, -1, n - 1);
    }
    NormalizeInRange(i, n);
    if i > 0 {
      NormalizeInRange(i - 1, n);
    } else {
      ModUnique(-1, n, -1, n - 1);
      ModUnique(n, n, 1, 0);
    }
  }

  /** `Math.round`: the nearest integer, halves rounded up. */
  function JsRound(v: real): (r: int)
    ensures v - 0.5 < r as real <= v + 0.5
  {
    (v + 0.5).Floor
  }

  /** `getZoomLevel`: 1.2 on mobile, 1.5 otherwise. */
  function ZoomLevel(isMobile: bool): real
  {
    if isMobile then 1.2 else 1.5
  }

  /** The mobile test: a mobile user agent or a window at most 768 wide. */
  predicate IsMobile(mobileUserAgent: bool, innerWidth: real)
  {
    mobileUserAgent || innerWidth <= MobileMaxWidth
  }

  /** `Math.round(v * 100) / 100`: within half a hundredth of `v`. */
  function RoundToHundredth(v: real): (r: real)
    ensures v - 0.005 < r <= v + 0.005
  {
    JsRound(v * 100.0) as real / 100.0
  }

  /**
   * The transform that centres the camera on a card: the zoom level, and the
   * pan `-centre * zoom` rounded to hundredths.
   */
  function FocusTransform(card: Item, zoom: real): (t: Transform)
    ensures t.scale == zoom
    ensures -card.position.x * zoom - 0.005 < t.x <= -card.position.x * zoom + 0.005
    ensures -card.position.y * zoom - 0.005 < t.y <= -card.position.y * zoom + 0.005
  {
    Transform(RoundToHundredth(-card.position.x * zoom), RoundToHundredth(-card.position.y * zoom), zoom)
  }

  /** The keys the focus listener reacts to. */
  datatype KeyAction = Prev | Next | Ignore

  /** ArrowLeft goes back, ArrowRight goes forward, any other key is ignored. */
  function KeyActionOf(key: string): (a: KeyAction)
    ensures a == Prev <==> key == "ArrowLeft"
    ensures a == Next <==> key == "ArrowRight"
  {
    if key == "ArrowLeft" then Prev else if key == "ArrowRight" then Next else Ignore
  }

  /** The state of `useCardFocus`: the focused index and the keydown listener. */
  class FocusState {
    var currentIndex: int
    var keyListener: bool

    constructor ()
      ensures currentIndex == 0 && !keyListener
    {
      currentIndex := 0;
      keyListener := false;
    }

    /**
     * `focusOnCard`: with no cards nothing happens; otherwise the index is
     * normalised and the camera moves, animated, to centre that card.
     */
    method FocusOnCard(index: int, items: seq<Item>, isMobile: bool, view: View)
      requires view.Valid()
      modifies this, view
      ensures view.Valid()
      ensures keyListener == old(keyListener)
      ensures |items| == 0 ==> currentIndex == old(currentIndex) && unchanged(view)
      ensures |items| > 0 ==>
                currentIndex == NormalizeIndex(index, |items|) &&
                view.transform == FocusTransform(items[currentIndex], ZoomLevel(isMobile)) &&
                view.TimerUpdated(true)
    {
      if |items| == 0 {
        return;
      }
      var clampedIndex := NormalizeIndex(index, |items|);
      currentIndex := clampedIndex;
      var card := items[clampedIndex];
      var zoomLevel := ZoomLevel(isMobile);
      var targetX := JsRound(-card.position.x * zoomLevel * 100.0) as real / 100.0;
      var targetY := JsRound(-card.position.y * zoomLevel * 100.0) as real / 100.0;
      view.UpdateTransform(Value(Transform(targetX, targetY, zoomLevel)), true);
    }

    method OnFocusPrev(items: seq<Item>, isMobile: bool, view: View)
      requires view.Valid()
      modifies this, view
      ensures view.Valid() && keyListener == old(keyListener)
      ensures |items| == 0 ==> currentIndex == old(currentIndex) && unchanged(view)
      ensures |items| > 0 ==>
                currentIndex == PrevIndex(old(currentIndex), |items|) &&
                view.transform == FocusTransform(items[currentIndex], ZoomLevel(isMobile)) &&
                view.TimerUpdated(true)
    {
      FocusOnCard(currentIndex - 1, items, isMobile, view);
    }

    method OnFocusNext(items: seq<Item>, isMobile: bool, view: View)
      requires view.Valid()
      modifies this, view
      ensures view.Valid() && keyListener == old(keyListener)
      ensures |items| == 0 ==> currentIndex == old(currentIndex) && unchanged(view)
      ensures |items| > 0 ==>
                currentIndex == NextIndex(old(currentIndex), |items|) &&
                view.transform == FocusTransform(items[currentIndex], ZoomLevel(isMobile)) &&
                view.TimerUpdated(true)
    {
      FocusOnCard(currentIndex + 1, items, isMobile, view);
    }

    /** The effect registers the keydown listener. */
    method Mount()
      modifies this
      ensures keyListener && currentIndex == old(currentIndex)
    {
      keyListener := true;
    }

    /** The effect's cleanup removes it. */
    method Unmount()
      modifies this
      ensures !keyListener && currentIndex == old(currentIndex)
    {
      keyListener := false;
    }

    /** A window keydown: handled only while the listener is registered. */
    method WindowKeyDown(key: string, items: seq<Item>, isMobile: bool, view: View)
      requires view.Valid()
      modifies this, view
      ensures view.Valid() && keyListener == old(keyListener)
      ensures !keyListener || KeyActionOf(key) == Ignore || |items| == 0 ==>
                currentIndex == old(currentIndex) && unchanged(view)
      ensures keyListener && KeyActionOf(key) == Prev && |items| > 0 ==>
                currentIndex == PrevIndex(old(currentIndex), |items|)
      ensures keyListener && KeyActionOf(key) == Next && |items| > 0 ==>
                currentIndex == NextIndex(old(currentIndex), |items|)
      ensures keyListener && KeyActionOf(key) != Ignore && |items| > 0 ==>
                view.transform == FocusTransform(items[currentIndex], ZoomLevel(isMobile)) &&
                view.TimerUpdated(true)
    {
      if !keyListener {
        return;
      }
      match KeyActionOf(key)
      case Prev => OnFocusPrev(items, isMobile, view);
      case Next => OnFocusNext(items, isMobile, view);
      case Ignore =>
    }
  }
}
