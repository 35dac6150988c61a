/**
 * The wiring in src/components/Whiteboard.tsx that computes something: the
 * random initial layout (with the `Math.random` draws as an input), the
 * initial card list, the focused card id and the mobile start-up zoom.
 */
module Whiteboard {
  import opened Wrappers
  import opened Constants
  import opened WhiteboardTypes
  import opened WhiteboardView
  import opened WhiteboardFilter
  import opened CardFocus
  import opened JsArray

  /** The largest `x` and `y` a randomly placed sticky note can start at. */
  const MaxRandomX: real := WindowWidth - StickyWidth
  const MaxRandomY: real := WindowHeight - StickyHeight

  /** Window widths below this get the zoomed-out start. */
  const MobileBreakpoint: real := 768.0

  /** The whole window in view. */
  const MobileOverview: Transform := Transform(0.0, 0.0, 0.2)

  /** A pair of `Math.random()` values, each in `[0, 1)`. */
  predicate IsDraw(d: Point)
  {
    0.0 <= d.x < 1.0 && 0.0 <= d.y < 1.0
  }

  /** The card placed at `index` with the draw `d`; the old position, rotation included, is dropped. */
  function PlaceRandomly(item: Item, index: nat, d: Point): Item
  {
    item.(position := Position(d.x * MaxRandomX, d.y * MaxRandomY, index,
                               StickyWidth, StickyHeight, false, None))
  }

  /**
   * The local `calculateInitialLayout`: each card at a random point of the
   * window at which a sticky note still fits, at sticky-note size, painted in
   * list order.
   */
  function RandomLayout(items: seq<Item>, draws: seq<Point>): (r: seq<Item>)
    requires |draws| == |items|
    requires forall k :: 0 <= k < |draws| ==> IsDraw(draws[k])
    ensures |r| == |items|
    ensures forall k :: 0 <= k < |r| ==>
              r[k].id == items[k].id && r[k].kind == items[k].kind && r[k].data == items[k].data
    ensures forall k :: 0 <= k < |r| ==>
              0.0 <= r[k].position.x < 2720.0 && 0.0 <= r[k].position.y < 1680.0
    ensures forall k :: 0 <= k < |r| ==>
              r[k].position.width == 280.0 && r[k].position.height == 320.0 &&
              r[k].position.z == k && !r[k].position.expanded
    ensures forall k :: 0 <= k < |r| ==>
              r[k].position.x == draws[k].x * 2720.0 && r[k].position.y == draws[k].y * 1680.0
    ensures forall k :: 0 <= k < |r| ==> r[k].position.rotation.None?
  {
    DrawsFit(draws);
    seq(|items|, k requires 0 <= k < |items| => PlaceRandomly(items[k], k, draws[k]))
  }

  /** A draw in `[0, 1)` scales to a coordinate inside the window, short of the note's size. */
  lemma DrawsFit(draws: seq<Point>)
    requires forall k :: 0 <= k < |draws| ==> IsDraw(draws[k])
    ensures forall k :: 0 <= k < |draws| ==>
              0.0 <= draws[k].x * MaxRandomX < 2720.0 && 0.0 <= draws[k].y * MaxRandomY < 1680.0
  {
    forall k | 0 <= k < |draws|
      ensures 0.0 <= draws[k].x * MaxRandomX < 2720.0 && 0.0 <= draws[k].y * MaxRandomY < 1680.0
    {
      var d := draws[k];
      assert (1.0 - d.x) * 2720.0 > 0.0;
      assert (1.0 - d.y) * 1680.0 > 0.0;
    }
  }

  /** The position `initializeItems` gives every card before the layout runs. */
  const Unplaced: Position := Position(0.0, 0.0, 0, 300.0, 300.0, false, None)

  /** The cards of one content type, with ids `<type>-<slug>`. */
  function CardsOf(kind: string, payloads: seq<Payload>): (r: seq<Item>)
    ensures |r| == |payloads|
    ensures forall k :: 0 <= k < |r| ==>
              r[k] == Item(kind + "-" + payloads[k].slug, kind, payloads[k], Unplaced)
  {
    seq(|payloads|, k requires 0 <= k < |payloads| =>
      Item(kind + "-" + payloads[k].slug, kind, payloads[k], Unplaced))
  }

  /** `initializeItems`' list: the albums, then the snips, then the playlists. */
  function InitialItems(albums: seq<Payload>, snips: seq<Payload>, playlists: seq<Payload>): (r: seq<Item>)
    ensures |r| == |albums| + |snips| + |playlists|
    ensures forall k :: 0 <= k < |albums| ==>
              r[k].id == "album-" + albums[k].slug && r[k].kind == "album" && r[k].data == albums[k]
    ensures forall k :: 0 <= k < |snips| ==>
              var j := |albums| + k;
              r[j].id == "snip-" + snips[k].slug && r[j].kind == "snip" && r[j].data == snips[k]
    ensures forall k :: 0 <= k < |playlists| ==>
              var j := |albums| + |snips| + k;
              r[j].id == "playlist-" + playlists[k].slug && r[j].kind == "playlist" &&
              r[j].data == playlists[k]
  {
    CardsOf("album", albums) + CardsOf("snip", snips) + CardsOf("playlist", playlists)
  }

  /** Filtering the initial list by `album` gives exactly the album cards, in order. */
  lemma FilterInitialAlbums(albums: seq<Payload>, snips: seq<Payload>, playlists: seq<Payload>)
    ensures FilterItems("album", InitialItems(albums, snips, playlists)) == CardsOf("album", albums)
  {
    var a := CardsOf("album", albums);
    var rest := CardsOf("snip", snips) + CardsOf("playlist", playlists);
    assert InitialItems(albums, snips, playlists) == a + rest;
    FilterAppend(a, rest, HasKind("album"));
    FilterAll(a, HasKind("album"));
    FilterNone(rest, HasKind("album"));
  }

  /**
   * `focusedCardId` as written: the id at `currentIndex` when the list is
   * non-empty. The index is not re-normalised when the filter shrinks the
   * list, and reading `.id` of the missing element throws a TypeError.
   */
  function FocusedCardIdAsWritten(filtered: seq<Item>, currentIndex: int): (r: Result<Option<string>, string>)
    ensures filtered == [] ==> r == Success(None)
    ensures 0 <= currentIndex < |filtered| ==> r == Success(Some(filtered[currentIndex].id))
    ensures filtered != [] && !(0 <= currentIndex < |filtered|) ==> r.Failure?
  {
    if |filtered| == 0 then Success(None)
    else if 0 <= currentIndex < |filtered| then Success(Some(filtered[currentIndex].id))
    else Failure("TypeError")
  }

  /**
   * Four albums and one snip: focusing the fifth card (the snip) under `all`
   * and then toggling the filter once, to `album`, leaves the index at 4 over
   * the four album cards, so the lookup reads past the end.
   */
  lemma StaleIndexAfterFilterCrashes(a: Item, s: Item)
    requires a.kind == "album" && s.kind == "snip"
    ensures var items := [a, a, a, a, s];
            var index := NormalizeIndex(3 + 1, |FilterItems("all", items)|);
            index == 4 &&
            NextFilter("all") == "album" &&
            |FilterItems(NextFilter("all"), items)| == 4 &&
            FocusedCardIdAsWritten(FilterItems(NextFilter("all"), items), index).Failure?
  {
    var items := [a, a, a, a, s];
    NormalizeInRange(4, 5);
    var albums := FilterItems("album", items);
    assert multiset(albums)[a] == 4;
    assert forall x :: x != a ==> multiset(albums)[x] == 0;
    assert multiset(albums) == multiset{a, a, a, a};
    assert |albums| == |multiset(albums)| == 4;
  }

  /**
   * The focused card id with the index normalised to the list shown, as
   * `focusOnCard` would: an id of a shown card whenever there is one, and the
   * same id as written whenever the stored index is still in range.
   */
  function FocusedCardId(filtered: seq<Item>, currentIndex: int): (r: Option<string>)
    ensures r.Some? <==> filtered != []
    ensures r.Some? ==> exists k :: 0 <= k < |filtered| && filtered[k].id == r.value
    ensures 0 <= currentIndex < |filtered| ==> FocusedCardIdAsWritten(filtered, currentIndex) == Success(r)
  {
    if |filtered| == 0 then None
    else
      var k := NormalizeIndex(currentIndex, |filtered|);
      NormalizeInRange(currentIndex, |filtered|);
      Some(filtered[k].id)
  }

  /**
   * The start-up transform: the origin in the middle of the screen, the
   * whole-window overview at the minimum scale on windows narrower than
   * 768, otherwise the initial scale.
   */
  function StartTransform(innerWidth: real): (t: Transform)
    ensures t.x == 0.0 && t.y == 0.0
    ensures ScaleMin <= t.scale <= ScaleMax
    ensures innerWidth < 768.0 ==> t.scale == ScaleMin
    ensures innerWidth >= 768.0 ==> t == Centered && t.scale == ScaleInitial
  {
    if innerWidth < MobileBreakpoint then MobileOverview else Centered
  }

  /**
   * The mount sequence: the view's layout effect centres the camera and
   * registers the resize listener, then `initializeMobileView` zooms out
   * without animation on narrow windows.
   */
  method MountView(view: View, innerWidth: real)
    requires view.Valid()
    modifies view
    ensures view.Valid() && view.resizeListener
    ensures view.transform == StartTransform(innerWidth)
    ensures view.transform.scale == if innerWidth < 768.0 then 0.2 else 0.6
    ensures view.isTransitioning == old(view.isTransitioning)
    ensures view.pendingTimers == old(view.pendingTimers)
  {
    view.Mount();
    if innerWidth < MobileBreakpoint {
      view.UpdateTransform(Value(MobileOverview), false);
    }
  }
}
