/**
 * Card manipulation (src/hooks/useWhiteboardItems.ts): offset-preserving
 * drag, click-to-toggle resizing with a minimum size, and the expand toggle.
 * The container lookups (`getBoundingClientRect`, the `--scale` CSS
 * variable) are an input; window listener registration is a flag.
 */
module WhiteboardItems {
  import opened Wrappers
  import opened Constants
  import opened WhiteboardTypes
  import opened WhiteboardUtils

  /** The smallest width or height a resize drag produces. */
  const MinSize: real := 50.0
  /** How much larger an expanded card is than a sticky note. */
  const ExpandFactor: real := 1.5

  /**
   * What the container lookups find: no `.whiteboard-container`, or its
   * top-left corner and its `--scale` variable (`None` when it parses to NaN).
   */
  datatype Container = Missing | Found(left: real, top: real, scaleVar: Option<real>)

  /** `getContainerScale`: 1 without a container or without a number. */
  function ContainerScale(c: Container): (s: real)
    ensures (c.Missing? || c.scaleVar.None?) ==> s == 1.0
    ensures c.Found? && c.scaleVar.Some? ==> s == c.scaleVar.value
  {
    if c.Found? && c.scaleVar.Some? then c.scaleVar.value else 1.0
  }

  /** The container's corner, or `{left: 0, top: 0}` without a container. */
  function Origin(c: Container): Point
  {
    if c.Found? then Point(c.left, c.top) else Point(0.0, 0.0)
  }

  /** A pointer position relative to the container, in canvas units. */
  function ToCanvas(c: Container, clientX: real, clientY: real): (p: Point)
    requires ContainerScale(c) != 0.0
    ensures p.x * ContainerScale(c) + Origin(c).x == clientX
    ensures p.y * ContainerScale(c) + Origin(c).y == clientY
  {
    var s := ContainerScale(c);
    Point((clientX - Origin(c).x) / s, (clientY - Origin(c).y) / s)
  }

  function Minus(a: Point, b: Point): Point
  {
    Point(a.x - b.x, a.y - b.y)
  }

  /** The `dragState` ref. */
  datatype DragState = DragState(itemId: Option<string>, initialMousePos: Option<Point>,
                                 initialItemPos: Option<Point>, offset: Option<Point>)

  const NoDrag: DragState := DragState(None, None, None, None)

  /** The `resizeState` ref. */
  datatype ResizeState = ResizeState(itemId: Option<string>, initialMousePos: Option<Point>,
                                     initialWidth: real, initialHeight: real)

  const NoResize: ResizeState := ResizeState(None, None, 0.0, 0.0)

  /** JavaScript truthiness of a `string | null`: the empty string is falsy. */
  predicate Truthy(id: Option<string>)
  {
    id.Some? && id.value != ""
  }

  function FindFrom(items: seq<Item>, id: string, k: nat): (r: Option<nat>)
    requires k <= |items|
    ensures r.Some? ==> k <= r.value < |items| && items[r.value].id == id
    ensures r.Some? ==> forall j :: k <= j < r.value ==> items[j].id != id
    ensures r.None? ==> forall j :: k <= j < |items| ==> items[j].id != id
    decreases |items| - k
  {
    if k == |items| then None
    else if items[k].id == id then Some(k)
    else FindFrom(items, id, k + 1)
  }

  /** `items.find(i => i.id === id)`, as the index of the first match. */
  function FindItem(items: seq<Item>, id: string): (r: Option<nat>)
    ensures r.Some? ==> r.value < |items| && items[r.value].id == id
    ensures r.Some? ==> forall j :: 0 <= j < r.value ==> items[j].id != id
    ensures r.None? <==> forall j :: 0 <= j < |items| ==> items[j].id != id
  {
    FindFrom(items, id, 0)
  }

  /** `prevItems.map(item => item.id === id ? {...item, position: f(item.position)} : item)`. */
  function UpdatePositions(items: seq<Item>, id: string, f: Position -> Position): (r: seq<Item>)
    ensures |r| == |items|
    ensures forall k :: 0 <= k < |r| ==>
              r[k] == if items[k].id == id then items[k].(position := f(items[k].position)) else items[k]
  {
    seq(|items|, k requires 0 <= k < |items| =>
      if items[k].id == id then items[k].(position := f(items[k].position)) else items[k])
  }

  /** The drag move update: every card with the id gets the new centre, nothing else changes. */
  function MoveItem(items: seq<Item>, id: string, p: Point): (r: seq<Item>)
    ensures |r| == |items|
    ensures forall k :: 0 <= k < |r| && items[k].id != id ==> r[k] == items[k]
    ensures forall k :: 0 <= k < |r| && items[k].id == id ==>
              r[k].id == id && r[k].kind == items[k].kind && r[k].data == items[k].data &&
              r[k].position == items[k].position.(x := p.x, y := p.y)
  {
    UpdatePositions(items, id, (pos: Position) => pos.(x := p.x, y := p.y))
  }

  /** `Math.max(50, initial + delta)`: never below the minimum, and otherwise the dragged size. */
  function ResizedSize(initial: real, delta: real): (r: real)
    ensures r >= MinSize && r >= initial + delta
    ensures r == MinSize || r == initial + delta
  {
    Max(MinSize, initial + delta)
  }

  /** The resize move update: every card with the id gets the new size, nothing else changes. */
  function ResizeItem(items: seq<Item>, id: string, width: real, height: real): (r: seq<Item>)
    ensures |r| == |items|
    ensures forall k :: 0 <= k < |r| && items[k].id != id ==> r[k] == items[k]
    ensures forall k :: 0 <= k < |r| && items[k].id == id ==>
              r[k].id == id && r[k].kind == items[k].kind && r[k].data == items[k].data &&
              r[k].position == items[k].position.(width := width, height := height)
  {
    UpdatePositions(items, id, (pos: Position) => pos.(width := width, height := height))
  }

  /** The size of a card in the given expansion state. */
  function SizeFor(expanded: bool): Point
  {
    if expanded then Point(StickyWidth * ExpandFactor, StickyHeight * ExpandFactor)
    else Point(StickyWidth, StickyHeight)
  }

  function Toggled(pos: Position): Position
  {
    pos.(width := if pos.expanded then StickyWidth else StickyWidth * ExpandFactor,
         height := if pos.expanded then StickyHeight else StickyHeight * ExpandFactor,
         expanded := !pos.expanded)
  }

  /**
   * `handleExpand` and `handleResizeClick`: each card with the id flips
   * `expanded` and takes 420 x 480 when it expands, 280 x 320 when it collapses.
   */
  function ToggleExpand(items: seq<Item>, id: string): (r: seq<Item>)
    ensures |r| == |items|
    ensures forall k :: 0 <= k < |r| && items[k].id != id ==> r[k] == items[k]
    ensures forall k :: 0 <= k < |r| && items[k].id == id ==>
              r[k].id == id && r[k].kind == items[k].kind && r[k].data == items[k].data &&
              r[k].position.expanded == !items[k].position.expanded &&
              r[k].position.x == items[k].position.x && r[k].position.y == items[k].position.y &&
              r[k].position.z == items[k].position.z &&
              r[k].position.rotation == items[k].position.rotation
    ensures forall k :: 0 <= k < |r| && items[k].id == id && !items[k].position.expanded ==>
              r[k].position.width == 420.0 && r[k].position.height == 480.0
    ensures forall k :: 0 <= k < |r| && items[k].id == id && items[k].position.expanded ==>
              r[k].position.width == 280.0 && r[k].position.height == 320.0
  {
    UpdatePositions(items, id, Toggled)
  }

  /** Toggling twice restores `expanded` and leaves the size that state calls for. */
  lemma ToggleExpandTwice(items: seq<Item>, id: string)
    ensures var r := ToggleExpand(ToggleExpand(items, id), id);
            |r| == |items| &&
            (forall k :: 0 <= k < |r| && items[k].id != id ==> r[k] == items[k]) &&
            (forall k :: 0 <= k < |r| && items[k].id == id ==>
               r[k].position.expanded == items[k].position.expanded &&
               Point(r[k].position.width, r[k].position.height) == SizeFor(items[k].position.expanded))
  {
  }

  /** A card that starts collapsed is collapsed at 280 x 320 after two toggles. */
  lemma ToggleTwiceFromCollapsed(items: seq<Item>, id: string, k: nat)
    requires k < |items| && items[k].id == id && !items[k].position.expanded
    ensures var r := ToggleExpand(ToggleExpand(items, id), id);
            !r[k].position.expanded && r[k].position.width == 280.0 && r[k].position.height == 320.0
  {
    ToggleExpandTwice(items, id);
  }

  /** Moving and resizing touch different fields, so they commute. */
  lemma MoveResizeCommute(items: seq<Item>, moved: string, p: Point, resized: string,
                          width: real, height: real)
    ensures MoveItem(ResizeItem(items, resized, width, height), moved, p)
         == ResizeItem(MoveItem(items, moved, p), resized, width, height)
  {
    var a := MoveItem(ResizeItem(items, resized, width, height), moved, p);
    var b := ResizeItem(MoveItem(items, moved, p), resized, width, height);
    assert forall k :: 0 <= k < |a| ==> a[k] == b[k];
  }

  /** Releasing the drag where it started puts the card back where it was. */
  lemma DragReturnsToStart(c: Container, clientX: real, clientY: real, itemPos: Point)
    requires ContainerScale(c) != 0.0
    ensures var offset := Minus(ToCanvas(c, clientX, clientY), itemPos);
            Minus(ToCanvas(c, clientX, clientY), offset) == itemPos
  {
  }

  /** A pointer move of `dx, dy` pixels moves the dragged card by `dx / scale, dy / scale`. */
  lemma DragDelta(c: Container, clientX: real, clientY: real, dx: real, dy: real, offset: Point)
    requires ContainerScale(c) != 0.0
    ensures var a := Minus(ToCanvas(c, clientX, clientY), offset);
            var b := Minus(ToCanvas(c, clientX + dx, clientY + dy), offset);
            b.x - a.x == dx / ContainerScale(c) && b.y - a.y == dy / ContainerScale(c)
  {
    var s := ContainerScale(c);
    var o := Origin(c);
    assert (clientX + dx - o.x) / s - (clientX - o.x) / s == dx / s;
    assert (clientY + dy - o.y) / s - (clientY - o.y) / s == dy / s;
  }

  /** The state of `useWhiteboardItems`. */
  class ItemsState {
    var items: seq<Item>
    var dragging: Option<string>
    var resizing: Option<string>
    var dragState: DragState
    var resizeState: ResizeState
    /** Whether the window `mousemove`/`mouseup` drag listeners are registered. */
    var dragListeners: bool
    /** Whether the window `mousemove` resize listener is registered. */
    var resizeListener: bool

    /** The `dragging`/`resizing` state agrees with the refs and the listeners. */
    ghost predicate Valid()
      reads this
    {
      dragging == dragState.itemId &&
      (dragState.itemId.Some? <==> dragState.offset.Some?) &&
      (dragListeners <==> dragging.Some?) &&
      resizing == resizeState.itemId &&
      (resizeState.itemId.Some? <==> resizeState.initialMousePos.Some?) &&
      (resizeListener <==> resizing.Some?)
    }

    constructor ()
      ensures Valid()
      ensures items == [] && dragging == None && resizing == None
      ensures dragState == NoDrag && resizeState == NoResize
    {
      items := [];
      dragging := None;
      resizing := None;
      dragState := NoDrag;
      resizeState := NoResize;
      dragListeners := false;
      resizeListener := false;
    }

    method SetItems(newItems: seq<Item>)
      requires Valid()
      modifies this
      ensures Valid() && items == newItems
      ensures dragging == old(dragging) && resizing == old(resizing)
      ensures dragState == old(dragState) && resizeState == old(resizeState)
      ensures dragListeners == old(dragListeners) && resizeListener == old(resizeListener)
    {
      items := newItems;
    }

    /**
     * `handleDragStart`: an unknown id changes nothing; otherwise the first
     * card with the id is marked dragging, with its offset from the pointer.
     */
    method HandleDragStart(id: string, c: Container, clientX: real, clientY: real)
      requires Valid() && ContainerScale(c) != 0.0
      modifies this
      ensures Valid()
      ensures items == old(items) && resizing == old(resizing) && resizeState == old(resizeState)
      ensures resizeListener == old(resizeListener)
      ensures FindItem(items, id).None? ==>
                dragging == old(dragging) && dragState == old(dragState) &&
                dragListeners == old(dragListeners)
      ensures FindItem(items, id).Some? ==>
                var pos := items[FindItem(items, id).value].position;
                var pointer := ToCanvas(c, clientX, clientY);
                dragging == Some(id) && dragListeners &&
                dragState == DragState(Some(id), Some(pointer), Some(Point(pos.x, pos.y)),
                                       Some(Minus(pointer, Point(pos.x, pos.y))))
    {
      var found := FindItem(items, id);
      if found.None? {
        return;
      }
      var item := items[found.value];
      var pointer := ToCanvas(c, clientX, clientY);
      var offset := Point(pointer.x - item.position.x, pointer.y - item.position.y);
      dragging := Some(id);
      dragState := DragState(Some(id), Some(pointer), Some(Point(item.position.x, item.position.y)),
                             Some(offset));
      dragListeners := true;
    }

    /**
     * `handleDragMove`: with a truthy id and an offset, every card with the
     * dragged id moves to the pointer minus the offset; otherwise nothing
     * changes.
     */
    method HandleDragMove(c: Container, clientX: real, clientY: real)
      requires Valid() && ContainerScale(c) != 0.0
      modifies this
      ensures Valid()
      ensures dragging == old(dragging) && resizing == old(resizing)
      ensures dragState == old(dragState) && resizeState == old(resizeState)
      ensures dragListeners == old(dragListeners) && resizeListener == old(resizeListener)
      ensures !(Truthy(dragState.itemId) && dragState.offset.Some?) ==> items == old(items)
      ensures Truthy(dragState.itemId) && dragState.offset.Some? ==>
                items == MoveItem(old(items), dragState.itemId.value,
                                  Minus(ToCanvas(c, clientX, clientY), dragState.offset.value))
    {
      var pointer := ToCanvas(c, clientX, clientY);
      if !Truthy(dragState.itemId) || dragState.offset.None? {
        return;
      }
      var offset := dragState.offset.value;
      items := MoveItem(items, dragState.itemId.value, Point(pointer.x - offset.x, pointer.y - offset.y));
    }

    /** `handleDragEnd`: the listeners go, the drag state is emptied, the cards (and their z) stay. */
    method HandleDragEnd()
      requires Valid()
      modifies this
      ensures Valid()
      ensures items == old(items) && dragging == None && dragState == NoDrag && !dragListeners
      ensures resizing == old(resizing) && resizeState == old(resizeState)
      ensures resizeListener == old(resizeListener)
    {
      dragListeners := false;
      dragging := None;
      dragState := NoDrag;
    }

    /**
     * `handleResizeStart`: clicking the card being resized disarms resizing;
     * an unknown id changes nothing; another card is armed with its size and
     * the pointer.
     */
    method HandleResizeStart(id: string, c: Container, clientX: real, clientY: real)
      requires Valid() && ContainerScale(c) != 0.0
      modifies this
      ensures Valid()
      ensures items == old(items) && dragging == old(dragging) && dragState == old(dragState)
      ensures dragListeners == old(dragListeners)
      ensures old(resizing) == Some(id) ==>
                resizing == None && resizeState == NoResize && !resizeListener
      ensures old(resizing) != Some(id) && FindItem(items, id).None? ==>
                resizing == old(resizing) && resizeState == old(resizeState) &&
                resizeListener == old(resizeListener)
      ensures old(resizing) != Some(id) && FindItem(items, id).Some? ==>
                var pos := items[FindItem(items, id).value].position;
                resizing == Some(id) && resizeListener &&
                resizeState == ResizeState(Some(id), Some(ToCanvas(c, clientX, clientY)),
                                           pos.width, pos.height)
    {
      if resizing == Some(id) {
        resizeListener := false;
        resizing := None;
        resizeState := NoResize;
        return;
      }
      var found := FindItem(items, id);
      if found.None? {
        return;
      }
      var item := items[found.value];
      resizeState := ResizeState(Some(id), Some(ToCanvas(c, clientX, clientY)),
                                 item.position.width, item.position.height);
      resizing := Some(id);
      resizeListener := true;
    }

    /**
     * `handleResizeMove`: with a truthy id and a start pointer, every card
     * with the id takes the initial size plus the pointer delta, at least 50
     * each way; otherwise nothing changes.
     */
    method HandleResizeMove(c: Container, clientX: real, clientY: real)
      requires Valid() && ContainerScale(c) != 0.0
      modifies this
      ensures Valid()
      ensures dragging == old(dragging) && resizing == old(resizing)
      ensures dragState == old(dragState) && resizeState == old(resizeState)
      ensures dragListeners == old(dragListeners) && resizeListener == old(resizeListener)
      ensures !(Truthy(resizeState.itemId) && resizeState.initialMousePos.Some?) ==> items == old(items)
      ensures Truthy(resizeState.itemId) && resizeState.initialMousePos.Some? ==>
                var delta := Minus(ToCanvas(c, clientX, clientY), resizeState.initialMousePos.value);
                items == ResizeItem(old(items), resizeState.itemId.value,
                                    ResizedSize(resizeState.initialWidth, delta.x),
                                    ResizedSize(resizeState.initialHeight, delta.y))
    {
      if !Truthy(resizeState.itemId) || resizeState.initialMousePos.None? {
        return;
      }
      var pointer := ToCanvas(c, clientX, clientY);
      var start := resizeState.initialMousePos.value;
      var deltaX := pointer.x - start.x;
      var deltaY := pointer.y - start.y;
      items := ResizeItem(items, resizeState.itemId.value,
                          Max(MinSize, resizeState.initialWidth + deltaX),
                          Max(MinSize, resizeState.initialHeight + deltaY));
    }

    /** `handleExpand`. */
    method HandleExpand(id: string)
      requires Valid()
      modifies this
      ensures Valid() && items == ToggleExpand(old(items), id)
      ensures dragging == old(dragging) && resizing == old(resizing)
      ensures dragState == old(dragState) && resizeState == old(resizeState)
      ensures dragListeners == old(dragListeners) && resizeListener == old(resizeListener)
    {
      items := UpdatePositions(items, id, Toggled);
    }

    /** `handleResizeClick`, which repeats `handleExpand` exactly. */
    method HandleResizeClick(id: string)
      requires Valid()
      modifies this
      ensures Valid() && items == ToggleExpand(old(items), id)
      ensures dragging == old(dragging) && resizing == old(resizing)
      ensures dragState == old(dragState) && resizeState == old(resizeState)
      ensures dragListeners == old(dragListeners) && resizeListener == old(resizeListener)
    {
      items := UpdatePositions(items, id, Toggled);
    }

    /** A window `mousemove`: the registered drag and resize listeners run, in that order. */
    method WindowMouseMove(c: Container, clientX: real, clientY: real)
      requires Valid() && ContainerScale(c) != 0.0
      modifies this
      ensures Valid()
      ensures dragging == old(dragging) && resizing == old(resizing)
      ensures dragState == old(dragState) && resizeState == old(resizeState)
      ensures dragListeners == old(dragListeners) && resizeListener == old(resizeListener)
      ensures !dragListeners && !resizeListener ==> items == old(items)
      ensures var dragged :=
                if dragListeners && Truthy(dragState.itemId) then
                  MoveItem(old(items), dragState.itemId.value,
                           Minus(ToCanvas(c, clientX, clientY), dragState.offset.value))
                else old(items);
              var delta := if resizeListener then
                             Minus(ToCanvas(c, clientX, clientY), resizeState.initialMousePos.value)
                           else Point(0.0, 0.0);
              items == if resizeListener && Truthy(resizeState.itemId) then
                         ResizeItem(dragged, resizeState.itemId.value,
                                    ResizedSize(resizeState.initialWidth, delta.x),
                                    ResizedSize(resizeState.initialHeight, delta.y))
                       else dragged
    {
      if dragListeners {
        HandleDragMove(c, clientX, clientY);
      }
      if resizeListener {
        HandleResizeMove(c, clientX, clientY);
      }
    }

    /** A window `mouseup`: ends a drag; resizing continues until the next click. */
    method WindowMouseUp()
      requires Valid()
      modifies this
      ensures Valid() && items == old(items) && dragging == None && !dragListeners
      ensures resizing == old(resizing) && resizeState == old(resizeState)
    {
      if dragListeners {
        HandleDragEnd();
      }
    }
  }
}
