/**
 * The centred grid layout and the raise-to-front z-order update
 * (src/utils/itemLayoutUtils.ts). Jitter and rotation are switched off
 * in the source, so every coordinate is a whole number of canvas units.
 */
module ItemLayoutUtils {
  import opened Wrappers
  import opened Constants
  import opened WhiteboardTypes

  /** The centre-to-centre distance between grid cells. */
  const Spacing: int := 450

  /**
   * An item handed to the layout: its identity and payload, and the width
   * and height of its position when it already has them.
   */
  datatype LayoutEntry = LayoutEntry(id: string, kind: string, data: Payload,
                                     width: Option<real>, height: Option<real>)

  function CeilSqrtFrom(n: nat, c: nat): (r: nat)
    requires c == 0 || (c - 1) * (c - 1) < n
    ensures r * r >= n && (r == 0 || (r - 1) * (r - 1) < n)
    decreases n - c
  {
    if c * c >= n then c
    else
      assert c <= c * c;
      CeilSqrtFrom(n, c + 1)
  }

  /** `Math.ceil(Math.sqrt(n))`: the least `c` with `c * c >= n`. */
  function CeilSqrt(n: nat): (r: nat)
    ensures r * r >= n && (r == 0 || (r - 1) * (r - 1) < n)
  {
    CeilSqrtFrom(n, 0)
  }

  /** `Math.ceil(n / columns)`: the number of grid rows. */
  function Rows(n: nat, columns: nat): (rows: nat)
    requires columns >= 1
    ensures rows * columns >= n && (rows - 1) * columns < n
  {
    (n + columns - 1) / columns
  }

  /** The x of the first column: minus half the grid width, plus half a cell. */
  function StartX(columns: nat): int
  {
    -(columns * Spacing) / 2 + Spacing / 2
  }

  /** The y of the first row. */
  function StartY(n: nat, columns: nat): int
    requires columns >= 1
  {
    -(Rows(n, columns) * Spacing) / 2 + Spacing / 2
  }

  /** The card at flat index `index`: cell (`index / columns`, `index % columns`). */
  function PlaceOnGrid(e: LayoutEntry, index: nat, columns: nat, n: nat): Item
    requires columns >= 1
  {
    var col := index % columns;
    var row := index / columns;
    Item(e.id, e.kind, e.data,
         Position((StartX(columns) + col * Spacing) as real,
                  (StartY(n, columns) + row * Spacing) as real,
                  index,
                  if e.width.Some? then e.width.value else StickyWidth,
                  if e.height.Some? then e.height.value else StickyHeight,
                  false,
                  Some(0.0)))
  }

  /**
   * `calculateInitialLayout(items, columns)`: every item keeps its identity
   * and payload, is placed at the centre of its grid cell, gets `z = index`,
   * is collapsed, and keeps its own size or gets the sticky-note size.
   */
  function CalculateInitialLayout(items: seq<LayoutEntry>, columns: nat): (r: seq<Item>)
    requires columns >= 1 || |items| == 0
    ensures |r| == |items|
    ensures forall i :: 0 <= i < |r| ==>
      r[i].id == items[i].id && r[i].kind == items[i].kind && r[i].data == items[i].data
    ensures forall i :: 0 <= i < |r| ==>
      r[i].position.z == i && !r[i].position.expanded && r[i].position.rotation == Some(0.0)
    ensures forall i :: 0 <= i < |r| ==>
      r[i].position.width == (if items[i].width.Some? then items[i].width.value else StickyWidth) &&
      r[i].position.height == (if items[i].height.Some? then items[i].height.value else StickyHeight)
    ensures forall i :: 0 <= i < |r| ==>
      r[i].position.x == (StartX(columns) + (i % columns) * Spacing) as real &&
      r[i].position.y == (StartY(|items|, columns) + (i / columns) * Spacing) as real
  {
    if items == [] then []
    else seq(|items|, i requires 0 <= i < |items| => PlaceOnGrid(items[i], i, columns, |items|))
  }

  /** The layout with the default column count `Math.ceil(Math.sqrt(items.length))`. */
  function CalculateInitialLayoutDefault(items: seq<LayoutEntry>): (r: seq<Item>)
    ensures r == CalculateInitialLayout(items, CeilSqrt(|items|))
  {
    CalculateInitialLayout(items, CeilSqrt(|items|))
  }

  /**
   * The grid is centred on the origin: the last column is the mirror image
   * of the first, and so is the last row of the first.
   */
  lemma GridCentred(n: nat, columns: nat)
    requires columns >= 1
    ensures StartX(columns) + (columns - 1) * Spacing == -StartX(columns)
    ensures StartY(n, columns) + (Rows(n, columns) - 1) * Spacing == -StartY(n, columns)
  {
    HalfGrid(columns);
    HalfGrid(Rows(n, columns));
  }

  /** The first of `k` cells is centred half the grid back from the origin. */
  lemma HalfGrid(k: int)
    ensures -(k * Spacing) / 2 + Spacing / 2 + (k - 1) * Spacing == -(-(k * Spacing) / 2 + Spacing / 2)
  {
    var h := k * 225;
    assert k * Spacing == 2 * h;
    assert -(k * Spacing) / 2 == -h;
    assert (k - 1) * Spacing == 2 * h - 450;
  }

  /** Every laid-out card lies inside the centred grid, between the first and the last cell. */
  lemma {:induction false} LayoutWithinGrid(items: seq<LayoutEntry>, columns: nat, i: nat)
    requires columns >= 1 && i < |items|
    ensures var p := CalculateInitialLayout(items, columns)[i].position;
      StartX(columns) as real <= p.x <= -StartX(columns) as real &&
      StartY(|items|, columns) as real <= p.y <= -StartY(|items|, columns) as real
  {
    var n := |items|;
    GridCentred(n, columns);
    var rows := Rows(n, columns);
    var q := i / columns;
    assert q * columns <= i;
    CancelFactor(q, rows, columns);
  }

  /** `q * c < r * c` with `c > 0` gives `q < r`. */
  lemma CancelFactor(q: int, r: int, c: int)
    requires c > 0 && q * c < r * c
    ensures q < r
  {
    assert (r - q) * c > 0;
  }

  /** Different indices land on different cells: the layout never stacks two cards. */
  lemma {:induction false} LayoutCellsDistinct(items: seq<LayoutEntry>, columns: nat, i: nat, j: nat)
    requires columns >= 1 && i < |items| && j < |items| && i != j
    ensures var r := CalculateInitialLayout(items, columns);
      r[i].position.x != r[j].position.x || r[i].position.y != r[j].position.y
  {
    assert i == (i / columns) * columns + i % columns;
    assert j == (j / columns) * columns + j % columns;
    if i % columns == j % columns {
      assert (i / columns) * columns != (j / columns) * columns;
      assert i / columns != j / columns;
      assert (i / columns) * Spacing != (j / columns) * Spacing;
    }
  }

  /** Nine items with the default three columns: corners at (∓450, ∓450), the middle card at the origin. */
  lemma NineItems(items: seq<LayoutEntry>)
    requires |items| == 9
    ensures var r := CalculateInitialLayoutDefault(items);
      r[0].position.x == -450.0 && r[0].position.y == -450.0 &&
      r[4].position.x == 0.0 && r[4].position.y == 0.0 &&
      r[8].position.x == 450.0 && r[8].position.y == 450.0
  {
    assert CeilSqrt(9) == 3;
  }

  /** `Math.max(...items.map(i => i.position.z))` for a non-empty list. */
  function MaxZ(items: seq<Item>): (m: int)
    requires |items| > 0
    ensures forall i :: 0 <= i < |items| ==> items[i].position.z <= m
    ensures exists i :: 0 <= i < |items| && items[i].position.z == m
  {
    if |items| == 1 then items[0].position.z
    else
      var rest := MaxZ(items[1..]);
      if items[0].position.z >= rest then items[0].position.z
      else
        var k :| 0 <= k < |items| - 1 && items[1..][k].position.z == rest;
        assert items[k + 1].position.z == rest;
        rest
  }

  function RaiseZ(item: Item, itemId: string, top: int): Item
  {
    item.(position := item.position.(z := if item.id == itemId then top else item.position.z))
  }

  /**
   * `updateItemZIndex`: every item with the given id gets the largest z
   * plus one; every other item, and every other field, is unchanged.
   */
  function UpdateItemZIndex(items: seq<Item>, itemId: string): (r: seq<Item>)
    ensures |r| == |items|
    ensures forall i :: 0 <= i < |items| && items[i].id != itemId ==> r[i] == items[i]
    ensures forall i :: 0 <= i < |items| && items[i].id == itemId ==>
      r[i] == items[i].(position := items[i].position.(z := MaxZ(items) + 1))
  {
    if items == [] then []
    else
      var top := MaxZ(items) + 1;
      seq(|items|, i requires 0 <= i < |items| => RaiseZ(items[i], itemId, top))
  }

  /** After raising a present id, its card is strictly in front of every other card. */
  lemma RaisedToFront(items: seq<Item>, itemId: string, k: nat)
    requires k < |items| && items[k].id == itemId
    ensures var r := UpdateItemZIndex(items, itemId);
      forall j :: 0 <= j < |r| && r[j].id != itemId ==> r[j].position.z < r[k].position.z
  {
  }
}
