/**
 * The card type filter (src/hooks/useWhiteboardFilter.ts): a four-state
 * cycle, and the list of cards the current filter shows.
 */
module WhiteboardFilter {
  import opened WhiteboardTypes
  import opened JsArray

  /** The values the filter cycles through. */
  predicate IsFilter(f: string)
  {
    f == "all" || f == "album" || f == "snip" || f == "playlist"
  }

  /** `toggleFilter`'s step: all, album, snip, playlist and back; anything else resets to all. */
  function NextFilter(f: string): (r: string)
    ensures IsFilter(r)
    ensures !IsFilter(f) ==> r == "all"
    ensures r != f
  {
    match f
    case "all" => "album"
    case "album" => "snip"
    case "snip" => "playlist"
    case "playlist" => "all"
    case _ => "all"
  }

  /** The order of the cycle: all, then album, then snip, then playlist, then all again. */
  lemma CycleOrder()
    ensures NextFilter("all") == "album"
    ensures NextFilter("album") == "snip"
    ensures NextFilter("snip") == "playlist"
    ensures NextFilter("playlist") == "all"
  {
  }

  function NextFilterTimes(f: string, n: nat): string
    decreases n
  {
    if n == 0 then f else NextFilterTimes(NextFilter(f), n - 1)
  }

  /** Four toggles bring a filter back to where it was. */
  lemma FourToggles(f: string)
    requires IsFilter(f)
    ensures NextFilterTimes(f, 4) == f
  {
    var f1 := NextFilter(f);
    var f2 := NextFilter(f1);
    var f3 := NextFilter(f2);
    assert NextFilterTimes(f, 4) == NextFilterTimes(f1, 3) == NextFilterTimes(f2, 2)
        == NextFilterTimes(f3, 1) == NextFilter(f3);
  }

  /** The four values are pairwise distinct steps of one cycle: fewer than four toggles never return. */
  lemma CycleLengthFour(f: string, n: nat)
    requires IsFilter(f) && 0 < n < 4
    ensures NextFilterTimes(f, n) != f
  {
    var f1 := NextFilter(f);
    var f2 := NextFilter(f1);
    assert NextFilterTimes(f, 1) == f1;
    assert NextFilterTimes(f, 2) == NextFilterTimes(f1, 1) == f2;
    assert NextFilterTimes(f, 3) == NextFilterTimes(f1, 2) == NextFilterTimes(f2, 1) == NextFilter(f2);
  }

  /** Whether a card passes the filter `f` (other than `all`). */
  function HasKind(f: string): Item -> bool
  {
    (item: Item) => item.kind == f
  }

  /**
   * `filterItems`: the cards unchanged under `all`; otherwise exactly the
   * cards of that type, each as often as in the input, in their order.
   */
  function FilterItems(f: string, items: seq<Item>): (r: seq<Item>)
    ensures f == "all" ==> r == items
    ensures |r| <= |items|
    ensures f != "all" ==> forall k :: 0 <= k < |r| ==> r[k].kind == f
    ensures f != "all" ==> forall x :: multiset(r)[x] == if x.kind == f then multiset(items)[x] else 0
    ensures IsSubsequence(r, items)
  {
    if f == "all" then
      SubsequenceRefl(items);
      items
    else
      FilterCounts(items, HasKind(f));
      FilterSubsequence(items, HasKind(f));
      Filter(items, HasKind(f))
  }

  /** The state of `useWhiteboardFilter`. */
  class FilterState {
    var filter: string

    constructor ()
      ensures filter == "all"
    {
      filter := "all";
    }

    method ToggleFilter()
      modifies this
      ensures filter == NextFilter(old(filter))
    {
      filter := NextFilter(filter);
    }

    /** The cards the current filter shows. */
    method Visible(items: seq<Item>) returns (r: seq<Item>)
      ensures r == FilterItems(filter, items)
    {
      r := FilterItems(filter, items);
    }
  }
}
