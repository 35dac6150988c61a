/**
 * The admin content table (src/components/admin/ContentList.tsx): the
 * search filter over title, description, tags and id, the comparator on
 * `data[key]`, the copy-then-sort of the filtered list, and the header
 * click that toggles the sort direction.
 */
module ContentList {
  import opened Wrappers
  import opened JsString
  import opened JsArray

  /** A content entry: its id, its string-valued `data` fields and its optional tag list. */
  datatype Entry = Entry(id: string, data: map<string, string>, tags: Option<seq<string>>)

  datatype Direction = Asc | Desc

  datatype SortConfig = SortConfig(key: string, direction: Direction)

  /** The table starts sorted by publication time, newest first. */
  const DefaultSort: SortConfig := SortConfig("pubDatetime", Desc)

  /** `handleSort(key)`: descending exactly when the same key was ascending; the key always switches. */
  function NextSortConfig(prev: SortConfig, key: string): (r: SortConfig)
    ensures r.key == key
    ensures r.direction == Desc <==> prev.key == key && prev.direction == Asc
  {
    SortConfig(key, if prev.key == key && prev.direction == Asc then Desc else Asc)
  }

  /** Clicking the same header twice from ascending comes back to ascending. */
  lemma SortToggleTwice(prev: SortConfig, key: string)
    requires prev.key == key && prev.direction == Asc
    ensures NextSortConfig(NextSortConfig(prev, key), key) == prev
  {
  }

  /** `item.data[field]?.toLowerCase() || ''`. */
  function FieldText(e: Entry, field: string): string
  {
    if field in e.data then ToLower(e.data[field]) else ""
  }

  /** `item.data.tags?.join(' ').toLowerCase() || ''`. */
  function TagsText(e: Entry): string
  {
    if e.tags.Some? then ToLower(Join(e.tags.value, " ")) else ""
  }

  /** The lower-cased search term occurs in the title, description, joined tags or id. */
  predicate Matches(e: Entry, lowerTerm: string)
  {
    Includes(FieldText(e, "title"), lowerTerm) || Includes(FieldText(e, "description"), lowerTerm) ||
    Includes(TagsText(e), lowerTerm) || Includes(ToLower(e.id), lowerTerm)
  }

  function MatchesTerm(lowerTerm: string): Entry -> bool
  {
    (e: Entry) => Matches(e, lowerTerm)
  }

  /**
   * The search step: an empty term keeps every entry; otherwise exactly the
   * matching entries, each as often as given, in the given order.
   */
  function SearchFilter(items: seq<Entry>, term: string): (r: seq<Entry>)
    ensures term == "" ==> r == items
    ensures |r| <= |items|
    ensures term != "" ==> forall k :: 0 <= k < |r| ==> Matches(r[k], ToLower(term))
    ensures term != "" ==> forall x :: multiset(r)[x] == if Matches(x, ToLower(term)) then multiset(items)[x] else 0
    ensures IsSubsequence(r, items)
  {
    if term == "" then
      SubsequenceRefl(items);
      items
    else
      FilterCounts(items, MatchesTerm(ToLower(term)));
      FilterSubsequence(items, MatchesTerm(ToLower(term)));
      Filter(items, MatchesTerm(ToLower(term)))
  }

  /** JavaScript `<` on strings: lexicographic, a proper prefix first. */
  predicate StrLess(a: string, b: string)
    decreases |a|
  {
    if a == [] then b != []
    else if b == [] then false
    else if a[0] != b[0] then a[0] < b[0]
    else StrLess(a[1..], b[1..])
  }

  lemma {:induction false} StrLessIrreflexive(a: string)
    ensures !StrLess(a, a)
    decreases |a|
  {
    if a != [] {
      StrLessIrreflexive(a[1..]);
    }
  }

  lemma {:induction false} StrLessAsymmetric(a: string, b: string)
    ensures StrLess(a, b) ==> !StrLess(b, a)
    decreases |a|
  {
    if a != [] && b != [] && a[0] == b[0] {
      StrLessAsymmetric(a[1..], b[1..]);
    }
  }

  lemma {:induction false} StrLessTransitive(a: string, b: string, c: string)
    ensures StrLess(a, b) && StrLess(b, c) ==> StrLess(a, c)
    decreases |a|
  {
    if a != [] && b != [] && c != [] && a[0] == b[0] && b[0] == c[0] {
      StrLessTransitive(a[1..], b[1..], c[1..]);
    }
  }

  lemma {:induction false} StrLessTotal(a: string, b: string)
    ensures a == b || StrLess(a, b) || StrLess(b, a)
    decreases |a|
  {
    if a != [] && b != [] && a[0] == b[0] {
      StrLessTotal(a[1..], b[1..]);
      if a[1..] == b[1..] {
        assert a == [a[0]] + a[1..] && b == [b[0]] + b[1..];
      }
    }
  }

  /** `a.data[key]`, with `None` for undefined. */
  function SortKey(e: Entry, key: string): Option<string>
  {
    if key in e.data then Some(e.data[key]) else None
  }

  /** `<` on possibly undefined values: a comparison with undefined is false. */
  predicate KeyLess(x: Option<string>, y: Option<string>)
  {
    x.Some? && y.Some? && StrLess(x.value, y.value)
  }

  /** The comparator passed to `filtered.sort`. */
  function Compare(a: Entry, b: Entry, cfg: SortConfig): (r: int)
    ensures -1 <= r <= 1
    ensures r == 0 <==> !KeyLess(SortKey(a, cfg.key), SortKey(b, cfg.key)) &&
                        !KeyLess(SortKey(b, cfg.key), SortKey(a, cfg.key))
  {
    var x := SortKey(a, cfg.key);
    var y := SortKey(b, cfg.key);
    if KeyLess(x, y) then (if cfg.direction == Asc then -1 else 1)
    else if KeyLess(y, x) then (if cfg.direction == Asc then 1 else -1)
    else 0
  }

  /** The comparator is antisymmetric, undefined keys included. */
  lemma CompareAntisymmetric(a: Entry, b: Entry, cfg: SortConfig)
    ensures Compare(a, b, cfg) == -Compare(b, a, cfg)
  {
    var x := SortKey(a, cfg.key);
    var y := SortKey(b, cfg.key);
    if x.Some? && y.Some? {
      StrLessAsymmetric(x.value, y.value);
    }
  }

  /** Where both keys are defined, `Compare <= 0` chains. */
  lemma CompareTransitive(a: Entry, b: Entry, c: Entry, cfg: SortConfig)
    requires cfg.key in a.data && cfg.key in b.data && cfg.key in c.data
    requires Compare(a, b, cfg) <= 0 && Compare(b, c, cfg) <= 0
    ensures Compare(a, c, cfg) <= 0
  {
    var x, y, z := a.data[cfg.key], b.data[cfg.key], c.data[cfg.key];
    StrLessTotal(x, y);
    StrLessTotal(y, z);
    StrLessTransitive(x, y, z);
    StrLessTransitive(z, y, x);
    StrLessAsymmetric(x, z);
    StrLessIrreflexive(x);
    StrLessIrreflexive(y);
  }

  /**
   * The comparator as the function value handed to `sort`: it answers
   * -1, 0 or 1, and swapping its arguments negates the answer.
   */
  function Comparator(cfg: SortConfig): (cmp: (Entry, Entry) -> int)
    ensures forall x, y :: -1 <= cmp(x, y) <= 1
    ensures forall x, y :: cmp(x, y) == -cmp(y, x)
  {
    var cmp := (x: Entry, y: Entry) => Compare(x, y, cfg);
    assert forall x, y :: cmp(x, y) == -cmp(y, x) by {
      forall x, y
        ensures cmp(x, y) == -cmp(y, x)
      {
        CompareAntisymmetric(x, y, cfg);
      }
    }
    cmp
  }

  /** No neighbouring pair is out of order under `cmp`. */
  predicate AdjacentOrderedBy(s: seq<Entry>, cmp: (Entry, Entry) -> int)
  {
    forall i :: 0 <= i < |s| - 1 ==> cmp(s[i], s[i + 1]) <= 0
  }

  predicate AdjacentOrdered(s: seq<Entry>, cfg: SortConfig)
  {
    AdjacentOrderedBy(s, Comparator(cfg))
  }

  /** No pair at all is out of order. */
  predicate Sorted(s: seq<Entry>, cfg: SortConfig)
  {
    forall i, j :: 0 <= i < j < |s| ==> Compare(s[i], s[j], cfg) <= 0
  }

  predicate AllKeysDefined(s: seq<Entry>, key: string)
  {
    forall k :: 0 <= k < |s| ==> key in s[k].data
  }

  /** When every entry has the key, neighbour order is full order. */
  lemma {:induction false} AdjacentOrderedIsSorted(s: seq<Entry>, cfg: SortConfig)
    requires AdjacentOrdered(s, cfg) && AllKeysDefined(s, cfg.key)
    ensures Sorted(s, cfg)
  {
    forall i, j | 0 <= i < j < |s|
      ensures Compare(s[i], s[j], cfg) <= 0
    {
      var m := i + 1;
      while m < j
        invariant i < m <= j
        invariant Compare(s[i], s[m], cfg) <= 0
      {
        CompareTransitive(s[i], s[m], s[m + 1], cfg);
        m := m + 1;
      }
    }
  }

  /** Exchanges two neighbours; the array keeps the same entries. */
  method SwapDown(a: array<Entry>, j: nat)
    requires 0 < j < a.Length
    modifies a
    ensures a[..] == old(a[..])[j - 1 := old(a[j])][j := old(a[j - 1])]
    ensures multiset(a[..]) == multiset(old(a[..]))
  {
    a[j - 1], a[j] := a[j], a[j - 1];
  }

  /**
   * The shape of the array while the entry being inserted sits at `j`:
   * neighbours are in order except around `j`, where the entry is before
   * its right neighbour and its left neighbour still fits before that one.
   */
  predicate Inserting(s: seq<Entry>, j: nat, i: nat, cmp: (Entry, Entry) -> int)
  {
    j <= i < |s| &&
    (forall k :: 0 <= k < j - 1 ==> cmp(s[k], s[k + 1]) <= 0) &&
    (forall k :: j < k < i ==> cmp(s[k], s[k + 1]) <= 0) &&
    (j < i ==> cmp(s[j], s[j + 1]) < 0) &&
    (0 < j < i ==> cmp(s[j - 1], s[j + 1]) <= 0)
  }

  /** Swapping the entry one place left keeps the shape. */
  lemma SwapKeepsInserting(s: seq<Entry>, j: nat, i: nat, cmp: (Entry, Entry) -> int)
    requires forall x, y :: cmp(x, y) == -cmp(y, x)
    requires Inserting(s, j, i, cmp) && 0 < j && cmp(s[j - 1], s[j]) > 0
    ensures Inserting(s[j - 1 := s[j]][j := s[j - 1]], j - 1, i, cmp)
  {
    var t := s[j - 1 := s[j]][j := s[j - 1]];
    assert cmp(t[j - 1], t[j]) < 0;
    assert forall k :: j - 1 < k < i ==> cmp(t[k], t[k + 1]) <= 0 by {
      forall k | j - 1 < k < i
        ensures cmp(t[k], t[k + 1]) <= 0
      {
        if k == j {
          assert t[k] == s[j - 1] && t[k + 1] == s[j + 1];
        } else {
          assert t[k] == s[k] && t[k + 1] == s[k + 1];
        }
      }
    }
  }

  /** When the entry stops, the prefix up to `i` has no neighbours out of order. */
  lemma InsertingDone(s: seq<Entry>, j: nat, i: nat, cmp: (Entry, Entry) -> int)
    requires Inserting(s, j, i, cmp) && (j == 0 || cmp(s[j - 1], s[j]) <= 0)
    ensures AdjacentOrderedBy(s[..i + 1], cmp)
  {
    var p := s[..i + 1];
    forall k | 0 <= k < |p| - 1
      ensures cmp(p[k], p[k + 1]) <= 0
    {
      assert p[k] == s[k] && p[k + 1] == s[k + 1];
    }
  }

  /**
   * One insertion step: the entry at `i` moves left past every neighbour
   * that compares greater, so a prefix without neighbours out of order grows
   * by one. Only antisymmetry of the comparator is needed.
   */
  method InsertStep(a: array<Entry>, i: nat, cmp: (Entry, Entry) -> int)
    requires i < a.Length
    requires forall x, y :: cmp(x, y) == -cmp(y, x)
    requires AdjacentOrderedBy(a[..i], cmp)
    modifies a
    ensures AdjacentOrderedBy(a[..i + 1], cmp)
    ensures multiset(a[..]) == multiset(old(a[..]))
  {
    var j := i;
    assert Inserting(a[..], j, i, cmp);
    while j > 0 && cmp(a[j - 1], a[j]) > 0
      invariant 0 <= j <= i
      invariant multiset(a[..]) == multiset(old(a[..]))
      invariant Inserting(a[..], j, i, cmp)
    {
      SwapKeepsInserting(a[..], j, i, cmp);
      SwapDown(a, j);
      j := j - 1;
    }
    InsertingDone(a[..], j, i, cmp);
  }

  /** Insertion sort under an antisymmetric comparator. */
  method InsertionSort(a: array<Entry>, cmp: (Entry, Entry) -> int)
    requires forall x, y :: cmp(x, y) == -cmp(y, x)
    modifies a
    ensures AdjacentOrderedBy(a[..], cmp)
    ensures multiset(a[..]) == multiset(old(a[..]))
  {
    var i := 0;
    while i < a.Length
      invariant 0 <= i <= a.Length
      invariant AdjacentOrderedBy(a[..i], cmp)
      invariant multiset(a[..]) == multiset(old(a[..]))
    {
      InsertStep(a, i, cmp);
      i := i + 1;
    }
    assert a[..a.Length] == a[..];
  }

  /**
   * `filtered.sort(comparator)`, in place, as a stable insertion sort:
   * afterwards no neighbouring pair is out of order and the array holds the
   * same entries.
   */
  method SortEntries(a: array<Entry>, cfg: SortConfig)
    modifies a
    ensures AdjacentOrdered(a[..], cfg)
    ensures multiset(a[..]) == multiset(old(a[..]))
  {
    InsertionSort(a, Comparator(cfg));
  }

  /**
   * The effect: copy, filter by the search term, sort. The result holds
   * exactly the matching entries, no neighbours out of order, fully sorted
   * when every shown entry has the key, and never more than the input.
   */
  method Recompute(items: seq<Entry>, term: string, cfg: SortConfig) returns (shown: seq<Entry>)
    ensures multiset(shown) == multiset(SearchFilter(items, term))
    ensures AdjacentOrdered(shown, cfg)
    ensures AllKeysDefined(shown, cfg.key) ==> Sorted(shown, cfg)
    ensures |shown| <= |items|
  {
    var filtered := SearchFilter(items, term);
    var copy := new Entry[|filtered|](k requires 0 <= k < |filtered| => filtered[k]);
    assert copy[..] == filtered;
    SortEntries(copy, cfg);
    shown := copy[..];
    assert |shown| == |multiset(shown)| == |multiset(filtered)| == |filtered|;
    if AllKeysDefined(shown, cfg.key) {
      AdjacentOrderedIsSorted(shown, cfg);
    }
  }

  /** The state of a `ContentList`: its `items` prop, the search term, the sort and the shown rows. */
  class ContentListState {
    const items: seq<Entry>
    var searchTerm: string
    var sortConfig: SortConfig
    var shown: seq<Entry>

    /** Before the first effect the shown rows are the items as given. */
    constructor (items: seq<Entry>)
      ensures this.items == items && searchTerm == "" && sortConfig == DefaultSort
      ensures shown == items
    {
      this.items := items;
      searchTerm := "";
      sortConfig := DefaultSort;
      shown := items;
    }

    /** The effect that runs whenever the items, the term or the sort change. */
    method Refresh()
      modifies this
      ensures searchTerm == old(searchTerm) && sortConfig == old(sortConfig)
      ensures multiset(shown) == multiset(SearchFilter(items, searchTerm))
      ensures AdjacentOrdered(shown, sortConfig)
      ensures |shown| <= |items|
    {
      shown := Recompute(items, searchTerm, sortConfig);
    }

    method SetSearchTerm(term: string)
      modifies this
      ensures searchTerm == term && sortConfig == old(sortConfig)
      ensures multiset(shown) == multiset(SearchFilter(items, term))
      ensures AdjacentOrdered(shown, sortConfig)
    {
      searchTerm := term;
      Refresh();
    }

    method HandleSort(key: string)
      modifies this
      ensures searchTerm == old(searchTerm) && sortConfig == NextSortConfig(old(sortConfig), key)
      ensures multiset(shown) == multiset(SearchFilter(items, searchTerm))
      ensures AdjacentOrdered(shown, sortConfig)
    {
      sortConfig := NextSortConfig(sortConfig, key);
      Refresh();
    }
  }
}
