/** The complete scan behind field-sorted searches: page-wise collection, the unordered
    de-duplication, the final sort by one key after another, and the search_after cursor. */
module Scan {
  import opened Options
  import opened Values
  import opened Ranking
  import opened Hits
  import opened Sequences
  import opened Scrolling

  function After(show: Printer, sorts: seq<SortSpec>, cursor: Option<seq<Json>>): Hit -> bool {
    (h: Hit) => cursor.None? || HitIsAfter(show, h, cursor.value, sorts)
  }

  /** The documents a search may return: past the post filter and past the cursor. */
  function Selected(show: Printer, sorts: seq<SortSpec>, passes: Hit -> bool, cursor: Option<seq<Json>>,
                    documents: seq<Hit>): seq<Hit> {
    Filter(After(show, sorts, cursor), Filter(passes, documents))
  }

  lemma SelectedAppend(show: Printer, sorts: seq<SortSpec>, passes: Hit -> bool, cursor: Option<seq<Json>>,
                       documents: seq<Hit>, more: seq<Hit>)
    ensures Selected(show, sorts, passes, cursor, documents + more)
         == Selected(show, sorts, passes, cursor, documents) + Selected(show, sorts, passes, cursor, more)
  {
    FilterAppend(passes, documents, more);
    FilterAppend(After(show, sorts, cursor), Filter(passes, documents), Filter(passes, more));
  }

  lemma SelectedElements(show: Printer, sorts: seq<SortSpec>, passes: Hit -> bool, cursor: Option<seq<Json>>,
                         documents: seq<Hit>)
    ensures forall h :: h in Selected(show, sorts, passes, cursor, documents)
                        <==> h in documents && passes(h) && After(show, sorts, cursor)(h)
    ensures NoDup(documents) ==> NoDup(Selected(show, sorts, passes, cursor, documents))
  {
    FilterElements(passes, documents);
    FilterElements(After(show, sorts, cursor), Filter(passes, documents));
  }

  /** One page's points against the filters, in order. */
  method ScanPage(show: Printer, sorts: seq<SortSpec>, passes: Hit -> bool, cursor: Option<seq<Json>>,
                  points: seq<Hit>)
    returns (selected: seq<Hit>, passed: nat)
    ensures selected == Selected(show, sorts, passes, cursor, points)
    ensures passed == |Filter(passes, points)|
  {
    selected, passed := [], 0;
    for p := 0 to |points|
      invariant selected == Selected(show, sorts, passes, cursor, points[..p])
      invariant passed == |Filter(passes, points[..p])|
    {
      var hit := points[p];
      assert points[..p + 1][..p] == points[..p];
      if !passes(hit) {
        continue;
      }
      passed := passed + 1;
      assert Filter(passes, points[..p + 1]) == Filter(passes, points[..p]) + [hit];
      assert Filter(passes, points[..p + 1])[..|Filter(passes, points[..p])|] == Filter(passes, points[..p]);
      if cursor.Some? && !HitIsAfter(show, hit, cursor.value, sorts) {
        continue;
      }
      selected := selected + [hit];
    }
    assert points[..|points|] == points;
  }

  /** The first `window` of all selected documents, in sort order with ties by id. */
  function Best(show: Printer, sorts: seq<SortSpec>, passes: Hit -> bool, cursor: Option<seq<Json>>,
                documents: seq<Hit>, window: nat): seq<Hit> {
    Take(Sort(BySpecsAndId(show, sorts), Selected(show, sorts, passes, cursor, documents)), window)
  }

  lemma ScanStart(show: Printer, sorts: seq<SortSpec>, passes: Hit -> bool, cursor: Option<seq<Json>>,
                  pages: seq<Page<Hit>>, window: nat)
    ensures Best(show, sorts, passes, cursor, AllPoints(pages[..0]), window) == []
    ensures Filter(passes, AllPoints(pages[..0])) == []
  {
  }

  lemma ScanStep(show: Printer, sorts: seq<SortSpec>, passes: Hit -> bool, cursor: Option<seq<Json>>,
                 pages: seq<Page<Hit>>, i: nat, window: nat, pool: iset<Hit>)
    requires i < |pages|
    requires Prints(show) && Sortable(sorts, pool) && DistinctIds(pool) && From(AllPoints(pages), pool)
    ensures Best(show, sorts, passes, cursor, AllPoints(pages[..i + 1]), window)
         == Take(Sort(BySpecsAndId(show, sorts), Best(show, sorts, passes, cursor, AllPoints(pages[..i]), window)
                                                 + Selected(show, sorts, passes, cursor, pages[i].points)), window)
    ensures |Filter(passes, AllPoints(pages[..i + 1]))|
         == |Filter(passes, AllPoints(pages[..i]))| + |Filter(passes, pages[i].points)|
  {
    var seen := AllPoints(pages[..i]);
    AllPointsStep(pages, i);
    FilterAppend(passes, seen, pages[i].points);
    SelectedAppend(show, sorts, passes, cursor, seen, pages[i].points);
    PrefixFrom(show, sorts, passes, cursor, pages, i, pool);
    HitsTotallyOrdered(show, sorts, pool);
    PageStep(BySpecsAndId(show, sorts), Selected(show, sorts, passes, cursor, seen),
             Selected(show, sorts, passes, cursor, pages[i].points), window, pool);
  }

  /** The scan keeps only the best `window` hits after each page, and still ends with the first
      `window` of everything; its total counts every document past the post filter, whatever
      the truncation and the cursor did. It fails exactly when the scroll stops advancing. */
  method CompleteScan(show: Printer, sorts: seq<SortSpec>, passes: Hit -> bool, cursor: Option<seq<Json>>,
                      pages: seq<Page<Hit>>, window: nat, ghost pool: iset<Hit>)
    returns (advanced: bool, hits: seq<Hit>, total: nat)
    requires IsScroll(pages)
    requires Prints(show) && Sortable(sorts, pool) && DistinctIds(pool) && From(AllPoints(pages), pool)
    ensures advanced <==> Advances(pages)
    ensures advanced ==> hits == Best(show, sorts, passes, cursor, AllPoints(pages), window)
    ensures advanced ==> total == |Filter(passes, AllPoints(pages))|
  {
    hide AllPoints, Filter, Selected, Best, Sort, SortOnto, Take, Sortable, DistinctIds, From, Prints, CompareHits, ValueCmp;
    hits, total := [], 0;
    var offset: Option<string> := None;
    var i := 0;
    ScanStart(show, sorts, passes, cursor, pages, window);
    while true
      invariant 0 <= i < |pages|
      invariant offset == OffsetOf(pages, i)
      invariant hits == Best(show, sorts, passes, cursor, AllPoints(pages[..i]), window)
      invariant total == |Filter(passes, AllPoints(pages[..i]))|
      invariant forall j :: 0 <= j < i ==> pages[j].points != [] && pages[j].next != OffsetOf(pages, j)
      decreases |pages| - i
    {
      var selected, passed := ScanPage(show, sorts, passes, cursor, pages[i].points);
      ScanStep(show, sorts, passes, cursor, pages, i, window, pool);
      hits := Take(Sort(BySpecsAndId(show, sorts), hits + selected), window);
      total := total + passed;
      if pages[i].next.None? {
        assert pages[..i + 1] == pages;
        return true, hits, total;
      }
      if pages[i].next == offset || pages[i].points == [] {
        return false, hits, total;
      }
      offset := pages[i].next;
      i := i + 1;
    }
  }

  lemma PrefixFrom(show: Printer, sorts: seq<SortSpec>, passes: Hit -> bool, cursor: Option<seq<Json>>,
                   pages: seq<Page<Hit>>, i: nat, pool: iset<Hit>)
    requires i <= |pages| && From(AllPoints(pages), pool)
    ensures From(Selected(show, sorts, passes, cursor, AllPoints(pages[..i])), pool)
  {
    AllPointsPrefix(pages, i);
    SelectedElements(show, sorts, passes, cursor, AllPoints(pages[..i]));
  }

  // ---------------------------------------------------------------- one sort key after another

  /** Stable sorts from the last key to the first. */
  function SortKeyByKey(show: Printer, sorts: seq<SortSpec>, s: seq<Hit>): seq<Hit> {
    if sorts == [] then s else Sort(ByField(show, sorts[0]), SortKeyByKey(show, sorts[1..], s))
  }

  function Place<T(==)>(s: seq<T>, x: T): nat {
    if s == [] then 0 else if s[0] == x then 0 else 1 + Place(s[1..], x)
  }

  lemma {:induction false} PlaceOf<T>(s: seq<T>, i: nat)
    requires NoDup(s) && i < |s|
    ensures Place(s, s[i]) == i
  {
    if i > 0 {
      assert forall k :: 0 <= k < |s[1..]| ==> s[1..][k] == s[k + 1];
      PlaceOf(s[1..], i - 1);
    }
  }

  /** The specifications, then the position in the original list. */
  function SpecsThenPlace(show: Printer, sorts: seq<SortSpec>, s: seq<Hit>): Cmp<Hit> {
    (a: Hit, b: Hit) => Then(CompareBySpecs(show, sorts, a, b), CmpInt(Place(s, a), Place(s, b)))
  }

  function ByPlace(s: seq<Hit>): Cmp<Hit> {
    (a: Hit, b: Hit) => CmpInt(Place(s, a), Place(s, b))
  }

  function Members<T(!new)>(s: seq<T>): iset<T> {
    iset x | x in s
  }

  lemma SpecsThenPlaceOrders(show: Printer, sorts: seq<SortSpec>, s: seq<Hit>, pool: iset<Hit>)
    requires Prints(show) && Sortable(sorts, pool) && From(s, pool) && NoDup(s)
    ensures Preorder(SpecsThenPlace(show, sorts, s), Members(s)) && Separates(SpecsThenPlace(show, sorts, s), Members(s))
  {
    SpecsPreorder(show, sorts, pool);
    Narrow(BySpecs(show, sorts), Members(s), pool);
    LexicographicPreorder(BySpecs(show, sorts), ByPlace(s), SpecsThenPlace(show, sorts, s), Members(s));
    forall a, b | a in s && b in s && Place(s, a) == Place(s, b)
      ensures a == b
    {
      var i :| 0 <= i < |s| && s[i] == a;
      var j :| 0 <= j < |s| && s[j] == b;
      PlaceOf(s, i);
      PlaceOf(s, j);
    }
  }

  lemma Narrow<T(!new)>(cmp: Cmp<T>, small: iset<T>, pool: iset<T>)
    requires Preorder(cmp, pool) && small <= pool
    ensures Preorder(cmp, small)
  {
  }

  lemma {:induction false} KeyByKeySorted(show: Printer, sorts: seq<SortSpec>, s: seq<Hit>, pool: iset<Hit>)
    requires Prints(show) && Sortable(sorts, pool) && From(s, pool) && NoDup(s)
    ensures Sorted(SpecsThenPlace(show, sorts, s), SortKeyByKey(show, sorts, s))
    ensures multiset(SortKeyByKey(show, sorts, s)) == multiset(s)
    decreases |sorts|
  {
    if sorts == [] {
      forall i | 0 <= i < |s|
        ensures Place(s, s[i]) == i
      {
        PlaceOf(s, i);
      }
    } else {
      var rest := sorts[1..];
      assert forall k :: 0 <= k < |rest| ==> rest[k] == sorts[k + 1];
      KeyByKeySorted(show, rest, s, pool);
      var t := SortKeyByKey(show, rest, s);
      SameElements(s, t, pool);
      assert FieldSortable(sorts[0].field, pool);
      FieldPreorder(show, sorts[0], pool);
      var earlier := (a: Hit, b: Hit) => !SpecsThenPlace(show, rest, s)(a, b).Greater?;
      SortIsStable(ByField(show, sorts[0]), t, pool, earlier);
      ByFieldThenRest(show, sorts, s, Sort(ByField(show, sorts[0]), t), earlier);
    }
  }

  lemma ByFieldThenRest(show: Printer, sorts: seq<SortSpec>, s: seq<Hit>, u: seq<Hit>, earlier: (Hit, Hit) -> bool)
    requires sorts != [] && Sorted(ByField(show, sorts[0]), u) && KeepsAmongEquals(ByField(show, sorts[0]), u, earlier)
    requires forall a, b :: earlier(a, b) == !SpecsThenPlace(show, sorts[1..], s)(a, b).Greater?
    ensures Sorted(SpecsThenPlace(show, sorts, s), u)
  {
    forall i, j | 0 <= i < j < |u|
      ensures !SpecsThenPlace(show, sorts, s)(u[i], u[j]).Greater?
    {
      var o := ByField(show, sorts[0])(u[i], u[j]);
      assert !o.Greater? && (o.Equal? ==> earlier(u[i], u[j]));
    }
  }

  /** Least significant key first with stable sorts is one stable sort by the whole comparator,
      with mixed directions and whatever ties there are. */
  lemma KeyByKeyIsLexicographic(show: Printer, sorts: seq<SortSpec>, s: seq<Hit>, pool: iset<Hit>)
    requires Prints(show) && Sortable(sorts, pool) && From(s, pool) && NoDup(s)
    ensures SortKeyByKey(show, sorts, s) == Sort(BySpecs(show, sorts), s)
  {
    var cmp := SpecsThenPlace(show, sorts, s);
    KeyByKeySorted(show, sorts, s, pool);
    SpecsThenPlaceOrders(show, sorts, s, pool);
    SpecsPreorder(show, sorts, pool);
    var earlier := (a: Hit, b: Hit) => Place(s, a) <= Place(s, b);
    forall i, j | 0 <= i < j < |s|
      ensures earlier(s[i], s[j])
    {
      PlaceOf(s, i);
      PlaceOf(s, j);
    }
    SortIsStable(BySpecs(show, sorts), s, pool, earlier);
    var t, u := Sort(BySpecs(show, sorts), s), SortKeyByKey(show, sorts, s);
    SameElements(s, t, Members(s));
    SameElements(s, u, Members(s));
    forall i, j | 0 <= i < j < |t|
      ensures !cmp(t[i], t[j]).Greater?
    {
      var o := BySpecs(show, sorts)(t[i], t[j]);
      assert !o.Greater? && (o.Equal? ==> earlier(t[i], t[j]));
    }
    SortedIsUnique(cmp, t, u, Members(s));
  }
}
