/** The ordered-scroll fast path for one numeric sort field, against the complete scan. */
module OrderedScroll {
  import opened Options
  import opened Values
  import opened Ranking
  import opened Hits
  import opened Sequences
  import opened Scan
  import opened Scrolling
  import opened SearchPages
  import opened Markers

  // ---------------------------------------------------------------- stored points

  function HitOf(p: Payload): Hit {
    Hit(match GetField(p, "_es_id") case Some(Str(id)) => id case _ => "",
        match GetField(p, "_source") case Some(source) => source case None => Null)
  }

  function HitsOf(points: seq<Payload>): seq<Hit> {
    seq(|points|, i requires 0 <= i < |points| => HitOf(points[i]))
  }

  /** A stored document is found as itself, unless its mapping copies fields over these. */
  lemma HitOfDocument(arrange: Arrangement, source: Json, id: string, index: string, properties: Properties)
    requires "_es_id" !in properties
    ensures HitOf(DocumentPayload(arrange, source, id, index, properties)) == Hit(id, source)
    ensures "_es_index" !in properties ==> GetField(DocumentPayload(arrange, source, id, index, properties), "_es_index") == Some(Str(index))
  {
  }

  ghost predicate DistinctPoints(points: seq<Payload>) {
    forall i, j :: 0 <= i < j < |points| ==> HitOf(points[i]).id != HitOf(points[j]).id
  }

  /** The range clause a cursor adds. */
  predicate InRange(p: Payload, spec: SortSpec, cursor: Option<Json>) {
    && spec.field in p && IsNumber(p[spec.field])
    && (cursor.Some? && IsNumber(cursor.value) ==>
          if spec.descending then NumberOf(p[spec.field]) < NumberOf(cursor.value)
          else NumberOf(p[spec.field]) > NumberOf(cursor.value))
  }

  predicate NotBehind(p: Payload, q: Payload, spec: SortSpec) {
    spec.field in p && spec.field in q && IsNumber(p[spec.field]) && IsNumber(q[spec.field])
    && if spec.descending then NumberOf(p[spec.field]) >= NumberOf(q[spec.field])
       else NumberOf(p[spec.field]) <= NumberOf(q[spec.field])
  }

  function Eligible(matches: Payload -> bool, spec: SortSpec, cursor: Option<Json>): Payload -> bool {
    (p: Payload) => matches(p) && InRange(p, spec, cursor)
  }

  function Min(a: nat, b: nat): nat { if a < b then a else b }

  /** An ordered scroll returns `limit` extreme points, ties among them and at the edge in any order. */
  ghost predicate IsOrderedScroll(answer: seq<Payload>, stored: seq<Payload>, matches: Payload -> bool, spec: SortSpec,
                                  cursor: Option<Json>, limit: nat) {
    var eligible := Filter(Eligible(matches, spec, cursor), stored);
    && NoDup(answer) && (forall p :: p in answer ==> p in eligible)
    && |answer| == Min(limit, |eligible|)
    && forall p, q :: p in answer && q in eligible && q !in answer ==> NotBehind(p, q, spec)
  }

  /** The eligibility probe comes back empty exactly when every matching point carries the marker. */
  ghost predicate Covered(stored: seq<Payload>, matches: Payload -> bool, field: string) {
    forall p :: p in stored && matches(p) ==> Marked(p, NumberMarker(field))
  }

  // ---------------------------------------------------------------- the fast path

  datatype SearchShape = SearchShape(projection: bool, postFilter: bool, collapse: bool)

  predicate FieldAllowed(properties: Properties, field: string) {
    && '.' !in field && '[' !in field && ']' !in field
    && field in properties && IsNumericType(FieldType(properties[field]))
  }

  predicate Applies(shape: SearchShape, properties: Properties, sorts: seq<SortSpec>, cursor: Option<seq<Json>>, window: nat) {
    && !shape.projection && !shape.postFilter && !shape.collapse && !IsLegacy(properties)
    && |sorts| == 1 && window > 0 && FieldAllowed(properties, sorts[0].field)
    && (cursor.Some? && cursor.value != [] ==> SortSafeNumber(cursor.value[0]))
  }

  /** Exactly: no projection, post filter or collapse, hits asked for, one sort key that is a numeric field
      with a plain name, a mapping without the reserved field, and a cursor that starts with an exact number. */
  lemma AppliesIff(shape: SearchShape, properties: Properties, sorts: seq<SortSpec>, cursor: Option<seq<Json>>, window: nat)
    ensures Applies(shape, properties, sorts, cursor, window) <==>
            && shape == SearchShape(false, false, false) && window > 0 && "_qeg_fast_fields" !in properties && |sorts| == 1
            && (forall i :: 0 <= i < |sorts[0].field| ==> sorts[0].field[i] !in {'.', '[', ']'})
            && Declared(properties, sorts[0].field, {"integer", "long", "short", "byte", "float", "double"})
            && (cursor.Some? && cursor.value != [] ==> Exact(cursor.value[0]))
  {
    if |sorts| == 1 {
      var field := sorts[0].field;
      NumericIff(properties, field);
      assert forall c :: c in field <==> exists i :: 0 <= i < |field| && field[i] == c;
    }
    if cursor.Some? && cursor.value != [] {
      ExactIff(cursor.value[0]);
    }
    hide Declared, FieldType, IsNumericType, SortSafeNumber, Exact;
  }

  function FirstOf(cursor: Option<seq<Json>>): Option<Json> {
    match cursor case Some(values) => (if values == [] then None else Some(values[0])) case None => None
  }

  function Tied(show: Printer, a: Hit, b: Hit, field: string): bool {
    ValueCmp(show, SortValue(a, field), SortValue(b, field)).Equal?
  }

  /** `uncovered` is the probe's answer, `answer` the speculative ordered scroll's. */
  method OrderedNumericHits(show: Printer, shape: SearchShape, properties: Properties, sorts: seq<SortSpec>,
                            cursor: Option<seq<Json>>, window: nat, uncovered: seq<Payload>, answer: seq<Payload>)
    returns (r: Option<seq<Hit>>)
    ensures r == OrderedResult(show, shape, properties, sorts, cursor, window, uncovered, answer)
  {
    if shape.projection || IsLegacy(properties) || |sorts| != 1 || window == 0 || shape.postFilter || shape.collapse {
      return None;
    }
    var field := sorts[0].field;
    if '.' in field || '[' in field || ']' in field || field !in properties || !IsNumericType(FieldType(properties[field])) {
      return None;
    }
    if FirstOf(cursor).Some? && !SortSafeNumber(FirstOf(cursor).value) {
      return None;
    }
    if uncovered != [] {
      return None;
    }
    var hits := HitsOf(answer);
    if exists h :: h in hits && !SortSafeNumber(SortValue(h, field)) {
      return None;
    }
    hits := Sort(BySpecsAndId(show, sorts), hits);
    SortKeeps(BySpecsAndId(show, sorts), [], HitsOf(answer));
    if |hits| > window && Tied(show, hits[window - 1], hits[window], field) {
      return None;
    }
    r := Some(Take(hits, window));
  }

  function OrderedResult(show: Printer, shape: SearchShape, properties: Properties, sorts: seq<SortSpec>,
                         cursor: Option<seq<Json>>, window: nat, uncovered: seq<Payload>, answer: seq<Payload>): Option<seq<Hit>>
  {
    var hits := Sort(BySpecsAndId(show, sorts), HitsOf(answer));
    if !Applies(shape, properties, sorts, cursor, window) || uncovered != [] then None
    else if exists h :: h in HitsOf(answer) && !SortSafeNumber(SortValue(h, sorts[0].field)) then None
    else if |hits| > window && Tied(show, hits[window - 1], hits[window], sorts[0].field) then None
    else Some(Take(hits, window))
  }

  // ---------------------------------------------------------------- covered points are numbers

  ghost predicate AllNumbersSound(stored: seq<Payload>, properties: Properties) {
    forall p :: p in stored ==> NumbersSound(p, properties)
  }

  lemma CoveredValue(p: Payload, properties: Properties, field: string)
    requires NumbersSound(p, properties) && Marked(p, NumberMarker(field)) && FieldAllowed(properties, field)
    ensures field in p && SortSafeNumber(p[field]) && SortValue(HitOf(p), field) == p[field]
  {
    assert "_id"[..1] == "_" && "_score"[..1] == "_";
    PlainField(p["_source"], field);
  }

  lemma EligibleIsAfter(show: Printer, p: Payload, properties: Properties, spec: SortSpec, cursor: Option<seq<Json>>)
    requires NumbersSound(p, properties) && Marked(p, NumberMarker(spec.field)) && FieldAllowed(properties, spec.field)
    requires cursor.Some? ==> |cursor.value| == 1 && SortSafeNumber(cursor.value[0])
    ensures InRange(p, spec, FirstOf(cursor)) <==> After(show, [spec], cursor)(HitOf(p))
  {
    CoveredValue(p, properties, spec.field);
    if cursor.Some? {
      var h, c := HitOf(p), cursor.value;
      NumbersCompareExactly(show, p[spec.field], c[0]);
      assert !HitIsAfter(show, h, c[1..], [spec][1..]);
      var order := ValueCmp(show, SortValue(h, spec.field), c[0]);
      assert order == CmpReal(NumberOf(p[spec.field]), NumberOf(c[0]));
      assert HitIsAfter(show, h, c, [spec]) <==> if spec.descending then order.Less? else order.Greater?;
    }
  }

  lemma {:induction false} EligibleHits(show: Printer, stored: seq<Payload>, matches: Payload -> bool, properties: Properties,
                                        spec: SortSpec, cursor: Option<seq<Json>>)
    requires AllNumbersSound(stored, properties) && Covered(stored, matches, spec.field)
    requires FieldAllowed(properties, spec.field)
    requires cursor.Some? ==> |cursor.value| == 1 && SortSafeNumber(cursor.value[0])
    ensures HitsOf(Filter(Eligible(matches, spec, FirstOf(cursor)), stored))
         == Filter(After(show, [spec], cursor), HitsOf(Filter(matches, stored)))
    decreases |stored|
  {
    if stored != [] {
      var front, p := stored[..|stored| - 1], stored[|stored| - 1];
      assert forall q :: q in front ==> q in stored;
      EligibleHits(show, front, matches, properties, spec, cursor);
      hide InRange, HitIsAfter;
      if matches(p) {
        EligibleIsAfter(show, p, properties, spec, cursor);
        var kept := Filter(matches, front);
        assert HitsOf(kept + [p]) == HitsOf(kept) + [HitOf(p)];
        assert HitsOf(kept + [p])[..|kept|] == HitsOf(kept);
        var chosen := Filter(Eligible(matches, spec, FirstOf(cursor)), front);
        assert HitsOf(chosen + [p]) == HitsOf(chosen) + [HitOf(p)];
      }
    }
  }

  // ---------------------------------------------------------------- the extreme window+1

  /** `finer` breaks the ties of `coarse`. */
  ghost predicate Refines<T(!new)>(finer: Cmp<T>, coarse: Cmp<T>) {
    forall a, b :: (coarse(a, b).Less? ==> finer(a, b).Less?) && (!finer(a, b).Greater? ==> !coarse(a, b).Greater?)
  }

  ghost predicate IsTop<T(!new)>(coarse: Cmp<T>, top: seq<T>, all: seq<T>) {
    && NoDup(top) && (forall x :: x in top ==> x in all)
    && forall x, y :: x in top && y in all && y !in top ==> !coarse(x, y).Greater?
  }

  function Rest<T(==)>(all: seq<T>, top: seq<T>): seq<T> {
    Filter(x => x !in top, all)
  }

  lemma TopAndRest<T(!new)>(all: seq<T>, top: seq<T>)
    requires NoDup(all) && NoDup(top) && forall x :: x in top ==> x in all
    ensures multiset(top) + multiset(Rest(all, top)) == multiset(all)
    ensures forall x :: x in Rest(all, top) <==> x in all && x !in top
  {
    var rest := Rest(all, top);
    FilterElements(x => x !in top, all);
    var both := top + rest;
    forall i, j | 0 <= i < j < |both|
      ensures both[i] != both[j]
    {
      if i < |top| && j >= |top| {
        assert both[j] == rest[j - |top|] && rest[j - |top|] in rest;
        assert both[i] in top;
      }
    }
    forall x
      ensures x in all <==> x in both
    {
    }
    SameSet(all, both);
    assert multiset(both) == multiset(top) + multiset(rest);
  }

  /** A sorted list in front of a sorted rest that is nowhere before it is sorted. */
  lemma SortedAppend<T(!new)>(cmp: Cmp<T>, s: seq<T>, t: seq<T>)
    requires Sorted(cmp, s) && Sorted(cmp, t)
    requires forall x, y :: x in s && y in t ==> !cmp(x, y).Greater?
    ensures Sorted(cmp, s + t)
  {
    forall i, j | 0 <= i < j < |s + t|
      ensures !cmp((s + t)[i], (s + t)[j]).Greater?
    {
      if i < |s| && j >= |s| {
        assert s[i] in s && t[j - |s|] in t;
      }
    }
  }

  /** Elements before all others, sorted, are what the sort of everything starts with. */
  lemma PrefixOfSort<T(!new)>(cmp: Cmp<T>, all: seq<T>, top: seq<T>, pool: iset<T>)
    requires Preorder(cmp, pool) && Separates(cmp, pool) && From(all, pool) && NoDup(all)
    requires Sorted(cmp, top) && NoDup(top) && (forall x :: x in top ==> x in all)
    requires forall x, y :: x in top && y in all && y !in top ==> !cmp(x, y).Greater?
    ensures Take(Sort(cmp, all), |top|) == top
  {
    var rest := Rest(all, top);
    TopAndRest(all, top);
    SortIsSorted(cmp, rest, pool);
    SortIsSorted(cmp, all, pool);
    var tail := Sort(cmp, rest);
    forall y | y in tail
      ensures y in rest
    {
      assert y in multiset(rest);
    }
    SortedAppend(cmp, top, tail);
    assert multiset(top + tail) == multiset(all);
    SameElements(all, Sort(cmp, all), pool);
    SortedIsUnique(cmp, Sort(cmp, all), top + tail, pool);
  }

  /** The value order of the sorted top agrees with the value order of the whole listing. */
  lemma TopAgreesUpToTies<T(!new)>(finer: Cmp<T>, coarse: Cmp<T>, all: seq<T>, top: seq<T>, pool: iset<T>)
    requires Preorder(finer, pool) && Preorder(coarse, pool) && Refines(finer, coarse)
    requires From(all, pool) && NoDup(all) && IsTop(coarse, top, all)
    ensures |Sort(finer, top)| == |top| <= |all| == |Sort(finer, all)|
    ensures forall i :: 0 <= i < |top| ==> coarse(Sort(finer, top)[i], Sort(finer, all)[i]).Equal?
  {
    var rest := Rest(all, top);
    TopAndRest(all, top);
    SortIsSorted(finer, top, pool);
    SortIsSorted(coarse, rest, pool);
    SortIsSorted(finer, all, pool);
    var head, tail, listing := Sort(finer, top), Sort(coarse, rest), Sort(finer, all);
    CoarselySorted(finer, coarse, head);
    CoarselySorted(finer, coarse, listing);
    SameMembers(top, head);
    SameMembers(rest, tail);
    SameMembers(all, listing);
    SortedAppend(coarse, head, tail);
    assert multiset(head + tail) == multiset(listing);
    SortedPermutationsAgree(coarse, head + tail, listing, pool);
    assert forall i :: 0 <= i < |head| ==> (head + tail)[i] == head[i];
  }

  lemma CoarselySorted<T(!new)>(finer: Cmp<T>, coarse: Cmp<T>, s: seq<T>)
    requires Refines(finer, coarse) && Sorted(finer, s)
    ensures Sorted(coarse, s)
  {
  }

  lemma SameMembers<T(!new)>(s: seq<T>, t: seq<T>)
    requires multiset(s) == multiset(t)
    ensures forall x :: x in s <==> x in t
  {
    forall x
      ensures x in s <==> x in t
    {
      assert x in multiset(s) <==> x in multiset(t);
    }
  }

  lemma TieTransfers<T(!new)>(coarse: Cmp<T>, a: T, b: T, x: T, y: T, pool: iset<T>)
    requires Preorder(coarse, pool) && a in pool && b in pool && x in pool && y in pool
    requires coarse(a, x).Equal? && coarse(b, y).Equal?
    ensures coarse(a, b).Equal? <==> coarse(x, y).Equal?
  {
    assert coarse(x, a) == Reverse(coarse(a, x)) && coarse(y, b) == Reverse(coarse(b, y));
    if coarse(a, b).Equal? {
      EqualsCompose(coarse, x, a, b, pool);
      EqualsCompose(coarse, x, b, y, pool);
    } else if coarse(x, y).Equal? {
      EqualsCompose(coarse, a, x, y, pool);
      EqualsCompose(coarse, a, y, b, pool);
    }
  }

  /** With no tie across the boundary, the first `window` of the top window+1 are the first
      `window` of everything. */
  lemma UntiedPrefix<T(!new)>(finer: Cmp<T>, coarse: Cmp<T>, all: seq<T>, top: seq<T>, window: nat, pool: iset<T>)
    requires Preorder(finer, pool) && Separates(finer, pool) && Preorder(coarse, pool) && Refines(finer, coarse)
    requires From(all, pool) && NoDup(all) && IsTop(coarse, top, all)
    requires 0 < window && |top| == window + 1
    requires |Sort(finer, top)| == |top| && !coarse(Sort(finer, top)[window - 1], Sort(finer, top)[window]).Equal?
    ensures Take(Sort(finer, top), window) == Take(Sort(finer, all), window)
  {
    SortIsSorted(finer, top, pool);
    var sorted := Sort(finer, top);
    SameMembers(top, sorted);
    PermutationNoDup(top, sorted);
    var kept := sorted[..window];
    var last, next := sorted[window - 1], sorted[window];
    assert last in sorted && next in sorted;
    forall x, y | x in kept && y in all && y !in kept
      ensures !finer(x, y).Greater?
    {
      assert x in sorted;
      assert !coarse(x, last).Greater? by {
        var i :| 0 <= i < window && kept[i] == x;
        assert !finer(last, last).Greater? by { assert finer(last, last) == Reverse(finer(last, last)); }
        assert i < window - 1 ==> !finer(sorted[i], sorted[window - 1]).Greater?;
      }
      assert coarse(last, next).Less? by { assert !finer(sorted[window - 1], sorted[window]).Greater?; }
      assert !coarse(next, y).Greater? by {
        if y in top {
          OnlyTheLast(sorted, window, y);
          assert coarse(next, next) == Reverse(coarse(next, next));
        }
      }
      StrictlyBefore(coarse, x, last, next, y, pool);
    }
    PrefixOfSort(finer, all, kept, pool);
  }

  lemma OnlyTheLast<T>(sorted: seq<T>, window: nat, y: T)
    requires |sorted| == window + 1 && y in sorted && y !in sorted[..window]
    ensures y == sorted[window]
  {
    assert sorted == sorted[..window] + [sorted[window]];
  }

  lemma StrictlyBefore<T(!new)>(coarse: Cmp<T>, x: T, last: T, next: T, y: T, pool: iset<T>)
    requires Preorder(coarse, pool) && x in pool && last in pool && next in pool && y in pool
    requires !coarse(x, last).Greater? && coarse(last, next).Less? && !coarse(next, y).Greater?
    ensures coarse(x, y).Less?
  {
    assert coarse(y, x) == Reverse(coarse(x, y)) && coarse(next, last) == Reverse(coarse(last, next));
    assert !coarse(y, x).Greater? ==> !coarse(y, last).Greater?;
    assert !coarse(y, last).Greater? ==> !coarse(next, last).Greater?;
  }

  /** All there is to the window+1 trick: the sorted top either is the whole listing, or shows a
      tie at the boundary exactly where the listing has one, or starts like the listing. */
  lemma TopDecides<T(!new)>(finer: Cmp<T>, coarse: Cmp<T>, all: seq<T>, top: seq<T>, window: nat, pool: iset<T>)
    requires Preorder(finer, pool) && Separates(finer, pool) && Preorder(coarse, pool) && Refines(finer, coarse)
    requires From(all, pool) && NoDup(all) && IsTop(coarse, top, all)
    requires 0 < window && |top| == Min(window + 1, |all|)
    ensures |Sort(finer, top)| == |top| && |Sort(finer, all)| == |all|
    ensures |all| <= window ==> Sort(finer, top) == Sort(finer, all)
    ensures |all| > window ==>
              (coarse(Sort(finer, top)[window - 1], Sort(finer, top)[window]).Equal?
               <==> coarse(Sort(finer, all)[window - 1], Sort(finer, all)[window]).Equal?)
    ensures |all| > window && !coarse(Sort(finer, all)[window - 1], Sort(finer, all)[window]).Equal? ==>
              Take(Sort(finer, top), window) == Take(Sort(finer, all), window)
  {
    TopAgreesUpToTies(finer, coarse, all, top, pool);
    if |all| > window {
      BoundaryTies(finer, coarse, all, top, window, pool);
      if !coarse(Sort(finer, all)[window - 1], Sort(finer, all)[window]).Equal? {
        UntiedPrefix(finer, coarse, all, top, window, pool);
      }
    } else {
      WholeTop(finer, all, top, pool);
    }
  }

  lemma BoundaryTies<T(!new)>(finer: Cmp<T>, coarse: Cmp<T>, all: seq<T>, top: seq<T>, window: nat, pool: iset<T>)
    requires Preorder(finer, pool) && Preorder(coarse, pool) && Refines(finer, coarse)
    requires From(all, pool) && NoDup(all) && IsTop(coarse, top, all)
    requires 0 < window && |top| == window + 1
    ensures |Sort(finer, top)| == |top| <= |Sort(finer, all)|
    ensures coarse(Sort(finer, top)[window - 1], Sort(finer, top)[window]).Equal?
       <==> coarse(Sort(finer, all)[window - 1], Sort(finer, all)[window]).Equal?
  {
    TopAgreesUpToTies(finer, coarse, all, top, pool);
    SortIsSorted(finer, top, pool);
    SortIsSorted(finer, all, pool);
    SameMembers(top, Sort(finer, top));
    SameMembers(all, Sort(finer, all));
    var a, b := Sort(finer, top)[window - 1], Sort(finer, top)[window];
    var x, y := Sort(finer, all)[window - 1], Sort(finer, all)[window];
    assert a in Sort(finer, top) && b in Sort(finer, top) && x in Sort(finer, all) && y in Sort(finer, all);
    TieTransfers(coarse, a, b, x, y, pool);
  }

  lemma WholeTop<T(!new)>(finer: Cmp<T>, all: seq<T>, top: seq<T>, pool: iset<T>)
    requires Preorder(finer, pool) && Separates(finer, pool) && From(all, pool) && NoDup(all)
    requires NoDup(top) && (forall x :: x in top ==> x in all) && |top| == |all|
    ensures Sort(finer, top) == Sort(finer, all)
  {
    TopAndRest(all, top);
    assert multiset(top + Rest(all, top)) == multiset(all);
    assert |top + Rest(all, top)| == |multiset(all)| == |all|;
    assert Rest(all, top) == [];
    SortIsSorted(finer, top, pool);
    SortIsSorted(finer, all, pool);
    assert multiset(Sort(finer, top)) == multiset(Sort(finer, all));
    SameMembers(top, Sort(finer, top));
    SortedIsUnique(finer, Sort(finer, top), Sort(finer, all), pool);
  }

  lemma TiedById(show: Printer, spec: SortSpec, x: Hit, y: Hit)
    requires BySpecs(show, [spec])(x, y).Equal?
    ensures BySpecsAndId(show, [spec])(x, y) == CmpString(x.id, y.id)
  {
    assert CompareBySpecs(show, [spec], x, y).Equal?;
  }

  /** Without the fallback a boundary tie can lose the smaller id: of any three documents tied on the
      sort field the backend may answer a window of one with the last two, and those start with the
      wrong one. */
  lemma TiesNeedTheFallback(show: Printer, spec: SortSpec, a: Hit, b: Hit, c: Hit)
    requires CmpString(a.id, b.id).Less? && CmpString(b.id, c.id).Less?
    requires forall x, y :: x in {a, b, c} && y in {a, b, c} ==> BySpecs(show, [spec])(x, y).Equal?
    ensures IsTop(BySpecs(show, [spec]), [b, c], [a, b, c])
    ensures Take(Sort(BySpecsAndId(show, [spec]), [b, c]), 1) == [b]
    ensures Take(Sort(BySpecsAndId(show, [spec]), [a, b, c]), 1) == [a]
  {
    StringOrder(a.id, b.id, c.id);
    StringOrder(b.id, c.id, a.id);
    StringOrder(c.id, a.id, b.id);
    StringOrder(a.id, a.id, a.id);
    var finer := BySpecsAndId(show, [spec]);
    TiedById(show, spec, a, b);
    TiedById(show, spec, b, c);
    TiedById(show, spec, a, c);
    hide CompareBySpecs, CompareHits, CmpString;
    SortSorted(finer, [b, c]);
    SortSorted(finer, [a, b, c]);
  }

  // ---------------------------------------------------------------- refinement of the complete scan

  lemma HitsOfFilter(stored: seq<Payload>, matches: Payload -> bool, h: Hit)
    ensures h in HitsOf(Filter(matches, stored)) <==> exists p :: p in stored && matches(p) && HitOf(p) == h
  {
    FilterElements(matches, stored);
    var ps := Filter(matches, stored);
    if h in HitsOf(ps) {
      var i :| 0 <= i < |ps| && HitsOf(ps)[i] == h;
      assert ps[i] in ps;
    }
    if p :| p in stored && matches(p) && HitOf(p) == h {
      var i :| 0 <= i < |ps| && ps[i] == p;
      assert HitsOf(ps)[i] == h;
    }
  }

  lemma {:induction false} DistinctHits(stored: seq<Payload>, matches: Payload -> bool)
    requires DistinctPoints(stored)
    ensures NoDup(HitsOf(Filter(matches, stored)))
    ensures forall p, q :: p in stored && q in stored && HitOf(p).id == HitOf(q).id ==> p == q
    decreases |stored|
  {
    if stored != [] {
      var front, p := stored[..|stored| - 1], stored[|stored| - 1];
      DistinctHits(front, matches);
      assert stored == front + [p];
      forall q | q in front
        ensures HitOf(q).id != HitOf(p).id
      {
        var i :| 0 <= i < |front| && front[i] == q;
        assert stored[i] == q;
      }
      var kept := HitsOf(Filter(matches, front));
      forall i | 0 <= i < |kept|
        ensures kept[i].id != HitOf(p).id
      {
        assert kept[i] in kept;
        HitsOfFilter(front, matches, kept[i]);
      }
      if matches(p) {
        assert HitsOf(Filter(matches, stored)) == kept + [HitOf(p)];
      }
    }
  }

  /** The documents the complete scan would rank, and why its order is total on them. */
  lemma CandidatesOrdered(show: Printer, stored: seq<Payload>, matches: Payload -> bool, properties: Properties,
                          spec: SortSpec, pool: iset<Hit>)
    requires Prints(show) && DistinctPoints(stored) && AllNumbersSound(stored, properties)
    requires Covered(stored, matches, spec.field) && FieldAllowed(properties, spec.field)
    requires pool == Members(HitsOf(Filter(matches, stored)))
    ensures Sortable([spec], pool) && DistinctIds(pool)
    ensures Preorder(BySpecs(show, [spec]), pool) && Preorder(BySpecsAndId(show, [spec]), pool)
    ensures Separates(BySpecsAndId(show, [spec]), pool)
  {
    DistinctHits(stored, matches);
    assert KindsOk({NumberKind});
    forall h | h in pool
      ensures Among(SortValue(h, spec.field), {NumberKind})
    {
      HitsOfFilter(stored, matches, h);
      var p :| p in stored && matches(p) && HitOf(p) == h;
      CoveredValue(p, properties, spec.field);
    }
    assert FieldSortable(spec.field, pool);
    forall a, b | a in pool && b in pool && a.id == b.id
      ensures a == b
    {
      HitsOfFilter(stored, matches, a);
      HitsOfFilter(stored, matches, b);
    }
    SpecsPreorder(show, [spec], pool);
    HitsTotallyOrdered(show, [spec], pool);
  }

  lemma ById(show: Printer, spec: SortSpec)
    ensures Refines(BySpecsAndId(show, [spec]), BySpecs(show, [spec]))
  {
  }

  /** The backend's extreme points are, as hits, a top of the candidates. */
  lemma ScrollIsTop(show: Printer, stored: seq<Payload>, matches: Payload -> bool, properties: Properties, spec: SortSpec,
                    cursor: Option<seq<Json>>, limit: nat, answer: seq<Payload>)
    requires DistinctPoints(stored) && AllNumbersSound(stored, properties)
    requires Covered(stored, matches, spec.field) && FieldAllowed(properties, spec.field)
    requires cursor.Some? ==> |cursor.value| == 1 && SortSafeNumber(cursor.value[0])
    requires IsOrderedScroll(answer, stored, matches, spec, FirstOf(cursor), limit)
    ensures var all := Filter(After(show, [spec], cursor), HitsOf(Filter(matches, stored)));
            && IsTop(BySpecs(show, [spec]), HitsOf(answer), all) && |HitsOf(answer)| == Min(limit, |all|)
            && forall h :: h in HitsOf(answer) ==> SortSafeNumber(SortValue(h, spec.field))
  {
    var eligible := Filter(Eligible(matches, spec, FirstOf(cursor)), stored);
    EligibleHits(show, stored, matches, properties, spec, cursor);
    FilterElements(Eligible(matches, spec, FirstOf(cursor)), stored);
    DistinctHits(stored, matches);
    var all, top := HitsOf(eligible), HitsOf(answer);
    hide Filter, InRange, NumbersSound;
    forall h | h in all
      ensures exists p :: p in eligible && HitOf(p) == h
    {
      var i :| 0 <= i < |eligible| && all[i] == h;
      assert eligible[i] in eligible;
    }
    forall h | h in top
      ensures exists p :: p in answer && HitOf(p) == h
    {
      var i :| 0 <= i < |answer| && top[i] == h;
      assert answer[i] in answer;
    }
    forall p | p in answer
      ensures HitOf(p) in top
    {
      var i :| 0 <= i < |answer| && answer[i] == p;
      assert top[i] == HitOf(p);
    }
    forall h | h in top
      ensures h in all && SortSafeNumber(SortValue(h, spec.field))
    {
      var p :| p in answer && HitOf(p) == h;
      var i :| 0 <= i < |eligible| && eligible[i] == p;
      assert all[i] == h;
      assert Eligible(matches, spec, FirstOf(cursor))(p);
      CoveredValue(p, properties, spec.field);
    }
    forall x, y | x in top && y in all && y !in top
      ensures !BySpecs(show, [spec])(x, y).Greater?
    {
      var p :| p in answer && HitOf(p) == x;
      var q :| q in eligible && HitOf(q) == y;
      assert Eligible(matches, spec, FirstOf(cursor))(p) && Eligible(matches, spec, FirstOf(cursor))(q);
      BackendOrder(show, p, q, properties, spec);
    }
    forall i, j | 0 <= i < j < |top|
      ensures top[i] != top[j]
    {
      assert answer[i] in answer && answer[j] in answer;
    }
  }

  lemma BackendOrder(show: Printer, p: Payload, q: Payload, properties: Properties, spec: SortSpec)
    requires NumbersSound(p, properties) && Marked(p, NumberMarker(spec.field)) && FieldAllowed(properties, spec.field)
    requires NumbersSound(q, properties) && Marked(q, NumberMarker(spec.field)) && NotBehind(p, q, spec)
    ensures !BySpecs(show, [spec])(HitOf(p), HitOf(q)).Greater?
  {
    CoveredValue(p, properties, spec.field);
    CoveredValue(q, properties, spec.field);
    NumbersCompareExactly(show, p[spec.field], q[spec.field]);
    assert CompareBySpecs(show, [spec][1..], HitOf(p), HitOf(q)) == Equal;
  }

  /** The fast path answers exactly when it applies, every matching point is covered and no tie
      crosses the window's edge; and then it is the complete scan's answer. */
  lemma FastPathRefinesScan(show: Printer, shape: SearchShape, properties: Properties, sorts: seq<SortSpec>,
                            cursor: Option<seq<Json>>, window: nat, stored: seq<Payload>, matches: Payload -> bool,
                            uncovered: seq<Payload>, answer: seq<Payload>)
    requires Prints(show) && DistinctPoints(stored) && AllNumbersSound(stored, properties)
    requires CursorAccepted(cursor, sorts, 0)
    requires sorts != [] ==> (uncovered == [] <==> Covered(stored, matches, sorts[0].field))
    requires sorts != [] && uncovered == [] ==>
               IsOrderedScroll(answer, stored, matches, sorts[0], FirstOf(cursor), window + 1)
    ensures var r := OrderedResult(show, shape, properties, sorts, cursor, window, uncovered, answer);
            var listing := Listing(show, sorts, (h: Hit) => true, cursor, HitsOf(Filter(matches, stored)));
            && (r.Some? <==> && Applies(shape, properties, sorts, cursor, window)
                             && Covered(stored, matches, sorts[0].field)
                             && !(|listing| > window && Tied(show, listing[window - 1], listing[window], sorts[0].field)))
            && (r.Some? ==> r.value == Take(listing, window))
  {
    if Applies(shape, properties, sorts, cursor, window) && uncovered == [] {
      CoveredFastPath(show, shape, properties, sorts, cursor, window, stored, matches, answer);
    }
  }

  lemma CoveredFastPath(show: Printer, shape: SearchShape, properties: Properties, sorts: seq<SortSpec>,
                        cursor: Option<seq<Json>>, window: nat, stored: seq<Payload>, matches: Payload -> bool,
                        answer: seq<Payload>)
    requires Prints(show) && DistinctPoints(stored) && AllNumbersSound(stored, properties)
    requires Applies(shape, properties, sorts, cursor, window) && CursorAccepted(cursor, sorts, 0)
    requires Covered(stored, matches, sorts[0].field)
    requires IsOrderedScroll(answer, stored, matches, sorts[0], FirstOf(cursor), window + 1)
    ensures var r := OrderedResult(show, shape, properties, sorts, cursor, window, [], answer);
            var listing := Listing(show, sorts, (h: Hit) => true, cursor, HitsOf(Filter(matches, stored)));
            && (r.Some? <==> !(|listing| > window && Tied(show, listing[window - 1], listing[window], sorts[0].field)))
            && (r.Some? ==> r.value == Take(listing, window))
  {
    hide *;
    AppliesMeans(shape, properties, sorts, cursor, window);
    var spec := sorts[0];
    assert sorts == [spec];
    var candidates := HitsOf(Filter(matches, stored));
    var pool := Members(candidates);
    var all := Filter(After(show, [spec], cursor), candidates);
    var finer, coarse := BySpecsAndId(show, [spec]), BySpecs(show, [spec]);
    CandidatesOrdered(show, stored, matches, properties, spec, pool);
    ScrollIsTop(show, stored, matches, properties, spec, cursor, window + 1, answer);
    CandidatesDistinct(show, stored, matches, spec, cursor, pool);
    ById(show, spec);
    TopDecides(finer, coarse, all, HitsOf(answer), window, pool);
    ListingIsSort(show, spec, cursor, candidates);
    TiedIsCoarse(show, spec);
    ResultFromTop(show, shape, properties, sorts, cursor, window, answer);
    MinIs(window + 1, |all|);
  }

  lemma MinIs(a: nat, b: nat)
    ensures Min(a, b) == if a < b then a else b
  {
  }

  lemma AppliesMeans(shape: SearchShape, properties: Properties, sorts: seq<SortSpec>, cursor: Option<seq<Json>>, window: nat)
    requires Applies(shape, properties, sorts, cursor, window) && CursorAccepted(cursor, sorts, 0)
    ensures window > 0 && |sorts| == 1 && FieldAllowed(properties, sorts[0].field)
    ensures cursor.Some? ==> |cursor.value| == 1 && SortSafeNumber(cursor.value[0])
  {
  }

  lemma CandidatesDistinct(show: Printer, stored: seq<Payload>, matches: Payload -> bool, spec: SortSpec,
                           cursor: Option<seq<Json>>, pool: iset<Hit>)
    requires DistinctPoints(stored) && pool == Members(HitsOf(Filter(matches, stored)))
    ensures var all := Filter(After(show, [spec], cursor), HitsOf(Filter(matches, stored)));
            From(all, pool) && NoDup(all)
  {
    DistinctHits(stored, matches);
    FilterElements(After(show, [spec], cursor), HitsOf(Filter(matches, stored)));
  }

  lemma ListingIsSort(show: Printer, spec: SortSpec, cursor: Option<seq<Json>>, candidates: seq<Hit>)
    ensures Listing(show, [spec], (h: Hit) => true, cursor, candidates)
         == Sort(BySpecsAndId(show, [spec]), Filter(After(show, [spec], cursor), candidates))
  {
    FilterAgain((h: Hit) => true, candidates);
  }

  lemma ResultFromTop(show: Printer, shape: SearchShape, properties: Properties, sorts: seq<SortSpec>,
                      cursor: Option<seq<Json>>, window: nat, answer: seq<Payload>)
    requires Applies(shape, properties, sorts, cursor, window)
    requires forall h :: h in HitsOf(answer) ==> SortSafeNumber(SortValue(h, sorts[0].field))
    ensures var hits := Sort(BySpecsAndId(show, sorts), HitsOf(answer));
            var r := OrderedResult(show, shape, properties, sorts, cursor, window, [], answer);
            && (r.Some? <==> !(|hits| > window && Tied(show, hits[window - 1], hits[window], sorts[0].field)))
            && (r.Some? ==> r.value == Take(hits, window))
  {
    hide Sort, SortOnto, Tied, SortSafeNumber, SortValue;
  }

  lemma TiedIsCoarse(show: Printer, spec: SortSpec)
    ensures forall a, b :: Tied(show, a, b, spec.field) <==> BySpecs(show, [spec])(a, b).Equal?
  {
    forall a, b
      ensures Tied(show, a, b, spec.field) <==> BySpecs(show, [spec])(a, b).Equal?
    {
      assert CompareBySpecs(show, [spec][1..], a, b) == Equal;
      assert CompareBySpecs(show, [spec], a, b)
          == Then(Directed(ValueCmp(show, SortValue(a, spec.field), SortValue(b, spec.field)), spec.descending), Equal);
    }
  }

  // ---------------------------------------------------------------- a search that may take it

  lemma ListingOfAll(show: Printer, sorts: seq<SortSpec>, passes: Hit -> bool, cursor: Option<seq<Json>>, documents: seq<Hit>)
    requires forall h :: passes(h)
    ensures Listing(show, sorts, passes, cursor, documents) == Listing(show, sorts, (h: Hit) => true, cursor, documents)
    ensures Filter(passes, documents) == documents
  {
    FilterAgain(passes, documents);
    FilterAgain((h: Hit) => true, documents);
  }

  /** The page holds, rank by rank, what the listing holds there, exactly when the sort keys tell
      documents apart and up to ties otherwise, without repetition. */
  ghost predicate IsListedPage(page: seq<Hit>, show: Printer, sorts: seq<SortSpec>, listing: seq<Hit>, from: nat, size: nat,
                               pool: iset<Hit>) {
    && StandsAt(BySpecs(show, sorts), page, listing, from, size, pool)
    && NoDup(page) && forall h :: h in page ==> h in Take(listing, from + size)
  }

  /** The page cut from the fast path's hits. */
  method FastPage(show: Printer, sorts: seq<SortSpec>, passes: Hit -> bool, cursor: Option<seq<Json>>, arrange: Arrangement,
                  ordered: seq<Hit>, from: nat, size: nat, ghost documents: seq<Hit>, ghost pool: iset<Hit>)
    returns (page: seq<Hit>)
    requires Prints(show) && Sortable(sorts, pool) && DistinctIds(pool) && Arranges(arrange)
    requires cursor.Some? ==> |cursor.value| == |sorts| && Comparable(sorts, cursor.value, pool)
    requires From(documents, pool) && NoDup(documents)
    requires ordered == Take(Listing(show, sorts, passes, cursor, documents), from + size)
    ensures IsListedPage(page, show, sorts, Listing(show, sorts, passes, cursor, documents), from, size, pool)
  {
    BestFacts(show, sorts, passes, cursor, documents, from + size, pool);
    ghost var best := Best(show, sorts, passes, cursor, documents, from + size);
    hide *;
    ghost var order;
    page, order := FinalPage(show, sorts, passes, cursor, arrange, ordered, from, size, pool);
    PageIsListed(show, sorts, passes, cursor, documents, order, from, size, pool);
    ListedPage(page, show, sorts, Listing(show, sorts, passes, cursor, documents), from, size, pool);
  }

  lemma ListedPage(page: seq<Hit>, show: Printer, sorts: seq<SortSpec>, listing: seq<Hit>, from: nat, size: nat, pool: iset<Hit>)
    requires AgreeUpToTies(BySpecs(show, sorts), page, Window(listing, from, size))
    requires Separates(BySpecs(show, sorts), pool) ==> page == Window(listing, from, size)
    requires NoDup(page) && forall h :: h in page ==> h in Take(listing, from + size)
    ensures IsListedPage(page, show, sorts, listing, from, size, pool)
  {
    WindowStandsAt(BySpecs(show, sorts), page, listing, from, size, pool);
  }

  /** When the ordered scroll answers a search. */
  ghost predicate TakesFastPath(show: Printer, shape: SearchShape, properties: Properties, sorts: seq<SortSpec>,
                                cursor: Option<seq<Json>>, from: nat, size: nat, stored: seq<Payload>, matches: Payload -> bool) {
    var window, listing := from + size, Listing(show, sorts, (h: Hit) => true, cursor, HitsOf(Filter(matches, stored)));
    && !shape.postFilter && size > 0 && Applies(shape, properties, sorts, cursor, window)
    && Covered(stored, matches, sorts[0].field)
    && !(|listing| > window && Tied(show, listing[window - 1], listing[window], sorts[0].field))
  }

  /** What the probe and the speculative ordered scroll of a search return. */
  ghost predicate ReadsOrdered(uncovered: seq<Payload>, answer: seq<Payload>, stored: seq<Payload>, matches: Payload -> bool,
                               sorts: seq<SortSpec>, cursor: Option<seq<Json>>, window: nat) {
    sorts != [] ==>
      && (uncovered == [] <==> Covered(stored, matches, sorts[0].field))
      && (uncovered == [] ==> IsOrderedScroll(answer, stored, matches, sorts[0], FirstOf(cursor), window + 1))
  }

  /** A field-sorted search over the points a filter matches. The ordered scroll is tried where there is
      no post filter and hits are asked for; where it answers, its hits and the backend's exact count
      take the place of the scan. Either way page and total are those of the scan. */
  method FilterSearch(show: Printer, shape: SearchShape, properties: Properties, sorts: seq<SortSpec>, passes: Hit -> bool,
                      cursor: Option<seq<Json>>, pages: seq<Page<Hit>>, exactCount: nat, uncovered: seq<Payload>,
                      answer: seq<Payload>, arrange: Arrangement, from: nat, size: nat, ghost stored: seq<Payload>,
                      ghost matches: Payload -> bool, ghost pool: iset<Hit>)
    returns (r: Outcome, fast: bool)
    requires Prints(show) && DistinctPoints(stored) && AllNumbersSound(stored, properties)
    requires ReadsOrdered(uncovered, answer, stored, matches, sorts, cursor, from + size)
    requires !shape.postFilter ==> forall h :: passes(h)
    requires AllPoints(pages) == HitsOf(Filter(matches, stored)) && exactCount == |AllPoints(pages)|
    requires IsScroll(pages) && From(AllPoints(pages), pool)
    requires Sortable(sorts, pool) && DistinctIds(pool) && Arranges(arrange)
    requires cursor.Some? ==> Comparable(sorts, cursor.value, pool)
    ensures r.Rejected? <==> Unusable(cursor, sorts, from)
    ensures fast <==> !r.Rejected? && TakesFastPath(show, shape, properties, sorts, cursor, from, size, stored, matches)
    ensures r.NotAdvancing? <==> !r.Rejected? && !fast && !Advances(pages)
    ensures r.Found? ==> r.total == |Filter(passes, AllPoints(pages))|
    ensures r.Found? ==>
              IsListedPage(r.page, show, sorts, Listing(show, sorts, passes, cursor, AllPoints(pages)), from, size, pool)
  {
    hide *;
    UnusableIff(cursor, sorts, from);
    if !CursorAccepted(cursor, sorts, from) {
      return Rejected, false;
    }
    var ordered: Option<seq<Hit>> := None;
    if !shape.postFilter && size > 0 {
      ordered := OrderedNumericHits(show, shape, properties, sorts, cursor, from + size, uncovered, answer);
    }
    FastPathTaken(show, shape, properties, sorts, cursor, from, size, stored, matches, uncovered, answer);
    PointsDistinct(stored, matches);
    fast := ordered.Some?;
    if fast {
      ListingOfAll(show, sorts, passes, cursor, AllPoints(pages));
      CursorFits(cursor, sorts, from);
      var page := FastPage(show, sorts, passes, cursor, arrange, ordered.value, from, size, AllPoints(pages), pool);
      r := Found(page, exactCount);
    } else {
      r := Search(show, sorts, passes, cursor, pages, arrange, from, size, pool);
      if r.Found? {
        ListedPage(r.page, show, sorts, Listing(show, sorts, passes, cursor, AllPoints(pages)), from, size, pool);
      }
    }
  }

  lemma FastPathTaken(show: Printer, shape: SearchShape, properties: Properties, sorts: seq<SortSpec>, cursor: Option<seq<Json>>,
                      from: nat, size: nat, stored: seq<Payload>, matches: Payload -> bool,
                      uncovered: seq<Payload>, answer: seq<Payload>)
    requires Prints(show) && DistinctPoints(stored) && AllNumbersSound(stored, properties) && CursorAccepted(cursor, sorts, from)
    requires ReadsOrdered(uncovered, answer, stored, matches, sorts, cursor, from + size)
    ensures var r := OrderedResult(show, shape, properties, sorts, cursor, from + size, uncovered, answer);
            && (!shape.postFilter && size > 0 && r.Some?
                <==> TakesFastPath(show, shape, properties, sorts, cursor, from, size, stored, matches))
            && (r.Some? ==> r.value == Take(Listing(show, sorts, (h: Hit) => true, cursor, HitsOf(Filter(matches, stored))), from + size))
  {
    hide *;
    CursorFromTheStart(cursor, sorts, from);
    if sorts != [] {
      OrderedReads(uncovered, answer, stored, matches, sorts, cursor, from + size);
    }
    FastPathRefinesScan(show, shape, properties, sorts, cursor, from + size, stored, matches, uncovered, answer);
    FastPathMeans(show, shape, properties, sorts, cursor, from, size, stored, matches);
  }

  lemma OrderedReads(uncovered: seq<Payload>, answer: seq<Payload>, stored: seq<Payload>, matches: Payload -> bool,
                     sorts: seq<SortSpec>, cursor: Option<seq<Json>>, window: nat)
    requires ReadsOrdered(uncovered, answer, stored, matches, sorts, cursor, window) && sorts != []
    ensures uncovered == [] <==> Covered(stored, matches, sorts[0].field)
    ensures uncovered == [] ==> IsOrderedScroll(answer, stored, matches, sorts[0], FirstOf(cursor), window + 1)
  {
    hide Covered, IsOrderedScroll;
  }

  lemma FastPathMeans(show: Printer, shape: SearchShape, properties: Properties, sorts: seq<SortSpec>, cursor: Option<seq<Json>>,
                      from: nat, size: nat, stored: seq<Payload>, matches: Payload -> bool)
    ensures var listing := Listing(show, sorts, (h: Hit) => true, cursor, HitsOf(Filter(matches, stored)));
            TakesFastPath(show, shape, properties, sorts, cursor, from, size, stored, matches)
            <==> && !shape.postFilter && size > 0 && Applies(shape, properties, sorts, cursor, from + size)
                 && Covered(stored, matches, sorts[0].field)
                 && !(|listing| > from + size && Tied(show, listing[from + size - 1], listing[from + size], sorts[0].field))
  {
    hide Covered, Listing, Tied;
  }

  lemma PointsDistinct(stored: seq<Payload>, matches: Payload -> bool)
    requires DistinctPoints(stored)
    ensures NoDup(HitsOf(Filter(matches, stored)))
  {
    DistinctHits(stored, matches);
  }

  lemma CursorFromTheStart(cursor: Option<seq<Json>>, sorts: seq<SortSpec>, from: nat)
    requires CursorAccepted(cursor, sorts, from)
    ensures CursorAccepted(cursor, sorts, 0)
  {
  }

  lemma CursorFits(cursor: Option<seq<Json>>, sorts: seq<SortSpec>, from: nat)
    requires CursorAccepted(cursor, sorts, from)
    ensures cursor.Some? ==> |cursor.value| == |sorts|
  {
  }
}
