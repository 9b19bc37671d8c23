/** From scanned hits to a response page, and what a client reads by chaining search_after. */
module SearchPages {
  import opened Options
  import opened Values
  import opened Ranking
  import opened Hits
  import opened Scan
  import opened Sequences
  import opened Scrolling

  // ---------------------------------------------------------------- search_after validation

  predicate Scalar(v: Json) {
    !v.Arr? && !v.Obj?
  }

  predicate CursorAccepted(cursor: Option<seq<Json>>, sorts: seq<SortSpec>, from: nat) {
    match cursor
    case None => true
    case Some(values) => sorts != [] && |values| == |sorts| && from == 0 && forall v :: v in values ==> Scalar(v)
  }

  /** A cursor without a sort, of the wrong length, beside an offset, or holding an array or an object. */
  ghost predicate Unusable(cursor: Option<seq<Json>>, sorts: seq<SortSpec>, from: nat) {
    cursor.Some? && (sorts == [] || |cursor.value| != |sorts| || from > 0
                     || exists k :: 0 <= k < |cursor.value| && (cursor.value[k].Arr? || cursor.value[k].Obj?))
  }

  lemma UnusableIff(cursor: Option<seq<Json>>, sorts: seq<SortSpec>, from: nat)
    ensures Unusable(cursor, sorts, from) <==> !CursorAccepted(cursor, sorts, from)
  {
    if cursor.Some? {
      assert forall k :: 0 <= k < |cursor.value| ==> cursor.value[k] in cursor.value;
    }
  }

  /** Hits and cursor agree on what each sort field holds: no numbers against strings. */
  ghost predicate Comparable(sorts: seq<SortSpec>, cursor: seq<Json>, pool: iset<Hit>) {
    forall k :: 0 <= k < |sorts| && k < |cursor| ==> FieldComparable(sorts[k].field, cursor[k], pool)
  }

  ghost predicate FieldComparable(field: string, value: Json, pool: iset<Hit>) {
    exists kinds: set<Kind> ::
      KindsOk(kinds) && Among(value, kinds) && forall h :: h in pool ==> Among(SortValue(h, field), kinds)
  }

  /** Everything that sorts at or after a hit past the cursor is past the cursor. */
  lemma {:induction false} AfterIsUpward(show: Printer, sorts: seq<SortSpec>, cursor: seq<Json>, a: Hit, b: Hit, pool: iset<Hit>)
    requires Prints(show) && Comparable(sorts, cursor, pool) && a in pool && b in pool
    requires |cursor| == |sorts|
    requires !CompareBySpecs(show, sorts, a, b).Greater? && HitIsAfter(show, a, cursor, sorts)
    ensures HitIsAfter(show, b, cursor, sorts)
    decreases |sorts|
  {
    if sorts != [] {
      assert FieldComparable(sorts[0].field, cursor[0], pool);
      forall k | 0 <= k < |sorts[1..]|
        ensures FieldComparable(sorts[1..][k].field, cursor[1..][k], pool)
      {
        assert FieldComparable(sorts[k + 1].field, cursor[k + 1], pool);
      }
      var x, y := SortValue(a, sorts[0].field), SortValue(b, sorts[0].field);
      CompareThree(show, sorts[0].field, x, y, cursor[0], a, b, pool);
      if ValueCmp(show, x, y).Equal? && ValueCmp(show, x, cursor[0]).Equal? {
        AfterIsUpward(show, sorts[1..], cursor[1..], a, b, pool);
      }
    }
  }

  lemma CompareThree(show: Printer, field: string, x: Json, y: Json, c: Json, a: Hit, b: Hit, pool: iset<Hit>)
    requires Prints(show) && FieldComparable(field, c, pool) && a in pool && b in pool
    requires x == SortValue(a, field) && y == SortValue(b, field)
    ensures ValueCmp(show, x, y).Equal? ==> ValueCmp(show, x, c) == ValueCmp(show, y, c)
    ensures ValueCmp(show, x, y).Less? && !ValueCmp(show, x, c).Less? ==> ValueCmp(show, y, c).Greater?
    ensures ValueCmp(show, x, y).Greater? && !ValueCmp(show, x, c).Greater? ==> ValueCmp(show, y, c).Less?
  {
    var kinds: set<Kind> :| KindsOk(kinds) && Among(c, kinds) && forall h :: h in pool ==> Among(SortValue(h, field), kinds);
    assert Among(x, kinds) && Among(y, kinds);
    hide SortValue, ValueCmp;
    Transitive(show, kinds, x, y, c);
    Transitive(show, kinds, y, x, c);
    Transitive(show, kinds, c, x, y);
    Transitive(show, kinds, c, y, x);
    Transitive(show, kinds, x, c, y);
    Transitive(show, kinds, y, c, x);
  }

  // ---------------------------------------------------------------- de-duplication

  /** Scan hits carry no score, so the first of several hits with one id stays. */
  method Deduplicate(hits: seq<Hit>) returns (unique: map<string, Hit>)
    ensures forall h :: h in hits ==> h.id in unique
    ensures forall id :: id in unique ==>
              exists i :: 0 <= i < |hits| && hits[i] == unique[id] && hits[i].id == id
                          && forall j :: 0 <= j < i ==> hits[j].id != id
  {
    unique := map[];
    for n := 0 to |hits|
      invariant forall j :: 0 <= j < n ==> hits[j].id in unique
      invariant forall id :: id in unique ==>
                  exists i :: 0 <= i < n && hits[i] == unique[id] && hits[i].id == id
                              && forall j :: 0 <= j < i ==> hits[j].id != id
    {
      var h := hits[n];
      if h.id !in unique {
        unique := unique[h.id := h];
      }
    }
  }

  function InOrder(unique: map<string, Hit>, keys: seq<string>): seq<Hit>
    requires forall id :: id in keys ==> id in unique
  {
    seq(|keys|, i requires 0 <= i < |keys| => unique[keys[i]])
  }

  lemma AnyOrderIsAPermutation(hits: seq<Hit>, unique: map<string, Hit>, keys: seq<string>, pool: iset<Hit>)
    requires DistinctIds(pool) && From(hits, pool) && NoDup(hits)
    requires forall h :: h in hits ==> h.id in unique
    requires forall id :: id in unique ==> unique[id] in hits && unique[id].id == id
    requires NoDup(keys) && forall id :: id in keys <==> id in unique
    ensures multiset(InOrder(unique, keys)) == multiset(hits)
  {
    var order := InOrder(unique, keys);
    forall i, j | 0 <= i < j < |order|
      ensures order[i] != order[j]
    {
      assert keys[i] in keys && keys[j] in keys;
      assert order[i].id == keys[i] && order[j].id == keys[j];
    }
    forall h
      ensures h in hits <==> h in order
    {
      if h in hits {
        var i :| 0 <= i < |keys| && keys[i] == h.id;
        assert order[i] == unique[h.id];
        assert order[i] in pool && h in pool;
      }
    }
    SameSet(order, hits);
  }

  // ---------------------------------------------------------------- the sticky cursor

  function FirstAfter(show: Printer, hits: seq<Hit>, cursor: seq<Json>, sorts: seq<SortSpec>): (k: nat)
    ensures k <= |hits|
    ensures forall i :: 0 <= i < k ==> !HitIsAfter(show, hits[i], cursor, sorts)
    ensures k < |hits| ==> HitIsAfter(show, hits[k], cursor, sorts)
  {
    if hits == [] || HitIsAfter(show, hits[0], cursor, sorts) then 0
    else 1 + FirstAfter(show, hits[1..], cursor, sorts)
  }

  /** Once one hit is past the cursor all later hits are kept unchecked. */
  method RetainAfter(show: Printer, hits: seq<Hit>, cursor: seq<Json>, sorts: seq<SortSpec>) returns (kept: seq<Hit>)
    ensures kept == hits[FirstAfter(show, hits, cursor, sorts)..]
  {
    hide FirstAfter, HitIsAfter;
    kept := [];
    var after := false;
    ghost var k := FirstAfter(show, hits, cursor, sorts);
    for n := 0 to |hits|
      invariant after <==> k < n
      invariant kept == if k < n then hits[k..n] else []
    {
      if !after {
        after := HitIsAfter(show, hits[n], cursor, sorts);
      }
      assert after <==> k <= n;
      if after {
        assert hits[k..n + 1] == hits[k..n] + [hits[n]];
        kept := kept + [hits[n]];
      }
    }
  }

  lemma RetainIsFilter(show: Printer, hits: seq<Hit>, cursor: seq<Json>, sorts: seq<SortSpec>, pool: iset<Hit>)
    requires Prints(show) && Comparable(sorts, cursor, pool) && |cursor| == |sorts|
    requires From(hits, pool) && Sorted(BySpecs(show, sorts), hits)
    ensures hits[FirstAfter(show, hits, cursor, sorts)..] == Filter(After(show, sorts, Some(cursor)), hits)
  {
    hide FirstAfter, HitIsAfter, CompareBySpecs, Filter, Comparable, Prints;
    var k := FirstAfter(show, hits, cursor, sorts);
    forall i | k < i < |hits|
      ensures HitIsAfter(show, hits[i], cursor, sorts)
    {
      assert !BySpecs(show, sorts)(hits[k], hits[i]).Greater?;
      assert hits[k] in hits && hits[i] in hits;
      AfterIsUpward(show, sorts, cursor, hits[k], hits[i], pool);
    }
    FilterSuffix(After(show, sorts, Some(cursor)), hits, k);
  }

  // ---------------------------------------------------------------- the page

  function Window<T>(s: seq<T>, from: nat, size: nat): seq<T> {
    if from >= |s| then [] else Take(s[from..], size)
  }

  lemma WindowOfTake<T>(s: seq<T>, from: nat, size: nat)
    ensures Window(Take(s, from + size), from, size) == Window(s, from, size)
  {
  }

  method SortByKeys(show: Printer, sorts: seq<SortSpec>, hits: seq<Hit>) returns (sorted: seq<Hit>)
    ensures sorted == SortKeyByKey(show, sorts, hits)
  {
    sorted := hits;
    for i := |sorts| downto 0
      invariant sorted == SortKeyByKey(show, sorts[i..], hits)
    {
      assert sorts[i..][1..] == sorts[i + 1..];
      sorted := Sort(ByField(show, sorts[i]), sorted);
    }
  }

  method FilterHits(passes: Hit -> bool, hits: seq<Hit>) returns (kept: seq<Hit>)
    ensures kept == Filter(passes, hits)
  {
    kept := [];
    for n := 0 to |hits|
      invariant kept == Filter(passes, hits[..n])
    {
      assert hits[..n + 1][..n] == hits[..n];
      if passes(hits[n]) {
        kept := kept + [hits[n]];
      }
    }
    assert hits[..|hits|] == hits;
  }

  /** After the scan: de-duplicate through a hash map, filter again, sort key by key, drop up to
      the cursor, cut the page out. */
  method FinalPage(show: Printer, sorts: seq<SortSpec>, passes: Hit -> bool, cursor: Option<seq<Json>>,
                   arrange: Arrangement, scanned: seq<Hit>, from: nat, size: nat, ghost pool: iset<Hit>)
    returns (page: seq<Hit>, ghost order: seq<Hit>)
    requires Prints(show) && Sortable(sorts, pool) && DistinctIds(pool) && Arranges(arrange)
    requires cursor.Some? ==> |cursor.value| == |sorts| && Comparable(sorts, cursor.value, pool)
    requires From(scanned, pool) && NoDup(scanned)
    requires forall h :: h in scanned ==> passes(h) && After(show, sorts, cursor)(h)
    ensures multiset(order) == multiset(scanned)
    ensures page == Window(Sort(BySpecs(show, sorts), order), from, size)
    ensures AgreeUpToTies(BySpecs(show, sorts), page, Window(Sort(BySpecs(show, sorts), scanned), from, size))
  {
    hide Sort, SortOnto, CompareBySpecs, ValueCmp, DistinctIds, Sortable, Prints, Comparable, SortKeyByKey;
    var unique := Deduplicate(scanned);
    var keys := arrange(unique.Keys);
    assert NoDup(keys) && forall id :: id in keys <==> id in unique;
    var hits := InOrder(unique, keys);
    AnyOrderIsAPermutation(scanned, unique, keys, pool);
    order := hits;
    KeepsFacts(scanned, hits, passes, After(show, sorts, cursor), pool);
    hits := FilterHits(passes, hits);
    FilterAgain(passes, order);
    hits := SortByKeys(show, sorts, hits);
    KeyByKeyIsLexicographic(show, sorts, order, pool);
    SpecsPreorder(show, sorts, pool);
    SortIsSorted(BySpecs(show, sorts), order, pool);
    KeepsFacts(order, hits, passes, After(show, sorts, cursor), pool);
    if cursor.Some? {
      RetainIsFilter(show, hits, cursor.value, sorts, pool);
      FilterAgain(After(show, sorts, cursor), hits);
      hits := RetainAfter(show, hits, cursor.value, sorts);
    }
    page := Window(hits, from, size);
    SameUpToTies(show, sorts, scanned, order, from, size, pool);
  }

  /** Whatever order the hash map chose, the sorted page is the same up to ties. */
  lemma SameUpToTies(show: Printer, sorts: seq<SortSpec>, scanned: seq<Hit>, order: seq<Hit>, from: nat, size: nat,
                     pool: iset<Hit>)
    requires Prints(show) && Sortable(sorts, pool) && From(scanned, pool) && multiset(order) == multiset(scanned)
    ensures AgreeUpToTies(BySpecs(show, sorts), Window(Sort(BySpecs(show, sorts), order), from, size),
                          Window(Sort(BySpecs(show, sorts), scanned), from, size))
  {
    var cmp := BySpecs(show, sorts);
    hide BySpecs, Sort, SortOnto, Sortable, Prints;
    SpecsPreorder(show, sorts, pool);
    SortIsSorted(cmp, scanned, pool);
    SameElements(scanned, Sort(cmp, scanned), pool);
    SortAgrees(cmp, Sort(cmp, scanned), order, pool);
    WindowAgrees(cmp, Sort(cmp, order), Sort(cmp, scanned), from, size);
  }

  lemma KeepsFacts(s: seq<Hit>, t: seq<Hit>, passes: Hit -> bool, after: Hit -> bool, pool: iset<Hit>)
    requires multiset(s) == multiset(t) && NoDup(s) && From(s, pool)
    requires forall h :: h in s ==> passes(h) && after(h)
    ensures NoDup(t) && From(t, pool) && forall h :: h in t ==> passes(h) && after(h)
  {
    PermutationNoDup(s, t);
    forall h | h in t
      ensures h in s
    {
      assert h in multiset(t);
    }
  }

  // ---------------------------------------------------------------- ties

  /** Two sorted permutations agree at every position up to ties. */
  lemma {:induction false} SortedPermutationsAgree<T(!new)>(cmp: Cmp<T>, s: seq<T>, t: seq<T>, pool: iset<T>)
    requires Preorder(cmp, pool) && From(s, pool) && multiset(s) == multiset(t)
    requires Sorted(cmp, s) && Sorted(cmp, t)
    ensures |s| == |t| && forall i :: 0 <= i < |s| ==> cmp(s[i], t[i]).Equal?
    decreases |s|
  {
    assert |s| == |multiset(s)| == |multiset(t)| == |t|;
    if s != [] {
      assert s[0] in multiset(t);
      var i :| 0 <= i < |t| && t[i] == s[0];
      var rest := t[..i] + t[i + 1..];
      TakeOut(cmp, s, t, i, rest);
      assert forall y :: y in s[1..] ==> y in s;
      SortedPermutationsAgree(cmp, s[1..], rest, pool);
      PutBack(cmp, s, t, i, rest, pool);
    }
  }

  lemma TakeOut<T(!new)>(cmp: Cmp<T>, s: seq<T>, t: seq<T>, i: nat, rest: seq<T>)
    requires Sorted(cmp, s) && Sorted(cmp, t) && multiset(s) == multiset(t)
    requires s != [] && i < |t| && t[i] == s[0] && rest == t[..i] + t[i + 1..]
    ensures Sorted(cmp, s[1..]) && Sorted(cmp, rest) && multiset(s[1..]) == multiset(rest)
  {
    TakeOutOne(t, i, rest);
    TakeOutOne(s, 0, s[1..]);
    assert s[1..] == s[..0] + s[1..];
    assert Sorted(cmp, s[1..]) by { TailSorted(cmp, s, (a, b) => true); }
    TakeOutSorted(cmp, t, i, rest);
  }

  lemma TakeOutOne<T>(t: seq<T>, i: nat, rest: seq<T>)
    requires i < |t| && rest == t[..i] + t[i + 1..]
    ensures multiset(rest) == multiset(t) - multiset{t[i]}
  {
    assert t == t[..i] + [t[i]] + t[i + 1..];
    assert multiset(t) == multiset(t[..i]) + multiset{t[i]} + multiset(t[i + 1..]);
  }

  lemma TakeOutSorted<T(!new)>(cmp: Cmp<T>, t: seq<T>, i: nat, rest: seq<T>)
    requires i < |t| && rest == t[..i] + t[i + 1..] && Sorted(cmp, t)
    ensures Sorted(cmp, rest)
  {
    forall j, k | 0 <= j < k < |rest|
      ensures !cmp(rest[j], rest[k]).Greater?
    {
      var p, q := if j < i then j else j + 1, if k < i then k else k + 1;
      assert rest[j] == t[p] && rest[k] == t[q];
    }
  }

  lemma PutBack<T(!new)>(cmp: Cmp<T>, s: seq<T>, t: seq<T>, i: nat, rest: seq<T>, pool: iset<T>)
    requires Preorder(cmp, pool) && From(s, pool) && multiset(s) == multiset(t)
    requires Sorted(cmp, s) && Sorted(cmp, t)
    requires s != [] && |s| == |t| && i < |t| && t[i] == s[0] && rest == t[..i] + t[i + 1..]
    requires forall k :: 0 <= k < |rest| ==> cmp(s[1..][k], rest[k]).Equal?
    ensures forall k :: 0 <= k < |s| ==> cmp(s[k], t[k]).Equal?
  {
    SameElements(s, t, pool);
    forall k | 0 <= k < |s|
      ensures cmp(s[k], t[k]).Equal?
    {
      assert s[k] in s && s[0] in s && t[k] in t;
      if k > i {
        assert s[k] == s[1..][k - 1] && rest[k - 1] == t[k];
      } else {
        TiedWithFirst(cmp, s, t, i, k, pool);
        if k > 0 {
          assert s[k] == s[1..][k - 1] && rest[k - 1] == t[k - 1];
          assert t[k - 1] in t;
          TiedWithFirst(cmp, s, t, i, k - 1, pool);
          EqualsCompose(cmp, s[k], t[k - 1], s[0], pool);
          EqualsCompose(cmp, s[k], s[0], t[k], pool);
        }
      }
    }
  }

  lemma TiedWithFirst<T(!new)>(cmp: Cmp<T>, s: seq<T>, t: seq<T>, i: nat, j: nat, pool: iset<T>)
    requires Preorder(cmp, pool) && From(s, pool) && From(t, pool) && multiset(s) == multiset(t)
    requires Sorted(cmp, s) && Sorted(cmp, t)
    requires s != [] && j <= i < |t| && t[i] == s[0]
    ensures cmp(t[j], s[0]).Equal? && cmp(s[0], t[j]).Equal?
  {
    FirstIsLeast(cmp, s, t, j, pool);
    assert t[j] in t && s[0] in s;
    assert cmp(s[0], s[0]) == Reverse(cmp(s[0], s[0]));
    assert !cmp(t[j], t[i]).Greater?;
    assert cmp(t[j], s[0]) == Reverse(cmp(s[0], t[j]));
  }

  lemma EqualsCompose<T(!new)>(cmp: Cmp<T>, a: T, b: T, c: T, pool: iset<T>)
    requires Preorder(cmp, pool) && a in pool && b in pool && c in pool
    requires cmp(a, b).Equal? && (cmp(b, c).Equal? || cmp(c, b).Equal?)
    ensures cmp(a, c).Equal?
  {
    assert cmp(b, a) == Reverse(cmp(a, b)) && cmp(c, b) == Reverse(cmp(b, c)) && cmp(c, a) == Reverse(cmp(a, c));
  }

  lemma FirstIsLeast<T(!new)>(cmp: Cmp<T>, s: seq<T>, t: seq<T>, j: nat, pool: iset<T>)
    requires Preorder(cmp, pool) && From(s, pool) && multiset(s) == multiset(t) && Sorted(cmp, s)
    requires s != [] && j < |t|
    ensures !cmp(s[0], t[j]).Greater?
  {
    assert t[j] in multiset(s);
    var k :| 0 <= k < |s| && s[k] == t[j];
    assert s[0] in s;
    assert cmp(s[0], s[0]) == Reverse(cmp(s[0], s[0]));
  }

  // ---------------------------------------------------------------- one search

  /** What an uninterrupted sort of all selected documents would list. */
  function Listing(show: Printer, sorts: seq<SortSpec>, passes: Hit -> bool, cursor: Option<seq<Json>>,
                   documents: seq<Hit>): seq<Hit> {
    Sort(BySpecsAndId(show, sorts), Selected(show, sorts, passes, cursor, documents))
  }

  /** Level in the first k sort values. */
  ghost predicate Level(show: Printer, sorts: seq<SortSpec>, a: Hit, b: Hit, k: nat) {
    k <= |sorts| && forall j :: 0 <= j < k ==> ValueCmp(show, SortValue(a, sorts[j].field), SortValue(b, sorts[j].field)) == Equal
  }

  /** The first sort value that differs decides, in its direction; the smaller id where none does. */
  ghost predicate Precedes(show: Printer, sorts: seq<SortSpec>, a: Hit, b: Hit) {
    || (Level(show, sorts, a, b, |sorts|) && CmpString(a.id, b.id) == Less)
    || exists k :: 0 <= k < |sorts| && Level(show, sorts, a, b, k)
                   && ValueCmp(show, SortValue(a, sorts[k].field), SortValue(b, sorts[k].field))
                      == if sorts[k].descending then Greater else Less
  }

  ghost predicate LevelWith(show: Printer, sorts: seq<SortSpec>, h: Hit, cursor: seq<Json>, k: nat) {
    k <= |sorts| && k <= |cursor| && forall j :: 0 <= j < k ==> ValueCmp(show, SortValue(h, sorts[j].field), cursor[j]) == Equal
  }

  /** The first sort value that differs from the cursor's lies beyond it, in its direction. */
  ghost predicate Beyond(show: Printer, sorts: seq<SortSpec>, h: Hit, cursor: seq<Json>) {
    exists k :: 0 <= k < |sorts| && k < |cursor| && LevelWith(show, sorts, h, cursor, k)
                && ValueCmp(show, SortValue(h, sorts[k].field), cursor[k]) == if sorts[k].descending then Less else Greater
  }

  lemma {:induction false} BeyondIff(show: Printer, sorts: seq<SortSpec>, h: Hit, cursor: seq<Json>)
    ensures Beyond(show, sorts, h, cursor) <==> HitIsAfter(show, h, cursor, sorts)
    decreases |sorts|
  {
    hide ValueCmp, SortValue;
    if sorts != [] && cursor != [] {
      BeyondIff(show, sorts[1..], h, cursor[1..]);
      var order := ValueCmp(show, SortValue(h, sorts[0].field), cursor[0]);
      if order == Equal {
        if Beyond(show, sorts[1..], h, cursor[1..]) {
          var k: nat :| k < |sorts[1..]| && k < |cursor[1..]| && LevelWith(show, sorts[1..], h, cursor[1..], k)
                        && ValueCmp(show, SortValue(h, sorts[1..][k].field), cursor[1..][k])
                           == if sorts[1..][k].descending then Less else Greater;
          assert LevelWith(show, sorts, h, cursor, k + 1) by {
            forall j | 0 <= j < k + 1
              ensures ValueCmp(show, SortValue(h, sorts[j].field), cursor[j]) == Equal
            {
              if j > 0 {
                assert sorts[1..][j - 1] == sorts[j] && cursor[1..][j - 1] == cursor[j];
              }
            }
          }
        }
        if Beyond(show, sorts, h, cursor) {
          var k: nat :| k < |sorts| && k < |cursor| && LevelWith(show, sorts, h, cursor, k)
                        && ValueCmp(show, SortValue(h, sorts[k].field), cursor[k])
                           == if sorts[k].descending then Less else Greater;
          assert k > 0;
          assert LevelWith(show, sorts[1..], h, cursor[1..], k - 1);
          assert sorts[1..][k - 1] == sorts[k] && cursor[1..][k - 1] == cursor[k];
        }
      } else {
        assert LevelWith(show, sorts, h, cursor, 0);
      }
    }
  }

  lemma {:induction false} PrecedesIff(show: Printer, sorts: seq<SortSpec>, a: Hit, b: Hit)
    ensures CompareBySpecs(show, sorts, a, b) == Equal <==> Level(show, sorts, a, b, |sorts|)
    ensures Precedes(show, sorts, a, b) <==> CompareHits(show, sorts, a, b) == Less
    decreases |sorts|
  {
    hide ValueCmp;
    assert CompareHits(show, sorts, a, b) == Then(CompareBySpecs(show, sorts, a, b), CmpString(a.id, b.id)) by { IdCompare(show, a, b); }
    if sorts != [] {
      PrecedesIff(show, sorts[1..], a, b);
      assert CompareHits(show, sorts[1..], a, b) == Then(CompareBySpecs(show, sorts[1..], a, b), CmpString(a.id, b.id)) by { IdCompare(show, a, b); }
      hide SortValue, CmpString;
      PrecedesStep(show, sorts, a, b);
    }
  }

  lemma IdCompare(show: Printer, a: Hit, b: Hit)
    ensures ValueCmp(show, SortValue(a, "_id"), SortValue(b, "_id")) == CmpString(a.id, b.id)
  {
  }

  lemma PrecedesStep(show: Printer, sorts: seq<SortSpec>, a: Hit, b: Hit)
    requires sorts != []
    ensures var order := ValueCmp(show, SortValue(a, sorts[0].field), SortValue(b, sorts[0].field));
            && (Level(show, sorts, a, b, |sorts|) <==> order == Equal && Level(show, sorts[1..], a, b, |sorts| - 1))
            && (Precedes(show, sorts, a, b) <==>
                  order == (if sorts[0].descending then Greater else Less) || (order == Equal && Precedes(show, sorts[1..], a, b)))
  {
    hide ValueCmp, SortValue, CmpString;
    var rest := sorts[1..];
    assert forall j :: 0 <= j < |rest| ==> rest[j] == sorts[j + 1];
    forall k: nat | k < |sorts|
      ensures Level(show, sorts, a, b, k + 1) <==> Level(show, sorts, a, b, 1) && Level(show, rest, a, b, k)
    {
      LevelStep(show, sorts, a, b, k);
    }
    assert Level(show, sorts, a, b, 0);
    if Precedes(show, rest, a, b) && Level(show, sorts, a, b, 1) && !Level(show, rest, a, b, |rest|) {
      var k: nat :| k < |rest| && Level(show, rest, a, b, k)
                    && ValueCmp(show, SortValue(a, rest[k].field), SortValue(b, rest[k].field))
                       == if rest[k].descending then Greater else Less;
      assert Level(show, sorts, a, b, k + 1) && rest[k] == sorts[k + 1];
    }
    if Precedes(show, sorts, a, b) && !Level(show, sorts, a, b, |sorts|) {
      var k: nat :| k < |sorts| && Level(show, sorts, a, b, k)
                    && ValueCmp(show, SortValue(a, sorts[k].field), SortValue(b, sorts[k].field))
                       == if sorts[k].descending then Greater else Less;
      if k > 0 {
        assert Level(show, sorts, a, b, (k - 1) + 1);
        assert Level(show, rest, a, b, k - 1) && rest[k - 1] == sorts[k];
      }
    }
  }

  lemma LevelStep(show: Printer, sorts: seq<SortSpec>, a: Hit, b: Hit, k: nat)
    requires k < |sorts|
    ensures Level(show, sorts, a, b, k + 1) <==> Level(show, sorts, a, b, 1) && Level(show, sorts[1..], a, b, k)
  {
    hide ValueCmp, SortValue;
    assert forall j :: 0 <= j < k ==> sorts[1..][j] == sorts[j + 1];
    if Level(show, sorts, a, b, 1) && Level(show, sorts[1..], a, b, k) {
      forall j | 0 <= j < k + 1
        ensures ValueCmp(show, SortValue(a, sorts[j].field), SortValue(b, sorts[j].field)) == Equal
      {
        if j > 0 {
          assert sorts[1..][j - 1] == sorts[j];
        }
      }
    }
  }

  /** The listing holds the documents past the filter and beyond the cursor, once each, in the order
      the sort asks for. */
  lemma ListingIsOrdered(show: Printer, sorts: seq<SortSpec>, passes: Hit -> bool, cursor: Option<seq<Json>>,
                         documents: seq<Hit>, pool: iset<Hit>)
    requires Prints(show) && Sortable(sorts, pool) && DistinctIds(pool)
    requires From(documents, pool) && NoDup(documents)
    ensures var listing := Listing(show, sorts, passes, cursor, documents);
            && NoDup(listing)
            && (forall h :: h in listing <==>
                              h in documents && passes(h) && (cursor.Some? ==> Beyond(show, sorts, h, cursor.value)))
            && forall i, j :: 0 <= i < j < |listing| ==> Precedes(show, sorts, listing[i], listing[j])
  {
    hide *;
    ListingHolds(show, sorts, passes, cursor, documents, pool);
    forall i, j | 0 <= i < j < |Listing(show, sorts, passes, cursor, documents)|
      ensures Precedes(show, sorts, Listing(show, sorts, passes, cursor, documents)[i], Listing(show, sorts, passes, cursor, documents)[j])
    {
      ListedInOrder(show, sorts, Listing(show, sorts, passes, cursor, documents), i, j, pool);
    }
  }

  lemma ListedInOrder(show: Printer, sorts: seq<SortSpec>, listing: seq<Hit>, i: nat, j: nat, pool: iset<Hit>)
    requires Prints(show) && Sortable(sorts, pool) && DistinctIds(pool)
    requires From(listing, pool) && NoDup(listing) && Sorted(BySpecsAndId(show, sorts), listing)
    requires i < j < |listing|
    ensures Precedes(show, sorts, listing[i], listing[j])
  {
    HitsTotallyOrdered(show, sorts, pool);
    PrecedesIff(show, sorts, listing[i], listing[j]);
    hide CompareHits, Precedes, Sortable, DistinctIds, Prints;
    var cmp := BySpecsAndId(show, sorts);
    assert listing[i] in listing && listing[j] in listing;
    assert !cmp(listing[i], listing[j]).Greater? && !cmp(listing[i], listing[j]).Equal?;
  }

  lemma ListingHolds(show: Printer, sorts: seq<SortSpec>, passes: Hit -> bool, cursor: Option<seq<Json>>,
                     documents: seq<Hit>, pool: iset<Hit>)
    requires Prints(show) && Sortable(sorts, pool) && DistinctIds(pool)
    requires From(documents, pool) && NoDup(documents)
    ensures var listing := Listing(show, sorts, passes, cursor, documents);
            && NoDup(listing) && From(listing, pool) && Sorted(BySpecsAndId(show, sorts), listing)
            && forall h :: h in listing <==>
                             h in documents && passes(h) && (cursor.Some? ==> Beyond(show, sorts, h, cursor.value))
  {
    SelectedElements(show, sorts, passes, cursor, documents);
    hide *;
    var selected := Selected(show, sorts, passes, cursor, documents);
    HitsTotallyOrdered(show, sorts, pool);
    forall h
      ensures h in selected <==> h in documents && passes(h) && (cursor.Some? ==> Beyond(show, sorts, h, cursor.value))
    {
      AfterIff(show, sorts, cursor, h);
    }
    assert From(selected, pool) && NoDup(selected) by {
      SomeOf(documents, selected, pool);
    }
    SortHolds(BySpecsAndId(show, sorts), selected, pool);
    ListingSorts(show, sorts, passes, cursor, documents);
  }

  lemma AfterIff(show: Printer, sorts: seq<SortSpec>, cursor: Option<seq<Json>>, h: Hit)
    ensures After(show, sorts, cursor)(h) <==> (cursor.Some? ==> Beyond(show, sorts, h, cursor.value))
  {
    if cursor.Some? {
      BeyondIff(show, sorts, h, cursor.value);
    }
  }

  lemma SomeOf(documents: seq<Hit>, selected: seq<Hit>, pool: iset<Hit>)
    requires From(documents, pool) && NoDup(documents) && forall h :: h in selected ==> h in documents
    requires NoDup(documents) ==> NoDup(selected)
    ensures From(selected, pool) && NoDup(selected)
  {
  }

  lemma ListingSorts(show: Printer, sorts: seq<SortSpec>, passes: Hit -> bool, cursor: Option<seq<Json>>, documents: seq<Hit>)
    ensures Listing(show, sorts, passes, cursor, documents)
         == Sort(BySpecsAndId(show, sorts), Selected(show, sorts, passes, cursor, documents))
  {
  }

  lemma SortHolds<T(!new)>(cmp: Cmp<T>, s: seq<T>, pool: iset<T>)
    requires Preorder(cmp, pool) && From(s, pool) && NoDup(s)
    ensures NoDup(Sort(cmp, s)) && From(Sort(cmp, s), pool) && Sorted(cmp, Sort(cmp, s))
    ensures forall x :: x in Sort(cmp, s) <==> x in s
  {
    SortIsSorted(cmp, s, pool);
    SameElements(s, Sort(cmp, s), pool);
    PermutationNoDup(s, Sort(cmp, s));
    forall x
      ensures x in Sort(cmp, s) <==> x in s
    {
      assert x in multiset(Sort(cmp, s)) <==> x in multiset(s);
    }
  }

  datatype Outcome = Rejected | NotAdvancing | Found(page: seq<Hit>, total: nat)

  /** A field-sorted search: the page holds, rank by rank, what the listing holds there, exactly
      when the sort keys tell documents apart and up to ties otherwise. */
  method Search(show: Printer, sorts: seq<SortSpec>, passes: Hit -> bool, cursor: Option<seq<Json>>,
                pages: seq<Page<Hit>>, arrange: Arrangement, from: nat, size: nat, ghost pool: iset<Hit>)
    returns (r: Outcome)
    requires IsScroll(pages) && From(AllPoints(pages), pool) && NoDup(AllPoints(pages))
    requires Prints(show) && Sortable(sorts, pool) && DistinctIds(pool) && Arranges(arrange)
    requires cursor.Some? ==> Comparable(sorts, cursor.value, pool)
    ensures r.Rejected? <==> Unusable(cursor, sorts, from)
    ensures r.NotAdvancing? <==> !r.Rejected? && !Advances(pages)
    ensures r.Found? ==> r.total == |Filter(passes, AllPoints(pages))|
    ensures r.Found? ==>
              AgreeUpToTies(BySpecs(show, sorts), r.page, Window(Listing(show, sorts, passes, cursor, AllPoints(pages)), from, size))
    ensures r.Found? && Separates(BySpecs(show, sorts), pool) ==>
              r.page == Window(Listing(show, sorts, passes, cursor, AllPoints(pages)), from, size)
    ensures r.Found? ==> StandsAt(BySpecs(show, sorts), r.page, Listing(show, sorts, passes, cursor, AllPoints(pages)), from, size, pool)
    ensures r.Found? ==> NoDup(r.page) && forall h :: h in r.page ==>
              h in Take(Listing(show, sorts, passes, cursor, AllPoints(pages)), from + size)
  {
    UnusableIff(cursor, sorts, from);
    if !CursorAccepted(cursor, sorts, from) {
      return Rejected;
    }
    hide Sort, SortOnto, ValueCmp, CompareBySpecs, DistinctIds, Sortable, Prints, Comparable, AllPoints, Selected, Filter;
    hide Window, Listing, AgreeUpToTies, StandsAt, Separates, Take, Best, NoDup, IsScroll, From, HitIsAfter, Arranges;
    var advanced, hits, total := CompleteScan(show, sorts, passes, cursor, pages, from + size, pool);
    if !advanced {
      return NotAdvancing;
    }
    BestFacts(show, sorts, passes, cursor, AllPoints(pages), from + size, pool);
    var page, order := FinalPage(show, sorts, passes, cursor, arrange, hits, from, size, pool);
    PageIsListed(show, sorts, passes, cursor, AllPoints(pages), order, from, size, pool);
    r := Found(page, total);
    WindowStandsAt(BySpecs(show, sorts), page, Listing(show, sorts, passes, cursor, AllPoints(pages)), from, size, pool);
  }

  /** Ranks `from` up to `from + size` of the listing, as far as it goes, equals in any order. */
  ghost predicate StandsAt<T(!new)>(cmp: Cmp<T>, page: seq<T>, listing: seq<T>, from: nat, size: nat, pool: iset<T>) {
    && |page| == (if |listing| <= from then 0 else if |listing| < from + size then |listing| - from else size)
    && (forall i :: 0 <= i < |page| ==> cmp(page[i], listing[from + i]).Equal?)
    && (Separates(cmp, pool) ==> forall i :: 0 <= i < |page| ==> page[i] == listing[from + i])
  }

  lemma WindowStandsAt<T(!new)>(cmp: Cmp<T>, page: seq<T>, listing: seq<T>, from: nat, size: nat, pool: iset<T>)
    requires AgreeUpToTies(cmp, page, Window(listing, from, size))
    requires Separates(cmp, pool) ==> page == Window(listing, from, size)
    ensures StandsAt(cmp, page, listing, from, size, pool)
  {
    var w := Window(listing, from, size);
    assert forall i :: 0 <= i < |w| ==> w[i] == listing[from + i];
  }

  ghost predicate AgreeUpToTies<T>(cmp: Cmp<T>, s: seq<T>, t: seq<T>) {
    |s| == |t| && forall i :: 0 <= i < |s| ==> cmp(s[i], t[i]).Equal?
  }

  lemma BestFacts(show: Printer, sorts: seq<SortSpec>, passes: Hit -> bool, cursor: Option<seq<Json>>,
                  documents: seq<Hit>, window: nat, pool: iset<Hit>)
    requires Prints(show) && Sortable(sorts, pool) && DistinctIds(pool)
    requires From(documents, pool) && NoDup(documents)
    ensures var best := Best(show, sorts, passes, cursor, documents, window);
            && best == Take(Listing(show, sorts, passes, cursor, documents), window)
            && From(best, pool) && NoDup(best) && Sorted(BySpecsAndId(show, sorts), best)
            && forall h :: h in best ==> passes(h) && After(show, sorts, cursor)(h)
  {
    var selected := Selected(show, sorts, passes, cursor, documents);
    var cmp := BySpecsAndId(show, sorts);
    SelectedElements(show, sorts, passes, cursor, documents);
    HitsTotallyOrdered(show, sorts, pool);
    SortIsSorted(cmp, selected, pool);
    KeepsFacts(selected, Sort(cmp, selected), passes, After(show, sorts, cursor), pool);
    TakeSorted(cmp, Sort(cmp, selected), window);
  }

  lemma IdTieBreakKeepsSpecs(show: Printer, sorts: seq<SortSpec>, s: seq<Hit>)
    requires Sorted(BySpecsAndId(show, sorts), s)
    ensures Sorted(BySpecs(show, sorts), s)
  {
    forall i, j | 0 <= i < j < |s|
      ensures !BySpecs(show, sorts)(s[i], s[j]).Greater?
    {
      assert !BySpecsAndId(show, sorts)(s[i], s[j]).Greater?;
    }
  }

  lemma PageIsListed(show: Printer, sorts: seq<SortSpec>, passes: Hit -> bool, cursor: Option<seq<Json>>,
                     documents: seq<Hit>, order: seq<Hit>, from: nat, size: nat, pool: iset<Hit>)
    requires Prints(show) && Sortable(sorts, pool) && DistinctIds(pool)
    requires From(documents, pool) && NoDup(documents)
    requires multiset(order) == multiset(Best(show, sorts, passes, cursor, documents, from + size))
    ensures var page := Window(Sort(BySpecs(show, sorts), order), from, size);
            var listed := Window(Listing(show, sorts, passes, cursor, documents), from, size);
            && AgreeUpToTies(BySpecs(show, sorts), page, listed)
            && (Separates(BySpecs(show, sorts), pool) ==> page == listed)
            && NoDup(page)
            && forall h :: h in page ==> h in Take(Listing(show, sorts, passes, cursor, documents), from + size)
  {
    var best := Best(show, sorts, passes, cursor, documents, from + size);
    hide Sort, SortOnto, CompareBySpecs, CompareHits, Sortable, Prints, Listing, Best;
    BestFacts(show, sorts, passes, cursor, documents, from + size, pool);
    SpecsPreorder(show, sorts, pool);
    IdTieBreakKeepsSpecs(show, sorts, best);
    SortAgrees(BySpecs(show, sorts), best, order, pool);
    WindowOfTake(Listing(show, sorts, passes, cursor, documents), from, size);
    WindowAgrees(BySpecs(show, sorts), Sort(BySpecs(show, sorts), order), best, from, size);
  }

  lemma SortAgrees<T(!new)>(cmp: Cmp<T>, best: seq<T>, order: seq<T>, pool: iset<T>)
    requires Preorder(cmp, pool) && From(best, pool) && Sorted(cmp, best) && multiset(order) == multiset(best)
    ensures AgreeUpToTies(cmp, Sort(cmp, order), best)
    ensures Separates(cmp, pool) ==> Sort(cmp, order) == best
    ensures NoDup(best) ==> NoDup(Sort(cmp, order))
    ensures forall x :: x in Sort(cmp, order) ==> x in best
  {
    SameElements(best, order, pool);
    SortIsSorted(cmp, order, pool);
    var sorted := Sort(cmp, order);
    SameElements(best, sorted, pool);
    SortedPermutationsAgree(cmp, sorted, best, pool);
    if NoDup(best) {
      PermutationNoDup(best, sorted);
    }
    if Separates(cmp, pool) {
      SortedIsUnique(cmp, best, sorted, pool);
    }
    forall x | x in sorted
      ensures x in best
    {
      assert x in multiset(best);
    }
  }

  lemma WindowAgrees<T(!new)>(cmp: Cmp<T>, s: seq<T>, t: seq<T>, from: nat, size: nat)
    requires AgreeUpToTies(cmp, s, t)
    ensures AgreeUpToTies(cmp, Window(s, from, size), Window(t, from, size))
    ensures NoDup(s) ==> NoDup(Window(s, from, size))
    ensures forall x :: x in Window(s, from, size) ==> x in s
  {
    var w := Window(s, from, size);
    assert forall i :: 0 <= i < |w| ==> w[i] == s[from + i] && Window(t, from, size)[i] == t[from + i];
  }

  // ---------------------------------------------------------------- chained search_after

  /** Any sort by `_id` tells documents apart. */
  lemma {:induction false} IdSeparates(show: Printer, sorts: seq<SortSpec>, k: nat, pool: iset<Hit>)
    requires Prints(show) && DistinctIds(pool) && k < |sorts| && sorts[k].field == "_id"
    ensures Separates(BySpecs(show, sorts), pool)
    decreases k
  {
    if k > 0 {
      IdSeparates(show, sorts[1..], k - 1, pool);
    }
    forall a, b | a in pool && b in pool && BySpecs(show, sorts)(a, b).Equal?
      ensures a == b
    {
      if k == 0 {
        StringOrder(a.id, b.id, b.id);
      } else {
        assert BySpecs(show, sorts[1..])(a, b).Equal?;
      }
    }
  }

  predicate ScalarSort(sorts: seq<SortSpec>, hit: Hit) {
    forall k :: 0 <= k < |sorts| ==> Scalar(SortValue(hit, sorts[k].field))
  }

  /** The sort array of a returned hit is comparable with every document, and accepted as the next
      cursor exactly when its values are scalars. */
  lemma CursorOfIsUsable(sorts: seq<SortSpec>, last: Hit, pool: iset<Hit>)
    requires sorts != [] && last in pool && Sortable(sorts, pool)
    ensures CursorAccepted(Some(CursorOf(last, sorts)), sorts, 0) <==> ScalarSort(sorts, last)
    ensures Comparable(sorts, CursorOf(last, sorts), pool)
  {
    var cursor := CursorOf(last, sorts);
    assert forall k :: 0 <= k < |sorts| ==> cursor[k] == SortValue(last, sorts[k].field);
    forall k | 0 <= k < |sorts|
      ensures FieldComparable(sorts[k].field, CursorOf(last, sorts)[k], pool)
    {
      assert FieldSortable(sorts[k].field, pool);
      var kinds: set<Kind> :| KindsOk(kinds) && forall h :: h in pool ==> Among(SortValue(h, sorts[k].field), kinds);
      assert Among(SortValue(last, sorts[k].field), kinds);
    }
    forall k | 0 <= k < |sorts|
      ensures cursor[k] in cursor
    {
    }
  }

  /** The documents past the i-th listed one are exactly the rest of the listing, in order. */
  lemma ListingAfter(show: Printer, sorts: seq<SortSpec>, passes: Hit -> bool, documents: seq<Hit>, i: nat, pool: iset<Hit>)
    requires Prints(show) && Sortable(sorts, pool) && DistinctIds(pool) && Separates(BySpecs(show, sorts), pool)
    requires From(documents, pool) && NoDup(documents)
    requires 0 < i <= |Listing(show, sorts, passes, None, documents)|
    ensures var all := Listing(show, sorts, passes, None, documents);
            Listing(show, sorts, passes, Some(CursorOf(all[i - 1], sorts)), documents) == all[i..]
  {
    var all := Listing(show, sorts, passes, None, documents);
    var cursor := Some(CursorOf(all[i - 1], sorts));
    var selected := Selected(show, sorts, passes, cursor, documents);
    SelectedElements(show, sorts, passes, None, documents);
    SelectedElements(show, sorts, passes, cursor, documents);
    ListingFacts(show, sorts, passes, documents, pool);
    hide BySpecsAndId, Sort, SortOnto, Sortable, Prints, HitIsAfter, CursorOf, CompareBySpecs, Selected, DistinctIds, Separates;
    forall j | 0 <= j < |all|
      ensures After(show, sorts, cursor)(all[j]) <==> i <= j
    {
      assert all[j] in all && all[i - 1] in all;
      AfterCursorOf(show, sorts, all[j], all[i - 1], pool);
      ListedLater(show, sorts, all, i - 1, j, pool);
    }
    RestOfListing(show, sorts, all, selected, After(show, sorts, cursor), i, pool);
  }

  lemma ListingFacts(show: Printer, sorts: seq<SortSpec>, passes: Hit -> bool, documents: seq<Hit>, pool: iset<Hit>)
    requires Prints(show) && Sortable(sorts, pool) && DistinctIds(pool)
    requires From(documents, pool) && NoDup(documents)
    ensures var all := Listing(show, sorts, passes, None, documents);
            && From(all, pool) && NoDup(all) && Sorted(BySpecsAndId(show, sorts), all) && Sorted(BySpecs(show, sorts), all)
            && forall h :: h in all <==> h in Selected(show, sorts, passes, None, documents)
  {
    var cmp := BySpecsAndId(show, sorts);
    var selected := Selected(show, sorts, passes, None, documents);
    SelectedElements(show, sorts, passes, None, documents);
    HitsTotallyOrdered(show, sorts, pool);
    SortIsSorted(cmp, selected, pool);
    PermutationNoDup(selected, Sort(cmp, selected));
    SameElements(selected, Sort(cmp, selected), pool);
    IdTieBreakKeepsSpecs(show, sorts, Sort(cmp, selected));
    forall h
      ensures h in Sort(cmp, selected) <==> h in selected
    {
      assert h in multiset(selected) <==> h in multiset(Sort(cmp, selected));
    }
  }

  lemma RestOfListing(show: Printer, sorts: seq<SortSpec>, all: seq<Hit>, selected: seq<Hit>, after: Hit -> bool, i: nat,
                      pool: iset<Hit>)
    requires Prints(show) && Sortable(sorts, pool) && DistinctIds(pool)
    requires From(all, pool) && NoDup(all) && NoDup(selected) && Sorted(BySpecsAndId(show, sorts), all)
    requires i <= |all| && forall j :: 0 <= j < |all| ==> (after(all[j]) <==> i <= j)
    requires forall h :: h in selected <==> h in all && after(h)
    ensures Sort(BySpecsAndId(show, sorts), selected) == all[i..]
  {
    var cmp := BySpecsAndId(show, sorts);
    HitsTotallyOrdered(show, sorts, pool);
    hide BySpecsAndId, Sort, SortOnto;
    forall h
      ensures h in selected <==> h in all[i..]
    {
      if h in all {
        var j :| 0 <= j < |all| && all[j] == h;
        assert j >= i ==> all[i..][j - i] == h;
      }
    }
    SameSet(selected, all[i..]);
    SortIsSorted(cmp, selected, pool);
    SortedIsUnique(cmp, all[i..], Sort(cmp, selected), pool);
  }

  lemma ListedLater(show: Printer, sorts: seq<SortSpec>, all: seq<Hit>, i: nat, j: nat, pool: iset<Hit>)
    requires Prints(show) && Sortable(sorts, pool) && Separates(BySpecs(show, sorts), pool)
    requires From(all, pool) && NoDup(all) && Sorted(BySpecs(show, sorts), all) && i < |all| && j < |all|
    ensures CompareBySpecs(show, sorts, all[i], all[j]).Less? <==> i < j
  {
    var cmp := BySpecs(show, sorts);
    SpecsPreorder(show, sorts, pool);
    assert all[i] in all && all[j] in all;
    assert cmp(all[i], all[j]) == Reverse(cmp(all[j], all[i]));
    if i == j {
    } else if i < j {
      assert !cmp(all[i], all[j]).Greater?;
    } else {
      assert !cmp(all[j], all[i]).Greater?;
    }
  }

  lemma TakeMore<T>(all: seq<T>, k: nat, size: nat)
    requires size > 0
    ensures Take(all, k) + Window(all[|Take(all, k)|..], 0, size) == Take(all, k + size)
  {
    var i := |Take(all, k)|;
    assert all[..i] + all[i..] == all;
    assert all[i..][0..] == all[i..];
  }

  /** The client can go on from these hits: there are none, or the last one's sort array is accepted. */
  predicate EndsScalar(sorts: seq<SortSpec>, hits: seq<Hit>) {
    hits == [] || ScalarSort(sorts, hits[|hits| - 1])
  }

  /** The hits are the first `read` pages of the listing, and each of them could be asked for. */
  ghost predicate FirstPages(hits: seq<Hit>, all: seq<Hit>, sorts: seq<SortSpec>, read: nat, size: nat) {
    hits == Take(all, read * size) && forall k :: 0 <= k < read ==> EndsScalar(sorts, Take(all, k * size))
  }

  /** A client that passes each page's last sort array on, with a key that tells documents apart, reads
      the listing in order and without gaps: k pages are its first k * size documents, however each
      scan is split and its hash map ordered. It is stopped only by a page that ends on a document with
      a sort value that is an array or an object. */
  method ReadPages(show: Printer, sorts: seq<SortSpec>, passes: Hit -> bool, scans: seq<seq<Page<Hit>>>,
                   arranges: seq<Arrangement>, size: nat, ghost documents: seq<Hit>, ghost pool: iset<Hit>)
    returns (hits: seq<Hit>, read: nat)
    requires Prints(show) && Sortable(sorts, pool) && DistinctIds(pool) && Separates(BySpecs(show, sorts), pool)
    requires sorts != [] && size > 0 && |arranges| == |scans| && forall k :: 0 <= k < |scans| ==> Arranges(arranges[k])
    requires From(documents, pool) && NoDup(documents)
    requires forall k :: 0 <= k < |scans| ==> IsScroll(scans[k]) && Advances(scans[k]) && AllPoints(scans[k]) == documents
    ensures read <= |scans| && FirstPages(hits, Listing(show, sorts, passes, None, documents), sorts, read, size)
    ensures read < |scans| ==> !EndsScalar(sorts, hits)
    ensures read * size >= |documents| ==> multiset(hits) == multiset(Filter(passes, documents))
    ensures NoDup(hits) && Sorted(BySpecs(show, sorts), hits)
  {
    ghost var all := Listing(show, sorts, passes, None, documents);
    hide *;
    hits, read := [], 0;
    NothingRead(all, sorts, size);
    while read < |scans|
      invariant read <= |scans| && FirstPages(hits, all, sorts, read, size)
    {
      var cursor := if hits == [] then None else Some(CursorOf(hits[|hits| - 1], sorts));
      PageRead(show, sorts, passes, documents, hits, read, size, pool);
      UnusableIff(cursor, sorts, 0);
      var r := Search(show, sorts, passes, cursor, scans[read], arranges[read], 0, size, pool);
      if r.Rejected? {
        break;
      }
      hits := hits + r.page;
      read := read + 1;
    }
    WholeListing(show, sorts, passes, documents, hits, read, size, pool);
  }

  lemma NothingRead(all: seq<Hit>, sorts: seq<SortSpec>, size: nat)
    ensures FirstPages([], all, sorts, 0, size)
  {
  }

  /** After `read` pages the next search, if its cursor is accepted, returns the next ones. */
  lemma PageRead(show: Printer, sorts: seq<SortSpec>, passes: Hit -> bool, documents: seq<Hit>, hits: seq<Hit>,
                 read: nat, size: nat, pool: iset<Hit>)
    requires Prints(show) && Sortable(sorts, pool) && DistinctIds(pool) && Separates(BySpecs(show, sorts), pool)
    requires From(documents, pool) && NoDup(documents) && size > 0 && sorts != []
    requires FirstPages(hits, Listing(show, sorts, passes, None, documents), sorts, read, size)
    ensures var cursor := if hits == [] then None else Some(CursorOf(hits[|hits| - 1], sorts));
            && (cursor.Some? ==> Comparable(sorts, cursor.value, pool))
            && (CursorAccepted(cursor, sorts, 0) <==> EndsScalar(sorts, hits))
            && (EndsScalar(sorts, hits) ==>
                  FirstPages(hits + Window(Listing(show, sorts, passes, cursor, documents), 0, size),
                             Listing(show, sorts, passes, None, documents), sorts, read + 1, size))
  {
    hide Listing, Sortable, Prints, DistinctIds, Separates, CursorOf, Comparable, EndsScalar, Window, Take;
    var all := Listing(show, sorts, passes, None, documents);
    var n := read * size;
    assert hits == Take(all, n) by { hide Listing; }
    var cursor := if hits == [] then None else Some(CursorOf(hits[|hits| - 1], sorts));
    RestFromCursor(show, sorts, passes, documents, hits, n, pool);
    TakeMore(all, n, size);
    if EndsScalar(sorts, hits) {
      MorePages(hits, Window(Listing(show, sorts, passes, cursor, documents), 0, size), all, sorts, read, size);
    }
  }

  /** The cursor of what was read selects what was not. */
  lemma RestFromCursor(show: Printer, sorts: seq<SortSpec>, passes: Hit -> bool, documents: seq<Hit>, hits: seq<Hit>, n: nat,
                       pool: iset<Hit>)
    requires Prints(show) && Sortable(sorts, pool) && DistinctIds(pool) && Separates(BySpecs(show, sorts), pool)
    requires From(documents, pool) && NoDup(documents) && sorts != []
    requires hits == Take(Listing(show, sorts, passes, None, documents), n)
    ensures var cursor := if hits == [] then None else Some(CursorOf(hits[|hits| - 1], sorts));
            && (cursor.Some? ==> Comparable(sorts, cursor.value, pool))
            && (CursorAccepted(cursor, sorts, 0) <==> EndsScalar(sorts, hits))
            && |hits| <= |Listing(show, sorts, passes, None, documents)|
            && Listing(show, sorts, passes, cursor, documents) == Listing(show, sorts, passes, None, documents)[|hits|..]
  {
    var all := Listing(show, sorts, passes, None, documents);
    var i := |hits|;
    assert hits == all[..i];
    if i == 0 {
      assert all[i..] == all;
    } else {
      assert EndsScalar(sorts, hits) <==> ScalarSort(sorts, hits[i - 1]);
      hide *;
      ListedInPool(show, sorts, passes, documents, i - 1, pool);
      CursorOfIsUsable(sorts, hits[i - 1], pool);
      ListingAfter(show, sorts, passes, documents, i, pool);
    }
  }

  lemma ListedInPool(show: Printer, sorts: seq<SortSpec>, passes: Hit -> bool, documents: seq<Hit>, i: nat, pool: iset<Hit>)
    requires Prints(show) && Sortable(sorts, pool) && DistinctIds(pool) && From(documents, pool) && NoDup(documents)
    requires i < |Listing(show, sorts, passes, None, documents)|
    ensures Listing(show, sorts, passes, None, documents)[i] in pool
  {
    ListingFacts(show, sorts, passes, documents, pool);
    hide Listing;
  }

  lemma MorePages(hits: seq<Hit>, page: seq<Hit>, all: seq<Hit>, sorts: seq<SortSpec>, read: nat, size: nat)
    requires FirstPages(hits, all, sorts, read, size) && EndsScalar(sorts, hits)
    requires hits + page == Take(all, read * size + size)
    ensures FirstPages(hits + page, all, sorts, read + 1, size)
  {
    hide Take, EndsScalar;
    assert (read + 1) * size == read * size + size;
    forall k | 0 <= k < read + 1
      ensures EndsScalar(sorts, Take(all, k * size))
    {
      if k == read {
        assert k * size == read * size;
      }
    }
  }

  /** A beginning of the listing that is long enough lists every document past the filter once. */
  lemma WholeListing(show: Printer, sorts: seq<SortSpec>, passes: Hit -> bool, documents: seq<Hit>, hits: seq<Hit>,
                     read: nat, size: nat, pool: iset<Hit>)
    requires Prints(show) && Sortable(sorts, pool) && DistinctIds(pool)
    requires From(documents, pool) && NoDup(documents)
    requires FirstPages(hits, Listing(show, sorts, passes, None, documents), sorts, read, size)
    ensures read * size >= |documents| ==> multiset(hits) == multiset(Filter(passes, documents))
    ensures NoDup(hits) && Sorted(BySpecs(show, sorts), hits)
  {
    hide Listing, Sortable, DistinctIds, Prints, Filter, CompareBySpecs;
    ListingFacts(show, sorts, passes, documents, pool);
    ListingIsAll(show, sorts, passes, documents, pool);
  }

  lemma ListingIsAll(show: Printer, sorts: seq<SortSpec>, passes: Hit -> bool, documents: seq<Hit>, pool: iset<Hit>)
    requires Prints(show) && Sortable(sorts, pool) && DistinctIds(pool) && From(documents, pool)
    ensures multiset(Listing(show, sorts, passes, None, documents)) == multiset(Filter(passes, documents))
    ensures |Listing(show, sorts, passes, None, documents)| <= |documents|
  {
    var selected := Filter(passes, documents);
    FilterAgain(After(show, sorts, None), selected);
    FilterShorter(passes, documents);
    SortKeeps(BySpecsAndId(show, sorts), [], selected);
  }

  lemma {:induction false} FilterShorter<T>(p: T -> bool, s: seq<T>)
    ensures |Filter(p, s)| <= |s|
  {
    if s != [] {
      FilterShorter(p, s[..|s| - 1]);
    }
  }
}
