/** Search hits, their sort values, and the comparisons that order them and place them
    relative to a search_after cursor. */
module Hits {
  import opened Options
  import opened Values
  import opened Ranking

  datatype Hit = Hit(id: string, source: Json)

  datatype SortSpec = SortSpec(field: string, descending: bool)

  // ---------------------------------------------------------------- source fields

  function Split(s: string, c: char): (parts: seq<string>)
    ensures parts != []
  {
    if s == [] then [[]]
    else
      var rest := Split(s[1..], c);
      if s[0] == c then [[]] + rest else [[s[0]] + rest[0]] + rest[1..]
  }

  function Descend(v: Json, parts: seq<string>): Option<Json> {
    if parts == [] then Some(v)
    else if v.Obj? && parts[0] in v.fields then Descend(v.fields[parts[0]], parts[1..])
    else None
  }

  /** A dotted path walks nested objects. */
  function SourceField(source: Json, path: string): Option<Json> {
    Descend(source, Split(path, '.'))
  }

  /** A trailing ".keyword" names the same field. */
  function CompatibilityField(field: string): string {
    if |field| >= 8 && field[|field| - 8..] == ".keyword" then field[..|field| - 8] else field
  }

  lemma {:induction false} PlainPath(path: string)
    requires '.' !in path
    ensures Split(path, '.') == [path]
    decreases |path|
  {
    if path != [] {
      assert path == [path[0]] + path[1..];
      PlainPath(path[1..]);
    }
  }

  /** A field name without a dot is looked up directly. */
  lemma PlainField(source: Json, field: string)
    requires '.' !in field
    ensures SourceField(source, field) ==
            if source.Obj? && field in source.fields then Some(source.fields[field]) else None
    ensures CompatibilityField(field) == field
  {
    PlainPath(field);
    if source.Obj? && field in source.fields {
      assert Descend(source.fields[field], []) == Some(source.fields[field]);
      assert [field][1..] == [];
    }
    if |field| >= 8 {
      assert field[|field| - 8..][0] == field[|field| - 8];
      assert field[|field| - 8] in field;
    }
  }

  lemma {:induction false} SplitFirst(name: string, rest: string, c: char)
    requires c !in name
    ensures Split(name + [c] + rest, c) == [name] + Split(rest, c)
    decreases |name|
  {
    var s := name + [c] + rest;
    if name == [] {
      assert s[1..] == rest;
    } else {
      assert name == [name[0]] + name[1..];
      assert s[1..] == name[1..] + [c] + rest;
      SplitFirst(name[1..], rest, c);
    }
  }

  /** A dotted name is looked up in what its first part leads to; with `PlainField` this says where
      every path leads. */
  lemma DottedField(source: Json, name: string, rest: string)
    requires '.' !in name
    ensures SourceField(source, name + "." + rest) ==
            match SourceField(source, name) case Some(v) => SourceField(v, rest) case None => None
  {
    SplitFirst(name, rest, '.');
    assert name + "." + rest == name + ['.'] + rest;
    PlainField(source, name);
    assert ([name] + Split(rest, '.'))[1..] == Split(rest, '.');
  }

  lemma KeywordIsTheField(field: string)
    ensures CompatibilityField(field + ".keyword") == field
    ensures |field| < 8 || field[|field| - 8..] != ".keyword" ==> CompatibilityField(field) == field
  {
    var f := field + ".keyword";
    assert f[|f| - 8..] == ".keyword" && f[..|f| - 8] == field;
  }

  // ---------------------------------------------------------------- comparisons

  function SortValue(hit: Hit, field: string): Json {
    if field == "_score" then Null
    else if field == "_id" then Str(hit.id)
    else match SourceField(hit.source, CompatibilityField(field)) case Some(v) => v case None => Null
  }

  /** `_score` is null in a scan, `_id` the document id, any other field its source value or null. */
  lemma SortValues(hit: Hit, field: string)
    ensures SortValue(hit, "_score") == Null && SortValue(hit, "_id") == Str(hit.id)
    ensures field !in {"_score", "_id"} && SourceField(hit.source, field).Some? && !Keyword(field) ==>
              Some(SortValue(hit, field)) == SourceField(hit.source, field)
    ensures field !in {"_score", "_id"} && SourceField(hit.source, field).None? && !Keyword(field) ==> SortValue(hit, field) == Null
    ensures field !in {"_score", "_id"} && !Keyword(field) ==> SortValue(hit, field + ".keyword") == SortValue(hit, field)
  {
    KeywordIsTheField(field);
  }

  predicate Keyword(field: string) {
    |field| >= 8 && field[|field| - 8..] == ".keyword"
  }

  function Directed(o: Ordering, descending: bool): Ordering {
    if descending then Reverse(o) else o
  }

  /** The sort specifications alone, first difference wins. */
  function CompareBySpecs(show: Printer, sorts: seq<SortSpec>, a: Hit, b: Hit): Ordering {
    if sorts == [] then Equal
    else
      Then(Directed(ValueCmp(show, SortValue(a, sorts[0].field), SortValue(b, sorts[0].field)), sorts[0].descending),
           CompareBySpecs(show, sorts[1..], a, b))
  }

  /** The scan's comparison: ties fall to the document id. */
  function CompareHits(show: Printer, sorts: seq<SortSpec>, a: Hit, b: Hit): Ordering {
    Then(CompareBySpecs(show, sorts, a, b), ValueCmp(show, SortValue(a, "_id"), SortValue(b, "_id")))
  }

  function BySpecs(show: Printer, sorts: seq<SortSpec>): Cmp<Hit> {
    (a: Hit, b: Hit) => CompareBySpecs(show, sorts, a, b)
  }

  function BySpecsAndId(show: Printer, sorts: seq<SortSpec>): Cmp<Hit> {
    (a: Hit, b: Hit) => CompareHits(show, sorts, a, b)
  }

  function ByField(show: Printer, spec: SortSpec): Cmp<Hit> {
    (a: Hit, b: Hit) => Directed(ValueCmp(show, SortValue(a, spec.field), SortValue(b, spec.field)), spec.descending)
  }

  /** Strictly after the cursor; equal in every sort value is not after. */
  predicate HitIsAfter(show: Printer, hit: Hit, cursor: seq<Json>, sorts: seq<SortSpec>) {
    if sorts == [] || cursor == [] then false
    else
      var order := ValueCmp(show, SortValue(hit, sorts[0].field), cursor[0]);
      if order.Equal? then HitIsAfter(show, hit, cursor[1..], sorts[1..])
      else if sorts[0].descending then order.Less? else order.Greater?
  }

  /** The `sort` array a hit carries in the response. */
  function CursorOf(hit: Hit, sorts: seq<SortSpec>): (cursor: seq<Json>)
    ensures |cursor| == |sorts|
  {
    seq(|sorts|, i requires 0 <= i < |sorts| => SortValue(hit, sorts[i].field))
  }

  // ---------------------------------------------------------------- when they are orders

  /** No sort field mixes numbers with strings, and integers are 64-bit. */
  ghost predicate Sortable(sorts: seq<SortSpec>, pool: iset<Hit>) {
    forall k :: 0 <= k < |sorts| ==> FieldSortable(sorts[k].field, pool)
  }

  ghost predicate FieldSortable(field: string, pool: iset<Hit>) {
    exists kinds: set<Kind> :: KindsOk(kinds) && forall h :: h in pool ==> Among(SortValue(h, field), kinds)
  }

  predicate KindsOk(kinds: set<Kind>) {
    !(NumberKind in kinds && StringKind in kinds)
  }

  /** Document ids identify documents. */
  ghost predicate DistinctIds(pool: iset<Hit>) {
    forall a, b :: a in pool && b in pool && a.id == b.id ==> a == b
  }

  lemma FieldPreorder(show: Printer, spec: SortSpec, pool: iset<Hit>)
    requires Prints(show) && FieldSortable(spec.field, pool)
    ensures Preorder(ByField(show, spec), pool)
  {
    var kinds :| KindsOk(kinds) && forall h :: h in pool ==> Among(SortValue(h, spec.field), kinds);
    TotalPreorderIff(show, kinds);
    var cmp := ByField(show, spec);
    forall a, b | a in pool && b in pool
      ensures cmp(a, b) == Reverse(cmp(b, a))
    {
      assert Among(SortValue(a, spec.field), kinds) && Among(SortValue(b, spec.field), kinds);
    }
    forall a, b, c | a in pool && b in pool && c in pool && !cmp(a, b).Greater? && !cmp(b, c).Greater?
      ensures !cmp(a, c).Greater?
    {
      FieldTransitive(show, spec, kinds, a, b, c);
    }
  }

  lemma FieldTransitive(show: Printer, spec: SortSpec, kinds: set<Kind>, a: Hit, b: Hit, c: Hit)
    requires Prints(show) && KindsOk(kinds)
    requires Among(SortValue(a, spec.field), kinds) && Among(SortValue(b, spec.field), kinds) && Among(SortValue(c, spec.field), kinds)
    requires !ByField(show, spec)(a, b).Greater? && !ByField(show, spec)(b, c).Greater?
    ensures !ByField(show, spec)(a, c).Greater?
  {
    var x, y, z := SortValue(a, spec.field), SortValue(b, spec.field), SortValue(c, spec.field);
    hide SortValue;
    Transitive(show, kinds, x, y, z);
    Transitive(show, kinds, z, y, x);
    Transitive(show, kinds, y, x, z);
    Transitive(show, kinds, x, z, y);
  }

  /** Breaking the ties of one preorder by another gives a preorder. */
  lemma LexicographicPreorder<T(!new)>(first: Cmp<T>, second: Cmp<T>, both: Cmp<T>, pool: iset<T>)
    requires Preorder(first, pool) && Preorder(second, pool)
    requires forall a, b :: both(a, b) == Then(first(a, b), second(a, b))
    ensures Preorder(both, pool)
  {
    forall a, b, c | a in pool && b in pool && c in pool && !both(a, b).Greater? && !both(b, c).Greater?
      ensures !both(a, c).Greater?
    {
      assert first(a, c) == Reverse(first(c, a)) && first(a, b) == Reverse(first(b, a)) && first(b, c) == Reverse(first(c, b));
      if first(a, c).Equal? {
        // c <= a, so every comparison around the triangle is an equality.
        assert !first(c, a).Greater?;
        assert !first(c, b).Greater?;
        assert !first(b, a).Greater?;
      }
    }
  }

  lemma {:induction false} SpecsPreorder(show: Printer, sorts: seq<SortSpec>, pool: iset<Hit>)
    requires Prints(show) && Sortable(sorts, pool)
    ensures Preorder(BySpecs(show, sorts), pool)
    decreases |sorts|
  {
    if sorts != [] {
      assert forall k :: 0 <= k < |sorts[1..]| ==> sorts[1..][k] == sorts[k + 1];
      assert FieldSortable(sorts[0].field, pool);
      FieldPreorder(show, sorts[0], pool);
      SpecsPreorder(show, sorts[1..], pool);
      LexicographicPreorder(ByField(show, sorts[0]), BySpecs(show, sorts[1..]), BySpecs(show, sorts), pool);
    }
  }

  lemma IdsAreSortable(pool: iset<Hit>)
    ensures FieldSortable("_id", pool)
  {
    assert KindsOk({StringKind});
    assert forall h :: h in pool ==> Among(SortValue(h, "_id"), {StringKind});
  }

  /** With the document id as tie-break the scan's comparison is a total order on documents. */
  lemma HitsTotallyOrdered(show: Printer, sorts: seq<SortSpec>, pool: iset<Hit>)
    requires Prints(show) && Sortable(sorts, pool) && DistinctIds(pool)
    ensures Preorder(BySpecsAndId(show, sorts), pool) && Separates(BySpecsAndId(show, sorts), pool)
  {
    SpecsPreorder(show, sorts, pool);
    IdsAreSortable(pool);
    FieldPreorder(show, SortSpec("_id", false), pool);
    LexicographicPreorder(BySpecs(show, sorts), ByField(show, SortSpec("_id", false)), BySpecsAndId(show, sorts), pool);
    forall a, b | a in pool && b in pool && BySpecsAndId(show, sorts)(a, b).Equal?
      ensures a == b
    {
      StringOrder(a.id, b.id, b.id);
    }
  }

  /** A hit is after another hit's sort array exactly when it sorts strictly later. */
  lemma {:induction false} AfterCursorOf(show: Printer, sorts: seq<SortSpec>, hit: Hit, last: Hit, pool: iset<Hit>)
    requires Prints(show) && Sortable(sorts, pool) && hit in pool && last in pool
    ensures HitIsAfter(show, hit, CursorOf(last, sorts), sorts) <==> CompareBySpecs(show, sorts, last, hit).Less?
    decreases |sorts|
  {
    if sorts != [] {
      assert forall k :: 0 <= k < |sorts[1..]| ==> sorts[1..][k] == sorts[k + 1];
      assert CursorOf(last, sorts)[1..] == CursorOf(last, sorts[1..]);
      AfterCursorOf(show, sorts[1..], hit, last, pool);
      assert FieldSortable(sorts[0].field, pool);
      FieldPreorder(show, sorts[0], pool);
      var cmp := ByField(show, sorts[0]);
      assert cmp(hit, last) == Reverse(cmp(last, hit));
    }
  }
}
