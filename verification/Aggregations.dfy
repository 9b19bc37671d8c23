/** Streaming reductions over every page of a scroll, and the count and facet reads that may
    stand in for them when the stored markers cover the query. */
module Aggregations {
  import opened Options
  import opened Values
  import opened Sequences
  import opened Ranking
  import opened Hits
  import opened Markers
  import opened Queries

  const MAX_BUCKETS: nat := 10_000

  /** A terms bucket: numbers by value, everything else by its JSON text. */
  datatype Key = NumberBucket(number: TermsKey) | TextBucket(value: Json)

  function KeyOf(v: Json): Key {
    if IsNumber(v) then NumberBucket(NumberKey(v)) else TextBucket(v)
  }

  /** `value` is the first document value that fell into the bucket. */
  datatype Bucket = Bucket(value: Json, count: nat)

  type Counts = map<Key, Bucket>

  datatype Reduction =
    | Metric(field: string, minimum: bool, value: Option<real>)
    | Filtered(query: Query, count: nat)
    | TermsCount(field: string, size: nat, counts: Counts)

  // ---------------------------------------------------------------- specification

  function FieldValues(source: Json, field: string): seq<Json> {
    Filter((v: Json) => !v.Null?,
           match SourceField(source, field) case None => [] case Some(Arr(items)) => items case Some(v) => [v])
  }

  predicate Scalar(v: Json) {
    v.Str? || IsNumber(v) || v.Bool?
  }

  function Bump(counts: Counts, v: Json): Counts {
    var k := KeyOf(v);
    counts[k := if k in counts then Bucket(counts[k].value, counts[k].count + 1) else Bucket(v, 1)]
  }

  /** One document counts once in each of its buckets. */
  function Tally(counts: Counts, seen: set<Key>, values: seq<Json>): Option<Counts>
    decreases |values|
  {
    if values == [] then Some(counts)
    else if !Scalar(values[0]) then None
    else if KeyOf(values[0]) in seen then Tally(counts, seen, values[1..])
    else Tally(Bump(counts, values[0]), seen + {KeyOf(values[0])}, values[1..])
  }

  function Extreme(minimum: bool, previous: Option<real>, x: real): real {
    if previous.None? then x
    else if minimum then (if x < previous.value then x else previous.value)
    else if x > previous.value then x else previous.value
  }

  function Extremes(minimum: bool, previous: Option<real>, values: seq<Json>): Option<Option<real>>
    decreases |values|
  {
    if values == [] then Some(previous)
    else if !IsNumber(values[0]) then None
    else Extremes(minimum, Some(Extreme(minimum, previous, NumberOf(values[0]))), values[1..])
  }

  function Observed(r: Reduction, source: Json): Option<Reduction> {
    match r
    case Metric(field, minimum, value) =>
      (match Extremes(minimum, value, FieldValues(source, field)) case Some(v) => Some(Metric(field, minimum, v)) case None => None)
    case Filtered(query, count) => Some(Filtered(query, count + if SourceMatches(source, query) then 1 else 0))
    case TermsCount(field, size, counts) =>
      (match Tally(counts, {}, FieldValues(source, field))
       case Some(c) => if |c| > MAX_BUCKETS then None else Some(TermsCount(field, size, c))
       case None => None)
  }

  function ObservedAll(r: Reduction, sources: seq<Json>): Option<Reduction>
    decreases |sources|
  {
    if sources == [] then Some(r)
    else match ObservedAll(r, sources[..|sources| - 1])
      case Some(front) => Observed(front, sources[|sources| - 1])
      case None => None
  }

  // ---------------------------------------------------------------- the reducer

  class Reducer {
    var state: Reduction

    constructor (r: Reduction)
      ensures state == r
    {
      state := r;
    }

    method Observe(source: Json) returns (ok: bool)
      modifies this
      ensures ok <==> Observed(old(state), source).Some?
      ensures ok ==> state == Observed(old(state), source).value
    {
      match state {
        case Metric(field, minimum, value) =>
          var values := FieldValues(source, field);
          var best := value;
          for i := 0 to |values|
            invariant Extremes(minimum, value, values) == Extremes(minimum, best, values[i..])
          {
            if !IsNumber(values[i]) {
              return false;
            }
            best := Some(Extreme(minimum, best, NumberOf(values[i])));
            assert values[i..][1..] == values[i + 1..];
          }
          state := Metric(field, minimum, best);
        case Filtered(query, count) =>
          if SourceMatches(source, query) {
            state := Filtered(query, count + 1);
          }
        case TermsCount(field, size, before) =>
          var values := FieldValues(source, field);
          var counts, seen: set<Key> := before, {};
          for i := 0 to |values|
            invariant Tally(before, {}, values) == Tally(counts, seen, values[i..])
          {
            if !Scalar(values[i]) {
              return false;
            }
            if KeyOf(values[i]) !in seen {
              seen := seen + {KeyOf(values[i])};
              counts := Bump(counts, values[i]);
            }
            assert values[i..][1..] == values[i + 1..];
          }
          if |counts| > MAX_BUCKETS {
            return false;
          }
          state := TermsCount(field, size, counts);
      }
      ok := true;
    }
  }

  // ---------------------------------------------------------------- what streaming terms counts

  function DocumentKeys(source: Json, field: string): set<Key> {
    set v | v in FieldValues(source, field) :: KeyOf(v)
  }

  function CountDocuments(sources: seq<Json>, field: string, k: Key): nat
    decreases |sources|
  {
    if sources == [] then 0
    else CountDocuments(sources[..|sources| - 1], field, k) + if k in DocumentKeys(sources[|sources| - 1], field) then 1 else 0
  }

  function CountOf(counts: Counts, k: Key): nat {
    if k in counts then counts[k].count else 0
  }

  ghost predicate Tidy(counts: Counts) {
    forall k :: k in counts ==> counts[k].count > 0 && KeyOf(counts[k].value) == k
  }

  lemma {:induction false} TallyCounts(counts: Counts, seen: set<Key>, values: seq<Json>)
    requires Tidy(counts)
    ensures Tally(counts, seen, values).Some? <==> forall v :: v in values ==> Scalar(v)
    ensures Tally(counts, seen, values).Some? ==> Tidy(Tally(counts, seen, values).value)
    ensures Tally(counts, seen, values).Some? ==> forall k ::
              CountOf(Tally(counts, seen, values).value, k) == CountOf(counts, k) + Once(values, seen, k)
    decreases |values|
  {
    if values != [] {
      var v, rest := values[0], values[1..];
      assert values == [v] + rest;
      assert forall x :: x in values <==> x == v || x in rest;
      if Scalar(v) {
        if KeyOf(v) in seen {
          TallyCounts(counts, seen, rest);
        } else {
          TallyCounts(Bump(counts, v), seen + {KeyOf(v)}, rest);
        }
      }
    }
  }

  function Once(values: seq<Json>, seen: set<Key>, k: Key): nat {
    if k !in seen && exists v :: v in values && KeyOf(v) == k then 1 else 0
  }

  ghost predicate AllScalar(sources: seq<Json>, field: string) {
    forall s, v :: s in sources && v in FieldValues(s, field) ==> Scalar(v)
  }

  /** A bucket exists exactly when some document has its key, and counts those documents. */
  ghost predicate IsTermsCount(counts: Counts, sources: seq<Json>, field: string) {
    Tidy(counts) && forall k :: CountOf(counts, k) == CountDocuments(sources, field, k)
  }

  lemma {:induction false} StreamedTerms(field: string, size: nat, sources: seq<Json>)
    ensures var r := ObservedAll(TermsCount(field, size, map[]), sources);
            r.Some? ==> && r.value.TermsCount? && r.value.field == field && r.value.size == size
                        && IsTermsCount(r.value.counts, sources, field) && AllScalar(sources, field)
    decreases |sources|
  {
    if sources != [] && ObservedAll(TermsCount(field, size, map[]), sources).Some? {
      var front, last := sources[..|sources| - 1], sources[|sources| - 1];
      hide IsTermsCount, AllScalar, Tally, FieldValues;
      StreamedTerms(field, size, front);
      assert sources == front + [last];
      TermsStep(field, front, last, ObservedAll(TermsCount(field, size, map[]), front).value.counts);
    } else {
      NoTerms(field);
    }
  }

  lemma NoTerms(field: string)
    ensures IsTermsCount(map[], [], field) && AllScalar([], field)
  {
  }

  lemma TermsStep(field: string, front: seq<Json>, last: Json, before: Counts)
    requires IsTermsCount(before, front, field) && AllScalar(front, field)
    ensures var after := Tally(before, {}, FieldValues(last, field));
            after.Some? ==> IsTermsCount(after.value, front + [last], field) && AllScalar(front + [last], field)
  {
    TallyCounts(before, {}, FieldValues(last, field));
    hide Tally, FieldValues, Tidy, CountOf;
    var sources := front + [last];
    assert sources[..|sources| - 1] == front;
    assert forall s :: s in sources <==> s in front || s == last;
  }

  /** Streaming fails only on a value that is no scalar or on too many distinct keys. */
  lemma {:induction false} StreamSucceeds(field: string, size: nat, sources: seq<Json>, keys: set<Key>)
    requires AllScalar(sources, field) && |keys| <= MAX_BUCKETS
    requires forall s :: s in sources ==> DocumentKeys(s, field) <= keys
    ensures ObservedAll(TermsCount(field, size, map[]), sources).Some?
    decreases |sources|
  {
    if sources != [] {
      var front, last := sources[..|sources| - 1], sources[|sources| - 1];
      assert sources == front + [last];
      StreamSucceeds(field, size, front, keys);
      StreamedTerms(field, size, front);
      var before := ObservedAll(TermsCount(field, size, map[]), front).value.counts;
      TallyCounts(before, {}, FieldValues(last, field));
      var after := Tally(before, {}, FieldValues(last, field)).value;
      forall k | k in after
        ensures k in keys
      {
        assert CountOf(after, k) == CountOf(before, k) + Once(FieldValues(last, field), {}, k) > 0;
        if k in before {
          CountedSomewhere(front, field, k);
          var s :| s in front && k in DocumentKeys(s, field);
          assert s in sources;
        } else {
          assert k in DocumentKeys(last, field);
        }
      }
      Subset(after.Keys, keys);
      assert |after| == |after.Keys|;
    }
  }

  lemma {:induction false} CountedSomewhere(sources: seq<Json>, field: string, k: Key)
    requires CountDocuments(sources, field, k) > 0
    ensures exists s :: s in sources && k in DocumentKeys(s, field)
    decreases |sources|
  {
    var front, last := sources[..|sources| - 1], sources[|sources| - 1];
    assert sources == front + [last];
    if k !in DocumentKeys(last, field) {
      CountedSomewhere(front, field, k);
    }
  }

  lemma {:induction false} Subset<T(!new)>(a: set<T>, b: set<T>)
    requires a <= b
    ensures |a| <= |b|
  {
    if a != {} {
      var x :| x in a;
      Subset(a - {x}, b - {x});
    }
  }

  // ---------------------------------------------------------------- metrics

  /** A metric is the least (or greatest) of all numbers in the field, over every document. */
  ghost predicate IsExtreme(minimum: bool, value: Option<real>, sources: seq<Json>, field: string) {
    && (forall s, v :: s in sources && v in FieldValues(s, field) ==>
          IsNumber(v) && value.Some? && if minimum then value.value <= NumberOf(v) else value.value >= NumberOf(v))
    && (value.Some? ==> exists s, v :: s in sources && v in FieldValues(s, field) && IsNumber(v) && NumberOf(v) == value.value)
  }

  lemma {:induction false} ExtremesBound(minimum: bool, previous: Option<real>, values: seq<Json>)
    ensures Extremes(minimum, previous, values).Some? <==> forall v :: v in values ==> IsNumber(v)
    ensures var r := Extremes(minimum, previous, values);
            r.Some? ==>
              && (previous.Some? ==> r.value.Some? && if minimum then r.value.value <= previous.value else r.value.value >= previous.value)
              && (forall v :: v in values ==> r.value.Some? && if minimum then r.value.value <= NumberOf(v) else r.value.value >= NumberOf(v))
              && (r.value.Some? ==> r.value == previous || exists v :: v in values && NumberOf(v) == r.value.value)
    decreases |values|
  {
    if values != [] {
      var v, rest := values[0], values[1..];
      assert values == [v] + rest;
      assert forall x :: x in values <==> x == v || x in rest;
      if IsNumber(v) {
        ExtremesBound(minimum, Some(Extreme(minimum, previous, NumberOf(v))), rest);
      }
    }
  }

  lemma {:induction false} StreamedMetric(field: string, minimum: bool, sources: seq<Json>)
    ensures var r := ObservedAll(Metric(field, minimum, None), sources);
            r.Some? ==> r.value.Metric? && r.value.field == field && r.value.minimum == minimum
                        && IsExtreme(minimum, r.value.value, sources, field)
    decreases |sources|
  {
    if sources != [] && ObservedAll(Metric(field, minimum, None), sources).Some? {
      var front, last := sources[..|sources| - 1], sources[|sources| - 1];
      StreamedMetric(field, minimum, front);
      assert sources == front + [last];
      var before := ObservedAll(Metric(field, minimum, None), front).value;
      var after := ObservedAll(Metric(field, minimum, None), sources).value;
      ExtremesBound(minimum, before.value, FieldValues(last, field));
      hide ObservedAll, FieldValues, Extremes;
      MetricStep(minimum, before.value, after.value, front, last, field);
    }
  }

  lemma MetricStep(minimum: bool, before: Option<real>, after: Option<real>, front: seq<Json>, last: Json, field: string)
    requires IsExtreme(minimum, before, front, field)
    requires Extremes(minimum, before, FieldValues(last, field)) == Some(after)
    ensures IsExtreme(minimum, after, front + [last], field)
  {
    hide FieldValues;
    var sources := front + [last];
    ExtremesBound(minimum, before, FieldValues(last, field));
    assert last in sources && forall s :: s in sources <==> s in front || s == last;
    if after.Some? {
      if after == before {
        var s, v :| s in front && v in FieldValues(s, field) && IsNumber(v) && NumberOf(v) == before.value;
        assert s in sources && v in FieldValues(s, field);
      } else {
        var v :| v in FieldValues(last, field) && NumberOf(v) == after.value;
        assert last in sources && v in FieldValues(last, field);
      }
    }
  }

  // ---------------------------------------------------------------- the finished buckets

  function ByCount(show: Printer): Cmp<Bucket> {
    (a: Bucket, b: Bucket) => Then(CmpInt(b.count, a.count), ValueCmp(show, a.value, b.value))
  }

  function Sum(buckets: seq<Bucket>): nat {
    if buckets == [] then 0 else Sum(buckets[..|buckets| - 1]) + buckets[|buckets| - 1].count
  }

  /** The order an ordered map lists its keys in. */
  type KeyOrder = set<Key> -> seq<Key>

  ghost predicate Enumerates(order: KeyOrder) {
    forall ks: set<Key> :: NoDup(order(ks)) && forall k :: k in order(ks) <==> k in ks
  }

  function Buckets(counts: Counts, keys: seq<Key>): seq<Bucket> {
    if keys == [] then []
    else Buckets(counts, keys[..|keys| - 1]) + (var k := keys[|keys| - 1]; if k in counts then [counts[k]] else [])
  }

  datatype Summary = MetricValue(value: Option<real>) | DocCount(count: nat) | TermsBuckets(buckets: seq<Bucket>, others: nat)

  function Finish(show: Printer, order: KeyOrder, r: Reduction): Summary {
    match r
    case Metric(_, _, value) => MetricValue(value)
    case Filtered(_, count) => DocCount(count)
    case TermsCount(_, size, counts) =>
      var sorted := Sort(ByCount(show), Buckets(counts, order(counts.Keys)));
      TermsBuckets(Take(sorted, size), Sum(if size < |sorted| then sorted[size..] else []))
  }

  lemma {:induction false} SumAppend(s: seq<Bucket>, t: seq<Bucket>)
    ensures Sum(s + t) == Sum(s) + Sum(t)
    decreases |t|
  {
    if t == [] {
      assert s + t == s;
    } else {
      assert (s + t)[..|s + t| - 1] == s + t[..|t| - 1];
      SumAppend(s, t[..|t| - 1]);
    }
  }

  lemma {:induction false} InsertSum(cmp: Cmp<Bucket>, x: Bucket, s: seq<Bucket>)
    ensures Sum(Insert(cmp, x, s)) == Sum(s) + x.count
    decreases |s|
  {
    assert Sum([x]) == x.count by { assert [x][..0] == []; }
    if s == [] {
    } else if cmp(s[0], x).Greater? {
      SumAppend([x], s);
    } else {
      InsertSum(cmp, x, s[1..]);
      SumAppend([s[0]], s[1..]);
      SumAppend([s[0]], Insert(cmp, x, s[1..]));
      assert s == [s[0]] + s[1..];
    }
  }

  lemma {:induction false} SortSum(cmp: Cmp<Bucket>, s: seq<Bucket>)
    ensures Sum(Sort(cmp, s)) == Sum(s)
    decreases |s|
  {
    if s != [] {
      SortSum(cmp, s[..|s| - 1]);
      InsertSum(cmp, s[|s| - 1], Sort(cmp, s[..|s| - 1]));
    }
  }

  /** Every pair of a document and one of its distinct keys. */
  function Pairs(sources: seq<Json>, field: string): nat
    decreases |sources|
  {
    if sources == [] then 0
    else Pairs(sources[..|sources| - 1], field) + |DocumentKeys(sources[|sources| - 1], field)|
  }

  function TotalOver(sources: seq<Json>, field: string, keys: seq<Key>): nat {
    if keys == [] then 0
    else TotalOver(sources, field, keys[..|keys| - 1]) + CountDocuments(sources, field, keys[|keys| - 1])
  }

  function HitKeys(ks: set<Key>, keys: seq<Key>): nat {
    if keys == [] then 0 else HitKeys(ks, keys[..|keys| - 1]) + if keys[|keys| - 1] in ks then 1 else 0
  }

  lemma {:induction false} HitKeysIsSize(ks: set<Key>, keys: seq<Key>)
    requires NoDup(keys)
    ensures HitKeys(ks, keys) == |set k | k in ks && k in keys|
  {
    var found := set k | k in ks && k in keys;
    if keys == [] {
      assert found == {};
    } else {
      var front, last := keys[..|keys| - 1], keys[|keys| - 1];
      assert keys == front + [last];
      HitKeysIsSize(ks, front);
      var before := set k | k in ks && k in front;
      assert last !in front;
      assert found == if last in ks then before + {last} else before;
    }
  }

  lemma {:induction false} TotalStep(front: seq<Json>, last: Json, field: string, keys: seq<Key>)
    ensures TotalOver(front + [last], field, keys) == TotalOver(front, field, keys) + HitKeys(DocumentKeys(last, field), keys)
    decreases |keys|
  {
    if keys != [] {
      TotalStep(front, last, field, keys[..|keys| - 1]);
      assert (front + [last])[..|front|] == front;
    }
  }

  lemma {:induction false} TotalIsPairs(sources: seq<Json>, field: string, keys: seq<Key>)
    requires NoDup(keys)
    requires forall s :: s in sources ==> forall k :: k in DocumentKeys(s, field) ==> k in keys
    ensures TotalOver(sources, field, keys) == Pairs(sources, field)
    decreases |sources|
  {
    if sources == [] {
      NothingToTotal(field, keys);
    } else {
      var front, last := sources[..|sources| - 1], sources[|sources| - 1];
      assert sources == front + [last];
      TotalIsPairs(front, field, keys);
      TotalStep(front, last, field, keys);
      HitKeysIsSize(DocumentKeys(last, field), keys);
      assert last in sources;
      assert (set k | k in DocumentKeys(last, field) && k in keys) == DocumentKeys(last, field);
    }
  }

  lemma {:induction false} NothingToTotal(field: string, keys: seq<Key>)
    ensures TotalOver([], field, keys) == 0
  {
    if keys != [] {
      NothingToTotal(field, keys[..|keys| - 1]);
    }
  }

  lemma {:induction false} BucketsTotal(counts: Counts, sources: seq<Json>, field: string, keys: seq<Key>)
    requires IsTermsCount(counts, sources, field)
    ensures Sum(Buckets(counts, keys)) == TotalOver(sources, field, keys)
    decreases |keys|
  {
    if keys != [] {
      var front, k := keys[..|keys| - 1], keys[|keys| - 1];
      BucketsTotal(counts, sources, field, front);
      SumAppend(Buckets(counts, front), if k in counts then [counts[k]] else []);
      assert k in counts ==> [counts[k]][..0] == [];
      assert CountOf(counts, k) == CountDocuments(sources, field, k);
    }
  }

  /** Nothing is lost between the listed buckets and the rest: together they count every
      (document, distinct key) pair once. */
  lemma TermsConserveTheTotal(show: Printer, order: KeyOrder, field: string, size: nat, sources: seq<Json>)
    requires Enumerates(order)
    requires ObservedAll(TermsCount(field, size, map[]), sources).Some?
    ensures var summary := Finish(show, order, ObservedAll(TermsCount(field, size, map[]), sources).value);
            && summary.TermsBuckets?
            && Sum(summary.buckets) + summary.others == Pairs(sources, field)
            && |summary.buckets| <= size
  {
    hide *;
    StreamedTerms(field, size, sources);
    var r := ObservedAll(TermsCount(field, size, map[]), sources).value;
    FinishedTotal(show, order, r, sources);
  }

  lemma FinishedTotal(show: Printer, order: KeyOrder, r: Reduction, sources: seq<Json>)
    requires Enumerates(order) && r.TermsCount? && IsTermsCount(r.counts, sources, r.field)
    ensures var summary := Finish(show, order, r);
            && summary.TermsBuckets?
            && Sum(summary.buckets) + summary.others == Pairs(sources, r.field)
            && |summary.buckets| <= r.size
  {
    var keys := order(r.counts.Keys);
    var sorted := Sort(ByCount(show), Buckets(r.counts, keys));
    hide Sort, SortOnto, Buckets, DocumentKeys, IsTermsCount, Sum, Take, ByCount;
    SortSum(ByCount(show), Buckets(r.counts, keys));
    SplitSum(sorted, r.size);
    BucketsTotal(r.counts, sources, r.field, keys);
    KeysAreCounted(r.counts, sources, r.field);
    TotalIsPairs(sources, r.field, keys);
  }

  lemma SplitSum(sorted: seq<Bucket>, size: nat)
    ensures Sum(Take(sorted, size)) + Sum(if size < |sorted| then sorted[size..] else []) == Sum(sorted)
    ensures |Take(sorted, size)| <= size
  {
    if size < |sorted| {
      SumAppend(sorted[..size], sorted[size..]);
      assert sorted == sorted[..size] + sorted[size..];
    }
  }

  lemma KeysAreCounted(counts: Counts, sources: seq<Json>, field: string)
    requires IsTermsCount(counts, sources, field)
    ensures forall s, k :: s in sources && k in DocumentKeys(s, field) ==> k in counts
  {
    forall s, k | s in sources && k in DocumentKeys(s, field)
      ensures k in counts
    {
      CountedWhereSeen(sources, s, field, k);
    }
  }

  lemma {:induction false} CountedWhereSeen(sources: seq<Json>, s: Json, field: string, k: Key)
    requires s in sources && k in DocumentKeys(s, field)
    ensures CountDocuments(sources, field, k) > 0
    decreases |sources|
  {
    var front, last := sources[..|sources| - 1], sources[|sources| - 1];
    assert sources == front + [last];
    if s != last {
      CountedWhereSeen(front, s, field, k);
    }
  }

  // ---------------------------------------------------------------- which buckets are listed

  /** No terms value mixes numbers with strings. */
  ghost predicate Rankable(counts: Counts) {
    exists kinds: set<Kind> ::
      !(NumberKind in kinds && StringKind in kinds) && forall k :: k in counts ==> Among(counts[k].value, kinds)
  }

  lemma {:induction false} BucketsFrom(counts: Counts, keys: seq<Key>)
    ensures forall b :: b in Buckets(counts, keys) ==> exists k :: k in counts && counts[k] == b
    decreases |keys|
  {
    if keys != [] {
      BucketsFrom(counts, keys[..|keys| - 1]);
    }
  }

  lemma ByValueOrders(show: Printer, kinds: set<Kind>, value: Cmp<Bucket>, pool: iset<Bucket>)
    requires Prints(show) && !(NumberKind in kinds && StringKind in kinds)
    requires forall b :: b in pool ==> Among(b.value, kinds)
    requires forall a, b :: value(a, b) == ValueCmp(show, a.value, b.value)
    ensures Preorder(value, pool)
  {
    TotalPreorderIff(show, kinds);
    hide ValueCmp, Among;
  }

  lemma ByCountOrders(show: Printer, counts: Counts, pool: iset<Bucket>)
    requires Prints(show) && Rankable(counts) && forall b :: b in pool ==> exists k :: k in counts && counts[k] == b
    ensures Preorder(ByCount(show), pool)
  {
    var kinds: set<Kind> :| !(NumberKind in kinds && StringKind in kinds) && forall k :: k in counts ==> Among(counts[k].value, kinds);
    var count: Cmp<Bucket> := (a: Bucket, b: Bucket) => CmpInt(b.count, a.count);
    var value: Cmp<Bucket> := (a: Bucket, b: Bucket) => ValueCmp(show, a.value, b.value);
    assert forall b :: b in pool ==> Among(b.value, kinds);
    ByValueOrders(show, kinds, value, pool);
    hide ValueCmp;
    LexicographicPreorder(count, value, ByCount(show), pool);
  }

  /** The listed buckets are the largest, in descending order of count and of equal counts in ascending
      order of value; `rest` are the others. */
  lemma TermsListTheLargest(show: Printer, order: KeyOrder, r: Reduction) returns (rest: seq<Bucket>)
    requires Prints(show) && r.TermsCount? && Rankable(r.counts)
    ensures var summary := Finish(show, order, r);
            var all := summary.buckets + rest;
            && multiset(all) == multiset(Buckets(r.counts, order(r.counts.Keys)))
            && (forall i, j :: 0 <= i < j < |all| ==> all[i].count >= all[j].count)
            && (forall i, j :: 0 <= i < j < |all| && all[i].count == all[j].count ==>
                  ValueCmp(show, all[i].value, all[j].value) in {Less, Equal})
            && summary.others == Sum(rest)
            && (rest != [] ==> |summary.buckets| == r.size)
  {
    var keys := order(r.counts.Keys);
    var sorted := Sort(ByCount(show), Buckets(r.counts, keys));
    rest := if r.size < |sorted| then sorted[r.size..] else [];
    hide *;
    BucketsSorted(show, r.counts, keys);
    SortedByCount(show, sorted);
    Listed(show, order, r, sorted, rest);
  }

  lemma Listed(show: Printer, order: KeyOrder, r: Reduction, sorted: seq<Bucket>, rest: seq<Bucket>)
    requires r.TermsCount? && sorted == Sort(ByCount(show), Buckets(r.counts, order(r.counts.Keys)))
    requires rest == if r.size < |sorted| then sorted[r.size..] else []
    ensures var summary := Finish(show, order, r);
            && summary.TermsBuckets? && summary.buckets + rest == sorted && summary.others == Sum(rest)
            && (rest != [] ==> |summary.buckets| == r.size)
  {
    hide Sort, SortOnto, ByCount, Buckets, Sum;
  }

  lemma BucketsSorted(show: Printer, counts: Counts, keys: seq<Key>)
    requires Prints(show) && Rankable(counts)
    ensures var sorted := Sort(ByCount(show), Buckets(counts, keys));
            multiset(sorted) == multiset(Buckets(counts, keys)) && Sorted(ByCount(show), sorted)
  {
    hide Sort, SortOnto, ValueCmp, ByCount, Buckets, Prints, Rankable;
    var pool := iset b | b in Buckets(counts, keys);
    BucketsFrom(counts, keys);
    ByCountOrders(show, counts, pool);
    SortIsSorted(ByCount(show), Buckets(counts, keys), pool);
  }

  lemma SortedByCount(show: Printer, sorted: seq<Bucket>)
    requires Sorted(ByCount(show), sorted)
    ensures forall i, j :: 0 <= i < j < |sorted| ==> sorted[i].count >= sorted[j].count
    ensures forall i, j :: 0 <= i < j < |sorted| && sorted[i].count == sorted[j].count ==>
              ValueCmp(show, sorted[i].value, sorted[j].value) in {Less, Equal}
  {
    hide ValueCmp;
    forall i, j | 0 <= i < j < |sorted|
      ensures sorted[i].count >= sorted[j].count
      ensures sorted[i].count == sorted[j].count ==> ValueCmp(show, sorted[i].value, sorted[j].value) in {Less, Equal}
    {
      assert !ByCount(show)(sorted[i], sorted[j]).Greater?;
    }
  }

  // ---------------------------------------------------------------- what is reduced to what

  /** A field's values: none if it is missing or null, an array's elements that are not null, or itself. */
  lemma FieldValuesAre(source: Json, field: string)
    ensures var v := SourceField(source, field);
            && (v.None? || v.value == Null ==> FieldValues(source, field) == [])
            && (v.Some? && v.value != Null && !v.value.Arr? ==> FieldValues(source, field) == [v.value])
            && (v.Some? && v.value.Arr? ==> FieldValues(source, field) == Filter((x: Json) => x != Null, v.value.items))
  {
    var v := SourceField(source, field);
    if v.Some? && !v.value.Arr? {
      FilterOne((x: Json) => !x.Null?, v.value);
    } else if v.Some? {
      SameFilter((x: Json) => !x.Null?, (x: Json) => x != Null, v.value.items);
    }
  }

  lemma FilterOne(p: Json -> bool, v: Json)
    ensures Filter(p, [v]) == if p(v) then [v] else []
  {
    assert [v][..0] == [];
  }

  lemma {:induction false} SameFilter(p: Json -> bool, q: Json -> bool, s: seq<Json>)
    requires forall x :: p(x) <==> q(x)
    ensures Filter(p, s) == Filter(q, s)
    decreases |s|
  {
    if s != [] {
      SameFilter(p, q, s[..|s| - 1]);
    }
  }

  /** Numbers share a bucket when they are equal, whatever their form, other values when they are the same. */
  lemma SameBucketIff(v: Json, w: Json)
    requires (v.Int? ==> IsNumber(v)) && (w.Int? ==> IsNumber(w))
    ensures KeyOf(v) == KeyOf(w) <==> if IsNumber(v) && IsNumber(w) then NumberOf(v) == NumberOf(w) else v == w
  {
    if IsNumber(v) && IsNumber(w) {
      KeysAgreeWithOrder((x: Json) => "", v, w);
      NumbersCompareExactly((x: Json) => "", v, w);
    }
  }

  /** A filter reduces to the number of documents it matches. */
  lemma {:induction false} StreamedFilter(show: Printer, order: KeyOrder, query: Query, sources: seq<Json>)
    ensures ObservedAll(Filtered(query, 0), sources) == Some(Filtered(query, |MatchedAt(sources, query)|))
    ensures Finish(show, order, Filtered(query, |MatchedAt(sources, query)|)) == DocCount(|MatchedAt(sources, query)|)
    decreases |sources|
  {
    hide SourceMatches;
    if sources == [] {
      assert MatchedAt(sources, query) == {};
    } else {
      var front, last := sources[..|sources| - 1], sources[|sources| - 1];
      StreamedFilter(show, order, query, front);
      assert MatchedAt(sources, query) == MatchedAt(front, query) + if SourceMatches(last, query) then {|front|} else {};
    }
  }

  function MatchedAt(sources: seq<Json>, query: Query): set<nat> {
    set i: nat | i < |sources| && SourceMatches(sources[i], query)
  }

  /** A metric is reported as reduced, and is refused exactly when some value is no number. */
  lemma {:induction false} MetricSucceedsIff(show: Printer, order: KeyOrder, field: string, minimum: bool, sources: seq<Json>)
    ensures var r := ObservedAll(Metric(field, minimum, None), sources);
            && (r.Some? <==> forall s, v :: s in sources && v in FieldValues(s, field) ==> IsNumber(v))
            && (r.Some? ==> r.value.Metric? && r.value.field == field && r.value.minimum == minimum
                            && Finish(show, order, r.value) == MetricValue(r.value.value))
    decreases |sources|
  {
    hide FieldValues, Extremes;
    if sources != [] {
      var front, last := sources[..|sources| - 1], sources[|sources| - 1];
      assert sources == front + [last];
      MetricSucceedsIff(show, order, field, minimum, front);
      if ObservedAll(Metric(field, minimum, None), front).Some? {
        var before := ObservedAll(Metric(field, minimum, None), front).value;
        ExtremesBound(minimum, before.value, FieldValues(last, field));
      }
      assert last in sources && forall s :: s in sources <==> s in front || s == last;
    }
  }

  /** The distinct keys of all documents. */
  function AllKeys(sources: seq<Json>, field: string): set<Key> {
    set s, k | s in sources && k in DocumentKeys(s, field) :: k
  }

  /** Terms are refused exactly when some value is no scalar or there are more than ten thousand keys. */
  lemma StreamSucceedsIff(field: string, size: nat, sources: seq<Json>)
    ensures ObservedAll(TermsCount(field, size, map[]), sources).Some? <==>
            (forall s, v :: s in sources && v in FieldValues(s, field) ==> v.Str? || v.Bool? || IsNumber(v))
            && |AllKeys(sources, field)| <= 10000
  {
    hide *;
    var r := ObservedAll(TermsCount(field, size, map[]), sources);
    if r.Some? {
      StreamedTerms(field, size, sources);
      KeysAreAll(r.value.counts, sources, field);
      AtMostMax(field, size, sources);
    }
    ScalarsAre(sources, field);
    if AllScalar(sources, field) && |AllKeys(sources, field)| <= 10000 {
      KeysWithin(sources, field);
      StreamSucceeds(field, size, sources, AllKeys(sources, field));
    }
  }

  lemma ScalarsAre(sources: seq<Json>, field: string)
    ensures AllScalar(sources, field) <==> forall s, v :: s in sources && v in FieldValues(s, field) ==> v.Str? || v.Bool? || IsNumber(v)
  {
    forall v: Json
      ensures Scalar(v) <==> v.Str? || v.Bool? || IsNumber(v)
    {
    }
    if forall s, v :: s in sources && v in FieldValues(s, field) ==> v.Str? || v.Bool? || IsNumber(v) {
      forall s, v | s in sources && v in FieldValues(s, field)
        ensures Scalar(v)
      {
      }
    }
    hide FieldValues, Scalar;
  }

  lemma KeysWithin(sources: seq<Json>, field: string)
    ensures forall s :: s in sources ==> DocumentKeys(s, field) <= AllKeys(sources, field)
    ensures MAX_BUCKETS == 10000
  {
    hide DocumentKeys;
  }

  lemma KeysAreAll(counts: Counts, sources: seq<Json>, field: string)
    requires IsTermsCount(counts, sources, field)
    ensures counts.Keys == AllKeys(sources, field) && |counts| == |AllKeys(sources, field)|
  {
    hide DocumentKeys;
    KeysAreCounted(counts, sources, field);
    forall k | k in counts
      ensures k in AllKeys(sources, field)
    {
      assert CountOf(counts, k) == CountDocuments(sources, field, k) > 0;
      CountedSomewhere(sources, field, k);
    }
    assert counts.Keys == AllKeys(sources, field) && |counts| == |counts.Keys|;
  }

  lemma AtMostMax(field: string, size: nat, sources: seq<Json>)
    requires ObservedAll(TermsCount(field, size, map[]), sources).Some?
    ensures var r := ObservedAll(TermsCount(field, size, map[]), sources).value; r.TermsCount? && |r.counts| <= 10000
  {
    StreamedTerms(field, size, sources);
    if sources != [] {
      StreamedTerms(field, size, sources[..|sources| - 1]);
      hide Tally, FieldValues;
    }
  }

  // ---------------------------------------------------------------- what a bucket is shown by

  /** All values of a field, in scan order. */
  function AllValues(sources: seq<Json>, field: string): seq<Json>
    decreases |sources|
  {
    if sources == [] then [] else AllValues(sources[..|sources| - 1], field) + FieldValues(sources[|sources| - 1], field)
  }

  /** Each bucket shows the first value that fell into it. */
  ghost predicate ShowsFirst(counts: Counts, values: seq<Json>) {
    && (forall v :: v in values ==> KeyOf(v) in counts)
    && forall k :: k in counts ==> IsFirstOf(counts[k].value, k, values)
  }

  ghost predicate IsFirstOf(value: Json, k: Key, values: seq<Json>) {
    exists i :: 0 <= i < |values| && values[i] == value && KeyOf(value) == k && forall j :: 0 <= j < i ==> KeyOf(values[j]) != k
  }

  lemma FirstStays(value: Json, k: Key, values: seq<Json>, more: seq<Json>)
    requires IsFirstOf(value, k, values)
    ensures IsFirstOf(value, k, values + more)
  {
    var i :| 0 <= i < |values| && values[i] == value && KeyOf(value) == k && forall j :: 0 <= j < i ==> KeyOf(values[j]) != k;
    assert (values + more)[i] == value && forall j :: 0 <= j < i ==> (values + more)[j] == values[j];
  }

  lemma OneMoreShown(counts: Counts, v: Json, before: seq<Json>)
    requires ShowsFirst(counts, before)
    ensures ShowsFirst(Bump(counts, v), before + [v])
    ensures KeyOf(v) in counts ==> ShowsFirst(counts, before + [v])
  {
    var values := before + [v];
    forall k | k in counts
      ensures IsFirstOf(counts[k].value, k, values)
    {
      FirstStays(counts[k].value, k, before, [v]);
    }
    if KeyOf(v) !in counts {
      assert values[|before|] == v;
      forall j | 0 <= j < |before|
        ensures KeyOf(values[j]) != KeyOf(v)
      {
        assert values[j] == before[j] && before[j] in before;
      }
      assert IsFirstOf(v, KeyOf(v), values);
    }
  }

  lemma {:induction false} TallyShows(counts: Counts, seen: set<Key>, before: seq<Json>, values: seq<Json>)
    requires ShowsFirst(counts, before) && seen <= counts.Keys
    ensures var r := Tally(counts, seen, values); r.Some? ==> ShowsFirst(r.value, before + values)
    decreases |values|
  {
    if values == [] {
      assert before + values == before;
    } else if Scalar(values[0]) {
      var v := values[0];
      OneMoreShown(counts, v, before);
      assert before + values == before + [v] + values[1..];
      hide ShowsFirst;
      if KeyOf(v) in seen {
        TallyShows(counts, seen, before + [v], values[1..]);
      } else {
        TallyShows(Bump(counts, v), seen + {KeyOf(v)}, before + [v], values[1..]);
      }
    }
  }

  lemma {:induction false} TermsShowFirst(field: string, size: nat, sources: seq<Json>)
    ensures var r := ObservedAll(TermsCount(field, size, map[]), sources);
            r.Some? ==> r.value.TermsCount? && r.value.field == field && ShowsFirst(r.value.counts, AllValues(sources, field))
    decreases |sources|
  {
    if sources != [] && ObservedAll(TermsCount(field, size, map[]), sources).Some? {
      var front, last := sources[..|sources| - 1], sources[|sources| - 1];
      hide Tally, FieldValues, ShowsFirst;
      TermsShowFirst(field, size, front);
      TallyShows(ObservedAll(TermsCount(field, size, map[]), front).value.counts, {}, AllValues(front, field), FieldValues(last, field));
    }
  }
}
