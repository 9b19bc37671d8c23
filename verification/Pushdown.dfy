/** Exact counts and keyword facets read from the backend in place of streaming, and the
    execution of an aggregation plan that mixes both. */
module Pushdown {
  import opened Options
  import opened Values
  import opened Sequences
  import opened Scrolling
  import opened Hits
  import opened Markers
  import opened Intervals
  import opened Queries
  import opened QueryCompiler
  import opened Aggregations

  function Sources(docs: seq<Payload>): seq<Json> {
    seq(|docs|, i requires 0 <= i < |docs| => SourceIn(docs[i]))
  }

  /** A point without an embedded source stands for itself. */
  function SourceIn(p: Payload): Json {
    match GetField(p, "_source") case Some(source) => source case None => Obj(p)
  }

  lemma SourceOfDocument(arrange: Arrangement, source: Json, id: string, index: string, properties: Properties)
    ensures SourceIn(DocumentPayload(arrange, source, id, index, properties)) == source
    ensures forall p: Payload :: "_source" !in p ==> SourceIn(p) == Obj(p)
  {
  }

  ghost predicate AllCovered(docs: seq<Payload>, marker: string) {
    forall p :: p in docs ==> Marked(p, marker)
  }

  /** What every reachable point satisfies, whatever updates were in flight. */
  ghost predicate AllClaim(docs: seq<Payload>, properties: Properties) {
    forall p :: p in docs ==> NumbersSound(p, properties) && KeywordsClaim(p, properties)
  }

  /** The strings the backend indexes for a field. */
  predicate PayloadHas(p: Payload, field: string, s: string) {
    field in p && AnyValue(p[field], (v: Json) => v == Str(s))
  }

  /** A string the backend still indexes for a field that the document no longer has. */
  predicate LingersWith(p: Payload, field: string, s: string) {
    Get(SourceIn(p), field).None? && PayloadHas(p, field, s)
  }

  /** No point of a keyword field is counted for a value its document has lost. */
  ghost predicate NothingLingers(docs: seq<Payload>, field: string) {
    forall p, s :: p in docs ==> !LingersWith(p, field, s)
  }

  // ---------------------------------------------------------------- facets

  datatype FacetHit = FacetHit(value: Json, count: nat)

  function FacetTotal(hits: seq<FacetHit>): nat {
    if hits == [] then 0 else FacetTotal(hits[..|hits| - 1]) + hits[|hits| - 1].count
  }

  /** The entries as counts, before empty ones are dropped. */
  function FacetMap(hits: seq<FacetHit>): Counts {
    if hits == [] then map[]
    else
      var last := hits[|hits| - 1];
      FacetMap(hits[..|hits| - 1])[TextBucket(last.value) := Bucket(last.value, last.count)]
  }

  predicate FacetWellFormed(hits: seq<FacetHit>) {
    && |hits| <= MAX_BUCKETS && FacetTotal(hits) < U64_END
    && (forall i :: 0 <= i < |hits| ==> hits[i].value.Str?)
    && forall i, j :: 0 <= i < j < |hits| ==> hits[i].value != hits[j].value
  }

  function DropEmpty(counts: Counts): Counts {
    map k | k in counts && counts[k].count > 0 :: counts[k]
  }

  /** Refuses too many entries, values that are no strings, an overflowing total and repeated
      values; only then drops the empty buckets. */
  method FacetCounts(hits: seq<FacetHit>) returns (r: Option<Counts>)
    ensures r == if FacetWellFormed(hits) then Some(DropEmpty(FacetMap(hits))) else None
  {
    if |hits| > MAX_BUCKETS {
      return None;
    }
    var counts: Counts := map[];
    var total := 0;
    for i := 0 to |hits|
      invariant counts == FacetMap(hits[..i]) && total == FacetTotal(hits[..i]) < U64_END
      invariant forall k :: k in counts <==> exists j :: 0 <= j < i && k == TextBucket(hits[j].value)
      invariant forall j :: 0 <= j < i ==> hits[j].value.Str?
      invariant forall j, k :: 0 <= j < k < i ==> hits[j].value != hits[k].value
    {
      assert hits[..i + 1][..i] == hits[..i];
      var hit := hits[i];
      if !hit.value.Str? {
        return None;
      }
      total := total + hit.count;
      if total >= U64_END {
        TotalGrows(hits, i + 1);
        return None;
      }
      if TextBucket(hit.value) in counts {
        return None;
      }
      counts := counts[TextBucket(hit.value) := Bucket(hit.value, hit.count)];
    }
    assert hits[..|hits|] == hits;
    r := Some(DropEmpty(counts));
  }

  lemma {:induction false} TotalGrows(hits: seq<FacetHit>, i: nat)
    requires i <= |hits|
    ensures FacetTotal(hits[..i]) <= FacetTotal(hits)
    decreases |hits|
  {
    if i < |hits| {
      assert hits[..|hits| - 1][..i] == hits[..i];
      TotalGrows(hits[..|hits| - 1], i);
    } else {
      assert hits[..i] == hits;
    }
  }

  lemma {:induction false} FacetMapEntries(hits: seq<FacetHit>)
    requires forall i, j :: 0 <= i < j < |hits| ==> hits[i].value != hits[j].value
    ensures forall k :: k in FacetMap(hits) ==>
              exists i :: 0 <= i < |hits| && k == TextBucket(hits[i].value) && FacetMap(hits)[k] == Bucket(hits[i].value, hits[i].count)
    ensures forall i :: 0 <= i < |hits| ==>
              TextBucket(hits[i].value) in FacetMap(hits)
              && FacetMap(hits)[TextBucket(hits[i].value)] == Bucket(hits[i].value, hits[i].count)
    decreases |hits|
  {
    if hits != [] {
      var front := hits[..|hits| - 1];
      FacetMapEntries(front);
      assert forall i :: 0 <= i < |front| ==> front[i] == hits[i];
    }
  }

  /** Too many entries, an overflowing total, a value that is no string or comes twice is refused. */
  lemma FacetRefusedIff(hits: seq<FacetHit>)
    ensures !FacetWellFormed(hits) <==>
            || |hits| > 10_000 || FacetTotal(hits) >= 0x1_0000_0000_0000_0000
            || (exists i :: 0 <= i < |hits| && !hits[i].value.Str?)
            || exists i, j :: 0 <= i < j < |hits| && hits[i].value == hits[j].value
  {
  }

  /** The buckets are the entries that count anything. */
  lemma FacetBuckets(hits: seq<FacetHit>, k: Key, b: Bucket)
    requires FacetWellFormed(hits)
    ensures var counts := DropEmpty(FacetMap(hits));
            k in counts && counts[k] == b <==> b.count > 0 && k == TextBucket(b.value) && FacetHit(b.value, b.count) in hits
  {
    FacetMapEntries(hits);
    hide FacetMap, FacetTotal;
  }

  function PayloadCount(docs: seq<Payload>, field: string, s: string): nat {
    |Filter((p: Payload) => PayloadHas(p, field, s), docs)|
  }

  /** An exact facet below its limit: every value in use, with its number of documents; values no
      longer in use may linger with count zero. */
  ghost predicate IsFacet(hits: seq<FacetHit>, docs: seq<Payload>, field: string) {
    && FacetTotal(hits) < U64_END
    && (forall i :: 0 <= i < |hits| ==> hits[i].value.Str? && hits[i].count == PayloadCount(docs, field, hits[i].value.s))
    && (forall i, j :: 0 <= i < j < |hits| ==> hits[i].value != hits[j].value)
    && (|hits| <= MAX_BUCKETS ==>
          forall s :: PayloadCount(docs, field, s) > 0 ==> exists i :: 0 <= i < |hits| && hits[i].value == Str(s))
  }

  function NumberLingering(docs: seq<Payload>, field: string, s: string): nat {
    |Filter((p: Payload) => LingersWith(p, field, s), docs)|
  }

  lemma StringsOf(v: Json, s: string)
    requires KeywordFacetSafe(Some(v))
    ensures AnyValue(v, (x: Json) => x == Str(s)) <==> v == Str(s) || (v.Arr? && Str(s) in v.items)
  {
    if v.Arr? {
      assert forall item :: item in v.items ==> NullOrString(item);
      forall i | 0 <= i < |v.items|
        ensures AnyValue(v.items[i], (x: Json) => x == Str(s)) <==> v.items[i] == Str(s)
      {
        assert v.items[i] in v.items;
      }
    }
  }

  /** On a point with the keyword marker the backend indexes the document's strings, or those of a
      value the document has lost. */
  lemma CoveredKeyword(p: Payload, properties: Properties, field: string)
    requires KeywordsClaim(p, properties) && Marked(p, KeywordMarker(field))
    ensures forall v :: v in FieldValues(SourceIn(p), field) ==> v.Str?
    ensures forall s :: PayloadHas(p, field, s) <==> Str(s) in FieldValues(SourceIn(p), field) || LingersWith(p, field, s)
    ensures forall s :: LingersWith(p, field, s) ==> Str(s) !in FieldValues(SourceIn(p), field)
  {
    PlainField(p["_source"], field);
    var value := Get(p["_source"], field);
    assert SourceField(p["_source"], field) == value && SourceIn(p) == p["_source"];
    var items := match value case None => [] case Some(Arr(items)) => items case Some(v) => [v];
    FilterElements((v: Json) => !v.Null?, items);
    assert FieldValues(SourceIn(p), field) == Filter((v: Json) => !v.Null?, items);
    assert forall v :: v in items ==> NullOrString(v);
    if value.Some? {
      assert GetField(p, field) == value;
      forall s
        ensures PayloadHas(p, field, s) <==> Str(s) in items
      {
        StringsOf(value.value, s);
      }
    }
  }

  lemma KeywordKeys(p: Payload, properties: Properties, field: string)
    requires KeywordsClaim(p, properties) && Marked(p, KeywordMarker(field))
    ensures forall s :: PayloadHas(p, field, s) <==>
                        TextBucket(Str(s)) in DocumentKeys(SourceIn(p), field) || LingersWith(p, field, s)
    ensures forall s :: LingersWith(p, field, s) ==> TextBucket(Str(s)) !in DocumentKeys(SourceIn(p), field)
    ensures forall k :: k in DocumentKeys(SourceIn(p), field) ==> k.TextBucket? && k.value.Str?
  {
    CoveredKeyword(p, properties, field);
    var values := FieldValues(SourceIn(p), field);
    hide FieldValues, PayloadHas, LingersWith;
    forall s
      ensures Str(s) in values <==> TextBucket(Str(s)) in DocumentKeys(SourceIn(p), field)
    {
      if Str(s) in values {
        assert KeyOf(Str(s)) == TextBucket(Str(s));
      }
      if TextBucket(Str(s)) in DocumentKeys(SourceIn(p), field) {
        var v :| v in values && KeyOf(v) == TextBucket(Str(s));
        assert v == Str(s);
      }
    }
  }

  /** The facet counts each document that has the value, and each point that only lingers with it. */
  lemma {:induction false} FacetCountsDocuments(docs: seq<Payload>, properties: Properties, field: string, s: string)
    requires AllClaim(docs, properties) && AllCovered(docs, KeywordMarker(field))
    ensures PayloadCount(docs, field, s)
         == CountDocuments(Sources(docs), field, TextBucket(Str(s))) + NumberLingering(docs, field, s)
    decreases |docs|
  {
    if docs != [] {
      var front, last := docs[..|docs| - 1], docs[|docs| - 1];
      assert forall p :: p in front ==> p in docs;
      FacetCountsDocuments(front, properties, field, s);
      KeywordKeys(last, properties, field);
      hide PayloadHas, LingersWith, DocumentKeys;
      assert Sources(docs)[..|docs| - 1] == Sources(front);
    }
  }

  lemma NoneLingering(docs: seq<Payload>, field: string, s: string)
    ensures NumberLingering(docs, field, s) == 0 <==> forall p :: p in docs ==> !LingersWith(p, field, s)
  {
    var found := Filter((p: Payload) => LingersWith(p, field, s), docs);
    FilterElements((p: Payload) => LingersWith(p, field, s), docs);
    if found != [] {
      assert found[0] in found;
    }
  }

  /** Covered facet counts are the streamed counts, for every value, exactly when nothing lingers. */
  lemma FacetExactIff(docs: seq<Payload>, properties: Properties, field: string)
    requires AllClaim(docs, properties) && AllCovered(docs, KeywordMarker(field))
    ensures (forall s :: PayloadCount(docs, field, s) == CountDocuments(Sources(docs), field, TextBucket(Str(s))))
       <==> NothingLingers(docs, field)
  {
    forall s
      ensures PayloadCount(docs, field, s) == CountDocuments(Sources(docs), field, TextBucket(Str(s)))
         <==> forall p :: p in docs ==> !LingersWith(p, field, s)
    {
      FacetCountsDocuments(docs, properties, field, s);
      NoneLingering(docs, field, s);
    }
  }

  lemma {:induction false} OnlyTextKeys(docs: seq<Payload>, properties: Properties, field: string, k: Key)
    requires AllClaim(docs, properties) && AllCovered(docs, KeywordMarker(field))
    requires CountDocuments(Sources(docs), field, k) > 0
    ensures k.TextBucket? && k.value.Str?
    decreases |docs|
  {
    var front, last := docs[..|docs| - 1], docs[|docs| - 1];
    assert forall p :: p in front ==> p in docs;
    assert Sources(docs)[..|docs| - 1] == Sources(front);
    KeywordKeys(last, properties, field);
    if k !in DocumentKeys(SourceIn(last), field) {
      OnlyTextKeys(front, properties, field, k);
    }
  }

  /** Covered, within the limit and with nothing lingering, the facet has exactly the streamed counts:
      same buckets, same representative values, same numbers of documents. */
  lemma FacetIsTermsCount(docs: seq<Payload>, properties: Properties, field: string, hits: seq<FacetHit>, counts: Counts)
    requires AllClaim(docs, properties) && AllCovered(docs, KeywordMarker(field)) && NothingLingers(docs, field)
    requires IsFacet(hits, docs, field) && |hits| <= MAX_BUCKETS
    requires IsTermsCount(counts, Sources(docs), field)
    ensures counts == DropEmpty(FacetMap(hits))
  {
    var facet := DropEmpty(FacetMap(hits));
    hide IsFacet, FacetMap, DropEmpty, IsTermsCount, AllClaim, AllCovered, NothingLingers;
    forall k
      ensures k in counts <==> k in facet
      ensures k in counts ==> counts[k] == facet[k]
    {
      FacetKeyAgrees(docs, properties, field, hits, counts, k);
    }
  }

  lemma FacetKeyAgrees(docs: seq<Payload>, properties: Properties, field: string, hits: seq<FacetHit>, counts: Counts, k: Key)
    requires AllClaim(docs, properties) && AllCovered(docs, KeywordMarker(field)) && NothingLingers(docs, field)
    requires IsFacet(hits, docs, field) && |hits| <= MAX_BUCKETS
    requires IsTermsCount(counts, Sources(docs), field)
    ensures k in counts <==> k in DropEmpty(FacetMap(hits))
    ensures k in counts ==> counts[k] == DropEmpty(FacetMap(hits))[k]
  {
    FacetMapEntries(hits);
    FacetExactIff(docs, properties, field);
    hide AllClaim, AllCovered, NothingLingers, Sources, CountDocuments, KeyOf, FacetMap, PayloadCount;
    assert CountOf(counts, k) == CountDocuments(Sources(docs), field, k);
    if k in counts {
      OnlyTextKeys(docs, properties, field, k);
      TextKeyValue(counts[k].value, k);
    } else if k in FacetMap(hits) {
      var i :| 0 <= i < |hits| && k == TextBucket(hits[i].value) && FacetMap(hits)[k] == Bucket(hits[i].value, hits[i].count);
    }
  }

  lemma TextKeyValue(v: Json, k: Key)
    requires KeyOf(v) == k && k.TextBucket?
    ensures v == k.value
  {
  }

  lemma FacetEqualsStreaming(docs: seq<Payload>, properties: Properties, field: string, size: nat, hits: seq<FacetHit>)
    requires AllClaim(docs, properties) && AllCovered(docs, KeywordMarker(field)) && NothingLingers(docs, field)
    requires IsFacet(hits, docs, field) && FacetWellFormed(hits)
    ensures ObservedAll(TermsCount(field, size, map[]), Sources(docs)) == Some(TermsCount(field, size, DropEmpty(FacetMap(hits))))
  {
    FacetStreams(docs, properties, field, size, hits);
    FacetIsTermsCount(docs, properties, field, hits, ObservedAll(TermsCount(field, size, map[]), Sources(docs)).value.counts);
  }

  /** Where the facet answers, streaming does not fail. */
  lemma FacetStreams(docs: seq<Payload>, properties: Properties, field: string, size: nat, hits: seq<FacetHit>)
    requires AllClaim(docs, properties) && AllCovered(docs, KeywordMarker(field))
    requires IsFacet(hits, docs, field) && |hits| <= MAX_BUCKETS
    ensures var r := ObservedAll(TermsCount(field, size, map[]), Sources(docs));
            && r.Some? && r.value.TermsCount? && r.value.field == field && r.value.size == size
            && IsTermsCount(r.value.counts, Sources(docs), field)
  {
    var keys := set k | k in FacetMap(hits);
    FacetKeys(hits);
    CoveredSourcesFit(docs, properties, field, hits, keys);
    StreamSucceeds(field, size, Sources(docs), keys);
    StreamedTerms(field, size, Sources(docs));
  }

  /** The facet answers what streaming answers exactly when nothing lingers. */
  lemma FacetEqualsStreamingIff(docs: seq<Payload>, properties: Properties, field: string, size: nat, hits: seq<FacetHit>)
    requires AllClaim(docs, properties) && AllCovered(docs, KeywordMarker(field))
    requires IsFacet(hits, docs, field) && FacetWellFormed(hits)
    ensures ObservedAll(TermsCount(field, size, map[]), Sources(docs)) == Some(TermsCount(field, size, DropEmpty(FacetMap(hits))))
       <==> NothingLingers(docs, field)
  {
    if NothingLingers(docs, field) {
      FacetEqualsStreaming(docs, properties, field, size, hits);
    } else {
      FacetExactIff(docs, properties, field);
      var s :| PayloadCount(docs, field, s) != CountDocuments(Sources(docs), field, TextBucket(Str(s)));
      FacetCountsDocuments(docs, properties, field, s);
      FacetStreams(docs, properties, field, size, hits);
      FacetMapEntries(hits);
      hide PayloadCount, CountDocuments, ObservedAll, FacetMap, NothingLingers;
      var counts := ObservedAll(TermsCount(field, size, map[]), Sources(docs)).value.counts;
      var i :| 0 <= i < |hits| && hits[i].value == Str(s);
      assert DropEmpty(FacetMap(hits))[TextBucket(Str(s))].count == PayloadCount(docs, field, s);
      assert CountOf(counts, TextBucket(Str(s))) == CountDocuments(Sources(docs), field, TextBucket(Str(s)));
    }
  }

  lemma {:induction false} FacetKeys(hits: seq<FacetHit>)
    ensures |FacetMap(hits).Keys| <= |hits|
    ensures (set k | k in FacetMap(hits)) == FacetMap(hits).Keys
    decreases |hits|
  {
    if hits != [] {
      var front, last := hits[..|hits| - 1], hits[|hits| - 1];
      FacetKeys(front);
      assert FacetMap(hits).Keys == FacetMap(front).Keys + {TextBucket(last.value)};
    }
  }

  lemma CoveredSourcesFit(docs: seq<Payload>, properties: Properties, field: string, hits: seq<FacetHit>, keys: set<Key>)
    requires AllClaim(docs, properties) && AllCovered(docs, KeywordMarker(field))
    requires IsFacet(hits, docs, field) && |hits| <= MAX_BUCKETS && keys == FacetMap(hits).Keys
    ensures AllScalar(Sources(docs), field)
    ensures forall s :: s in Sources(docs) ==> DocumentKeys(s, field) <= keys
  {
    FacetMapEntries(hits);
    forall s | s in Sources(docs)
      ensures DocumentKeys(s, field) <= keys
      ensures forall v :: v in FieldValues(s, field) ==> Scalar(v)
    {
      var i :| 0 <= i < |docs| && Sources(docs)[i] == s;
      assert docs[i] in docs;
      CoveredKeyword(docs[i], properties, field);
      KeywordKeys(docs[i], properties, field);
      forall k | k in DocumentKeys(s, field)
        ensures k in keys
      {
        CountedWhereSeen(Sources(docs), s, field, k);
        FacetCountsDocuments(docs, properties, field, k.value.s);
        var j :| 0 <= j < |hits| && hits[j].value == Str(k.value.s);
      }
    }
  }

  // ---------------------------------------------------------------- counts

  predicate IsCountableNumber(kind: Option<string>) {
    IsNumericType(kind) || kind in {Some("half_float"), Some("scaled_float")}
  }

  function TypeIn(properties: Properties, field: string): Option<string> {
    if field in properties then FieldType(properties[field]) else None
  }

  /** Filters whose backend condition the marker makes equivalent to the evaluator. */
  function CountCondition(q: Query, properties: Properties): Option<(string, Condition)> {
    if q.NotAnObject? || |q.clauses| != 1 then None
    else match q.clauses[0]
      case Term(raw, value) =>
        var field := CompatibilityField(raw);
        if Markable(field) && TypeIn(properties, field) == Some("keyword") && TermValue(value).Str?
        then Some((KeywordMarker(field), MatchValue(field, TermValue(value)))) else None
      case Range(raw, bounds) =>
        var field := CompatibilityField(raw);
        if Markable(field) && IsCountableNumber(TypeIn(properties, field)) && bounds != []
           && forall x :: x in bounds ==> OpOf(x.key).Some? && SortSafeNumber(x.value)
        then Some((NumberMarker(field), InRange(field, PlainInterval(bounds)))) else None
      case _ => None
  }

  /** The same condition on the indexed payload of a point. */
  predicate PayloadHolds(t: Dates, p: Payload, c: Condition) {
    match c
    case MatchValue(key, value) => key in p && AnyValue(p[key], (v: Json) => v == value)
    case InRange(key, interval) => key in p && AnyValue(p[key], (v: Json) => InInterval(t, v, interval))
    case _ => false
  }

  /** The value a pushed keyword count asks for, if it is one. */
  function KeywordAsked(c: Condition): Option<(string, string)> {
    match c case MatchValue(key, Str(s)) => Some((key, s)) case _ => None
  }

  predicate LingersFor(p: Payload, c: Condition) {
    KeywordAsked(c).Some? && LingersWith(p, KeywordAsked(c).value.0, KeywordAsked(c).value.1)
  }

  /** On a marked point the pushed condition accepts what the evaluator accepts, and besides what only
      lingers. */
  lemma CountConditionIsFilter(t: Dates, p: Payload, properties: Properties, q: Query)
    requires Validated(q) && CountCondition(q, properties).Some?
    requires NumbersSound(p, properties) && KeywordsClaim(p, properties) && Marked(p, CountCondition(q, properties).value.0)
    ensures PayloadHolds(t, p, CountCondition(q, properties).value.1)
       <==> SourceMatches(SourceIn(p), q) || LingersFor(p, CountCondition(q, properties).value.1)
    ensures LingersFor(p, CountCondition(q, properties).value.1) ==> !SourceMatches(SourceIn(p), q)
  {
    var source := p["_source"];
    assert IsFirst(q.clauses, 0);
    assert SourceMatches(source, q) <==> ClauseMatches(source, q.clauses[0]);
    match q.clauses[0] {
      case Term(raw, value) => TermIsCondition(t, p, properties, raw, CompatibilityField(raw), value);
      case Range(raw, bounds) => RangeIsCondition(t, p, properties, raw, CompatibilityField(raw), bounds);
    }
    hide PayloadHolds, ClauseMatches, LingersFor, CountCondition, NumbersSound, KeywordsClaim, Marked;
  }

  lemma TermIsCondition(t: Dates, p: Payload, properties: Properties, raw: string, field: string, value: Json)
    requires field == CompatibilityField(raw) && '.' !in field && TermValue(value).Str?
    requires KeywordsClaim(p, properties) && Marked(p, KeywordMarker(field))
    ensures var c := MatchValue(field, TermValue(value));
            && (PayloadHolds(t, p, c) <==> ClauseMatches(SourceIn(p), Term(raw, value)) || LingersFor(p, c))
            && (LingersFor(p, c) ==> !ClauseMatches(SourceIn(p), Term(raw, value)))
  {
    PlainField(p["_source"], field);
    hide InInterval;
  }

  lemma RangeIsCondition(t: Dates, p: Payload, properties: Properties, raw: string, field: string, bounds: Entries)
    requires field == CompatibilityField(raw) && '.' !in field && bounds != []
    requires NumbersSound(p, properties) && Marked(p, NumberMarker(field))
    requires forall x :: x in bounds ==> OpOf(x.key).Some? && SortSafeNumber(x.value)
    ensures var c := InRange(field, PlainInterval(bounds));
            (PayloadHolds(t, p, c) <==> ClauseMatches(SourceIn(p), Range(raw, bounds))) && !LingersFor(p, c)
  {
    PlainField(p["_source"], field);
    assert bounds[0] in bounds && PlainOp(bounds[0]).Some?;
    RangeIsInterval(t, p["_source"], field, bounds);
    hide InInterval, PlainBounds, PlainInterval;
  }

  lemma RangeIsInterval(t: Dates, source: Json, field: string, bounds: Entries)
    requires exists x :: x in bounds && PlainOp(x).Some?
    ensures FieldHas(source, field, (v: Json) => PlainBounds(v, bounds))
       <==> FieldHas(source, field, (v: Json) => InInterval(t, v, PlainInterval(bounds)))
  {
    var interval := PlainInterval(bounds);
    PlainNumbers(bounds);
    var x :| x in bounds && PlainOp(x).Some?;
    assert PlainOp(x).value in interval && IsBounded(interval);
    forall v: Json
      ensures PlainBounds(v, bounds) <==> InInterval(t, v, interval)
    {
      PlainIsInterval(t, bounds, v);
      ReadsNumbers(t, interval, v);
    }
    hide PlainInterval, PlainBounds, InInterval;
    SamePredicate(source, field, (v: Json) => PlainBounds(v, bounds), (v: Json) => InInterval(t, v, interval));
  }

  function BackendCount(t: Dates, docs: seq<Payload>, c: Condition): nat {
    |Filter((p: Payload) => PayloadHolds(t, p, c), docs)|
  }

  function CountLingering(docs: seq<Payload>, c: Condition): nat {
    |Filter((p: Payload) => LingersFor(p, c), docs)|
  }

  /** A covered exact count is what streaming the filter over every document counts, plus the points
      that only linger with the value asked for. */
  lemma {:induction false} CountsExceedByLingering(t: Dates, docs: seq<Payload>, properties: Properties, q: Query)
    requires Validated(q) && CountCondition(q, properties).Some?
    requires AllClaim(docs, properties) && AllCovered(docs, CountCondition(q, properties).value.0)
    ensures var c := CountCondition(q, properties).value.1;
            && ObservedAll(Filtered(q, 0), Sources(docs)).Some?
            && ObservedAll(Filtered(q, 0), Sources(docs)).value.Filtered?
            && ObservedAll(Filtered(q, 0), Sources(docs)).value.query == q
            && BackendCount(t, docs, c) == ObservedAll(Filtered(q, 0), Sources(docs)).value.count + CountLingering(docs, c)
    decreases |docs|
  {
    hide SourceMatches, PayloadHolds, CountCondition, Validated, NumbersSound, KeywordsClaim, Marked, LingersFor;
    hide ObservedAll, BackendCount, CountLingering, Sources, SourceIn;
    if docs == [] {
      NothingCounted(t, q, CountCondition(q, properties).value.1);
    } else {
      var front, last := docs[..|docs| - 1], docs[|docs| - 1];
      var (marker, c) := CountCondition(q, properties).value;
      assert forall p :: p in front ==> p in docs;
      assert last in docs && docs == front + [last];
      ObservedLast(Filtered(q, 0), front, last);
      CountSteps(t, front, last, c);
      CountsExceedByLingering(t, front, properties, q);
      CountConditionIsFilter(t, last, properties, q);
    }
  }

  lemma NothingCounted(t: Dates, q: Query, c: Condition)
    ensures ObservedAll(Filtered(q, 0), Sources([])) == Some(Filtered(q, 0)) && BackendCount(t, [], c) == CountLingering([], c) == 0
  {
  }

  lemma CountSteps(t: Dates, front: seq<Payload>, last: Payload, c: Condition)
    ensures BackendCount(t, front + [last], c) == BackendCount(t, front, c) + if PayloadHolds(t, last, c) then 1 else 0
    ensures CountLingering(front + [last], c) == CountLingering(front, c) + if LingersFor(last, c) then 1 else 0
  {
    hide PayloadHolds, LingersFor;
    assert (front + [last])[..|front|] == front;
  }

  /** So the count is streaming's exactly when no point lingers with the value asked for. */
  lemma CountEqualsStreaming(t: Dates, docs: seq<Payload>, properties: Properties, q: Query)
    requires Validated(q) && CountCondition(q, properties).Some?
    requires AllClaim(docs, properties) && AllCovered(docs, CountCondition(q, properties).value.0)
    ensures ObservedAll(Filtered(q, 0), Sources(docs)) == Some(Filtered(q, BackendCount(t, docs, CountCondition(q, properties).value.1)))
       <==> forall p :: p in docs ==> !LingersFor(p, CountCondition(q, properties).value.1)
  {
    var c := CountCondition(q, properties).value.1;
    CountsExceedByLingering(t, docs, properties, q);
    hide ObservedAll, AllClaim, BackendCount, CountCondition, LingersFor;
    var found := Filter((p: Payload) => LingersFor(p, c), docs);
    FilterElements((p: Payload) => LingersFor(p, c), docs);
    if found != [] {
      assert found[0] in found;
    }
  }

  // ---------------------------------------------------------------- a whole plan

  type Plan = map<string, Reduction>

  /** A parsed plan: reducers empty, filters validated. */
  ghost predicate IsFreshPlan(plan: Plan) {
    forall name :: name in plan ==>
      match plan[name]
      case Metric(_, _, value) => value.None?
      case Filtered(query, count) => count == 0 && Validated(query)
      case TermsCount(_, _, counts) => counts == map[]
  }

  predicate FacetAllowed(field: string, properties: Properties) {
    Markable(field) && TypeIn(properties, field) == Some("keyword")
  }

  lemma DeclaredIff(properties: Properties, field: string)
    ensures TypeIn(properties, field) == Some("keyword") <==> Declared(properties, field, {"keyword"})
    ensures IsCountableNumber(TypeIn(properties, field)) <==>
            Declared(properties, field, {"integer", "long", "short", "byte", "float", "double", "half_float", "scaled_float"})
  {
  }

  /** Which filters are counted by the backend: one string term on a keyword field, or plain exact bounds
      on a numeric one, under a name that can be marked. */
  lemma CountPushedIff(properties: Properties, raw: string, value: Json, bounds: Entries, field: string)
    requires field == CompatibilityField(raw)
    ensures var term := TermValue(value);
            CountCondition(Query([Term(raw, value)]), properties) ==
            if PlainName(field) && Declared(properties, field, {"keyword"}) && term.Str?
            then Some(("v1:keyword:" + field, MatchValue(field, term))) else None
    ensures CountCondition(Query([Range(raw, bounds)]), properties) ==
            if PlainName(field) && bounds != []
               && Declared(properties, field, {"integer", "long", "short", "byte", "float", "double", "half_float", "scaled_float"})
               && forall b :: b in bounds ==> b.key in {"gt", "gte", "lt", "lte"} && Exact(b.value)
            then Some(("v1:number:" + field, InRange(field, PlainInterval(bounds)))) else None
    ensures FacetAllowed(field, properties) <==> PlainName(field) && Declared(properties, field, {"keyword"})
  {
    NamesAgree(field);
    DeclaredIff(properties, field);
    forall b | b in bounds
      ensures OpOf(b.key).Some? && SortSafeNumber(b.value) <==> b.key in {"gt", "gte", "lt", "lte"} && Exact(b.value)
    {
      ExactIff(b.value);
    }
    hide Markable, PlainName, Declared, IsCountableNumber, TypeIn, OpOf, SortSafeNumber, Exact, PlainInterval, TermValue;
  }

  lemma NothingElseIsCounted(q: Query, properties: Properties)
    ensures CountCondition(q, properties).Some? ==> q.Query? && |q.clauses| == 1 && (q.clauses[0].Term? || q.clauses[0].Range?)
  {
  }

  /** The backend's answers to the speculative reads of one plan over an unchanging store. */
  datatype Reads = Reads(dates: Dates, covered: string -> bool, count: Condition -> nat, facet: string -> seq<FacetHit>)

  ghost predicate Answers(backend: Reads, docs: seq<Payload>) {
    && (forall marker :: backend.covered(marker) <==> AllCovered(docs, marker))
    && (forall c :: backend.count(c) == BackendCount(backend.dates, docs, c))
    && (forall field :: IsFacet(backend.facet(field), docs, field))
  }

  predicate UsesCount(r: Reduction, properties: Properties, backend: Reads) {
    r.Filtered? && !IsLegacy(properties) && CountCondition(r.query, properties).Some?
    && backend.covered(CountCondition(r.query, properties).value.0)
  }

  predicate UsesFacet(r: Reduction, properties: Properties, backend: Reads) {
    r.TermsCount? && !IsLegacy(properties) && FacetAllowed(r.field, properties) && backend.covered(KeywordMarker(r.field))
  }

  /** What streaming every reducer over every document, without any fast path, would report. */
  ghost predicate PlanStreams(plan: Plan, sources: seq<Json>) {
    forall name :: name in plan ==> ObservedAll(plan[name], sources).Some?
  }

  ghost function Streamed(plan: Plan, sources: seq<Json>): Plan
    requires PlanStreams(plan, sources)
  {
    map name | name in plan :: ObservedAll(plan[name], sources).value
  }

  datatype Attempt = NotApplicable | Done(r: Reduction) | Failed

  /** No point lingers with a value that the reducer's fast path would count. */
  ghost predicate Harmless(r: Reduction, properties: Properties, backend: Reads, docs: seq<Payload>) {
    && (UsesCount(r, properties, backend) ==> forall p :: p in docs ==> !LingersFor(p, CountCondition(r.query, properties).value.1))
    && (UsesFacet(r, properties, backend) ==> NothingLingers(docs, r.field))
  }

  /** Streaming the reducer succeeds, with this answer exactly when nothing lingers for it. */
  ghost predicate Reports(r: Reduction, answer: Reduction, properties: Properties, backend: Reads, docs: seq<Payload>) {
    && ObservedAll(r, Sources(docs)).Some?
    && (ObservedAll(r, Sources(docs)) == Some(answer) <==> Harmless(r, properties, backend, docs))
  }

  /** The fast path for one reducer, if it has one. Its answer is streaming's exactly when nothing
      lingers for it. */
  method TryFastPath(r: Reduction, properties: Properties, backend: Reads, ghost docs: seq<Payload>) returns (a: Attempt)
    requires IsFreshPlan(map["" := r]) && (IsLegacy(properties) || AllClaim(docs, properties)) && Answers(backend, docs)
    ensures a.NotApplicable? <==> !UsesCount(r, properties, backend) && !UsesFacet(r, properties, backend)
    ensures a.Failed? <==> UsesFacet(r, properties, backend) && |backend.facet(r.field)| > MAX_BUCKETS
    ensures a.Done? ==> Reports(r, a.r, properties, backend, docs)
  {
    assert map["" := r][""] == r;
    hide AllClaim, NothingLingers, CountCondition, Validated, Answers, AllCovered, BackendCount, FacetMap, DropEmpty;
    hide ObservedAll, LingersFor, FacetAllowed;
    match r {
      case Metric(_, _, _) => a := NotApplicable;
      case Filtered(query, _) =>
        var condition := CountCondition(query, properties);
        if IsLegacy(properties) || condition.None? || !backend.covered(condition.value.0) {
          return NotApplicable;
        }
        AnswersMean(backend, docs, condition.value.0, condition.value.1, "");
        CountsExceedByLingering(backend.dates, docs, properties, query);
        CountEqualsStreaming(backend.dates, docs, properties, query);
        a := Done(Filtered(query, backend.count(condition.value.1)));
      case TermsCount(field, size, _) =>
        if IsLegacy(properties) || !FacetAllowed(field, properties) || !backend.covered(KeywordMarker(field)) {
          return NotApplicable;
        }
        AnswersMean(backend, docs, KeywordMarker(field), IdAny([]), field);
        var counts := FacetCounts(backend.facet(field));
        if counts.None? {
          return Failed;
        }
        FacetStreams(docs, properties, field, size, backend.facet(field));
        FacetEqualsStreamingIff(docs, properties, field, size, backend.facet(field));
        a := Done(TermsCount(field, size, counts.value));
    }
  }

  lemma AnswersMean(backend: Reads, docs: seq<Payload>, marker: string, c: Condition, field: string)
    requires Answers(backend, docs)
    ensures backend.covered(marker) <==> AllCovered(docs, marker)
    ensures backend.count(c) == BackendCount(backend.dates, docs, c)
    ensures IsFacet(backend.facet(field), docs, field)
  {
  }

  /** Every remaining reducer sees every document of every page. */
  method StreamPages(plan: Plan, pages: seq<Page<Payload>>) returns (r: Option<Plan>)
    requires IsScroll(pages)
    ensures r.Some? <==> Advances(pages) && PlanStreams(plan, Sources(AllPoints(pages)))
    ensures r.Some? ==> r.value == Streamed(plan, Sources(AllPoints(pages)))
  {
    hide PlanStreams, Streamed, AllPoints, ObservedAll, Sources;
    var reducers := plan;
    var offset: Option<string> := None;
    var i := 0;
    StreamNothing(plan);
    NoPoints(pages);
    while true
      invariant 0 <= i < |pages|
      invariant offset == OffsetOf(pages, i)
      invariant PlanStreams(plan, Sources(AllPoints(pages[..i]))) && reducers == Streamed(plan, Sources(AllPoints(pages[..i])))
      invariant forall j :: 0 <= j < i ==> pages[j].points != [] && pages[j].next != OffsetOf(pages, j)
      decreases |pages| - i
    {
      var next := ObservePage(plan, reducers, pages[i].points, AllPoints(pages[..i]));
      AllPointsStep(pages, i);
      if next.None? {
        StreamPrefixFails(plan, pages, i + 1);
        return None;
      }
      reducers := next.value;
      if pages[i].next.None? {
        assert pages[..i + 1] == pages;
        return Some(reducers);
      }
      if pages[i].next == offset || pages[i].points == [] {
        return None;
      }
      offset := pages[i].next;
      i := i + 1;
    }
  }

  lemma NoPoints(pages: seq<Page<Payload>>)
    ensures AllPoints(pages[..0]) == []
  {
  }

  lemma StreamNothing(plan: Plan)
    ensures PlanStreams(plan, Sources([])) && Streamed(plan, Sources([])) == plan
  {
    assert Sources([]) == [];
    assert Streamed(plan, Sources([])) == plan;
  }

  method ObservePage(ghost plan: Plan, reducers: Plan, points: seq<Payload>, ghost before: seq<Payload>) returns (r: Option<Plan>)
    requires PlanStreams(plan, Sources(before)) && reducers == Streamed(plan, Sources(before))
    ensures r.Some? <==> PlanStreams(plan, Sources(before + points))
    ensures r.Some? ==> r.value == Streamed(plan, Sources(before + points))
  {
    var current := reducers;
    assert before + points[..0] == before;
    for i := 0 to |points|
      invariant PlanStreams(plan, Sources(before + points[..i])) && current == Streamed(plan, Sources(before + points[..i]))
    {
      assert before + points[..i + 1] == (before + points[..i]) + [points[i]];
      var next := ObservePoint(plan, current, points[i], before + points[..i]);
      if next.None? {
        LaterFailure(plan, before, points, i + 1);
        return None;
      }
      current := next.value;
    }
    assert points[..|points|] == points;
    r := Some(current);
  }

  method ObservePoint(ghost plan: Plan, reducers: Plan, point: Payload, ghost before: seq<Payload>) returns (r: Option<Plan>)
    requires PlanStreams(plan, Sources(before)) && reducers == Streamed(plan, Sources(before))
    ensures r.Some? <==> PlanStreams(plan, Sources(before + [point]))
    ensures r.Some? ==> r.value == Streamed(plan, Sources(before + [point]))
  {
    hide Observed, ObservedAll, Sources, SourceIn;
    ghost var sources := Sources(before + [point]);
    var current: Plan := map[];
    var pending := reducers.Keys;
    while pending != {}
      invariant pending <= reducers.Keys && current.Keys == reducers.Keys - pending
      invariant forall name :: name in current ==> ObservedAll(plan[name], sources) == Some(current[name])
      decreases |pending|
    {
      var name :| name in pending;
      pending := pending - {name};
      var reducer := new Reducer(reducers[name]);
      var ok := reducer.Observe(SourceIn(point));
      ObservedLast(plan[name], before, point);
      if !ok {
        return None;
      }
      current := current[name := reducer.state];
    }
    assert current == Streamed(plan, sources);
    r := Some(current);
  }

  lemma ObservedLast(r: Reduction, before: seq<Payload>, point: Payload)
    ensures ObservedAll(r, Sources(before + [point])) ==
            match ObservedAll(r, Sources(before)) case Some(front) => Observed(front, SourceIn(point)) case None => None
  {
    hide Observed, SourceIn;
    var sources := Sources(before + [point]);
    assert sources[..|sources| - 1] == Sources(before) && sources[|before|] == SourceIn(point);
  }

  lemma {:induction false} ObservedPrefix(r: Reduction, sources: seq<Json>, i: nat)
    requires i <= |sources| && ObservedAll(r, sources).Some?
    ensures ObservedAll(r, sources[..i]).Some?
    decreases |sources|
  {
    if i < |sources| {
      assert sources[..|sources| - 1][..i] == sources[..i];
      ObservedPrefix(r, sources[..|sources| - 1], i);
    } else {
      assert sources[..i] == sources;
    }
  }

  lemma SourcesPrefix(before: seq<Payload>, points: seq<Payload>, i: nat)
    requires i <= |points|
    ensures |before| + i <= |Sources(before + points)| && Sources(before + points)[..|before| + i] == Sources(before + points[..i])
  {
    hide SourceIn;
  }

  lemma LaterFailure(plan: Plan, before: seq<Payload>, points: seq<Payload>, i: nat)
    requires i <= |points| && !PlanStreams(plan, Sources(before + points[..i]))
    ensures !PlanStreams(plan, Sources(before + points))
  {
    var name :| name in plan && ObservedAll(plan[name], Sources(before + points[..i])).None?;
    SourcesPrefix(before, points, i);
    hide Sources, ObservedAll;
    if ObservedAll(plan[name], Sources(before + points)).Some? {
      ObservedPrefix(plan[name], Sources(before + points), |before| + i);
    }
  }

  lemma {:induction false} StreamPrefixFails(plan: Plan, pages: seq<Page<Payload>>, i: nat)
    requires i <= |pages| && !PlanStreams(plan, Sources(AllPoints(pages[..i])))
    ensures !PlanStreams(plan, Sources(AllPoints(pages)))
    decreases |pages| - i
  {
    if i < |pages| {
      AllPointsStep(pages, i);
      var points := pages[i].points;
      assert points[..0] == [] && AllPoints(pages[..i]) + [] == AllPoints(pages[..i]);
      LaterFailure(plan, AllPoints(pages[..i]), points, 0);
      StreamPrefixFails(plan, pages, i + 1);
    } else {
      assert pages[..i] == pages;
    }
  }

  /** Executing a plan with the fast paths reports what streaming alone would, for any split into
      pages, exactly when nothing lingers for any reducer that took one. It can fail where streaming
      would not only when a covered facet lists too many values, empty ones included. */
  method Execute(plan: Plan, properties: Properties, backend: Reads, pages: seq<Page<Payload>>) returns (r: Option<Plan>)
    requires IsFreshPlan(plan) && IsScroll(pages)
    requires (IsLegacy(properties) || AllClaim(AllPoints(pages), properties)) && Answers(backend, AllPoints(pages))
    ensures r.Some? ==> PlanStreams(plan, Sources(AllPoints(pages))) && r.value.Keys == plan.Keys
    ensures r.Some? ==> (r.value == Streamed(plan, Sources(AllPoints(pages)))
                         <==> forall name :: name in plan ==> Harmless(plan[name], properties, backend, AllPoints(pages)))
    ensures Advances(pages) && PlanStreams(plan, Sources(AllPoints(pages))) && r.None? ==>
              exists name :: name in plan && UsesFacet(plan[name], properties, backend)
                             && |backend.facet(plan[name].field)| > MAX_BUCKETS
  {
    hide *;
    ghost var docs := AllPoints(pages);
    var completed: Plan := map[];
    var remaining: Plan := map[];
    var pending := plan.Keys;
    SplitStart(plan, properties, backend, docs);
    while pending != {}
      invariant pending <= plan.Keys
      invariant IsSplit(plan - pending, completed, remaining, properties, backend, docs)
      decreases |pending|
    {
      var name :| name in pending;
      SplitStep(plan, pending, name, completed, remaining, properties, backend, docs);
      pending := pending - {name};
      OneReducer(plan, name);
      var attempt := TryFastPath(plan[name], properties, backend, docs);
      match attempt {
        case Failed => return None;
        case Done(done) => completed := completed[name := done];
        case NotApplicable =>
          StreamedAreHarmless(plan[name], properties, backend, docs);
          remaining := remaining[name := plan[name]];
      }
    }
    assert plan - {} == plan;
    if remaining == map[] {
      Combined(plan, completed, remaining, map[], properties, backend, docs);
      assert completed + map[] == completed;
      return Some(completed);
    }
    var streamed := StreamPages(remaining, pages);
    if streamed.None? {
      RestFails(plan, completed, remaining, properties, backend, docs);
      return None;
    }
    Combined(plan, completed, remaining, streamed.value, properties, backend, docs);
    r := Some(completed + streamed.value);
  }

  /** Every reducer was tried, or streamed because it has no fast path. */
  ghost predicate IsSplit(plan: Plan, completed: Plan, remaining: Plan, properties: Properties, backend: Reads, docs: seq<Payload>) {
    && completed.Keys + remaining.Keys == plan.Keys && completed.Keys !! remaining.Keys
    && (forall name :: name in completed ==> Reports(plan[name], completed[name], properties, backend, docs))
    && forall name :: name in remaining ==> remaining[name] == plan[name] && Harmless(plan[name], properties, backend, docs)
  }

  lemma SplitStart(plan: Plan, properties: Properties, backend: Reads, docs: seq<Payload>)
    ensures IsSplit(plan - plan.Keys, map[], map[], properties, backend, docs)
  {
  }

  lemma SplitStep(plan: Plan, pending: set<string>, name: string, completed: Plan, remaining: Plan, properties: Properties,
                  backend: Reads, docs: seq<Payload>)
    requires name in pending && pending <= plan.Keys && IsSplit(plan - pending, completed, remaining, properties, backend, docs)
    ensures forall r :: Reports(plan[name], r, properties, backend, docs) ==>
                          IsSplit(plan - (pending - {name}), completed[name := r], remaining, properties, backend, docs)
    ensures Harmless(plan[name], properties, backend, docs) ==>
              IsSplit(plan - (pending - {name}), completed, remaining[name := plan[name]], properties, backend, docs)
  {
    hide Reports, Harmless;
  }

  lemma Combined(plan: Plan, completed: Plan, remaining: Plan, streamed: Plan, properties: Properties, backend: Reads,
                 docs: seq<Payload>)
    requires IsSplit(plan, completed, remaining, properties, backend, docs)
    requires if remaining == map[] then streamed == map[]
             else PlanStreams(remaining, Sources(docs)) && streamed == Streamed(remaining, Sources(docs))
    ensures (completed + streamed).Keys == plan.Keys && PlanStreams(plan, Sources(docs))
    ensures completed + streamed == Streamed(plan, Sources(docs))
       <==> forall name :: name in plan ==> Harmless(plan[name], properties, backend, docs)
  {
    if remaining != map[] {
      StreamedKeys(remaining, Sources(docs));
    }
    forall name | name in remaining
      ensures name in streamed && Reports(plan[name], streamed[name], properties, backend, docs)
    {
      StreamedReports(remaining, streamed, name, properties, backend, docs);
    }
    hide Harmless, Reports, PlanStreams, Streamed, Sources;
    PlanReports(plan, completed + streamed, properties, backend, docs);
  }

  lemma RestFails(plan: Plan, completed: Plan, remaining: Plan, properties: Properties, backend: Reads, docs: seq<Payload>)
    requires IsSplit(plan, completed, remaining, properties, backend, docs)
    ensures PlanStreams(plan, Sources(docs)) ==> PlanStreams(remaining, Sources(docs))
  {
  }

  lemma StreamedKeys(plan: Plan, sources: seq<Json>)
    requires PlanStreams(plan, sources)
    ensures Streamed(plan, sources).Keys == plan.Keys
  {
  }

  lemma StreamedReports(plan: Plan, streamed: Plan, name: string, properties: Properties, backend: Reads, docs: seq<Payload>)
    requires PlanStreams(plan, Sources(docs)) && streamed == Streamed(plan, Sources(docs))
    requires name in plan && Harmless(plan[name], properties, backend, docs)
    ensures name in streamed && Reports(plan[name], streamed[name], properties, backend, docs)
  {
    hide Harmless, ObservedAll, Sources;
  }

  lemma PlanReports(plan: Plan, answer: Plan, properties: Properties, backend: Reads, docs: seq<Payload>)
    requires answer.Keys == plan.Keys
    requires forall name :: name in plan ==> Reports(plan[name], answer[name], properties, backend, docs)
    ensures PlanStreams(plan, Sources(docs))
    ensures answer == Streamed(plan, Sources(docs)) <==> forall name :: name in plan ==> Harmless(plan[name], properties, backend, docs)
  {
    hide Harmless, ObservedAll, Sources;
    var all := Streamed(plan, Sources(docs));
    assert answer == all <==> forall name :: name in plan ==> answer[name] == all[name];
  }

  lemma StreamedAreHarmless(r: Reduction, properties: Properties, backend: Reads, docs: seq<Payload>)
    requires !UsesCount(r, properties, backend) && !UsesFacet(r, properties, backend)
    ensures Harmless(r, properties, backend, docs)
  {
  }

  lemma OneReducer(plan: Plan, name: string)
    requires IsFreshPlan(plan) && name in plan
    ensures IsFreshPlan(map["" := plan[name]])
  {
    assert IsFreshPlan(map["" := plan[name]]) by {
      assert map["" := plan[name]][""] == plan[name];
    }
  }
}
