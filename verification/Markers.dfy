/** The search payload stored beside a document, and the execution markers in it. */
module Markers {
  import opened Options
  import opened Values
  import opened Sequences

  type Properties = map<string, Json>
  type Payload = map<string, Json>

  const MARKERS: string := "_qeg_fast_fields"

  function Get(v: Json, key: string): Option<Json> {
    if v.Obj? && key in v.fields then Some(v.fields[key]) else None
  }

  function GetField(payload: Payload, field: string): Option<Json> {
    if field in payload then Some(payload[field]) else None
  }

  /** The declared type of a mapping property. */
  function FieldType(spec: Json): Option<string> {
    match Get(spec, "type") case Some(Str(kind)) => Some(kind) case _ => None
  }

  predicate IsIntegerType(kind: Option<string>) {
    kind in {Some("integer"), Some("long"), Some("short"), Some("byte")}
  }

  predicate IsNumericType(kind: Option<string>) {
    IsIntegerType(kind) || kind in {Some("float"), Some("double")}
  }

  predicate IsPayloadField(spec: Json) {
    FieldType(spec).Some? && FieldType(spec) != Some("text") && FieldType(spec) != Some("sparse_vector")
  }

  /** A user field of the reserved name, from before it was reserved. */
  predicate IsLegacy(properties: Properties) {
    MARKERS in properties
  }

  const SAFE_NUMBER: real := 9007199254740991.0

  predicate SortSafeNumber(v: Json) {
    IsNumber(v) && -SAFE_NUMBER <= NumberOf(v) <= SAFE_NUMBER
  }

  predicate NullOrString(v: Json) {
    v.Null? || v.Str?
  }

  predicate KeywordFacetSafe(v: Option<Json>) {
    match v
    case None => true
    case Some(Arr(items)) => forall item :: item in items ==> NullOrString(item)
    case Some(value) => NullOrString(value)
  }

  predicate Markable(field: string) {
    '.' !in field && '[' !in field && ']' !in field && !("_" <= field)
  }

  predicate NumberFieldSafe(spec: Json, v: Option<Json>) {
    IsNumericType(FieldType(spec)) && v.Some? && SortSafeNumber(v.value) && (IsIntegerType(FieldType(spec)) ==> v.value.Int?)
  }

  predicate KeywordFieldSafe(spec: Json, v: Option<Json>) {
    FieldType(spec) == Some("keyword") && KeywordFacetSafe(v)
  }

  function NumberMarker(field: string): string { "v1:number:" + field }

  function KeywordMarker(field: string): string { "v1:keyword:" + field }

  function MarkerOf(source: Json, field: string, spec: Json): Option<string> {
    if !Markable(field) then None
    else if NumberFieldSafe(spec, Get(source, field)) then Some(NumberMarker(field))
    else if KeywordFieldSafe(spec, Get(source, field)) then Some(KeywordMarker(field))
    else None
  }

  // ---------------------------------------------------------------- the projection

  function FieldPayload(source: Json, properties: Properties): Payload {
    map field | field in properties && IsPayloadField(properties[field]) && source.Obj? && field in source.fields
      :: source.fields[field]
  }

  function MarkerList(source: Json, properties: Properties, fields: seq<string>): seq<Json>
    requires forall f :: f in fields ==> f in properties
  {
    if fields == [] then []
    else
      var last := fields[|fields| - 1];
      MarkerList(source, properties, fields[..|fields| - 1])
      + match MarkerOf(source, last, properties[last]) case Some(m) => [Str(m)] case None => []
  }

  function Projection(arrange: Arrangement, source: Json, id: string, index: string, properties: Properties): Payload {
    var base := map["_es_id" := Str(id), "_es_index" := Str(index)] + FieldPayload(source, properties);
    var fields := arrange(properties.Keys);
    if IsLegacy(properties) || !(forall f :: f in fields ==> f in properties) then base
    else base[MARKERS := Arr(MarkerList(source, properties, fields))]
  }

  function DocumentPayload(arrange: Arrangement, source: Json, id: string, index: string, properties: Properties): Payload {
    Projection(arrange, source, id, index, properties)["_source" := source]
  }

  /** Copies the mapped non-text fields and lists a marker for each field whose value is proved
      to have the promised shape. */
  method ProjectedSearchPayload(arrange: Arrangement, source: Json, id: string, index: string, properties: Properties)
    returns (p: Payload)
    requires Arranges(arrange)
    ensures p == Projection(arrange, source, id, index, properties)
  {
    var fields := arrange(properties.Keys);
    p := CopyFields(source, properties, fields, map["_es_id" := Str(id), "_es_index" := Str(index)]);
    if IsLegacy(properties) {
      return;
    }
    var scalarFields: seq<Json> := [];
    for n := 0 to |fields|
      invariant scalarFields == MarkerList(source, properties, fields[..n])
    {
      var field := fields[n];
      assert fields[..n + 1][..n] == fields[..n];
      var marker := MarkerOf(source, field, properties[field]);
      if marker.Some? {
        scalarFields := scalarFields + [Str(marker.value)];
      }
    }
    assert fields[..|fields|] == fields;
    p := p[MARKERS := Arr(scalarFields)];
  }

  predicate Copied(source: Json, properties: Properties, field: string) {
    field in properties && IsPayloadField(properties[field]) && source.Obj? && field in source.fields
  }

  method CopyFields(source: Json, properties: Properties, fields: seq<string>, base: Payload) returns (p: Payload)
    requires forall f :: f in fields <==> f in properties
    ensures p == base + FieldPayload(source, properties)
  {
    hide FieldType;
    p := base;
    if source.Obj? {
      for n := 0 to |fields|
        invariant forall f :: f in p <==> f in base || (f in fields[..n] && Copied(source, properties, f))
        invariant forall f :: f in p ==>
                    p[f] == (if f in fields[..n] && Copied(source, properties, f) then source.fields[f] else base[f])
      {
        var field := fields[n];
        assert fields[..n + 1] == fields[..n] + [field];
        if IsPayloadField(properties[field]) && field in source.fields {
          p := p[field := source.fields[field]];
        }
      }
      assert fields[..|fields|] == fields;
    }
  }

  // ---------------------------------------------------------------- what a marker promises

  /** How the backend matches one value against the stored marker list. */
  predicate Marked(payload: Payload, marker: string) {
    MARKERS in payload && payload[MARKERS].Arr? && Str(marker) in payload[MARKERS].items
  }

  lemma {:induction false} MarkerListed(source: Json, properties: Properties, fields: seq<string>, marker: string)
    requires forall f :: f in fields ==> f in properties
    ensures Str(marker) in MarkerList(source, properties, fields)
       <==> exists f :: f in fields && MarkerOf(source, f, properties[f]) == Some(marker)
    decreases |fields|
  {
    if fields != [] {
      var front, last := fields[..|fields| - 1], fields[|fields| - 1];
      assert fields == front + [last];
      MarkerListed(source, properties, front, marker);
      assert forall f :: f in fields <==> f in front || f == last;
      if Str(marker) in MarkerList(source, properties, fields) {
        if Str(marker) in MarkerList(source, properties, front) {
          var f :| f in front && MarkerOf(source, f, properties[f]) == Some(marker);
          assert f in fields;
        } else {
          assert last in fields;
        }
      }
    }
  }

  lemma MarkersAreDistinct(f: string, g: string)
    ensures NumberMarker(f) == NumberMarker(g) ==> f == g
    ensures KeywordMarker(f) == KeywordMarker(g) ==> f == g
    ensures NumberMarker(f) != KeywordMarker(g)
  {
    assert NumberMarker(f)[|"v1:number:"|..] == f && NumberMarker(g)[|"v1:number:"|..] == g;
    assert KeywordMarker(f)[|"v1:keyword:"|..] == f && KeywordMarker(g)[|"v1:keyword:"|..] == g;
    assert NumberMarker(f)[3] == 'n' && KeywordMarker(g)[3] == 'k';
  }

  /** A freshly projected payload carries exactly the markers its source earns. */
  lemma ProjectedMarkers(arrange: Arrangement, source: Json, id: string, index: string, properties: Properties, field: string)
    requires Arranges(arrange) && !IsLegacy(properties)
    ensures var p := DocumentPayload(arrange, source, id, index, properties);
            && (Marked(p, NumberMarker(field)) <==>
                  field in properties && Markable(field) && NumberFieldSafe(properties[field], Get(source, field)))
            && (Marked(p, KeywordMarker(field)) <==>
                  field in properties && Markable(field) && KeywordFieldSafe(properties[field], Get(source, field)))
  {
    var fields := arrange(properties.Keys);
    MarkerListed(source, properties, fields, NumberMarker(field));
    MarkerListed(source, properties, fields, KeywordMarker(field));
    forall f
      ensures NumberMarker(f) == NumberMarker(field) ==> f == field
      ensures KeywordMarker(f) == KeywordMarker(field) ==> f == field
      ensures NumberMarker(f) != KeywordMarker(field) && KeywordMarker(f) != NumberMarker(field)
    {
      MarkersAreDistinct(f, field);
      MarkersAreDistinct(field, f);
    }
    assert field in fields <==> field in properties;
  }

  /** No dot or bracket in the name, no underscore in front. */
  predicate PlainName(field: string) {
    (forall i :: 0 <= i < |field| ==> field[i] !in {'.', '[', ']'}) && (field == "" || field[0] != '_')
  }

  predicate TextOrNull(v: Json) {
    match v case Null => true case Str(_) => true case _ => false
  }

  /** For a document that is an object and a field declared by a string type: which markers the document
      earns, and that its value is copied unless the type is text or a sparse vector. */
  lemma WhatIsEarned(arrange: Arrangement, doc: map<string, Json>, id: string, index: string, properties: Properties,
                     field: string, spec: map<string, Json>, kind: string)
    requires Arranges(arrange) && "_qeg_fast_fields" !in properties
    requires field in properties && properties[field] == Obj(spec) && "type" in spec && spec["type"] == Str(kind)
    ensures var p := DocumentPayload(arrange, Obj(doc), id, index, properties);
            && Marked(p, "v1:number:" + field) == (
                 && PlainName(field) && field in doc
                 && match doc[field]
                    case Int(i) => kind in {"integer", "long", "short", "byte", "float", "double"} && -9007199254740991 <= i <= 9007199254740991
                    case Float(x) => kind in {"float", "double"} && -9007199254740991.0 <= x <= 9007199254740991.0
                    case _ => false)
            && Marked(p, "v1:keyword:" + field) == (
                 && PlainName(field) && kind == "keyword"
                 && (field in doc ==> match doc[field]
                                      case Arr(items) => forall i :: 0 <= i < |items| ==> TextOrNull(items[i])
                                      case v => TextOrNull(v)))
            && p["_source"] == Obj(doc)
            && (field !in {"_es_id", "_es_index", "_source"} ==>
                  (field in p <==> field in doc && kind != "text" && kind != "sparse_vector") && (field in p ==> p[field] == doc[field]))
  {
    ProjectedMarkers(arrange, Obj(doc), id, index, properties, field);
    NamesAgree(field);
    EarnedNumber(doc, field, properties[field], kind);
    EarnedKeyword(doc, field, properties[field], kind);
    if field !in {"_es_id", "_es_index", "_source"} {
      GetProjected(arrange, Obj(doc), id, index, properties, field);
    }
    hide DocumentPayload, Marked, NumberFieldSafe, KeywordFieldSafe, Markable, PlainName, TextOrNull;
  }

  lemma NamesAgree(field: string)
    ensures Markable(field) <==> PlainName(field)
  {
    assert "_" <= field <==> field != "" && field[0] == '_';
    assert forall c :: c in field <==> exists i :: 0 <= i < |field| && field[i] == c;
  }

  lemma EarnedNumber(doc: map<string, Json>, field: string, spec: Json, kind: string)
    requires FieldType(spec) == Some(kind)
    ensures NumberFieldSafe(spec, Get(Obj(doc), field)) == (
              field in doc
              && match doc[field]
                 case Int(i) => kind in {"integer", "long", "short", "byte", "float", "double"} && -9007199254740991 <= i <= 9007199254740991
                 case Float(x) => kind in {"float", "double"} && -9007199254740991.0 <= x <= 9007199254740991.0
                 case _ => false)
  {
    if field in doc && doc[field].Int? {
      assert -9007199254740991 <= doc[field].i <= 9007199254740991 <==> -SAFE_NUMBER <= doc[field].i as real <= SAFE_NUMBER;
    }
    hide FieldType;
  }

  lemma EarnedKeyword(doc: map<string, Json>, field: string, spec: Json, kind: string)
    requires FieldType(spec) == Some(kind)
    ensures KeywordFieldSafe(spec, Get(Obj(doc), field)) == (
              kind == "keyword"
              && (field in doc ==> match doc[field]
                                   case Arr(items) => forall i :: 0 <= i < |items| ==> TextOrNull(items[i])
                                   case v => TextOrNull(v)))
  {
    hide FieldType;
    if field in doc && doc[field].Arr? {
      assert forall i :: 0 <= i < |doc[field].items| ==> doc[field].items[i] in doc[field].items;
    }
  }

  /** The mapping declares the field by one of these types. */
  ghost predicate Declared(properties: Properties, field: string, kinds: set<string>) {
    field in properties && properties[field].Obj? && "type" in properties[field].fields
    && match properties[field].fields["type"] case Str(kind) => kind in kinds case _ => false
  }

  /** A number no further from zero than 2^53 - 1. */
  ghost predicate Exact(v: Json) {
    match v
    case Int(i) => -9007199254740991 <= i <= 9007199254740991
    case Float(x) => -9007199254740991.0 <= x <= 9007199254740991.0
    case _ => false
  }

  lemma ExactIff(v: Json)
    ensures SortSafeNumber(v) <==> Exact(v)
  {
    if v.Int? {
      assert -9007199254740991 <= v.i <= 9007199254740991 <==> -SAFE_NUMBER <= v.i as real <= SAFE_NUMBER;
    }
  }

  lemma NumericIff(properties: Properties, field: string)
    ensures field in properties && IsNumericType(FieldType(properties[field])) <==>
            Declared(properties, field, {"integer", "long", "short", "byte", "float", "double"})
  {
  }

  predicate Reserved(field: string) {
    field in {"_es_id", "_es_index", "_source", MARKERS}
  }

  /** A number marker always tells the truth: the payload is the document's own value, a sort-safe
      number of the mapped type. */
  ghost predicate NumbersSound(payload: Payload, properties: Properties) {
    && "_source" in payload
    && (forall f :: Marked(payload, NumberMarker(f)) ==>
          && Markable(f) && f in properties && NumberFieldSafe(properties[f], Get(payload["_source"], f))
          && GetField(payload, f) == Get(payload["_source"], f))
  }

  /** What a keyword marker tells: the document's value has the promised shape, and if the document
      has one, the payload is it. */
  ghost predicate KeywordsClaim(payload: Payload, properties: Properties) {
    && "_source" in payload
    && (forall f :: Marked(payload, KeywordMarker(f)) ==>
          && Markable(f) && f in properties && KeywordFieldSafe(properties[f], Get(payload["_source"], f))
          && (Get(payload["_source"], f).Some? ==> GetField(payload, f) == Get(payload["_source"], f)))
  }

  /** A payload field the document no longer has. */
  predicate Stale(payload: Payload, field: string)
    requires "_source" in payload
  {
    field in payload && Get(payload["_source"], field).None?
  }

  /** What the fast paths rely on: a marked field's payload is the document's own value, of the
      promised shape (or, for keywords, absent on both sides). */
  ghost predicate Sound(payload: Payload, properties: Properties) {
    && NumbersSound(payload, properties)
    && (forall f :: Marked(payload, KeywordMarker(f)) ==>
          && Markable(f) && f in properties && KeywordFieldSafe(properties[f], Get(payload["_source"], f))
          && GetField(payload, f) == Get(payload["_source"], f))
  }

  /** So the one way a marker can lie is a keyword field that outlived its key. */
  lemma SoundIffNothingStale(payload: Payload, properties: Properties)
    requires NumbersSound(payload, properties) && KeywordsClaim(payload, properties)
    ensures Sound(payload, properties) <==> forall f :: Marked(payload, KeywordMarker(f)) ==> !Stale(payload, f)
  {
  }

  /** No stored field outlives its key in the source. */
  ghost predicate NoStaleFields(payload: Payload) {
    "_source" in payload && forall f :: f in payload && !Reserved(f) ==> Get(payload["_source"], f).Some?
  }

  ghost predicate SubMapping(seen: Properties, properties: Properties) {
    forall f :: f in seen ==> f in properties && properties[f] == seen[f]
  }

  lemma GetProjected(arrange: Arrangement, source: Json, id: string, index: string, properties: Properties, field: string)
    requires !Reserved(field)
    ensures GetField(DocumentPayload(arrange, source, id, index, properties), field)
         == if field in properties && IsPayloadField(properties[field]) then Get(source, field) else None
  {
  }

  /** A full write, under a possibly outdated view of the mapping. */
  lemma WrittenIsSound(arrange: Arrangement, source: Json, id: string, index: string, seen: Properties, properties: Properties)
    requires Arranges(arrange) && SubMapping(seen, properties) && !IsLegacy(properties)
    ensures Sound(DocumentPayload(arrange, source, id, index, seen), properties)
    ensures NoStaleFields(DocumentPayload(arrange, source, id, index, seen))
  {
    MergedIsSoundIff(arrange, map[], source, id, index, seen, properties);
    var p := DocumentPayload(arrange, source, id, index, seen);
    assert map[] + p == p;
    forall f | f in p && !Reserved(f)
      ensures Get(source, f).Some?
    {
      GetProjected(arrange, source, id, index, seen, f);
    }
  }

  /** The markers a set-payload write leaves are those of its own source, and each marked field the
      source has was written with it, whatever the point held before. */
  lemma MergedMarkers(arrange: Arrangement, before: Payload, source: Json, id: string, index: string, seen: Properties,
                      field: string)
    requires Arranges(arrange) && !IsLegacy(seen)
    ensures var after := before + DocumentPayload(arrange, source, id, index, seen);
            && "_source" in after && after["_source"] == source
            && (Marked(after, NumberMarker(field)) <==>
                  field in seen && Markable(field) && NumberFieldSafe(seen[field], Get(source, field)))
            && (Marked(after, KeywordMarker(field)) <==>
                  field in seen && Markable(field) && KeywordFieldSafe(seen[field], Get(source, field)))
            && (Markable(field) && field in seen && IsPayloadField(seen[field]) ==>
                  GetField(after, field) == if Get(source, field).Some? then Get(source, field) else GetField(before, field))
  {
    var added := DocumentPayload(arrange, source, id, index, seen);
    var after := before + added;
    assert MARKERS in added && "_source" in added;
    assert after[MARKERS] == added[MARKERS];
    assert Marked(added, NumberMarker(field)) == Marked(after, NumberMarker(field));
    assert Marked(added, KeywordMarker(field)) == Marked(after, KeywordMarker(field));
    ProjectedMarkers(arrange, source, id, index, seen, field);
    if Markable(field) {
      NotReserved(field);
      GetProjected(arrange, source, id, index, seen, field);
    }
  }

  /** Whatever a point held, after a set-payload write its number markers are sound and its keyword
      markers claim no more than the written source supports. */
  lemma MergedClaims(arrange: Arrangement, before: Payload, source: Json, id: string, index: string, seen: Properties,
                     properties: Properties)
    requires Arranges(arrange) && SubMapping(seen, properties) && !IsLegacy(properties)
    ensures NumbersSound(before + DocumentPayload(arrange, source, id, index, seen), properties)
    ensures KeywordsClaim(before + DocumentPayload(arrange, source, id, index, seen), properties)
  {
    var after := before + DocumentPayload(arrange, source, id, index, seen);
    MergedMarkers(arrange, before, source, id, index, seen, "");
    hide DocumentPayload, Marked;
    forall f | Marked(after, NumberMarker(f))
      ensures Markable(f) && f in properties && NumberFieldSafe(properties[f], Get(source, f)) && GetField(after, f) == Get(source, f)
    {
      MergedMarkers(arrange, before, source, id, index, seen, f);
    }
    forall f | Marked(after, KeywordMarker(f))
      ensures Markable(f) && f in properties && KeywordFieldSafe(properties[f], Get(source, f))
      ensures Get(source, f).Some? ==> GetField(after, f) == Get(source, f)
    {
      MergedMarkers(arrange, before, source, id, index, seen, f);
    }
  }

  /** The written source still has every keyword field the point holds a value for. */
  ghost predicate KeepsKeywords(before: Payload, source: Json, seen: Properties) {
    forall f :: f in seen && Markable(f) && FieldType(seen[f]) == Some("keyword") && f in before ==> Get(source, f).Some?
  }

  /** A set-payload write leaves truthful markers exactly when its source has kept every markable
      keyword field the point already held. */
  lemma MergedIsSoundIff(arrange: Arrangement, before: Payload, source: Json, id: string, index: string, seen: Properties,
                         properties: Properties)
    requires Arranges(arrange) && SubMapping(seen, properties) && !IsLegacy(properties)
    ensures Sound(before + DocumentPayload(arrange, source, id, index, seen), properties)
       <==> KeepsKeywords(before, source, seen)
  {
    var after := before + DocumentPayload(arrange, source, id, index, seen);
    MergedClaims(arrange, before, source, id, index, seen, properties);
    SoundIffNothingStale(after, properties);
    MergedMarkers(arrange, before, source, id, index, seen, "");
    hide DocumentPayload, Marked;
    forall f
      ensures Marked(after, KeywordMarker(f)) && Stale(after, f)
         <==> f in seen && Markable(f) && FieldType(seen[f]) == Some("keyword") && f in before && Get(source, f).None?
    {
      MergedMarkers(arrange, before, source, id, index, seen, f);
    }
  }

  /** In particular when the older source had no key the new one lost. */
  lemma MergedIsSound(arrange: Arrangement, before: Payload, source: Json, id: string, index: string, seen: Properties,
                      properties: Properties)
    requires Arranges(arrange) && SubMapping(seen, properties) && !IsLegacy(properties)
    requires NoStaleFields(before)
    requires forall f :: Get(before["_source"], f).Some? ==> Get(source, f).Some?
    ensures Sound(before + DocumentPayload(arrange, source, id, index, seen), properties)
    ensures NoStaleFields(before + DocumentPayload(arrange, source, id, index, seen))
  {
    MergedIsSoundIff(arrange, before, source, id, index, seen, properties);
    var after := before + DocumentPayload(arrange, source, id, index, seen);
    assert forall f :: Markable(f) ==> !Reserved(f) by {
      forall f | Markable(f)
        ensures !Reserved(f)
      {
        NotReserved(f);
      }
    }
    assert "_source" in after && after["_source"] == source;
    forall f | f in after && !Reserved(f)
      ensures Get(source, f).Some?
    {
      GetProjected(arrange, source, id, index, seen, f);
    }
  }

  lemma NotReserved(f: string)
    requires Markable(f)
    ensures !Reserved(f)
  {
    assert "_es_id"[..1] == "_" && "_es_index"[..1] == "_" && "_source"[..1] == "_" && MARKERS[..1] == "_";
  }

  lemma GrowthKeepsSoundness(payload: Payload, small: Properties, large: Properties)
    requires SubMapping(small, large)
    ensures NumbersSound(payload, small) ==> NumbersSound(payload, large)
    ensures KeywordsClaim(payload, small) ==> KeywordsClaim(payload, large)
    ensures Sound(payload, small) ==> Sound(payload, large)
  {
  }
}
