/** One index's stored documents (sources embedded in the search points, writes synchronous)
    and the operations that change them. */
module Documents {
  import opened Options
  import opened Values
  import opened Sequences
  import opened Merging
  import opened Markers

  datatype Document = Document(id: string, source: Json)

  datatype Index = Index(name: string, properties: Properties, points: map<string, Payload>)

  /** `encodable`: the source's sparse vectors parse under the mapping. `textual`: a field has a
      text or sparse vector, or is `_all`. `fits`: the mapping is within the catalog's capacity. */
  datatype Config = Config(arrange: Arrangement, encodable: (Json, Properties) -> bool, textual: string -> bool,
                           fits: Properties -> bool)

  datatype Result = Created | Updated | Noop | Deleted | Acknowledged | Missing | Conflict | NotFound | Invalid

  function SourceOf(ix: Index, id: string): Option<Json> {
    if id in ix.points then GetField(ix.points[id], "_source") else None
  }

  function PointOf(ix: Index, id: string): Option<Payload> {
    if id in ix.points then Some(ix.points[id]) else None
  }

  /** Every id but one holds what it held. */
  ghost predicate OthersKept(before: Index, after: Index, id: string) {
    forall other :: other != id ==> PointOf(after, other) == PointOf(before, other)
  }

  function PayloadOf(c: Config, ix: Index, seen: Properties, d: Document): Payload {
    DocumentPayload(c.arrange, d.source, d.id, ix.name, seen)
  }

  // ---------------------------------------------------------------- specification

  /** Upserts replace whole payloads; of repeated ids the last stays. */
  function UpsertAll(c: Config, ix: Index, seen: Properties, docs: seq<Document>): Index
    decreases |docs|
  {
    if docs == [] then ix
    else
      var front, d := UpsertAll(c, ix, seen, docs[..|docs| - 1]), docs[|docs| - 1];
      front.(points := front.points[d.id := PayloadOf(c, ix, seen, d)])
  }

  function WriteDocs(c: Config, ix: Index, seen: Properties, docs: seq<Document>): (Index, Result) {
    if exists d :: d in docs && !c.encodable(d.source, seen) then (ix, Invalid)
    else (UpsertAll(c, ix, seen, docs), Created)
  }

  /** The status comes from a look before the write. */
  function WriteDoc(c: Config, ix: Index, seen: Properties, d: Document): (Index, Result) {
    var existed := SourceOf(ix, d.id).Some?;
    var (after, r) := WriteDocs(c, ix, seen, [d]);
    (after, if r.Invalid? then Invalid else if existed then Updated else Created)
  }

  function CreateDoc(c: Config, ix: Index, seen: Properties, d: Document): (Index, Result) {
    if SourceOf(ix, d.id).Some? then (ix, Conflict) else WriteDocs(c, ix, seen, [d])
  }

  function DeleteDoc(ix: Index, id: string): (Index, Result) {
    if SourceOf(ix, id).None? then (ix, Missing) else (ix.(points := ix.points - {id}), Deleted)
  }

  function Truth(v: Option<Json>, default: bool): bool {
    match v case Some(Bool(b)) => b case _ => default
  }

  predicate UpdateAccepted(body: Json) {
    && Get(body, "script").None?
    && Get(body, "doc").Some? && Get(body, "doc").value.Obj?
    && (Get(body, "upsert").Some? ==> Get(body, "upsert").value.Obj?)
    && (Get(body, "detect_noop").Some? ==> Get(body, "detect_noop").value.Bool?)
  }

  predicate ChangesText(c: Config, doc: Json) {
    doc.Obj? && exists field :: field in doc.fields && c.textual(field)
  }

  /** The backend's set-payload merges top-level keys and removes none. */
  function SetPayload(c: Config, ix: Index, seen: Properties, d: Document): Index {
    if d.id in ix.points then ix.(points := ix.points[d.id := ix.points[d.id] + PayloadOf(c, ix, seen, d)]) else ix
  }

  /** The writing half of an update, after its read returned `read`; nothing ties `read` to what
      is stored by then. */
  function UpdateWith(c: Config, ix: Index, seen: Properties, id: string, body: Json, read: Option<Json>): (Index, Result) {
    if !UpdateAccepted(body) then (ix, Invalid)
    else
      var doc := Get(body, "doc").value;
      match read
      case None =>
        if Truth(Get(body, "doc_as_upsert"), false) then WriteDocs(c, ix, seen, [Document(id, doc)])
        else if Get(body, "upsert").Some? then WriteDocs(c, ix, seen, [Document(id, Get(body, "upsert").value)])
        else (ix, NotFound)
      case Some(source) =>
        var merged := Merge(source, doc);
        if Truth(Get(body, "detect_noop"), true) && merged == source then (ix, Noop)
        else if ChangesText(c, doc) then WriteDoc(c, ix, seen, Document(id, merged))
        else (SetPayload(c, ix, seen, Document(id, merged)), Updated)
  }

  /** An update with no other write between its read and its write. */
  function UpdateDoc(c: Config, ix: Index, seen: Properties, id: string, body: Json): (Index, Result) {
    UpdateWith(c, ix, seen, id, body, SourceOf(ix, id))
  }

  function MappingUpdate(body: Json): Json {
    match Get(body, "mappings") case Some(update) => update case None => body
  }

  predicate FieldAddable(properties: Properties, field: string, spec: Json) {
    FieldType(spec).Some? && if field in properties then properties[field] == spec else IsPayloadField(spec)
  }

  predicate MappingAccepted(c: Config, properties: Properties, update: Json) {
    && update.Obj? && update.fields.Keys <= {"properties"}
    && ("properties" in update.fields ==>
          var added := update.fields["properties"];
          && Get(added, MARKERS).None? && added.Obj?
          && (forall field :: field in added.fields ==> FieldAddable(properties, field, added.fields[field]))
          && c.fits(properties + added.fields))
  }

  /** A mapping update adds fields or is refused whole. */
  function PutMapping(c: Config, ix: Index, body: Json): (Index, Result) {
    var update := MappingUpdate(body);
    if !MappingAccepted(c, ix.properties, update) then (ix, Invalid)
    else if "properties" !in update.fields then (ix, Acknowledged)
    else (ix.(properties := ix.properties + update.fields["properties"].fields), Acknowledged)
  }

  lemma OneWritten(c: Config, ix: Index, seen: Properties, d: Document)
    ensures OthersKept(ix, UpsertAll(c, ix, seen, [d]), d.id)
    ensures SourceOf(UpsertAll(c, ix, seen, [d]), d.id) == Some(d.source)
    ensures d in [d]
  {
    assert [d][..0] == [] && UpsertAll(c, ix, seen, []) == ix;
  }

  lemma PayloadIs(c: Config, ix: Index, seen: Properties, d: Document, payload: Payload)
    requires payload == Projection(c.arrange, d.source, d.id, ix.name, seen)
    ensures payload["_source" := d.source] == PayloadOf(c, ix, seen, d)
  {
  }

  // ---------------------------------------------------------------- the store

  method AddFields(properties: Properties, added: Properties) returns (ok: bool, merged: Properties)
    ensures ok <==> forall f :: f in added ==> FieldAddable(properties, f, added[f])
    ensures ok ==> merged == properties + added
  {
    hide FieldType, IsPayloadField;
    merged := properties;
    var pending := added.Keys;
    while pending != {}
      invariant pending <= added.Keys
      invariant forall f :: f in added && f !in pending ==> FieldAddable(properties, f, added[f])
      invariant forall f :: f in merged <==> f in properties || (f in added && f !in pending)
      invariant forall f :: f in merged ==> merged[f] == if f in properties then properties[f] else added[f]
      decreases |pending|
    {
      var field :| field in pending;
      var spec := added[field];
      if FieldType(spec).None? || (if field in merged then merged[field] != spec else !IsPayloadField(spec)) {
        assert !FieldAddable(properties, field, spec);
        return false, merged;
      }
      if field !in merged {
        merged := merged[field := spec];
      }
      pending := pending - {field};
    }
    assert merged == properties + added;
    ok := true;
  }

  class DocumentStore {
    const config: Config
    const name: string
    var properties: Properties
    var points: map<string, Payload>

    constructor (config: Config, name: string, properties: Properties)
      ensures State() == Index(name, properties, map[]) && this.config == config
    {
      this.config, this.name, this.properties, this.points := config, name, properties, map[];
    }

    function State(): Index
      reads this
    {
      Index(name, properties, points)
    }

    method Upsert(prepared: seq<(string, Payload)>, ghost docs: seq<Document>)
      requires |prepared| == |docs|
      requires forall k :: 0 <= k < |docs| ==> prepared[k] == (docs[k].id, PayloadOf(config, State(), properties, docs[k]))
      modifies this`points
      ensures State() == UpsertAll(config, old(State()), old(properties), docs)
    {
      for k := 0 to |prepared|
        invariant properties == old(properties)
        invariant State() == UpsertAll(config, old(State()), properties, docs[..k])
      {
        assert docs[..k + 1][..k] == docs[..k];
        points := points[prepared[k].0 := prepared[k].1];
      }
      assert docs[..|docs|] == docs;
    }

    /** Every document is encoded before anything is written. */
    method WriteDocuments(docs: seq<Document>) returns (r: Result)
      requires Arranges(config.arrange)
      modifies this`points
      ensures (State(), r) == WriteDocs(config, old(State()), old(properties), docs)
      ensures r.Invalid? <==> exists d :: d in docs && !config.encodable(d.source, properties)
      ensures r.Invalid? ==> State() == old(State())
      ensures !r.Invalid? ==> ReadBack(old(State()), State(), docs)
    {
      var prepared: seq<(string, Payload)> := [];
      for k := 0 to |docs|
        invariant |prepared| == k
        invariant forall j :: 0 <= j < k ==> config.encodable(docs[j].source, properties)
        invariant forall j :: 0 <= j < k ==> prepared[j] == (docs[j].id, PayloadOf(config, State(), properties, docs[j]))
        invariant points == old(points)
      {
        if !config.encodable(docs[k].source, properties) {
          return Invalid;
        }
        var payload := ProjectedSearchPayload(config.arrange, docs[k].source, docs[k].id, name, properties);
        prepared := prepared + [(docs[k].id, payload["_source" := docs[k].source])];
      }
      Upsert(prepared, docs);
      UpsertReadsBack(config, old(State()), properties, docs);
      r := Created;
    }

    method WriteDocument(d: Document) returns (r: Result)
      requires Arranges(config.arrange)
      modifies this`points
      ensures (State(), r) == WriteDoc(config, old(State()), old(properties), d)
      ensures r.Invalid? <==> !config.encodable(d.source, properties)
      ensures r.Invalid? ==> State() == old(State())
      ensures !r.Invalid? ==> SourceOf(State(), d.id) == Some(d.source)
      ensures !r.Invalid? ==> r == if SourceOf(old(State()), d.id).Some? then Updated else Created
      ensures OthersKept(old(State()), State(), d.id)
    {
      var existed := SourceOf(State(), d.id).Some?;
      r := WriteDocuments([d]);
      OneWritten(config, old(State()), properties, d);
      if !r.Invalid? {
        r := if existed then Updated else Created;
      }
    }

    method CreateDocument(d: Document) returns (r: Result)
      requires Arranges(config.arrange)
      modifies this`points
      ensures (State(), r) == CreateDoc(config, old(State()), old(properties), d)
      ensures r.Conflict? <==> SourceOf(old(State()), d.id).Some?
      ensures r.Created? <==> SourceOf(old(State()), d.id).None? && config.encodable(d.source, properties)
      ensures !r.Created? ==> State() == old(State())
      ensures r.Created? ==> SourceOf(State(), d.id) == Some(d.source)
      ensures OthersKept(old(State()), State(), d.id)
    {
      if SourceOf(State(), d.id).Some? {
        return Conflict;
      }
      r := WriteDocuments([d]);
      OneWritten(config, old(State()), properties, d);
    }

    method DeleteDocument(id: string) returns (r: Result)
      modifies this`points
      ensures (State(), r) == DeleteDoc(old(State()), id)
      ensures r == if SourceOf(old(State()), id).Some? then Deleted else Missing
      ensures r.Missing? ==> State() == old(State())
      ensures SourceOf(State(), id).None?
      ensures OthersKept(old(State()), State(), id)
    {
      if SourceOf(State(), id).None? {
        return Missing;
      }
      points := points - {id};
      r := Deleted;
    }

    /** The first half of an update: the stored source, if any. */
    method ReadForUpdate(id: string) returns (read: Option<Json>)
      ensures read == SourceOf(State(), id)
    {
      read := SourceOf(State(), id);
    }

    /** The second half, whatever has been written since the read: what an accepted change leaves is
        the merge of what was read, on every path that stores something. */
    method FinishUpdate(id: string, body: Json, read: Option<Json>) returns (r: Result)
      requires Arranges(config.arrange)
      modifies this`points
      ensures (State(), r) == UpdateWith(config, old(State()), old(properties), id, body, read)
      ensures OthersKept(old(State()), State(), id)
      ensures r in {Invalid, Noop, NotFound} ==> State() == old(State())
      ensures UpdateAccepted(body) && read.Some? ==>
                (r.Noop? <==> Truth(Get(body, "detect_noop"), true) && Contains(read.value, Get(body, "doc").value))
      ensures UpdateAccepted(body) && read.Some? && r !in {Invalid, Noop} && SourceOf(State(), id).Some? ==>
                SourceOf(State(), id) == Some(Merge(read.value, Get(body, "doc").value))
      ensures Refused(body) ==> r.Invalid?
      ensures !Refused(body) && read.None? ==> Starts(old(State()), State(), r, config, id, body)
      ensures !Refused(body) && read.Some? ==> StatusIs(old(State()), r, config, id, read.value, body.fields)
    {
      AcceptedIff(body);
      if !Refused(body) {
        AbsentStarts(config, State(), properties, id, body);
        if read.Some? {
          FoundAnswers(config, State(), properties, id, body, read.value);
        }
      }
      hide StatusIs;
      hide Refused, Starts, UpdateAccepted;
      hide Merge, Contains, WriteDocs, DocumentPayload, UpsertAll;
      if !UpdateAccepted(body) {
        return Invalid;
      }
      var doc := Get(body, "doc").value;
      if read.None? {
        if Truth(Get(body, "doc_as_upsert"), false) {
          r := WriteCreated(Document(id, doc));
        } else if Get(body, "upsert").Some? {
          r := WriteCreated(Document(id, Get(body, "upsert").value));
        } else {
          r := NotFound;
        }
        return;
      }
      UnchangedIff(read.value, doc);
      var merged, changed := MergePartialDocument(read.value, doc);
      if Truth(Get(body, "detect_noop"), true) && !changed {
        return Noop;
      }
      if ChangesText(config, doc) {
        r := WriteDocument(Document(id, merged));
        return;
      }
      var payload := ProjectedSearchPayload(config.arrange, merged, id, name, properties);
      PayloadIs(config, State(), properties, Document(id, merged), payload);
      if id in points {
        points := points[id := points[id] + payload["_source" := merged]];
      }
      r := Updated;
    }

    method WriteCreated(d: Document) returns (r: Result)
      requires Arranges(config.arrange)
      modifies this`points
      ensures (State(), r) == WriteDocs(config, old(State()), old(properties), [d])
      ensures r.Invalid? || r.Created?
      ensures r.Invalid? ==> State() == old(State())
      ensures OthersKept(old(State()), State(), d.id)
    {
      r := WriteDocuments([d]);
      OneWritten(config, old(State()), properties, d);
    }

    method UpdateMapping(body: Json) returns (r: Result)
      modifies this`properties
      ensures (State(), r) == PutMapping(config, old(State()), body)
    {
      var update := MappingUpdate(body);
      if !update.Obj? || !(update.fields.Keys <= {"properties"}) {
        return Invalid;
      }
      if "properties" !in update.fields {
        return Acknowledged;
      }
      var added := update.fields["properties"];
      if Get(added, MARKERS).Some? || !added.Obj? {
        return Invalid;
      }
      var ok, merged := AddFields(properties, added.fields);
      if !ok {
        return Invalid;
      }
      if !config.fits(merged) {
        return Invalid;
      }
      properties := merged;
      r := Acknowledged;
    }
  }

  // ---------------------------------------------------------------- every reachable store

  /** Indices whose mapping still has the legacy field carry no trusted markers. */
  ghost predicate StoreSound(ix: Index) {
    !IsLegacy(ix.properties) ==>
      forall id :: id in ix.points ==> Sound(ix.points[id], ix.properties) && NoStaleFields(ix.points[id])
  }

  lemma {:induction false} UpsertKeepsSound(c: Config, ix: Index, seen: Properties, docs: seq<Document>)
    requires Arranges(c.arrange) && SubMapping(seen, ix.properties) && StoreSound(ix)
    ensures StoreSound(UpsertAll(c, ix, seen, docs))
    ensures UpsertAll(c, ix, seen, docs).properties == ix.properties && UpsertAll(c, ix, seen, docs).name == ix.name
    decreases |docs|
  {
    if docs != [] {
      var d := docs[|docs| - 1];
      UpsertKeepsSound(c, ix, seen, docs[..|docs| - 1]);
      if !IsLegacy(ix.properties) {
        WrittenIsSound(c.arrange, d.source, d.id, ix.name, seen, ix.properties);
      }
    }
  }

  lemma WriteKeepsSound(c: Config, ix: Index, seen: Properties, docs: seq<Document>)
    requires Arranges(c.arrange) && SubMapping(seen, ix.properties) && StoreSound(ix)
    ensures StoreSound(WriteDocs(c, ix, seen, docs).0)
  {
    UpsertKeepsSound(c, ix, seen, docs);
  }

  lemma SetPayloadKeepsSound(c: Config, ix: Index, seen: Properties, id: string, doc: Json)
    requires Arranges(c.arrange) && SubMapping(seen, ix.properties) && StoreSound(ix)
    requires SourceOf(ix, id).Some? && doc.Obj?
    ensures StoreSound(SetPayload(c, ix, seen, Document(id, Merge(SourceOf(ix, id).value, doc))))
  {
    if !IsLegacy(ix.properties) {
      var before := ix.points[id];
      var merged := Merge(before["_source"], doc);
      MergeKeepsKeys(before["_source"], doc);
      MergedIsSound(c.arrange, before, merged, id, ix.name, seen, ix.properties);
    }
  }

  lemma UpdateKeepsSound(c: Config, ix: Index, seen: Properties, id: string, body: Json)
    requires Arranges(c.arrange) && SubMapping(seen, ix.properties) && StoreSound(ix)
    ensures StoreSound(UpdateDoc(c, ix, seen, id, body).0)
  {
    hide StoreSound, WriteDocs, SetPayload, Merge, SubMapping, Arranges;
    if UpdateAccepted(body) {
      var doc := Get(body, "doc").value;
      match SourceOf(ix, id) {
        case None =>
          WriteKeepsSound(c, ix, seen, [Document(id, doc)]);
          if Get(body, "upsert").Some? {
            WriteKeepsSound(c, ix, seen, [Document(id, Get(body, "upsert").value)]);
          }
        case Some(source) =>
          WriteKeepsSound(c, ix, seen, [Document(id, Merge(source, doc))]);
          SetPayloadKeepsSound(c, ix, seen, id, doc);
      }
    }
  }

  /** A mapping update only adds fields, never the reserved one. */
  lemma MappingOnlyGrows(c: Config, ix: Index, body: Json)
    ensures var after := PutMapping(c, ix, body).0;
            && SubMapping(ix.properties, after.properties)
            && (IsLegacy(after.properties) <==> IsLegacy(ix.properties))
            && after.points == ix.points && after.name == ix.name
  {
  }

  function UnderMappings(body: map<string, Json>): Json {
    if "mappings" in body then body["mappings"] else Obj(body)
  }

  /** A field is declared by a string type; a new one by neither `text` nor `sparse_vector`, an old one as
      it was. */
  ghost predicate MayDeclare(properties: Properties, field: string, spec: Json) {
    && spec.Obj? && "type" in spec.fields && spec.fields["type"].Str?
    && (field in properties ==> properties[field] == spec)
    && (field !in properties ==> spec.fields["type"].s !in {"text", "sparse_vector"})
  }

  /** The update names nothing but `properties`, without the reserved name, each one allowed, and the
      whole fits. */
  ghost predicate MayAdd(c: Config, properties: Properties, update: Json) {
    && update.Obj? && (forall key :: key in update.fields ==> key == "properties")
    && ("properties" in update.fields ==>
          && update.fields["properties"].Obj? && "_qeg_fast_fields" !in update.fields["properties"].fields
          && (forall f :: f in update.fields["properties"].fields ==> MayDeclare(properties, f, update.fields["properties"].fields[f]))
          && c.fits(properties + update.fields["properties"].fields))
  }

  /** A mapping update that may be added is added, and any other changes nothing. */
  lemma MappingAdds(c: Config, ix: Index, body: map<string, Json>)
    ensures var ((after, r), update) := (PutMapping(c, ix, Obj(body)), UnderMappings(body));
            && after.name == ix.name && after.points == ix.points
            && if MayAdd(c, ix.properties, update) then
                 r == Acknowledged
                 && after.properties == if "properties" in update.fields then ix.properties + update.fields["properties"].fields else ix.properties
               else r == Invalid && after == ix
  {
    var update := UnderMappings(body);
    assert MappingUpdate(Obj(body)) == update;
    if update.Obj? {
      assert update.fields.Keys <= {"properties"} <==> forall key :: key in update.fields ==> key == "properties";
      if "properties" in update.fields && update.fields["properties"].Obj? {
        forall f | f in update.fields["properties"].fields
          ensures FieldAddable(ix.properties, f, update.fields["properties"].fields[f])
             <==> MayDeclare(ix.properties, f, update.fields["properties"].fields[f])
        {
        }
      }
    }
    hide FieldAddable, MayDeclare;
  }

  lemma MappingKeepsSound(c: Config, ix: Index, body: Json)
    requires StoreSound(ix)
    ensures StoreSound(PutMapping(c, ix, body).0)
  {
    MappingOnlyGrows(c, ix, body);
    var after := PutMapping(c, ix, body).0;
    forall id | id in after.points && !IsLegacy(ix.properties)
      ensures Sound(after.points[id], after.properties)
    {
      GrowthKeepsSoundness(ix.points[id], ix.properties, after.properties);
    }
  }

  // ---------------------------------------------------------------- points and their ids

  /** The mapping declares a field `_es_id` that is copied into the payload, over the id. */
  predicate CopiesId(properties: Properties) {
    "_es_id" in properties && IsPayloadField(properties["_es_id"])
  }

  /** Points carry the id they are stored under. */
  ghost predicate WellKeyed(ix: Index) {
    !CopiesId(ix.properties) && forall id :: id in ix.points ==> GetField(ix.points[id], "_es_id") == Some(Str(id))
  }

  lemma PayloadId(c: Config, ix: Index, seen: Properties, d: Document)
    requires !CopiesId(seen)
    ensures GetField(PayloadOf(c, ix, seen, d), "_es_id") == Some(Str(d.id))
  {
  }

  lemma {:induction false} UpsertKeepsIds(c: Config, ix: Index, seen: Properties, docs: seq<Document>)
    requires WellKeyed(ix) && SubMapping(seen, ix.properties)
    ensures WellKeyed(UpsertAll(c, ix, seen, docs))
    decreases |docs|
  {
    if docs != [] {
      UpsertKeepsIds(c, ix, seen, docs[..|docs| - 1]);
      PayloadId(c, ix, seen, docs[|docs| - 1]);
      UpsertFrame(c, ix, seen, docs);
    }
  }

  lemma {:induction false} UpsertFrame(c: Config, ix: Index, seen: Properties, docs: seq<Document>)
    ensures UpsertAll(c, ix, seen, docs).properties == ix.properties && UpsertAll(c, ix, seen, docs).name == ix.name
    ensures forall id :: id in UpsertAll(c, ix, seen, docs).points <==> id in ix.points || exists d :: d in docs && d.id == id
    decreases |docs|
  {
    if docs != [] {
      var front, d := docs[..|docs| - 1], docs[|docs| - 1];
      UpsertFrame(c, ix, seen, front);
      assert docs == front + [d];
      assert forall e :: e in docs <==> e in front || e == d;
    }
  }

  lemma UpdateKeepsIds(c: Config, ix: Index, seen: Properties, id: string, body: Json, read: Option<Json>)
    requires WellKeyed(ix) && SubMapping(seen, ix.properties)
    ensures WellKeyed(UpdateWith(c, ix, seen, id, body, read).0)
  {
    forall source
      ensures WellKeyed(UpsertAll(c, ix, seen, [Document(id, source)])) && WellKeyed(SetPayload(c, ix, seen, Document(id, source)))
    {
      UpsertKeepsIds(c, ix, seen, [Document(id, source)]);
      SetPayloadKeepsIds(c, ix, seen, Document(id, source));
    }
    hide UpsertAll, SetPayload, WellKeyed, Merge, UpdateAccepted, ChangesText;
  }

  lemma SetPayloadKeepsIds(c: Config, ix: Index, seen: Properties, d: Document)
    requires WellKeyed(ix) && SubMapping(seen, ix.properties)
    ensures WellKeyed(SetPayload(c, ix, seen, d))
  {
    PayloadId(c, ix, seen, d);
    hide PayloadOf;
  }

  // ---------------------------------------------------------------- reading back

  /** Each written id reads back as its last document, every other id as before. */
  ghost predicate ReadBack(before: Index, after: Index, docs: seq<Document>) {
    forall id :: SourceOf(after, id) == SourceAfter(before, docs, id)
  }

  function SourceAfter(before: Index, docs: seq<Document>, id: string): Option<Json> {
    if exists d :: d in docs && d.id == id then Some(LastSource(docs, id)) else SourceOf(before, id)
  }

  lemma {:induction false} UpsertSources(c: Config, ix: Index, seen: Properties, docs: seq<Document>, id: string)
    ensures SourceOf(UpsertAll(c, ix, seen, docs), id) == SourceAfter(ix, docs, id)
    decreases |docs|
  {
    hide SourceOf, SourceAfter, PayloadOf;
    if docs == [] {
      NothingAfter(ix, id);
    } else {
      var front, d := docs[..|docs| - 1], docs[|docs| - 1];
      UpsertSources(c, ix, seen, front, id);
      assert docs == front + [d];
      SourceAfterStep(ix, front, d, id);
      OneSource(c, ix, seen, UpsertAll(c, ix, seen, front), d, id);
    }
  }

  lemma NothingAfter(ix: Index, id: string)
    ensures SourceAfter(ix, [], id) == SourceOf(ix, id)
  {
  }

  lemma SourceAfterStep(before: Index, front: seq<Document>, d: Document, id: string)
    ensures SourceAfter(before, front + [d], id) == if d.id == id then Some(d.source) else SourceAfter(before, front, id)
  {
    hide SourceOf;
    var docs := front + [d];
    assert docs[..|docs| - 1] == front;
    assert forall e :: e in docs <==> e in front || e == d;
  }

  lemma OneSource(c: Config, ix: Index, seen: Properties, before: Index, d: Document, id: string)
    ensures SourceOf(before.(points := before.points[d.id := PayloadOf(c, ix, seen, d)]), id)
         == if d.id == id then Some(d.source) else SourceOf(before, id)
  {
  }

  lemma UpsertReadsBack(c: Config, ix: Index, seen: Properties, docs: seq<Document>)
    ensures ReadBack(ix, UpsertAll(c, ix, seen, docs), docs)
  {
    forall id
      ensures SourceOf(UpsertAll(c, ix, seen, docs), id) == SourceAfter(ix, docs, id)
    {
      UpsertSources(c, ix, seen, docs, id);
    }
  }

  function LastSource(docs: seq<Document>, id: string): Json
    requires exists d :: d in docs && d.id == id
    decreases |docs|
  {
    var front, d := docs[..|docs| - 1], docs[|docs| - 1];
    assert docs == front + [d];
    if d.id == id then d.source else LastSource(front, id)
  }

  /** What an update that read `read` leaves, whatever was stored in between: the merge of what it
      read, so a write it did not see is lost; nothing, if the document was deleted meanwhile and the
      change touches no text; and never anything at another id. */
  lemma UpdateReadsBack(c: Config, ix: Index, seen: Properties, id: string, body: Json, read: Json)
    requires UpdateAccepted(body)
    ensures var (after, r) := UpdateWith(c, ix, seen, id, body, Some(read));
            var doc := Get(body, "doc").value;
            && OthersKept(ix, after, id)
            && (r.Noop? <==> Truth(Get(body, "detect_noop"), true) && Contains(read, doc))
            && (r.Noop? || r.Invalid? ==> after == ix)
            && (!r.Noop? && !r.Invalid? ==>
                  SourceOf(after, id) == if id in ix.points || ChangesText(c, doc) then Some(Merge(read, doc)) else None)
  {
    var doc := Get(body, "doc").value;
    hide Merge, Contains, UpsertAll, DocumentPayload;
    UnchangedIff(read, doc);
    OneWritten(c, ix, seen, Document(id, Merge(read, doc)));
    if id in ix.points {
      OneMerged(c, ix, seen, Document(id, Merge(read, doc)));
    }
  }

  lemma OneMerged(c: Config, ix: Index, seen: Properties, d: Document)
    requires d.id in ix.points
    ensures OthersKept(ix, SetPayload(c, ix, seen, d), d.id)
    ensures SourceOf(SetPayload(c, ix, seen, d), d.id) == Some(d.source)
  {
  }

  // ---------------------------------------------------------------- updates of what is not there

  /** A script, no object to merge, an `upsert` that is no object, or a `detect_noop` that is no boolean. */
  ghost predicate Refused(body: Json) {
    || !body.Obj? || "script" in body.fields
    || "doc" !in body.fields || !body.fields["doc"].Obj?
    || ("upsert" in body.fields && !body.fields["upsert"].Obj?)
    || ("detect_noop" in body.fields && body.fields["detect_noop"] != Bool(true) && body.fields["detect_noop"] != Bool(false))
  }

  lemma AcceptedIff(body: Json)
    ensures UpdateAccepted(body) <==> !Refused(body)
  {
  }

  /** An update that found nothing writes `doc` if told to, else the `upsert` it brings, else nothing. */
  ghost predicate Starts(before: Index, after: Index, r: Result, c: Config, id: string, body: Json)
    requires !Refused(body)
  {
    if "doc_as_upsert" in body.fields && body.fields["doc_as_upsert"] == Bool(true) then
      Begins(before, after, r, c, id, body.fields["doc"])
    else if "upsert" in body.fields then
      Begins(before, after, r, c, id, body.fields["upsert"])
    else r == NotFound && after == before
  }

  /** An update that found a source: a no-op unless it changes something, refused where the changed text
      does not encode, and created rather than updated only where it writes text over nothing. */
  ghost predicate StatusIs(before: Index, r: Result, c: Config, id: string, read: Json, body: map<string, Json>)
    requires "doc" in body
  {
    var doc, merged := body["doc"], Merge(read, body["doc"]);
    var texts := doc.Obj? && exists field :: field in doc.fields && c.textual(field);
    if merged == read && !("detect_noop" in body && body["detect_noop"] == Bool(false)) then r == Noop
    else if !texts then r == Updated
    else if !c.encodable(merged, before.properties) then r == Invalid
    else r == if SourceOf(before, id).Some? then Updated else Created
  }

  lemma FoundAnswers(c: Config, ix: Index, seen: Properties, id: string, body: Json, read: Json)
    requires !Refused(body) && seen == ix.properties
    ensures StatusIs(ix, UpdateWith(c, ix, seen, id, body, Some(read)).1, c, id, read, body.fields)
  {
    AcceptedIff(body);
    hide UpdateAccepted, UpsertAll, Merge, SetPayload;
  }

  /** What a point holds then: the projection of its own source alone after a full write, and over what it
      held after an update that changes no text. */
  lemma PointsWritten(c: Config, ix: Index, seen: Properties, d: Document, body: Json, read: Json)
    requires !Refused(body)
    ensures c.encodable(d.source, seen) ==>
              PointOf(WriteDocs(c, ix, seen, [d]).0, d.id) == Some(DocumentPayload(c.arrange, d.source, d.id, ix.name, seen))
    ensures var (after, r) := UpdateWith(c, ix, seen, d.id, body, Some(read));
            var doc := body.fields["doc"];
            var payload := DocumentPayload(c.arrange, Merge(read, doc), d.id, ix.name, seen);
            r !in {Noop, Invalid} ==>
              PointOf(after, d.id) ==
              if exists field :: field in doc.fields && c.textual(field) then Some(payload)
              else if d.id in ix.points then Some(ix.points[d.id] + payload) else None
  {
    AcceptedIff(body);
    var doc := body.fields["doc"];
    assert Get(body, "doc") == Some(doc);
    hide UpdateAccepted, Merge, DocumentPayload, UpsertAll;
    OnePoint(c, ix, seen, d);
    OnePoint(c, ix, seen, Document(d.id, Merge(read, doc)));
  }

  lemma OnePoint(c: Config, ix: Index, seen: Properties, d: Document)
    ensures PointOf(UpsertAll(c, ix, seen, [d]), d.id) == Some(PayloadOf(c, ix, seen, d)) && d in [d]
  {
    assert [d][..0] == [] && UpsertAll(c, ix, seen, []) == ix;
  }

  /** The id reads back as the source, if that encodes. */
  ghost predicate Begins(before: Index, after: Index, r: Result, c: Config, id: string, source: Json) {
    if c.encodable(source, before.properties) then r == Created && SourceOf(after, id) == Some(source)
    else r == Invalid && after == before
  }

  lemma AbsentStarts(c: Config, ix: Index, seen: Properties, id: string, body: Json)
    requires !Refused(body) && seen == ix.properties
    ensures var (after, r) := UpdateWith(c, ix, seen, id, body, None); Starts(ix, after, r, c, id, body)
  {
    AcceptedIff(body);
    hide UpdateAccepted, UpsertAll;
    forall source
      ensures var (after, r) := WriteDocs(c, ix, seen, [Document(id, source)]); Begins(ix, after, r, c, id, source)
    {
      OneWritten(c, ix, seen, Document(id, source));
    }
    hide WriteDocs;
  }

  /** Sent again over what it left, the same update is a no-op. */
  lemma UpdateTwice(c: Config, ix: Index, seen: Properties, id: string, body: Json, read: Json)
    requires UpdateAccepted(body) && Truth(Get(body, "detect_noop"), true)
    requires var (after, r) := UpdateWith(c, ix, seen, id, body, Some(read));
             r.Updated? && SourceOf(after, id).Some?
    ensures var after := UpdateWith(c, ix, seen, id, body, Some(read)).0;
            UpdateDoc(c, after, seen, id, body) == (after, Noop)
  {
    UpdateReadsBack(c, ix, seen, id, body, read);
    MergeTwice(read, Get(body, "doc").value);
    hide Merge, Contains, SetPayload, WriteDoc;
  }
}
