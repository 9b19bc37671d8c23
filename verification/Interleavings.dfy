/** Document operations of many requests on one index, interleaved: an update reads, and writes at any
    later time what it merged into its own reading. The looks that writes, creations and deletions
    take first decide statuses and whether anything is sent, so the write alone is an event here. */
module Interleavings {
  import opened Options
  import opened Values
  import opened Sequences
  import opened Merging
  import opened Markers
  import opened Documents

  /** An update between its read and its write. */
  datatype Flight = Flight(id: string, body: Json, read: Option<Json>)

  datatype Store = Store(index: Index, flights: map<nat, Flight>)

  datatype Event =
    | Write(docs: seq<Document>)
    | Remove(id: string)
    | ExtendMapping(body: Json)
    | StartUpdate(ticket: nat, id: string, body: Json)
    | LandUpdate(ticket: nat)

  /** `seen` is the mapping the operation read, which later additions may have outdated. */
  function Next(c: Config, s: Store, seen: Properties, ev: Event): Store {
    match ev
    case Write(docs) => s.(index := WriteDocs(c, s.index, seen, docs).0)
    case Remove(id) => s.(index := s.index.(points := s.index.points - {id}))
    case ExtendMapping(body) => s.(index := PutMapping(c, s.index, body).0)
    case StartUpdate(ticket, id, body) => s.(flights := s.flights[ticket := Flight(id, body, SourceOf(s.index, id))])
    case LandUpdate(ticket) =>
      if ticket !in s.flights then s
      else
        var f := s.flights[ticket];
        Store(UpdateWith(c, s.index, seen, f.id, f.body, f.read).0, s.flights - {ticket})
  }

  ghost predicate IsRun(c: Config, run: seq<Store>, seen: seq<Properties>, evs: seq<Event>) {
    && |run| == |evs| + 1 && |seen| == |evs|
    && run[0].index.points == map[] && run[0].flights == map[]
    && forall k :: 0 <= k < |evs| ==>
         SubMapping(seen[k], run[k].index.properties) && run[k + 1] == Next(c, run[k], seen[k], evs[k])
  }

  /** With nothing in between, an update's two halves are the update. */
  lemma UndisturbedUpdate(c: Config, s: Store, seen: Properties, ticket: nat, id: string, body: Json)
    requires ticket !in s.flights
    ensures var between := Next(c, s, seen, StartUpdate(ticket, id, body));
            && between.index == s.index
            && Next(c, between, seen, LandUpdate(ticket)) == s.(index := UpdateDoc(c, s.index, seen, id, body).0)
  {
    hide UpdateWith;
    assert s.flights[ticket := Flight(id, body, SourceOf(s.index, id))] - {ticket} == s.flights;
  }

  /** A removal is a deletion, whether or not there is something to delete, and like a write or a mapping
      update leaves updates in flight alone. */
  lemma RemovalDeletes(c: Config, s: Store, seen: Properties, id: string)
    ensures var after := Next(c, s, seen, Remove(id));
            && SourceOf(after.index, id).None? && OthersKept(s.index, after.index, id) && after.flights == s.flights
            && (SourceOf(s.index, id).Some? ==> after.index == DeleteDoc(s.index, id).0)
            && (id !in s.index.points ==> after == s)
  {
    assert id !in s.index.points ==> s.index.points - {id} == s.index.points;
  }

  // ---------------------------------------------------------------- what holds in every interleaving

  /** Indices whose mapping still has the legacy field carry no trusted markers. */
  ghost predicate ClaimsHold(ix: Index) {
    !IsLegacy(ix.properties) ==>
      forall id :: id in ix.points ==> NumbersSound(ix.points[id], ix.properties) && KeywordsClaim(ix.points[id], ix.properties)
  }

  lemma WrittenClaims(c: Config, ix: Index, seen: Properties, d: Document)
    requires Arranges(c.arrange) && SubMapping(seen, ix.properties) && !IsLegacy(ix.properties)
    ensures NumbersSound(PayloadOf(c, ix, seen, d), ix.properties) && KeywordsClaim(PayloadOf(c, ix, seen, d), ix.properties)
  {
    MergedClaims(c.arrange, map[], d.source, d.id, ix.name, seen, ix.properties);
    assert map[] + PayloadOf(c, ix, seen, d) == PayloadOf(c, ix, seen, d);
  }

  lemma OneMoreClaims(ix: Index, id: string, p: Payload)
    requires ClaimsHold(ix)
    requires !IsLegacy(ix.properties) ==> NumbersSound(p, ix.properties) && KeywordsClaim(p, ix.properties)
    ensures ClaimsHold(ix.(points := ix.points[id := p]))
  {
    hide NumbersSound, KeywordsClaim;
  }

  lemma {:induction false} UpsertKeepsClaims(c: Config, ix: Index, seen: Properties, docs: seq<Document>)
    requires Arranges(c.arrange) && SubMapping(seen, ix.properties) && ClaimsHold(ix)
    ensures ClaimsHold(UpsertAll(c, ix, seen, docs))
    decreases |docs|
  {
    if docs != [] {
      var d := docs[|docs| - 1];
      hide ClaimsHold, PayloadOf, SubMapping, NumbersSound, KeywordsClaim;
      UpsertKeepsClaims(c, ix, seen, docs[..|docs| - 1]);
      UpsertFrame(c, ix, seen, docs[..|docs| - 1]);
      if !IsLegacy(ix.properties) {
        WrittenClaims(c, ix, seen, d);
      }
      OneMoreClaims(UpsertAll(c, ix, seen, docs[..|docs| - 1]), d.id, PayloadOf(c, ix, seen, d));
    }
  }

  lemma SetPayloadKeepsClaims(c: Config, ix: Index, seen: Properties, d: Document)
    requires Arranges(c.arrange) && SubMapping(seen, ix.properties) && ClaimsHold(ix)
    ensures ClaimsHold(SetPayload(c, ix, seen, d))
  {
    if !IsLegacy(ix.properties) && d.id in ix.points {
      MergedClaims(c.arrange, ix.points[d.id], d.source, d.id, ix.name, seen, ix.properties);
    }
  }

  lemma UpdateKeepsClaims(c: Config, ix: Index, seen: Properties, id: string, body: Json, read: Option<Json>)
    requires Arranges(c.arrange) && SubMapping(seen, ix.properties) && ClaimsHold(ix)
    ensures ClaimsHold(UpdateWith(c, ix, seen, id, body, read).0)
  {
    forall source
      ensures ClaimsHold(UpsertAll(c, ix, seen, [Document(id, source)]))
      ensures ClaimsHold(SetPayload(c, ix, seen, Document(id, source)))
    {
      UpsertKeepsClaims(c, ix, seen, [Document(id, source)]);
      SetPayloadKeepsClaims(c, ix, seen, Document(id, source));
    }
    hide UpsertAll, SetPayload, Merge, ClaimsHold;
  }

  lemma NextKeepsClaims(c: Config, s: Store, seen: Properties, ev: Event)
    requires Arranges(c.arrange) && SubMapping(seen, s.index.properties) && ClaimsHold(s.index)
    ensures ClaimsHold(Next(c, s, seen, ev).index)
  {
    match ev {
      case Write(docs) => UpsertKeepsClaims(c, s.index, seen, docs);
      case Remove(id) =>
      case StartUpdate(_, _, _) =>
      case ExtendMapping(body) =>
        MappingOnlyGrows(c, s.index, body);
        var after := PutMapping(c, s.index, body).0;
        forall id | id in after.points
          ensures NumbersSound(s.index.points[id], s.index.properties) ==> NumbersSound(after.points[id], after.properties)
          ensures KeywordsClaim(s.index.points[id], s.index.properties) ==> KeywordsClaim(after.points[id], after.properties)
        {
          GrowthKeepsSoundness(s.index.points[id], s.index.properties, after.properties);
        }
      case LandUpdate(ticket) =>
        if ticket in s.flights {
          var f := s.flights[ticket];
          UpdateKeepsClaims(c, s.index, seen, f.id, f.body, f.read);
        }
    }
  }

  /** In every interleaving number markers tell the truth, and keyword markers do so wherever the
      document has the field. */
  lemma {:induction false} ClaimsAlwaysHold(c: Config, run: seq<Store>, seen: seq<Properties>, evs: seq<Event>, k: nat)
    requires Arranges(c.arrange) && IsRun(c, run, seen, evs) && k < |run|
    ensures ClaimsHold(run[k].index)
  {
    if k > 0 {
      ClaimsAlwaysHold(c, run, seen, evs, k - 1);
      NextKeepsClaims(c, run[k - 1], seen[k - 1], evs[k - 1]);
    }
  }

  ghost predicate PointsSound(ix: Index) {
    forall id :: id in ix.points ==> Sound(ix.points[id], ix.properties)
  }

  ghost predicate NothingStale(ix: Index)
    requires forall id :: id in ix.points ==> "_source" in ix.points[id]
  {
    forall id, f :: id in ix.points && Marked(ix.points[id], KeywordMarker(f)) ==> !Stale(ix.points[id], f)
  }

  /** So a reachable store's markers are all true exactly when no marked keyword field outlived its
      key in a document. */
  lemma ReachableSoundIff(c: Config, run: seq<Store>, seen: seq<Properties>, evs: seq<Event>, k: nat)
    requires Arranges(c.arrange) && IsRun(c, run, seen, evs) && k < |run| && !IsLegacy(run[k].index.properties)
    ensures forall id :: id in run[k].index.points ==> "_source" in run[k].index.points[id]
    ensures PointsSound(run[k].index) <==> NothingStale(run[k].index)
  {
    ClaimsAlwaysHold(c, run, seen, evs, k);
    var ix := run[k].index;
    forall id | id in ix.points
      ensures "_source" in ix.points[id]
      ensures Sound(ix.points[id], ix.properties) <==>
              forall f :: Marked(ix.points[id], KeywordMarker(f)) ==> !Stale(ix.points[id], f)
    {
      SoundIffNothingStale(ix.points[id], ix.properties);
    }
    hide Marked, Sound;
    if NothingStale(ix) {
      forall id | id in ix.points
        ensures Sound(ix.points[id], ix.properties)
      {
      }
    }
  }

  /** A landing set-payload write keeps a sound store sound exactly when what it merged still has
      every keyword field of the point it lands on. */
  lemma LandingIsSoundIff(c: Config, ix: Index, seen: Properties, d: Document)
    requires Arranges(c.arrange) && SubMapping(seen, ix.properties) && !IsLegacy(ix.properties)
    requires PointsSound(ix) && d.id in ix.points
    ensures PointsSound(SetPayload(c, ix, seen, d)) <==> KeepsKeywords(ix.points[d.id], d.source, seen)
  {
    MergedIsSoundIff(c.arrange, ix.points[d.id], d.source, d.id, ix.name, seen, ix.properties);
    var after := SetPayload(c, ix, seen, d);
    assert forall id :: id in after.points && id != d.id ==> after.points[id] == ix.points[id];
    hide Sound, KeepsKeywords;
    assert PointsSound(after) <==> Sound(after.points[d.id], ix.properties);
  }

  // ---------------------------------------------------------------- the update that was not seen

  function OneField(field: string, value: Json): Json {
    Obj(map[field := value])
  }

  /** Two updates of one empty document both read it empty; the first adds a keyword, the second
      another field. Once both have landed the source has lost the keyword, the payload has not, and
      the keyword marker says that they agree. */
  lemma UnseenUpdateLeavesStaleField(c: Config, name: string)
    returns (run: seq<Store>, seen: seq<Properties>, evs: seq<Event>)
    requires Arranges(c.arrange) && !c.textual("tag") && !c.textual("other")
    requires forall source, properties :: c.encodable(source, properties)
    ensures IsRun(c, run, seen, evs) && run[0].index.name == name
    ensures var ix := run[|run| - 1].index;
            && !IsLegacy(ix.properties) && !CopiesId(ix.properties)
            && ix.properties == map["tag" := OneField("type", Str("keyword"))]
            && ix.points.Keys == {"a"}
            && Marked(ix.points["a"], KeywordMarker("tag"))
            && GetField(ix.points["a"], "tag") == Some(Str("x"))
            && GetField(ix.points["a"], "_source") == Some(OneField("other", Int(1)))
            && !PointsSound(ix)
  {
    var properties: Properties := map["tag" := OneField("type", Str("keyword"))];
    var empty := Document("a", Obj(map[]));
    var tag, other := OneField("doc", OneField("tag", Str("x"))), OneField("doc", OneField("other", Int(1)));
    var f, g := Flight("a", tag, Some(empty.source)), Flight("a", other, Some(empty.source));
    var ix0 := Index(name, properties, map[]);
    var ix1 := ix0.(points := map["a" := PayloadOf(c, ix0, properties, empty)]);
    var ix2 := SetPayload(c, ix1, properties, Document("a", OneField("tag", Str("x"))));
    var ix3 := SetPayload(c, ix2, properties, Document("a", OneField("other", Int(1))));
    StaleAfterBoth(c, ix1, ix2, ix3);
    FirstWrite(c, ix0, properties, empty);
    MergedInto(c, ix1, properties, "tag", Str("x"));
    MergedInto(c, ix2, properties, "other", Int(1));
    PropertiesStay(c, ix1, ix2, ix3, properties);
    FirstSource(c, ix0, ix1, empty);
    hide *;
    run, seen, evs := TwoLandings(c, ix0, ix1, ix2, ix3, empty, f, g);
  }

  lemma FirstSource(c: Config, ix0: Index, ix1: Index, d: Document)
    requires ix1 == ix0.(points := map[d.id := PayloadOf(c, ix0, ix0.properties, d)])
    ensures SourceOf(ix1, d.id) == Some(d.source)
  {
  }

  /** One write, two updates that read it, and both landings one after the other. */
  lemma TwoLandings(c: Config, ix0: Index, ix1: Index, ix2: Index, ix3: Index, d: Document, f: Flight, g: Flight)
    returns (run: seq<Store>, seen: seq<Properties>, evs: seq<Event>)
    requires ix0.points == map[] && ix1 == WriteDocs(c, ix0, ix0.properties, [d]).0
    requires f.read == SourceOf(ix1, f.id) && g.read == SourceOf(ix1, g.id)
    requires ix2 == UpdateWith(c, ix1, ix0.properties, f.id, f.body, f.read).0
    requires ix3 == UpdateWith(c, ix2, ix0.properties, g.id, g.body, g.read).0
    requires ix1.properties == ix2.properties == ix3.properties == ix0.properties
    ensures IsRun(c, run, seen, evs) && run[0].index == ix0 && run[|run| - 1].index == ix3
  {
    var properties := ix0.properties;
    NextEvents(c, ix0, ix1, properties, d, map[], 0, f);
    NextEvents(c, ix0, ix1, properties, d, map[0 := f], 1, g);
    var both := map[0 := f][1 := g];
    assert both - {0} == map[1 := g] && map[1 := g] - {1} == map[] && both[0] == f;
    NextLanding(c, ix1, properties, both, 0);
    NextLanding(c, ix2, properties, map[1 := g], 1);
    run, seen, evs := [Store(ix0, map[])], [], [];
    assert IsRun(c, run, seen, evs);
    hide *;
    run, seen, evs := OneMoreEvent(c, run, seen, evs, Write([d]));
    run, seen, evs := OneMoreEvent(c, run, seen, evs, StartUpdate(0, f.id, f.body));
    run, seen, evs := OneMoreEvent(c, run, seen, evs, StartUpdate(1, g.id, g.body));
    run, seen, evs := OneMoreEvent(c, run, seen, evs, LandUpdate(0));
    run, seen, evs := OneMoreEvent(c, run, seen, evs, LandUpdate(1));
  }

  lemma OneMoreEvent(c: Config, run: seq<Store>, seen: seq<Properties>, evs: seq<Event>, ev: Event)
    returns (run': seq<Store>, seen': seq<Properties>, evs': seq<Event>)
    requires IsRun(c, run, seen, evs)
    ensures |run| > 0 && IsRun(c, run', seen', evs') && |run'| == |run| + 1 && run'[0] == run[0]
    ensures var last := run[|run| - 1]; run'[|run'| - 1] == Next(c, last, last.index.properties, ev)
  {
    hide Next;
    var last := run[|run| - 1];
    run', seen', evs' := run + [Next(c, last, last.index.properties, ev)], seen + [last.index.properties], evs + [ev];
  }

  lemma NextEvents(c: Config, ix0: Index, ix1: Index, seen: Properties, d: Document, flights: map<nat, Flight>, ticket: nat, f: Flight)
    requires ix1 == WriteDocs(c, ix0, seen, [d]).0 && f.read == SourceOf(ix1, f.id)
    ensures Next(c, Store(ix0, flights), seen, Write([d])) == Store(ix1, flights)
    ensures Next(c, Store(ix1, flights), seen, StartUpdate(ticket, f.id, f.body)) == Store(ix1, flights[ticket := f])
  {
    hide WriteDocs, SourceOf;
  }

  lemma NextLanding(c: Config, ix: Index, seen: Properties, flights: map<nat, Flight>, ticket: nat)
    requires ticket in flights
    ensures var f := flights[ticket];
            Next(c, Store(ix, flights), seen, LandUpdate(ticket))
            == Store(UpdateWith(c, ix, seen, f.id, f.body, f.read).0, flights - {ticket})
  {
    hide UpdateWith;
  }

  lemma PropertiesStay(c: Config, ix1: Index, ix2: Index, ix3: Index, seen: Properties)
    requires ix2 == SetPayload(c, ix1, seen, Document("a", OneField("tag", Str("x"))))
    requires ix3 == SetPayload(c, ix2, seen, Document("a", OneField("other", Int(1))))
    ensures ix2.properties == ix1.properties && ix3.properties == ix1.properties
  {
  }

  lemma StaleAfterBoth(c: Config, ix1: Index, ix2: Index, ix3: Index)
    requires Arranges(c.arrange) && ix1.properties == map["tag" := OneField("type", Str("keyword"))]
    requires ix1.points == map["a" := PayloadOf(c, ix1, ix1.properties, Document("a", Obj(map[])))]
    requires ix2 == SetPayload(c, ix1, ix1.properties, Document("a", OneField("tag", Str("x"))))
    requires ix3 == SetPayload(c, ix2, ix1.properties, Document("a", OneField("other", Int(1))))
    ensures !IsLegacy(ix3.properties) && !CopiesId(ix3.properties) && ix3.properties == ix1.properties
    ensures ix3.points.Keys == {"a"} && !PointsSound(ix3)
    ensures Marked(ix3.points["a"], KeywordMarker("tag"))
    ensures GetField(ix3.points["a"], "tag") == Some(Str("x"))
    ensures GetField(ix3.points["a"], "_source") == Some(OneField("other", Int(1)))
  {
    KeywordField();
    var p1, p2, p3 := ix1.points["a"], ix2.points["a"], ix3.points["a"];
    MergedMarkers(c.arrange, p1, OneField("tag", Str("x")), "a", ix1.name, ix1.properties, "tag");
    MergedMarkers(c.arrange, p2, OneField("other", Int(1)), "a", ix1.name, ix1.properties, "tag");
    assert ix2.points.Keys == {"a"} && ix3.points.Keys == {"a"};
    hide DocumentPayload, FieldType, Markable, Marked;
    assert Stale(p3, "tag");
  }

  lemma KeywordField()
    ensures Markable("tag") && !Reserved("tag")
    ensures FieldType(OneField("type", Str("keyword"))) == Some("keyword") && IsPayloadField(OneField("type", Str("keyword")))
    ensures MARKERS != "tag" && "_es_id" != "tag"
  {
    assert "_"[0] == '_' && "tag"[0] == 't' && MARKERS[0] == '_' && "_es_id"[0] == '_';
  }

  lemma FirstWrite(c: Config, ix: Index, seen: Properties, d: Document)
    requires c.encodable(d.source, seen) && ix.points == map[]
    ensures WriteDocs(c, ix, seen, [d]).0 == ix.(points := map[d.id := PayloadOf(c, ix, seen, d)])
  {
    assert [d][..0] == [] && UpsertAll(c, ix, seen, []) == ix;
  }

  /** An update that read an empty source and sets one field without text. */
  lemma MergedInto(c: Config, ix: Index, seen: Properties, field: string, value: Json)
    requires !c.textual(field)
    ensures UpdateWith(c, ix, seen, "a", OneField("doc", OneField(field, value)), Some(Obj(map[]))).0
         == SetPayload(c, ix, seen, Document("a", OneField(field, value)))
  {
    var body, doc := OneField("doc", OneField(field, value)), OneField(field, value);
    assert UpdateAccepted(body) && Get(body, "doc") == Some(doc);
    assert Merge(Obj(map[]), doc).fields == doc.fields;
    assert field in doc.fields && Merge(Obj(map[]), doc) != Obj(map[]);
  }

  // ---------------------------------------------------------------- undisturbed updates

  /** The document is still what the landing update read. */
  predicate Undisturbed(s: Store, ev: Event) {
    ev.LandUpdate? && ev.ticket in s.flights ==>
      s.flights[ev.ticket].read == SourceOf(s.index, s.flights[ev.ticket].id)
  }

  lemma UndisturbedKeepsSound(c: Config, s: Store, seen: Properties, ev: Event)
    requires Arranges(c.arrange) && SubMapping(seen, s.index.properties) && StoreSound(s.index) && Undisturbed(s, ev)
    ensures StoreSound(Next(c, s, seen, ev).index)
  {
    match ev {
      case Write(docs) => WriteKeepsSound(c, s.index, seen, docs);
      case Remove(id) =>
      case StartUpdate(_, _, _) =>
      case ExtendMapping(body) => MappingKeepsSound(c, s.index, body);
      case LandUpdate(ticket) =>
        if ticket in s.flights {
          UpdateKeepsSound(c, s.index, seen, s.flights[ticket].id, s.flights[ticket].body);
        }
    }
  }

  /** In a run whose updates land undisturbed every marker of every point tells the truth. */
  lemma {:induction false} MarkersAreSound(c: Config, run: seq<Store>, seen: seq<Properties>, evs: seq<Event>, k: nat)
    requires Arranges(c.arrange) && IsRun(c, run, seen, evs) && k < |run|
    requires forall n :: 0 <= n < k ==> Undisturbed(run[n], evs[n])
    ensures StoreSound(run[k].index)
  {
    if k > 0 {
      MarkersAreSound(c, run, seen, evs, k - 1);
      UndisturbedKeepsSound(c, run[k - 1], seen[k - 1], evs[k - 1]);
    }
  }

  // ---------------------------------------------------------------- ids

  lemma NextKeepsIds(c: Config, s: Store, seen: Properties, ev: Event)
    requires SubMapping(seen, s.index.properties) && WellKeyed(s.index) && !CopiesId(Next(c, s, seen, ev).index.properties)
    ensures WellKeyed(Next(c, s, seen, ev).index)
  {
    match ev {
      case Write(docs) => UpsertKeepsIds(c, s.index, seen, docs);
      case LandUpdate(ticket) =>
        if ticket in s.flights {
          UpdateKeepsIds(c, s.index, seen, s.flights[ticket].id, s.flights[ticket].body, s.flights[ticket].read);
        }
      case _ =>
    }
  }

  lemma NextGrows(c: Config, s: Store, seen: Properties, ev: Event)
    ensures SubMapping(s.index.properties, Next(c, s, seen, ev).index.properties)
    ensures Next(c, s, seen, ev).index.name == s.index.name
  {
    match ev {
      case Write(docs) => UpsertFrame(c, s.index, seen, docs);
      case ExtendMapping(body) => MappingOnlyGrows(c, s.index, body);
      case LandUpdate(ticket) =>
        if ticket in s.flights {
          var f := s.flights[ticket];
          UpdateFrame(c, s.index, seen, f.id, f.body, f.read);
        }
      case _ =>
    }
  }

  lemma UpdateFrame(c: Config, ix: Index, seen: Properties, id: string, body: Json, read: Option<Json>)
    ensures UpdateWith(c, ix, seen, id, body, read).0.properties == ix.properties
    ensures UpdateWith(c, ix, seen, id, body, read).0.name == ix.name
  {
    forall source
      ensures UpsertAll(c, ix, seen, [Document(id, source)]).properties == ix.properties
      ensures UpsertAll(c, ix, seen, [Document(id, source)]).name == ix.name
    {
      UpsertFrame(c, ix, seen, [Document(id, source)]);
    }
    hide UpsertAll, Merge;
  }

  /** While the mapping copies no field `_es_id`, every point carries the id it is stored under. */
  lemma {:induction false} ReachableIsKeyed(c: Config, run: seq<Store>, seen: seq<Properties>, evs: seq<Event>, k: nat)
    requires IsRun(c, run, seen, evs) && k < |run| && !CopiesId(run[k].index.properties)
    ensures WellKeyed(run[k].index)
  {
    if k > 0 {
      NextGrows(c, run[k - 1], seen[k - 1], evs[k - 1]);
      assert !CopiesId(run[k - 1].index.properties);
      ReachableIsKeyed(c, run, seen, evs, k - 1);
      NextKeepsIds(c, run[k - 1], seen[k - 1], evs[k - 1]);
    }
  }
}
