/** Bulk requests: runs of index actions are written as one batch, the rest one by one. */
module Bulk {
  import opened Options
  import opened Values
  import opened Markers
  import opened Documents
  import opened Interleavings
  import opened Catalogs
  import Merging

  datatype Action =
    | IndexAction(index: string, id: string, source: Json)
    | CreateAction(index: string, id: string, source: Json)
    | UpdateAction(index: string, id: string, source: Json)
    | DeleteAction(index: string, id: string)

  /** One response item: the action's kind and id, the index named in it, status and result. */
  datatype Item = Item(kind: string, index: string, id: string, status: nat, result: string)

  function KindName(a: Action): string {
    match a
    case IndexAction(_, _, _) => "index" case CreateAction(_, _, _) => "create"
    case UpdateAction(_, _, _) => "update" case DeleteAction(_, _) => "delete"
  }

  function Failed(a: Action, status: nat): Item {
    Item(KindName(a), a.index, a.id, status, "error")
  }

  function AllFailed(actions: seq<Action>, status: nat): seq<Item> {
    seq(|actions|, i requires 0 <= i < |actions| => Failed(actions[i], status))
  }

  function Written(name: string, id: string, existed: bool): Item {
    Item("index", name, id, if existed then 200 else 201, if existed then "updated" else "created")
  }

  // ---------------------------------------------------------------- one action at a time

  /** The ids a batch lookup finds stored: those its points carry. */
  function ExistingIds(ix: Index, ids: set<string>): set<string> {
    set id, s | id in ids && id in ix.points && s in IdsIn(ix.points[id]) :: s
  }

  function IdsIn(p: Payload): set<string> {
    match GetField(p, "_es_id") case Some(Str(s)) => {s} case _ => {}
  }

  function WithIndex(catalog: Catalog, name: string, ix: Index): Catalog {
    catalog.(indices := catalog.indices[name := ix])
  }

  function IndexOne(c: Config, catalog: Catalog, a: Action): (Catalog, Item)
    requires a.IndexAction?
  {
    match Resolve(catalog, a.index)
    case None => (catalog, Failed(a, 404))
    case Some(name) =>
      var ix := catalog.indices[name];
      if !c.encodable(a.source, ix.properties) then (catalog, Failed(a, 400))
      else (WithIndex(catalog, name, UpsertAll(c, ix, ix.properties, [Document(a.id, a.source)])),
            Written(name, a.id, a.id in ExistingIds(ix, {a.id})))
  }

  function ResultItem(a: Action, name: string, r: Result): Item {
    match r
    case Created => Item(KindName(a), name, a.id, 201, "created")
    case Updated => Item(KindName(a), name, a.id, 200, "updated")
    case Noop => Item(KindName(a), name, a.id, 200, "noop")
    case Deleted => Item(KindName(a), name, a.id, 200, "deleted")
    case Missing => Item(KindName(a), name, a.id, 404, "not_found")
    case Acknowledged => Failed(a, 400)
    case Conflict => Failed(a, 409)
    case NotFound => Failed(a, 404)
    case Invalid => Failed(a, 400)
  }

  function RunOther(c: Config, catalog: Catalog, a: Action): (Catalog, Item)
    requires !a.IndexAction?
  {
    match Resolve(catalog, a.index)
    case None => (catalog, Failed(a, 404))
    case Some(name) =>
      var ix := catalog.indices[name];
      var done := match a
        case CreateAction(_, id, source) => CreateDoc(c, ix, ix.properties, Document(id, source))
        case UpdateAction(_, id, body) => UpdateDoc(c, ix, ix.properties, id, body)
        case _ => DeleteDoc(ix, a.id);
      (WithIndex(catalog, name, done.0), ResultItem(a, name, done.1))
  }

  function RunOne(c: Config, catalog: Catalog, a: Action): (Catalog, Item) {
    if a.IndexAction? then IndexOne(c, catalog, a) else RunOther(c, catalog, a)
  }

  function RunAll(c: Config, catalog: Catalog, actions: seq<Action>): (Catalog, seq<Item>)
    decreases |actions|
  {
    if actions == [] then (catalog, [])
    else
      var (before, items) := RunAll(c, catalog, actions[..|actions| - 1]);
      var (after, item) := RunOne(c, before, actions[|actions| - 1]);
      (after, items + [item])
  }

  lemma {:induction false} RunAllAppend(c: Config, catalog: Catalog, s: seq<Action>, t: seq<Action>)
    ensures RunAll(c, catalog, s + t)
         == (RunAll(c, RunAll(c, catalog, s).0, t).0, RunAll(c, catalog, s).1 + RunAll(c, RunAll(c, catalog, s).0, t).1)
    decreases |t|
  {
    if t == [] {
      assert s + t == s && RunAll(c, catalog, s).1 + [] == RunAll(c, catalog, s).1;
    } else {
      assert (s + t)[..|s + t| - 1] == s + t[..|t| - 1];
      RunAllAppend(c, catalog, s, t[..|t| - 1]);
      var first := RunAll(c, catalog, s);
      var second := RunAll(c, first.0, t[..|t| - 1]);
      var item := RunOne(c, second.0, t[|t| - 1]).1;
      assert first.1 + (second.1 + [item]) == (first.1 + second.1) + [item];
    }
  }

  /** One item per action, in request order, of the action's kind and id. */
  lemma {:induction false} ItemsFollowActions(c: Config, catalog: Catalog, actions: seq<Action>)
    ensures |RunAll(c, catalog, actions).1| == |actions|
    ensures forall i :: 0 <= i < |actions| ==>
              RunAll(c, catalog, actions).1[i].kind == KindName(actions[i]) && RunAll(c, catalog, actions).1[i].id == actions[i].id
    decreases |actions|
  {
    if actions != [] {
      ItemsFollowActions(c, catalog, actions[..|actions| - 1]);
      OneItem(c, RunAll(c, catalog, actions[..|actions| - 1]).0, actions[|actions| - 1]);
    }
  }

  lemma OneItem(c: Config, catalog: Catalog, a: Action)
    ensures RunOne(c, catalog, a).1.kind == KindName(a) && RunOne(c, catalog, a).1.id == a.id
  {
    hide UpsertAll, ExistingIds, CreateDoc, UpdateDoc, DeleteDoc, WithIndex, Resolve;
  }

  // ---------------------------------------------------------------- what each action does

  /** One document of one index holds this source now; nothing else has changed. */
  ghost predicate Holds(before: Catalog, after: Catalog, name: string, id: string, source: Option<Json>) {
    && name in before.indices && name in after.indices
    && after == before.(indices := before.indices[name := after.indices[name]])
    && after.indices[name].(points := before.indices[name].points) == before.indices[name]
    && OthersKept(before.indices[name], after.indices[name], id)
    && SourceOf(after.indices[name], id) == source
  }

  lemma UnknownIndexFails(c: Config, catalog: Catalog, a: Action)
    requires Resolve(catalog, a.index).None?
    ensures RunOne(c, catalog, a) == (catalog, Item(KindName(a), a.index, a.id, 404, "error"))
  {
  }

  /** Indexing overwrites; 200 if a point carried the id before, 201 if none did. */
  lemma IndexActionDoes(c: Config, catalog: Catalog, index: string, id: string, source: Json, name: string)
    requires Resolve(catalog, index) == Some(name)
    ensures var ((after, item), ix) := (RunOne(c, catalog, IndexAction(index, id, source)), catalog.indices[name]);
            if !c.encodable(source, ix.properties) then after == catalog && item == Item("index", index, id, 400, "error")
            else Holds(catalog, after, name, id, Some(source))
                 && item == if id in ix.points && "_es_id" in ix.points[id] && ix.points[id]["_es_id"] == Str(id)
                            then Item("index", name, id, 200, "updated") else Item("index", name, id, 201, "created")
  {
    var ix := catalog.indices[name];
    OneWritten(c, ix, ix.properties, Document(id, source));
    UpsertFrame(c, ix, ix.properties, [Document(id, source)]);
    CarriesIff(ix, id);
    hide UpsertAll, ExistingIds;
  }

  lemma CarriesIff(ix: Index, id: string)
    ensures id in ExistingIds(ix, {id}) <==> id in ix.points && "_es_id" in ix.points[id] && ix.points[id]["_es_id"] == Str(id)
  {
    assert forall other, s :: other in {id} && other in ix.points && s in IdsIn(ix.points[other]) <==> other == id && other in ix.points && s in IdsIn(ix.points[id]);
    assert id in ix.points ==> (id in IdsIn(ix.points[id]) <==> "_es_id" in ix.points[id] && ix.points[id]["_es_id"] == Str(id));
  }

  /** Creating never overwrites: 409 for a document that is there. */
  lemma CreateActionDoes(c: Config, catalog: Catalog, index: string, id: string, source: Json, name: string)
    requires Resolve(catalog, index) == Some(name)
    ensures var ((after, item), ix) := (RunOne(c, catalog, CreateAction(index, id, source)), catalog.indices[name]);
            if SourceOf(ix, id).Some? then after == catalog && item == Item("create", index, id, 409, "error")
            else if !c.encodable(source, ix.properties) then after == catalog && item == Item("create", index, id, 400, "error")
            else Holds(catalog, after, name, id, Some(source)) && item == Item("create", name, id, 201, "created")
  {
    var ix := catalog.indices[name];
    OneWritten(c, ix, ix.properties, Document(id, source));
    UpsertFrame(c, ix, ix.properties, [Document(id, source)]);
    SameIndex(catalog, name);
    hide UpsertAll;
  }

  lemma SameIndex(catalog: Catalog, name: string)
    requires name in catalog.indices
    ensures WithIndex(catalog, name, catalog.indices[name]) == catalog
  {
    assert catalog.indices[name := catalog.indices[name]] == catalog.indices;
  }

  lemma DeleteActionDoes(c: Config, catalog: Catalog, index: string, id: string, name: string)
    requires Resolve(catalog, index) == Some(name)
    ensures var (after, item) := RunOne(c, catalog, DeleteAction(index, id));
            if SourceOf(catalog.indices[name], id).None? then after == catalog && item == Item("delete", name, id, 404, "not_found")
            else Holds(catalog, after, name, id, None) && item == Item("delete", name, id, 200, "deleted")
  {
    SameIndex(catalog, name);
  }

  /** An update of a document that is there leaves the merge, unless nothing changes. */
  lemma UpdateActionDoes(c: Config, catalog: Catalog, index: string, id: string, body: Json, name: string)
    requires Resolve(catalog, index) == Some(name) && !Refused(body) && SourceOf(catalog.indices[name], id).Some?
    ensures var ((after, item), ix) := (RunOne(c, catalog, UpdateAction(index, id, body)), catalog.indices[name]);
            var doc, read := body.fields["doc"], SourceOf(ix, id).value;
            var merged := Merging.Merge(read, doc);
            if merged == read && !("detect_noop" in body.fields && body.fields["detect_noop"] == Bool(false)) then
              after == catalog && item == Item("update", name, id, 200, "noop")
            else if !c.encodable(merged, ix.properties) && exists field :: field in doc.fields && c.textual(field) then
              after == catalog && item == Item("update", index, id, 400, "error")
            else Holds(catalog, after, name, id, Some(merged)) && item == Item("update", name, id, 200, "updated")
  {
    var ix := catalog.indices[name];
    AcceptedIff(body);
    FoundAnswers(c, ix, ix.properties, id, body, SourceOf(ix, id).value);
    UpdateReadsBack(c, ix, ix.properties, id, body, SourceOf(ix, id).value);
    UpdateFrame(c, ix, id, body);
    SameIndex(catalog, name);
    hide UpdateWith, Merging.Merge, Merging.Contains, UpdateAccepted;
  }

  lemma UpdateFrame(c: Config, ix: Index, id: string, body: Json)
    ensures UpdateDoc(c, ix, ix.properties, id, body).0.(points := ix.points) == ix
  {
    forall d
      ensures UpsertAll(c, ix, ix.properties, [d]).(points := ix.points) == ix
    {
      UpsertFrame(c, ix, ix.properties, [d]);
    }
    hide UpsertAll, UpdateAccepted, Merging.Merge;
  }

  /** An update of a document that is not there creates what it brings, or fails. */
  lemma AbsentUpdateDoes(c: Config, catalog: Catalog, index: string, id: string, body: Json, name: string)
    requires Resolve(catalog, index) == Some(name) && !Refused(body) && SourceOf(catalog.indices[name], id).None?
    ensures var ((after, item), ix) := (RunOne(c, catalog, UpdateAction(index, id, body)), catalog.indices[name]);
            var asUpsert := "doc_as_upsert" in body.fields && body.fields["doc_as_upsert"] == Bool(true);
            if !asUpsert && "upsert" !in body.fields then after == catalog && item == Item("update", index, id, 404, "error")
            else
              var source := body.fields[if asUpsert then "doc" else "upsert"];
              if !c.encodable(source, ix.properties) then after == catalog && item == Item("update", index, id, 400, "error")
              else Holds(catalog, after, name, id, Some(source)) && item == Item("update", name, id, 201, "created")
  {
    var ix := catalog.indices[name];
    AbsentStarts(c, ix, ix.properties, id, body);
    UpdateFrame(c, ix, id, body);
    AbsentOthers(c, ix, id, body);
    SameIndex(catalog, name);
    hide UpdateWith;
  }

  lemma AbsentOthers(c: Config, ix: Index, id: string, body: Json)
    ensures OthersKept(ix, UpdateWith(c, ix, ix.properties, id, body, None).0, id)
  {
    forall source
      ensures OthersKept(ix, WriteDocs(c, ix, ix.properties, [Document(id, source)]).0, id)
    {
      OneWritten(c, ix, ix.properties, Document(id, source));
    }
    hide WriteDocs, UpdateAccepted;
  }

  lemma RefusedUpdateFails(c: Config, catalog: Catalog, index: string, id: string, body: Json, name: string)
    requires Resolve(catalog, index) == Some(name) && Refused(body)
    ensures RunOne(c, catalog, UpdateAction(index, id, body)) == (catalog, Item("update", index, id, 400, "error"))
  {
    AcceptedIff(body);
    SameIndex(catalog, name);
  }

  // ---------------------------------------------------------------- batches

  /** Index actions naming one index, every source encodable there. */
  ghost predicate IsBatch(c: Config, catalog: Catalog, actions: seq<Action>, index: string, name: string) {
    && Resolve(catalog, index) == Some(name)
    && forall i :: 0 <= i < |actions| ==>
         && actions[i].IndexAction? && actions[i].index == index
         && c.encodable(actions[i].source, catalog.indices[name].properties)
  }

  function DocumentsOf(actions: seq<Action>): seq<Document>
    requires forall a :: a in actions ==> a.IndexAction?
  {
    seq(|actions|, i requires 0 <= i < |actions| => Document(actions[i].id, actions[i].source))
  }

  function IdsOf(actions: seq<Action>): set<string> {
    set a | a in actions :: a.id
  }

  function BatchItems(name: string, existing: set<string>, actions: seq<Action>): seq<Item>
    decreases |actions|
  {
    if actions == [] then []
    else
      var front, last := actions[..|actions| - 1], actions[|actions| - 1];
      BatchItems(name, existing, front) + [Written(name, last.id, last.id in existing || last.id in IdsOf(front))]
  }

  lemma KeyedLookup(ix: Index, ids: set<string>)
    requires WellKeyed(ix)
    ensures ExistingIds(ix, ids) == set id | id in ids && id in ix.points
  {
    assert forall id :: id in ix.points ==> IdsIn(ix.points[id]) == {id};
  }

  /** The specification of one batch: a single lookup, one upsert, statuses from both. */
  function RunBatch(c: Config, catalog: Catalog, name: string, actions: seq<Action>): (Catalog, seq<Item>)
    requires name in catalog.indices && forall a :: a in actions ==> a.IndexAction?
  {
    var ix := catalog.indices[name];
    (WithIndex(catalog, name, UpsertAll(c, ix, ix.properties, DocumentsOf(actions))),
     BatchItems(name, ExistingIds(ix, IdsOf(actions)), actions))
  }

  /** A batch does and reports what its actions would one at a time, repeated ids included. */
  lemma {:induction false} BatchIsSequence(c: Config, catalog: Catalog, actions: seq<Action>, index: string, name: string)
    requires IsBatch(c, catalog, actions, index, name) && WellKeyed(catalog.indices[name])
    ensures RunAll(c, catalog, actions) == RunBatch(c, catalog, name, actions)
    decreases |actions|
  {
    hide RunBatch, RunOne, WellKeyed;
    if actions == [] {
      EmptyBatch(c, catalog, name);
    } else {
      var front, last := actions[..|actions| - 1], actions[|actions| - 1];
      assert actions == front + [last];
      assert forall a :: a in front ==> a in actions;
      BatchIsSequence(c, catalog, front, index, name);
      BatchStep(c, catalog, front, last, index, name);
    }
  }

  lemma EmptyBatch(c: Config, catalog: Catalog, name: string)
    requires name in catalog.indices
    ensures RunBatch(c, catalog, name, []) == (catalog, [])
  {
    assert DocumentsOf([]) == [];
    assert catalog.indices[name := catalog.indices[name]] == catalog.indices;
  }

  lemma BatchStep(c: Config, catalog: Catalog, front: seq<Action>, last: Action, index: string, name: string)
    requires IsBatch(c, catalog, front + [last], index, name) && WellKeyed(catalog.indices[name])
    requires (forall a :: a in front ==> a.IndexAction?) && last.IndexAction?
    ensures RunBatch(c, catalog, name, front + [last])
         == (RunOne(c, RunBatch(c, catalog, name, front).0, last).0,
             RunBatch(c, catalog, name, front).1 + [RunOne(c, RunBatch(c, catalog, name, front).0, last).1])
  {
    assert (front + [last])[|front|] == last;
    var ix := catalog.indices[name];
    var docs, d := DocumentsOf(front), Document(last.id, last.source);
    var before := UpsertAll(c, ix, ix.properties, docs);
    assert DocumentsOf(front + [last]) == docs + [d];
    UpsertFrame(c, ix, ix.properties, docs);
    OneMore(c, ix, before, d, docs);
    hide UpsertAll, WellKeyed, ExistingIds, BatchItems, DocumentsOf;
    BatchStepItems(c, ix, name, front, last, before);
    OneAfterBatch(c, catalog, name, before, last);
  }

  lemma OneAfterBatch(c: Config, catalog: Catalog, name: string, before: Index, last: Action)
    requires last.IndexAction? && Resolve(catalog, last.index) == Some(name) && c.encodable(last.source, before.properties)
    ensures var after := UpsertAll(c, before, before.properties, [Document(last.id, last.source)]);
            RunOne(c, WithIndex(catalog, name, before), last)
            == (WithIndex(catalog, name, after), Written(name, last.id, last.id in ExistingIds(before, {last.id})))
  {
    var mid := WithIndex(catalog, name, before);
    hide UpsertAll, ExistingIds;
    assert Resolve(mid, last.index) == Some(name) && mid.indices[name] == before;
    var after := UpsertAll(c, before, before.properties, [Document(last.id, last.source)]);
    assert mid.indices[name := after] == catalog.indices[name := after];
  }

  lemma BatchStepItems(c: Config, ix: Index, name: string, front: seq<Action>, last: Action, before: Index)
    requires WellKeyed(ix) && (forall a :: a in front ==> a.IndexAction?) && last.IndexAction?
    requires before == UpsertAll(c, ix, ix.properties, DocumentsOf(front))
    ensures BatchItems(name, ExistingIds(ix, IdsOf(front + [last])), front + [last])
         == BatchItems(name, ExistingIds(ix, IdsOf(front)), front) + [Written(name, last.id, last.id in ExistingIds(before, {last.id}))]
  {
    var actions := front + [last];
    assert actions[..|front|] == front;
    UpsertKeepsIds(c, ix, ix.properties, DocumentsOf(front));
    UpsertFrame(c, ix, ix.properties, DocumentsOf(front));
    KeyedLookup(before, {last.id});
    KeyedLookup(ix, IdsOf(actions));
    KeyedLookup(ix, IdsOf(front));
    BatchFront(c, ix, front, last);
    IdsWritten(front, last.id);
    hide UpsertAll, WellKeyed, ExistingIds, IdsIn;
    assert forall a :: a in front ==> a.id in IdsOf(front);
    SameBatchItems(name, ExistingIds(ix, IdsOf(front)), ExistingIds(ix, IdsOf(actions)), front);
  }

  lemma BatchFront(c: Config, ix: Index, front: seq<Action>, last: Action)
    ensures IdsOf(front + [last]) == IdsOf(front) + {last.id}
  {
    assert forall a :: a in front + [last] <==> a in front || a == last;
    forall id | id in IdsOf(front) + {last.id}
      ensures id in IdsOf(front + [last])
    {
      if id == last.id {
        assert last in front + [last];
      } else {
        var a :| a in front && a.id == id;
        assert a in front + [last];
      }
    }
  }

  lemma OneMore(c: Config, ix: Index, before: Index, d: Document, docs: seq<Document>)
    requires before == UpsertAll(c, ix, ix.properties, docs) && before.properties == ix.properties && before.name == ix.name
    ensures UpsertAll(c, before, before.properties, [d]) == UpsertAll(c, ix, ix.properties, docs + [d])
  {
    assert [d][..0] == [] && (docs + [d])[..|docs|] == docs;
    assert UpsertAll(c, before, before.properties, []) == before;
  }

  lemma IdsWritten(actions: seq<Action>, id: string)
    requires forall a :: a in actions ==> a.IndexAction?
    ensures (exists d :: d in DocumentsOf(actions) && d.id == id) <==> id in IdsOf(actions)
  {
    var docs := DocumentsOf(actions);
    if d :| d in docs && d.id == id {
      var i :| 0 <= i < |docs| && docs[i] == d;
      assert actions[i] in actions;
    }
    if id in IdsOf(actions) {
      var a :| a in actions && a.id == id;
      var i :| 0 <= i < |actions| && actions[i] == a;
      assert docs[i].id == id;
    }
  }

  lemma {:induction false} SameBatchItems(name: string, e: set<string>, f: set<string>, actions: seq<Action>)
    requires forall a :: a in actions ==> (a.id in e <==> a.id in f)
    ensures BatchItems(name, e, actions) == BatchItems(name, f, actions)
    decreases |actions|
  {
    if actions != [] {
      var front := actions[..|actions| - 1];
      assert actions == front + [actions[|actions| - 1]];
      SameBatchItems(name, e, f, front);
    }
  }

  // ---------------------------------------------------------------- exactly when batching is right

  /** Some interleaving of requests leaves the index so. */
  ghost predicate IsReachable(c: Config, ix: Index) {
    exists run: seq<Store>, seen, evs :: IsRun(c, run, seen, evs) && run[|run| - 1].index == ix
  }

  /** Under this mapping every batch on every reachable index does and reports what its actions would. */
  ghost predicate BatchesAreSequences(c: Config, properties: Properties) {
    forall catalog, actions, index, name ::
      IsBatch(c, catalog, actions, index, name) && IsReachable(c, catalog.indices[name]) && catalog.indices[name].properties == properties
      ==> RunAll(c, catalog, actions) == RunBatch(c, catalog, name, actions)
  }

  /** A source that replaces its document's id in the payload. */
  const RENAMING: Json := OneField("_es_id", Str("b"))

  /** Batches are right exactly while the mapping copies no field `_es_id`. */
  lemma BatchingExact(c: Config, properties: Properties)
    requires c.encodable(RENAMING, properties)
    ensures BatchesAreSequences(c, properties) <==> !CopiesId(properties)
  {
    if CopiesId(properties) {
      var catalog := RenamedMisleads(c, "i", properties);
      hide *;
    } else {
      forall catalog, actions, index, name |
        && IsBatch(c, catalog, actions, index, name) && IsReachable(c, catalog.indices[name])
        && catalog.indices[name].properties == properties
        ensures RunAll(c, catalog, actions) == RunBatch(c, catalog, name, actions)
      {
        var run: seq<Store>, seen, evs :| IsRun(c, run, seen, evs) && run[|run| - 1].index == catalog.indices[name];
        ReachableIsKeyed(c, run, seen, evs, |run| - 1);
        BatchIsSequence(c, catalog, actions, index, name);
      }
    }
  }

  /** One stored document whose `_es_id` renames it, then a batch that writes it again and creates
      another: the batch reports the second as updated, single writes as created. */
  lemma RenamedMisleads(c: Config, name: string, properties: Properties) returns (catalog: Catalog)
    requires CopiesId(properties) && c.encodable(RENAMING, properties)
    ensures name in catalog.indices && catalog.indices[name].properties == properties && IsReachable(c, catalog.indices[name])
    ensures var actions := [IndexAction(name, "a", RENAMING), IndexAction(name, "b", RENAMING)];
            && IsBatch(c, catalog, actions, name, name)
            && RunBatch(c, catalog, name, actions).1 == [Written(name, "a", false), Written(name, "b", true)]
            && RunAll(c, catalog, actions).1 == [Written(name, "a", false), Written(name, "b", false)]
  {
    var empty := Index(name, properties, map[]);
    var ix := empty.(points := map["a" := PayloadOf(c, empty, properties, Document("a", RENAMING))]);
    catalog := Catalog(map[name := ix], map[]);
    var x, y := IndexAction(name, "a", RENAMING), IndexAction(name, "b", RENAMING);
    hide *;
    OneWriteReaches(c, empty, ix, Document("a", RENAMING));
    RenamedLookup(c, empty, ix);
    RenamedBatch(c, catalog, name, ix, x, y);
    RenamedSingles(c, catalog, name, ix, x, y);
    RenamedIsBatch(c, catalog, name, ix, x, y);
  }

  lemma RenamedIsBatch(c: Config, catalog: Catalog, name: string, ix: Index, x: Action, y: Action)
    requires name in catalog.indices && catalog.indices[name] == ix && c.encodable(RENAMING, ix.properties)
    requires x == IndexAction(name, "a", RENAMING) && y == IndexAction(name, "b", RENAMING)
    ensures IsBatch(c, catalog, [x, y], name, name)
  {
    assert forall i :: 0 <= i < 2 ==> [x, y][i] == x || [x, y][i] == y;
  }

  lemma OneWriteReaches(c: Config, empty: Index, ix: Index, d: Document)
    requires empty.points == map[] && c.encodable(d.source, empty.properties)
    requires ix == empty.(points := map[d.id := PayloadOf(c, empty, empty.properties, d)])
    ensures IsReachable(c, ix)
  {
    FirstWrite(c, empty, empty.properties, d);
    hide PayloadOf, WriteDocs;
    var run, seen, evs := [Store(empty, map[]), Store(ix, map[])], [empty.properties], [Event.Write([d])];
    assert IsRun(c, run, seen, evs) && run[|run| - 1].index == ix;
  }

  lemma RenamedLookup(c: Config, empty: Index, ix: Index)
    requires CopiesId(empty.properties)
    requires ix == empty.(points := map["a" := PayloadOf(c, empty, empty.properties, Document("a", RENAMING))])
    ensures ix.points.Keys == {"a"} && IdsIn(ix.points["a"]) == {"b"}
  {
    assert FieldPayload(RENAMING, empty.properties)["_es_id"] == Str("b");
    assert MARKERS != "_es_id" by { assert MARKERS[1] == 'q'; }
  }

  lemma RenamedBatch(c: Config, catalog: Catalog, name: string, ix: Index, x: Action, y: Action)
    requires name in catalog.indices && catalog.indices[name] == ix && ix.points.Keys == {"a"} && IdsIn(ix.points["a"]) == {"b"}
    requires x == IndexAction(name, "a", RENAMING) && y == IndexAction(name, "b", RENAMING)
    ensures RunBatch(c, catalog, name, [x, y]).1 == [Written(name, "a", false), Written(name, "b", true)]
  {
    hide UpsertAll, IdsIn;
    assert y in [x, y] && x in [x, y] && [x, y][..1] == [x] && [x][..0] == [];
    assert IdsOf([x, y]) == {"a", "b"};
    assert ExistingIds(ix, {"a", "b"}) == {"b"};
    assert IdsOf([x]) == {"a"};
    assert BatchItems(name, {"b"}, [x]) == [Written(name, "a", false)];
  }

  lemma RenamedSingles(c: Config, catalog: Catalog, name: string, ix: Index, x: Action, y: Action)
    requires name in catalog.indices && catalog.indices[name] == ix && ix.points.Keys == {"a"} && IdsIn(ix.points["a"]) == {"b"}
    requires x == IndexAction(name, "a", RENAMING) && y == IndexAction(name, "b", RENAMING)
    requires c.encodable(RENAMING, ix.properties)
    ensures RunAll(c, catalog, [x, y]).1 == [Written(name, "a", false), Written(name, "b", false)]
  {
    var d := Document("a", RENAMING);
    var after := UpsertAll(c, ix, ix.properties, [d]);
    UpsertFrame(c, ix, ix.properties, [d]);
    assert forall e :: e in [d] ==> e.id != "b";
    assert "b" !in after.points;
    OneAfterBatch(c, catalog, name, ix, x);
    OneAfterBatch(c, catalog, name, after, y);
    assert catalog.indices[name := ix] == catalog.indices;
    assert WithIndex(catalog, name, ix) == catalog;
    assert "a" !in ExistingIds(ix, {"a"}) && "b" !in ExistingIds(after, {"b"});
    hide UpsertAll, ExistingIds, RunOne, WithIndex, IdsIn;
    TwoRun(c, catalog, x, y);
  }

  lemma TwoRun(c: Config, catalog: Catalog, x: Action, y: Action)
    ensures RunAll(c, catalog, [x, y]).1 == [RunOne(c, catalog, x).1, RunOne(c, RunOne(c, catalog, x).0, y).1]
  {
    hide RunOne;
    assert [x, y][..1] == [x] && [x][..0] == [];
    assert RunAll(c, catalog, []) == (catalog, []);
    assert [] + [RunOne(c, catalog, x).1] == [RunOne(c, catalog, x).1];
    assert RunAll(c, catalog, [x]) == (RunOne(c, catalog, x).0, [RunOne(c, catalog, x).1]);
  }

  // ---------------------------------------------------------------- the batching loop

  /** Every index is keyed by `_es_id`, as every reachable one is whose mapping copies no such field. */
  ghost predicate AllWellKeyed(catalog: Catalog) {
    forall name :: name in catalog.indices ==> WellKeyed(catalog.indices[name])
  }

  class BulkStore {
    const config: Config
    var catalog: Catalog

    constructor (config: Config, catalog: Catalog)
      ensures this.config == config && this.catalog == catalog
    {
      this.config, this.catalog := config, catalog;
    }

    /** The request's items and the final store are those of running the actions one at a time. */
    method Bulk(actions: seq<Action>) returns (items: seq<Item>)
      requires AllWellKeyed(catalog)
      modifies this
      ensures (catalog, items) == RunAll(config, old(catalog), actions)
    {
      hide RunAll, RunOne, AllWellKeyed, WellKeyed, IsBatch;
      items := [];
      var cursor := 0;
      NothingRun(config, catalog, actions);
      ghost var start := catalog;
      while cursor < |actions|
        invariant 0 <= cursor <= |actions|
        invariant AllWellKeyed(catalog)
        invariant (catalog, items) == RunAll(config, start, actions[..cursor])
        decreases |actions| - cursor
      {
        var a := actions[cursor];
        RunOneKeepsKeys(config, catalog, a);
        RunNext(config, start, actions, cursor);
        if !a.IndexAction? {
          var done := RunOther(config, catalog, a);
          OtherIsOne(config, catalog, a);
          catalog := done.0;
          items := items + [done.1];
          cursor := cursor + 1;
          continue;
        }
        var resolved := Resolve(catalog, a.index);
        if resolved.Some? && !config.encodable(a.source, catalog.indices[resolved.value].properties) {
          InvalidIsOne(config, catalog, a);
          items := items + [Failed(a, 400)];
          cursor := cursor + 1;
          continue;
        }
        var end := cursor;
        while end < |actions| && actions[end].IndexAction? && actions[end].index == a.index
              && !(resolved.Some? && !config.encodable(actions[end].source, catalog.indices[resolved.value].properties))
          invariant cursor <= end <= |actions|
          invariant forall k :: cursor <= k < end ==>
                      && actions[k].IndexAction? && actions[k].index == a.index
                      && (resolved.Some? ==> config.encodable(actions[k].source, catalog.indices[resolved.value].properties))
        {
          end := end + 1;
        }
        assert end > cursor;
        var batch := actions[cursor..end];
        RunAllAppend(config, start, actions[..cursor], batch);
        assert actions[..cursor] + batch == actions[..end];
        if resolved.None? {
          MissingIndexBatch(config, catalog, batch, a.index);
          items := items + AllFailed(batch, 404);
        } else {
          BatchKeepsKeys(config, catalog, batch, a.index, resolved.value);
          var ix := catalog.indices[resolved.value];
          var existing := ExistingIds(ix, IdsOf(batch));
          var statuses := BatchStatuses(resolved.value, existing, batch);
          catalog := WithIndex(catalog, resolved.value, UpsertAll(config, ix, ix.properties, DocumentsOf(batch)));
          items := items + statuses;
        }
        cursor := end;
      }
      assert actions[..|actions|] == actions;
    }
  }

  /** The first item for an id asks the lookup, later ones were just written. */
  method BatchStatuses(name: string, existing: set<string>, batch: seq<Action>) returns (items: seq<Item>)
    ensures items == BatchItems(name, existing, batch)
  {
    hide BatchItems, IdsOf;
    items := [];
    BatchItemsStart(name, existing, batch);
    var seen: set<string> := {};
    for k := 0 to |batch|
      invariant items == BatchItems(name, existing, batch[..k])
      invariant forall id :: id in seen || id in existing <==> id in IdsOf(batch[..k]) || id in existing
    {
      var id := batch[k].id;
      assert batch[..k + 1][..k] == batch[..k];
      IdsOfStep(batch, k);
      var existed := id in existing || id in seen;
      BatchItemsStep(name, existing, batch, k);
      if id !in existing {
        seen := seen + {id};
      }
      items := items + [Written(name, id, existed)];
    }
    assert batch[..|batch|] == batch;
  }

  lemma BatchItemsStart(name: string, existing: set<string>, batch: seq<Action>)
    ensures BatchItems(name, existing, batch[..0]) == [] && IdsOf(batch[..0]) == {}
  {
  }

  lemma BatchItemsStep(name: string, existing: set<string>, batch: seq<Action>, k: nat)
    requires k < |batch|
    ensures BatchItems(name, existing, batch[..k + 1]) == BatchItems(name, existing, batch[..k])
              + [Written(name, batch[k].id, batch[k].id in existing || batch[k].id in IdsOf(batch[..k]))]
  {
    assert batch[..k + 1][..k] == batch[..k];
  }

  lemma IdsOfStep(batch: seq<Action>, k: nat)
    requires k < |batch|
    ensures IdsOf(batch[..k + 1]) == IdsOf(batch[..k]) + {batch[k].id}
  {
    assert batch[..k + 1] == batch[..k] + [batch[k]];
    var front, last := batch[..k], batch[k];
    assert forall a :: a in front + [last] <==> a in front || a == last;
    assert last in front + [last];
    assert forall a :: a in front ==> a in front + [last];
  }

  lemma NothingRun(c: Config, catalog: Catalog, actions: seq<Action>)
    ensures RunAll(c, catalog, actions[..0]) == (catalog, [])
  {
  }

  lemma RunNext(c: Config, start: Catalog, actions: seq<Action>, cursor: nat)
    requires cursor < |actions|
    ensures RunAll(c, start, actions[..cursor + 1])
         == (RunOne(c, RunAll(c, start, actions[..cursor]).0, actions[cursor]).0,
             RunAll(c, start, actions[..cursor]).1 + [RunOne(c, RunAll(c, start, actions[..cursor]).0, actions[cursor]).1])
  {
    assert actions[..cursor + 1][..cursor] == actions[..cursor];
  }

  lemma OtherIsOne(c: Config, catalog: Catalog, a: Action)
    requires !a.IndexAction?
    ensures RunOne(c, catalog, a) == RunOther(c, catalog, a)
  {
  }

  lemma InvalidIsOne(c: Config, catalog: Catalog, a: Action)
    requires a.IndexAction? && Resolve(catalog, a.index).Some?
    requires !c.encodable(a.source, catalog.indices[Resolve(catalog, a.index).value].properties)
    ensures RunOne(c, catalog, a) == (catalog, Failed(a, 400))
  {
  }

  lemma {:induction false} MissingIndexBatch(c: Config, catalog: Catalog, batch: seq<Action>, index: string)
    requires Resolve(catalog, index).None?
    requires forall k :: 0 <= k < |batch| ==> batch[k].IndexAction? && batch[k].index == index
    ensures RunAll(c, catalog, batch) == (catalog, AllFailed(batch, 404))
    decreases |batch|
  {
    if batch != [] {
      var front, last := batch[..|batch| - 1], batch[|batch| - 1];
      MissingIndexBatch(c, catalog, front, index);
      assert RunOne(c, catalog, last) == (catalog, Failed(last, 404));
      assert AllFailed(batch, 404) == AllFailed(front, 404) + [Failed(last, 404)];
    } else {
      assert AllFailed(batch, 404) == [];
    }
  }

  lemma RunOneKeepsKeys(c: Config, catalog: Catalog, a: Action)
    requires AllWellKeyed(catalog)
    ensures AllWellKeyed(RunOne(c, catalog, a).0)
  {
    var resolved := Resolve(catalog, a.index);
    if resolved.Some? {
      var ix := catalog.indices[resolved.value];
      WritesKeepKeys(c, ix, a);
    }
  }

  lemma WritesKeepKeys(c: Config, ix: Index, a: Action)
    requires WellKeyed(ix)
    ensures a.IndexAction? ==> WellKeyed(UpsertAll(c, ix, ix.properties, [Document(a.id, a.source)]))
    ensures a.CreateAction? ==> WellKeyed(CreateDoc(c, ix, ix.properties, Document(a.id, a.source)).0)
    ensures a.UpdateAction? ==> WellKeyed(UpdateDoc(c, ix, ix.properties, a.id, a.source).0)
    ensures a.DeleteAction? ==> WellKeyed(DeleteDoc(ix, a.id).0)
  {
    if !a.DeleteAction? {
      UpsertKeepsIds(c, ix, ix.properties, [Document(a.id, a.source)]);
    }
    if a.UpdateAction? {
      UpdateKeepsIds(c, ix, ix.properties, a.id, a.source, SourceOf(ix, a.id));
    }
  }

  lemma BatchKeepsKeys(c: Config, catalog: Catalog, batch: seq<Action>, index: string, name: string)
    requires AllWellKeyed(catalog) && Resolve(catalog, index) == Some(name)
    requires forall k :: 0 <= k < |batch| ==>
               batch[k].IndexAction? && batch[k].index == index && c.encodable(batch[k].source, catalog.indices[name].properties)
    ensures forall a :: a in batch ==> a.IndexAction?
    ensures RunAll(c, catalog, batch) == RunBatch(c, catalog, name, batch)
    ensures AllWellKeyed(RunBatch(c, catalog, name, batch).0)
  {
    BatchIsSequence(c, catalog, batch, index, name);
    UpsertKeepsIds(c, catalog.indices[name], catalog.indices[name].properties, DocumentsOf(batch));
  }
}
