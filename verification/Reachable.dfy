/** The fast paths over stores that interleaved document operations can produce. */
module Reachable {
  import opened Options
  import opened Values
  import opened Ranking
  import opened Sequences
  import opened Scrolling
  import opened Hits
  import opened SearchPages
  import opened Markers
  import opened Documents
  import opened Interleavings
  import OrderedScroll
  import Aggregations
  import QueryCompiler
  import opened Queries
  import opened Pushdown

  /** Some of the points stored after `k` events of a run, each once. */
  ghost predicate StoredAt(c: Config, run: seq<Store>, seen: seq<Properties>, evs: seq<Event>, k: nat,
                           ids: seq<string>, points: seq<Payload>) {
    && Arranges(c.arrange) && IsRun(c, run, seen, evs) && k < |run| && |ids| == |points|
    && (forall i, j :: 0 <= i < j < |ids| ==> ids[i] != ids[j])
    && forall i :: 0 <= i < |ids| ==> ids[i] in run[k].index.points && run[k].index.points[ids[i]] == points[i]
  }

  lemma StoredPointsClaim(c: Config, run: seq<Store>, seen: seq<Properties>, evs: seq<Event>, k: nat,
                          ids: seq<string>, points: seq<Payload>)
    requires StoredAt(c, run, seen, evs, k, ids, points)
    ensures var properties := run[k].index.properties;
            IsLegacy(properties) || (AllClaim(points, properties) && OrderedScroll.AllNumbersSound(points, properties))
  {
    ClaimsAlwaysHold(c, run, seen, evs, k);
    hide NumbersSound, KeywordsClaim;
  }

  lemma StoredPointsAreDistinct(c: Config, run: seq<Store>, seen: seq<Properties>, evs: seq<Event>, k: nat,
                                ids: seq<string>, points: seq<Payload>)
    requires StoredAt(c, run, seen, evs, k, ids, points) && !CopiesId(run[k].index.properties)
    ensures OrderedScroll.DistinctPoints(points)
  {
    ReachableIsKeyed(c, run, seen, evs, k);
    assert forall i :: 0 <= i < |points| ==> OrderedScroll.HitOf(points[i]).id == ids[i];
  }

  /** After any interleaving of document operations, updates in flight included, an ordered scroll that
      answers gives the first `window` hits of the complete scan; it declines only where it does not
      apply, where a matching point lacks the marker, or where a tie crosses the window's edge. */
  lemma ReachableOrderedScroll(c: Config, run: seq<Store>, seen: seq<Properties>, evs: seq<Event>, k: nat, ids: seq<string>,
                               show: Printer, shape: OrderedScroll.SearchShape, sorts: seq<SortSpec>, cursor: Option<seq<Json>>,
                               window: nat, stored: seq<Payload>, matches: Payload -> bool,
                               uncovered: seq<Payload>, answer: seq<Payload>)
    requires StoredAt(c, run, seen, evs, k, ids, stored) && Prints(show) && CursorAccepted(cursor, sorts, 0)
    requires CopiesId(run[k].index.properties) ==> OrderedScroll.DistinctPoints(stored)
    requires sorts != [] ==> (uncovered == [] <==> OrderedScroll.Covered(stored, matches, sorts[0].field))
    requires sorts != [] && uncovered == [] ==>
               OrderedScroll.IsOrderedScroll(answer, stored, matches, sorts[0], OrderedScroll.FirstOf(cursor), window + 1)
    ensures var properties := run[k].index.properties;
            var r := OrderedScroll.OrderedResult(show, shape, properties, sorts, cursor, window, uncovered, answer);
            var listing := Listing(show, sorts, (h: Hit) => true, cursor, OrderedScroll.HitsOf(Filter(matches, stored)));
            && (r.Some? <==> && OrderedScroll.Applies(shape, properties, sorts, cursor, window)
                             && OrderedScroll.Covered(stored, matches, sorts[0].field)
                             && !(|listing| > window
                                  && OrderedScroll.Tied(show, listing[window - 1], listing[window], sorts[0].field)))
            && (r.Some? ==> r.value == Take(listing, window))
  {
    var properties := run[k].index.properties;
    if !IsLegacy(properties) {
      StoredPointsClaim(c, run, seen, evs, k, ids, stored);
      if !CopiesId(properties) {
        StoredPointsAreDistinct(c, run, seen, evs, k, ids, stored);
      }
      hide OrderedScroll.OrderedResult, Listing, OrderedScroll.IsOrderedScroll, OrderedScroll.Covered;
      hide OrderedScroll.AllNumbersSound, OrderedScroll.DistinctPoints, StoredAt;
      OrderedScroll.FastPathRefinesScan(show, shape, properties, sorts, cursor, window, stored, matches, uncovered, answer);
    }
  }

  /** After any interleaving, an aggregation plan executed with its fast paths reports what streaming
      alone reports exactly when no point lingers with a value that a fast path counts. */
  method ReachableAggregation(ghost c: Config, ghost run: seq<Store>, ghost seen: seq<Properties>, ghost evs: seq<Event>,
                              ghost k: nat, ghost ids: seq<string>, properties: Properties, plan: Plan, backend: Reads,
                              pages: seq<Page<Payload>>)
    returns (r: Option<Plan>)
    requires StoredAt(c, run, seen, evs, k, ids, AllPoints(pages)) && properties == run[k].index.properties
    requires IsFreshPlan(plan) && IsScroll(pages) && Answers(backend, AllPoints(pages))
    ensures r.Some? ==> PlanStreams(plan, Sources(AllPoints(pages))) && r.value.Keys == plan.Keys
    ensures r.Some? ==> (r.value == Streamed(plan, Sources(AllPoints(pages)))
                         <==> forall name :: name in plan ==> Harmless(plan[name], properties, backend, AllPoints(pages)))
  {
    StoredPointsClaim(c, run, seen, evs, k, ids, AllPoints(pages));
    hide *;
    r := Execute(plan, properties, backend, pages);
  }

  /** Nothing lingers in a run whose updates land undisturbed, whatever is asked. */
  lemma UndisturbedIsHarmless(c: Config, run: seq<Store>, seen: seq<Properties>, evs: seq<Event>, k: nat,
                              ids: seq<string>, points: seq<Payload>, r: Aggregations.Reduction, backend: Reads)
    requires StoredAt(c, run, seen, evs, k, ids, points) && Answers(backend, points)
    requires forall n :: 0 <= n < k ==> Undisturbed(run[n], evs[n])
    ensures Harmless(r, run[k].index.properties, backend, points)
  {
    var properties := run[k].index.properties;
    MarkersAreSound(c, run, seen, evs, k);
    if !IsLegacy(properties) {
      assert forall p :: p in points ==> Sound(p, properties) by {
        hide Sound;
      }
      SoundIsHarmless(points, properties, r, backend);
    }
  }

  lemma SoundIsHarmless(docs: seq<Payload>, properties: Properties, r: Aggregations.Reduction, backend: Reads)
    requires (forall p :: p in docs ==> Sound(p, properties)) && Answers(backend, docs)
    ensures Harmless(r, properties, backend, docs)
  {
    forall p, f, s | p in docs && Marked(p, KeywordMarker(f))
      ensures !LingersWith(p, f, s)
    {
      assert GetField(p, f) == Get(p["_source"], f);
    }
    if UsesFacet(r, properties, backend) {
      AnswersMean(backend, docs, KeywordMarker(r.field), QueryCompiler.IdAny([]), "");
    }
    if UsesCount(r, properties, backend) {
      AnswersMean(backend, docs, CountCondition(r.query, properties).value.0, QueryCompiler.IdAny([]), "");
    }
    hide LingersWith, Sound, Answers;
  }

  /** Two updates of one document that do not see each other are enough for a covered facet, and a
      covered exact count, to count a value that no document has. */
  lemma UnseenUpdateMisleads(c: Config, name: string, size: nat)
    returns (run: seq<Store>, seen: seq<Properties>, evs: seq<Event>, points: seq<Payload>)
    requires Arranges(c.arrange) && !c.textual("tag") && !c.textual("other")
    requires forall source, properties :: c.encodable(source, properties)
    ensures IsRun(c, run, seen, evs) && StoredAt(c, run, seen, evs, |evs|, ["a"], points)
    ensures AllCovered(points, KeywordMarker("tag")) && PayloadCount(points, "tag", "x") == 1
    ensures Aggregations.CountDocuments(Sources(points), "tag", Aggregations.TextBucket(Str("x"))) == 0
    ensures forall backend :: Answers(backend, points) ==>
              && !Harmless(Aggregations.TermsCount("tag", size, map[]), run[|evs|].index.properties, backend, points)
              && !Harmless(Aggregations.Filtered(TagIsX(), 0), run[|evs|].index.properties, backend, points)
  {
    hide *;
    run, seen, evs := UnseenUpdateLeavesStaleField(c, name);
    RunLength(c, run, seen, evs);
    var ix := run[|evs|].index;
    var p := ix.points["a"];
    points := [p];
    OnePointStored(c, run, seen, evs, "a");
    StoredPointsClaim(c, run, seen, evs, |evs|, ["a"], points);
    LostTag(p);
    LingeringCounts(p, ix.properties, "tag", "x");
    forall backend | Answers(backend, points)
      ensures !Harmless(Aggregations.TermsCount("tag", size, map[]), ix.properties, backend, points)
      ensures !Harmless(Aggregations.Filtered(TagIsX(), 0), ix.properties, backend, points)
    {
      LostTagHarms(p, ix.properties, backend, size);
    }
  }

  lemma RunLength(c: Config, run: seq<Store>, seen: seq<Properties>, evs: seq<Event>)
    requires IsRun(c, run, seen, evs)
    ensures |run| == |evs| + 1
  {
  }

  lemma OnePointStored(c: Config, run: seq<Store>, seen: seq<Properties>, evs: seq<Event>, id: string)
    requires Arranges(c.arrange) && IsRun(c, run, seen, evs) && id in run[|evs|].index.points
    ensures StoredAt(c, run, seen, evs, |evs|, [id], [run[|evs|].index.points[id]])
  {
  }

  lemma LostTagHarms(p: Payload, properties: Properties, backend: Reads, size: nat)
    requires properties == map["tag" := OneField("type", Str("keyword"))] && !IsLegacy(properties)
    requires Marked(p, KeywordMarker("tag")) && LingersWith(p, "tag", "x") && Answers(backend, [p])
    ensures !Harmless(Aggregations.TermsCount("tag", size, map[]), properties, backend, [p])
    ensures !Harmless(Aggregations.Filtered(TagIsX(), 0), properties, backend, [p])
  {
    TagFacetAllowed(properties);
    AnswersMean(backend, [p], KeywordMarker("tag"), QueryCompiler.IdAny([]), "");
    hide Marked, LingersWith, CountCondition, FacetAllowed;
    assert p in [p];
    assert LingersFor(p, QueryCompiler.MatchValue("tag", Str("x")));
  }

  lemma LostTag(p: Payload)
    requires GetField(p, "tag") == Some(Str("x")) && GetField(p, "_source") == Some(OneField("other", Int(1)))
    ensures LingersWith(p, "tag", "x")
  {
    assert AnyValue(p["tag"], (v: Json) => v == Str("x"));
    assert "tag" !in OneField("other", Int(1)).fields;
  }

  lemma LingeringCounts(p: Payload, properties: Properties, field: string, s: string)
    requires AllClaim([p], properties) && Marked(p, KeywordMarker(field)) && LingersWith(p, field, s)
    ensures AllCovered([p], KeywordMarker(field)) && PayloadCount([p], field, s) == 1
    ensures Aggregations.CountDocuments(Sources([p]), field, Aggregations.TextBucket(Str(s))) == 0
  {
    FacetCountsDocuments([p], properties, field, s);
    hide PayloadHas, LingersWith;
    assert p in [p];
    LingeringHas(p, field, s);
    assert [p][..0] == [] && Filter((q: Payload) => PayloadHas(q, field, s), [p]) == [p];
    assert Filter((q: Payload) => LingersWith(q, field, s), [p]) == [p];
  }

  lemma LingeringHas(p: Payload, field: string, s: string)
    requires LingersWith(p, field, s)
    ensures PayloadHas(p, field, s)
  {
  }

  function TagIsX(): Query {
    Query([Term("tag", Str("x"))])
  }

  lemma TagFacetAllowed(properties: Properties)
    requires properties == map["tag" := OneField("type", Str("keyword"))]
    ensures FacetAllowed("tag", properties)
    ensures CountCondition(TagIsX(), properties) == Some((KeywordMarker("tag"), QueryCompiler.MatchValue("tag", Str("x"))))
  {
    KeywordField();
    PlainField(Null, "tag");
  }
}
