/** The compiled filter together with the collected patterns selects exactly the documents the
    query means. */
module QueryMeaning {
  import opened Options
  import opened Values
  import opened Hits
  import opened Intervals
  import opened Queries
  import opened QueryCompiler

  predicate AllHold(t: Dates, d: Hit, cs: seq<Condition>) {
    forall i :: 0 <= i < |cs| ==> Holds(t, d, cs[i])
  }

  predicate NoneHold(t: Dates, d: Hit, cs: seq<Condition>) {
    forall i :: 0 <= i < |cs| ==> !Holds(t, d, cs[i])
  }

  predicate PartsHold(t: Dates, d: Hit, p: Parts) {
    AllHold(t, d, p.must) && NoneHold(t, d, p.mustNot)
  }

  /** The gateway checks its patterns on the document's source. */
  predicate AllMatch(m: Matcher, d: Hit, ps: seq<FieldPattern>) {
    forall i :: 0 <= i < |ps| ==> PatternHolds(m, d.source, ps[i])
  }

  // ---------------------------------------------------------------- appending

  lemma AppendHolds(t: Dates, d: Hit, a: Option<Parts>, b: Option<Parts>)
    requires Append(a, b).Some?
    ensures a.Some? && b.Some?
    ensures PartsHold(t, d, Append(a, b).value) <==> PartsHold(t, d, a.value) && PartsHold(t, d, b.value)
  {
    SplitAll(t, d, a.value.must, b.value.must);
    SplitNone(t, d, a.value.mustNot, b.value.mustNot);
  }

  lemma SplitAll(t: Dates, d: Hit, front: seq<Condition>, back: seq<Condition>)
    ensures AllHold(t, d, front + back) <==> AllHold(t, d, front) && AllHold(t, d, back)
  {
    assert forall i :: 0 <= i < |front| ==> (front + back)[i] == front[i];
    assert forall i :: 0 <= i < |back| ==> (front + back)[|front| + i] == back[i];
  }

  lemma SplitNone(t: Dates, d: Hit, front: seq<Condition>, back: seq<Condition>)
    ensures NoneHold(t, d, front + back) <==> NoneHold(t, d, front) && NoneHold(t, d, back)
  {
    assert forall i :: 0 <= i < |front| ==> (front + back)[i] == front[i];
    assert forall i :: 0 <= i < |back| ==> (front + back)[|front| + i] == back[i];
  }

  lemma ConcatMatches(m: Matcher, d: Hit, a: Option<seq<FieldPattern>>, b: Option<seq<FieldPattern>>)
    requires Concat(a, b).Some?
    ensures a.Some? && b.Some?
    ensures AllMatch(m, d, Concat(a, b).value) <==> AllMatch(m, d, a.value) && AllMatch(m, d, b.value)
  {
    var s, t := a.value, b.value;
    assert forall i :: 0 <= i < |s| ==> (s + t)[i] == s[i];
    assert forall i :: 0 <= i < |t| ==> (s + t)[|s| + i] == t[i];
  }

  /** Unwrapping a single condition and the empty group are both the conjunction they stand for. */
  lemma ConditionHolds(t: Dates, d: Hit, p: Parts)
    ensures Holds(t, d, ConditionOf(p)) <==> PartsHold(t, d, p)
  {
  }

  lemma FilterHolds(t: Dates, d: Hit, p: Parts)
    ensures (match FilterOf(p) case None => true case Some(c) => Holds(t, d, c)) <==> PartsHold(t, d, p)
  {
    var all := p.must + Wrapped(p.mustNot);
    SplitAll(t, d, p.must, Wrapped(p.mustNot));
    forall i | 0 <= i < |p.mustNot|
      ensures Holds(t, d, Wrapped(p.mustNot)[i]) <==> !Holds(t, d, p.mustNot[i])
    {
      SingleHolds(t, d, p.mustNot[i]);
      assert Wrapped(p.mustNot)[i] == Group([], [p.mustNot[i]]);
    }
    assert AllHold(t, d, Wrapped(p.mustNot)) <==> NoneHold(t, d, p.mustNot);
    if all == [] {
      assert p.must == [] && Wrapped(p.mustNot) == [];
    } else {
      assert Holds(t, d, Group(all, [])) <==> AllHold(t, d, all);
    }
  }

  // ---------------------------------------------------------------- ranges

  /** The backend's reading of a range: the interval the walk compiled. */
  predicate CompiledReading(t: Dates, v: Json, bounds: Entries) {
    var interval := CompiledInterval(bounds, bounds);
    interval.Some? && InInterval(t, v, interval.value)
  }

  function CompiledRanges(t: Dates): Reading {
    (v: Json, bounds: Entries) => CompiledReading(t, v, bounds)
  }

  /** The compiled interval implies every bound, those an operator of a later key replaced included; and
      there is a bound, unless the backend lets dates into a range without one. */
  predicate RangeFaithful(t: Dates, bounds: Entries) {
    var interval := CompiledInterval(bounds, bounds);
    interval.Some? && (Constrained(bounds) || t.unbounded)
    && forall x :: x in bounds && BoundOp(x.key, bounds).Some? ==>
         Covers(t, interval.value, BoundOp(x.key, bounds).value, x.value)
  }

  /** The compiled interval and the one the evaluator reads imply each other, and the backend lets no
      date into it for want of a bound. */
  predicate RangeAgrees(t: Dates, bounds: Entries) {
    var interval := CompiledInterval(bounds, bounds);
    interval.Some? && (IsBounded(interval.value) || !t.unbounded)
    && CoversAll(NumbersOnly(t), interval.value, PlainInterval(bounds))
    && CoversAll(NumbersOnly(t), PlainInterval(bounds), interval.value)
  }

  /** Whatever the compiled interval bounds, some entry of the range does. */
  lemma {:induction false} IntervalIsFromBounds(bounds: seq<Bound>, all: seq<Bound>, op: RangeOp)
    requires CompiledInterval(bounds, all).Some? && op in CompiledInterval(bounds, all).value
    ensures exists x :: x in bounds && BoundOp(x.key, all) == Some(op) && x.value == CompiledInterval(bounds, all).value[op]
    decreases |bounds|
  {
    hide BoundOp, Ignored;
    var front, last := bounds[..|bounds| - 1], bounds[|bounds| - 1];
    assert last in bounds && forall x :: x in front ==> x in bounds;
    if Ignored(last.key) || BoundOp(last.key, all) != Some(op) {
      IntervalIsFromBounds(front, all, op);
    }
  }

  /** A faithful range compiles to its meaning. */
  lemma FaithfulRange(t: Dates, bounds: Entries, v: Json)
    requires RangeFaithful(t, bounds)
    ensures CompiledReading(t, v, bounds) <==> EveryBound(t, v, bounds)
  {
    var interval := CompiledInterval(bounds, bounds).value;
    hide CompiledInterval, BoundOp, Within, Covers, PointOf;
    if CompiledReading(t, v, bounds) {
      forall x | x in bounds && BoundOp(x.key, bounds).Some?
        ensures Within(t, BoundOp(x.key, bounds).value, v, x.value)
      {
        CoveredHolds(t, interval, BoundOp(x.key, bounds).value, x.value, v);
      }
    }
    if EveryBound(t, v, bounds) {
      if !t.unbounded {
        var x :| x in bounds && BoundOp(x.key, bounds).Some? && !x.value.Null?;
        if !IsBounded(interval) {
          BoundlessCovers(t, interval, BoundOp(x.key, bounds).value, x.value);
        }
      }
      forall op | op in interval
        ensures Within(t, op, v, interval[op])
      {
        IntervalIsFromBounds(bounds, bounds, op);
      }
    }
  }

  lemma BoundlessCovers(t: Dates, interval: Interval, op: RangeOp, bound: Json)
    requires !IsBounded(interval) && !bound.Null?
    ensures !Covers(t, interval, op, bound)
  {
    assert forall o :: o in interval ==> PointOf(t, interval[o]).None?;
  }

  /** And no other does: some value tells them apart. */
  lemma UnfaithfulRange(t: Dates, bounds: Entries) returns (v: Json)
    requires Dense(t) && CompiledInterval(bounds, bounds).Some? && !RangeFaithful(t, bounds)
    ensures !(CompiledReading(t, v, bounds) <==> EveryBound(t, v, bounds))
  {
    var interval := CompiledInterval(bounds, bounds).value;
    if !Constrained(bounds) && !t.unbounded {
      var s :| t.instant(s).Some?;
      v := Str(s);
      hide CompiledInterval, BoundOp, Dense;
      assert EveryBound(t, v, bounds);
      forall op | op in interval
        ensures interval[op].Null?
      {
        IntervalIsFromBounds(bounds, bounds, op);
      }
    } else {
      hide CompiledInterval, Covers, Dense, BoundOp;
      var x :| x in bounds && BoundOp(x.key, bounds).Some? && !Covers(t, interval, BoundOp(x.key, bounds).value, x.value);
      v := UncoveredBreaks(t, interval, BoundOp(x.key, bounds).value, x.value);
      BreaksEvery(t, bounds, x, v);
    }
  }

  /** A range compiles to its meaning, for every value, exactly when it is faithful. */
  lemma RangeMeansIff(t: Dates, bounds: Entries)
    requires Dense(t) && CompiledInterval(bounds, bounds).Some?
    ensures (forall v :: CompiledReading(t, v, bounds) <==> EveryBound(t, v, bounds)) <==> RangeFaithful(t, bounds)
  {
    hide *;
    if RangeFaithful(t, bounds) {
      forall v
        ensures CompiledReading(t, v, bounds) <==> EveryBound(t, v, bounds)
      {
        FaithfulRange(t, bounds, v);
      }
    } else {
      var v := UnfaithfulRange(t, bounds);
    }
  }

  lemma AgreeingRange(t: Dates, bounds: Entries, v: Json)
    requires RangeAgrees(t, bounds)
    ensures CompiledReading(t, v, bounds) <==> PlainBounds(v, bounds)
  {
    var interval, plain := CompiledInterval(bounds, bounds).value, PlainInterval(bounds);
    hide CoversAll, CompiledInterval, PlainInterval, PlainBounds, InInterval;
    PlainIsInterval(t, bounds, v);
    ReadsNumbers(t, interval, v);
    if InInterval(NumbersOnly(t), v, interval) {
      CoveredInside(NumbersOnly(t), interval, plain, v);
    }
    if InInterval(NumbersOnly(t), v, plain) {
      CoveredInside(NumbersOnly(t), plain, interval, v);
    }
  }

  lemma DisagreeingRange(t: Dates, bounds: Entries)
    requires Dense(t) && CompiledInterval(bounds, bounds).Some? && !RangeAgrees(t, bounds)
    ensures exists v :: !(CompiledReading(t, v, bounds) <==> PlainBounds(v, bounds))
  {
    var interval, plain := CompiledInterval(bounds, bounds).value, PlainInterval(bounds);
    if !IsBounded(interval) && t.unbounded {
      var s :| t.instant(s).Some?;
      hide CompiledInterval, PlainInterval, Dense;
      assert CompiledReading(t, Str(s), bounds) && !PlainBounds(Str(s), bounds);
    } else {
      StillDense(t);
      SameIntervalsIff(NumbersOnly(t), interval, plain);
      hide CoversAll, CompiledInterval, PlainInterval, PlainBounds, InInterval, Dense;
      var v :| !(InInterval(NumbersOnly(t), v, interval) <==> InInterval(NumbersOnly(t), v, plain));
      ReadsNumbers(t, interval, v);
      PlainIsInterval(t, bounds, v);
    }
  }

  lemma RangeAgreesIff(t: Dates, bounds: Entries)
    requires Dense(t) && CompiledInterval(bounds, bounds).Some?
    ensures (forall v :: CompiledReading(t, v, bounds) <==> PlainBounds(v, bounds)) <==> RangeAgrees(t, bounds)
  {
    hide *;
    if RangeAgrees(t, bounds) {
      forall v
        ensures CompiledReading(t, v, bounds) <==> PlainBounds(v, bounds)
      {
        AgreeingRange(t, bounds, v);
      }
    } else {
      DisagreeingRange(t, bounds);
    }
  }

  lemma TwoBounds(x: Bound, y: Bound)
    requires x.key == "from" && y.key == "gte"
    ensures KeysAscend([x, y])
    ensures BoundOp(x.key, [x, y]) == Some(Gte) && BoundOp(y.key, [x, y]) == Some(Gte)
    ensures CompiledInterval([x, y], [x, y]) == Some(map[Gte := y.value])
  {
    var bounds := [x, y];
    assert bounds[..1] == [x] && [x][..0] == [];
    assert Flag([], "include_lower") && Flag([x], "include_lower") && Flag(bounds, "include_lower");
    assert CompiledInterval([], bounds) == Some(map[]);
    assert CompiledInterval([x], bounds) == Some(map[Gte := x.value]);
    assert map[Gte := x.value][Gte := y.value] == map[Gte := y.value];
  }

  /** `from` and `gte` meet in one operator and `gte`, read later, wins: of any two numbers, and of any
      two dates, a stricter `from` is lost. */
  lemma BoundLost(t: Dates, low: Json, middle: Json, high: Json)
    requires IsBelow(t, low, middle) && IsBelow(t, middle, high)
    ensures var bounds := [Bound("from", high), Bound("gte", low)];
            && KeysAscend(bounds) && CompiledReading(t, middle, bounds)
            && !EveryBound(t, middle, bounds) && !RangeFaithful(t, bounds)
  {
    var x, y := Bound("from", high), Bound("gte", low);
    var bounds: seq<Bound> := [x, y];
    TwoBounds(x, y);
    assert x in bounds;
    assert !Within(t, Gte, middle, high) && Within(t, Gte, middle, low);
    var interval := CompiledInterval(bounds, bounds).value;
    assert Gte in interval && IsBounded(interval);
    if RangeFaithful(t, bounds) {
      FaithfulRange(t, bounds, middle);
    }
    hide CompiledInterval, BoundOp, Within, PointOf, RangeFaithful;
  }

  predicate IsBelow(t: Dates, v: Json, w: Json) {
    var p, q := PointOf(t, v), PointOf(t, w);
    p.Some? && q.Some? && p.value.scale == q.value.scale && p.value.x < q.value.x
  }

  /** A looser one does no harm. */
  lemma BoundKept(t: Dates, low: Json, high: Json)
    requires IsBelow(t, low, high)
    ensures var bounds := [Bound("from", low), Bound("gte", high)]; KeysAscend(bounds) && RangeFaithful(t, bounds)
  {
    var x, y := Bound("from", low), Bound("gte", high);
    var bounds: seq<Bound> := [x, y];
    TwoBounds(x, y);
    assert x in bounds && !low.Null?;
    GteCovers(t, low, high);
    hide CompiledInterval, BoundOp, Covers, PointOf;
    assert forall z :: z in bounds ==> z == x || z == y;
  }

  lemma GteCovers(t: Dates, low: Json, high: Json)
    requires IsBelow(t, low, high)
    ensures Covers(t, map[Gte := high], Gte, low) && Covers(t, map[Gte := high], Gte, high)
  {
    var interval: Interval := map[Gte := high];
    assert Gte in interval && !interval[Gte].Null?;
    assert HasScale(t, interval, PointOf(t, high).value.scale);
  }

  /** The concrete ranges: a number and a date that are lost, a number that is kept. */
  lemma CollidingBounds(t: Dates)
    requires IsBefore(t, JANUARY, MARCH) && IsBefore(t, MARCH, JUNE)
    ensures var bounds := [Bound("from", Int(5)), Bound("gte", Int(3))];
            KeysAscend(bounds) && CompiledReading(t, Int(4), bounds) && !EveryBound(t, Int(4), bounds) && !RangeFaithful(t, bounds)
    ensures var bounds := [Bound("from", Str(JUNE)), Bound("gte", Str(JANUARY))];
            KeysAscend(bounds) && CompiledReading(t, Str(MARCH), bounds) && !EveryBound(t, Str(MARCH), bounds) && !RangeFaithful(t, bounds)
    ensures var bounds := [Bound("from", Int(3)), Bound("gte", Int(5))];
            KeysAscend(bounds) && RangeFaithful(t, bounds)
  {
    assert (3 as real) < (4 as real) < (5 as real);
    assert IsBelow(t, Int(3), Int(4)) && IsBelow(t, Int(4), Int(5)) && IsBelow(t, Int(3), Int(5));
    assert IsBelow(t, Str(JANUARY), Str(MARCH)) && IsBelow(t, Str(MARCH), Str(JUNE));
    hide *;
    BoundLost(t, Int(3), Int(4), Int(5));
    BoundLost(t, Str(JANUARY), Str(MARCH), Str(JUNE));
    BoundKept(t, Int(3), Int(5));
  }

  const JANUARY: string := "2024-01-01T00:00:00Z"
  const MARCH: string := "2024-03-01T00:00:00Z"
  const JUNE: string := "2024-06-01T00:00:00Z"

  /** Query filters honour `from` and `to`; the reference evaluator does not look at them. */
  lemma FromIsOnlyCompiled(t: Dates, d: Hit)
    requires d.source == Obj(map["n" := Int(1)])
    ensures var q := Query([Range("n", [Bound("from", Int(3))])]);
            && SourceMatches(d.source, q)
            && Walk(q).Some? && !PartsHold(t, d, Walk(q).value)
  {
    var x := Bound("from", Int(3));
    var c := Range("n", [x]);
    var q := Query([c]);
    PlainField(d.source, "n");
    assert [x][..0] == [] && [c][..0] == [];
    assert Flag([x], "include_lower");
    assert CompiledInterval([], [x]) == Some(map[]);
    assert CompiledInterval([x], [x]) == Some(map[Gte := Int(3)]);
    assert IsFirst(q.clauses, 0) && PlainBounds(Int(1), [x]) && ClauseMatches(d.source, c);
    var cond := InRange("n", map[Gte := Int(3)]);
    AppendNothing(WalkClause(c));
    assert WalkClauses([]) == Some(NOTHING);
    assert Walk(q) == Some(Parts([cond], [], 0));
    assert !Within(t, Gte, Int(1), Int(3)) by { assert (1 as real) < (3 as real); }
    var interval: Interval := map[Gte := Int(3)];
    assert Gte in interval && !InInterval(t, Int(1), interval);
    assert SourceField(d.source, "n") == Some(Int(1));
    assert !FieldHas(d.source, "n", (v: Json) => InInterval(t, v, interval));
    assert !Holds(t, d, cond);
    SingleHolds(t, d, cond);
  }

  // ---------------------------------------------------------------- the theorem

  lemma {:induction false} WalkMeans(t: Dates, m: Matcher, d: Hit, valid: FieldPattern -> bool, q: Query)
    requires Walk(q).Some? && Collect(valid, q).Some?
    ensures MeaningUnder(CompiledRanges(t), m, d, q) <==> PartsHold(t, d, Walk(q).value) && AllMatch(m, d, Collect(valid, q).value)
    decreases q
  {
    ClausesMean(t, m, d, valid, q.clauses);
  }

  lemma {:induction false} ClausesMean(t: Dates, m: Matcher, d: Hit, valid: FieldPattern -> bool, clauses: seq<Clause>)
    requires WalkClauses(clauses).Some? && CollectClauses(valid, clauses).Some?
    ensures (forall i :: 0 <= i < |clauses| ==> ClauseMeaning(CompiledRanges(t), m, d, clauses[i]))
       <==> PartsHold(t, d, WalkClauses(clauses).value) && AllMatch(m, d, CollectClauses(valid, clauses).value)
    decreases clauses
  {
    hide ClauseMeaning, WalkClause, CollectClause, PartsHold, AllMatch, Concat, Append;
    if clauses == [] {
      NoClauses(t, m, d);
    } else {
      var front, last := clauses[..|clauses| - 1], clauses[|clauses| - 1];
      AppendHolds(t, d, WalkClauses(front), WalkClause(last));
      ConcatMatches(m, d, CollectClauses(valid, front), CollectClause(valid, last));
      AppendSome(WalkClauses(front), WalkClause(last));
      ConcatSome(CollectClauses(valid, front), CollectClause(valid, last));
      ClausesMean(t, m, d, valid, front);
      ClauseMeans(t, m, d, valid, last);
      assert clauses == front + [last];
    }
  }

  lemma NoClauses(t: Dates, m: Matcher, d: Hit)
    ensures PartsHold(t, d, NOTHING) && AllMatch(m, d, [])
  {
  }

  lemma AppendSome(a: Option<Parts>, b: Option<Parts>)
    requires Append(a, b).Some?
    ensures a.Some? && b.Some?
  {
  }

  lemma ConcatSome(a: Option<seq<FieldPattern>>, b: Option<seq<FieldPattern>>)
    requires Concat(a, b).Some?
    ensures a.Some? && b.Some?
  {
  }

  lemma {:induction false} ClauseMeans(t: Dates, m: Matcher, d: Hit, valid: FieldPattern -> bool, c: Clause)
    requires WalkClause(c).Some? && CollectClause(valid, c).Some?
    ensures ClauseMeaning(CompiledRanges(t), m, d, c) <==> PartsHold(t, d, WalkClause(c).value) && AllMatch(m, d, CollectClause(valid, c).value)
    decreases c
  {
    match c {
      case Range(field, bounds) => RangeClauseMeans(t, m, d, field, bounds);
      case Bool(b) => BoolMeans(t, m, d, valid, b);
      case Term(field, value) => SingleHolds(t, d, WalkClause(c).value.must[0]);
      case Terms(field, values) => SingleHolds(t, d, WalkClause(c).value.must[0]);
      case Exists(field) => SingleHolds(t, d, WalkClause(c).value.must[0]);
      case Ids(ids) => SingleHolds(t, d, WalkClause(c).value.must[0]);
      case Pattern(p) => assert [Compatible(p)][0] == Compatible(p);
      case MatchAll =>
      case Text =>
    }
  }

  lemma SingleHolds(t: Dates, d: Hit, c: Condition)
    ensures PartsHold(t, d, Parts([c], [], 0)) <==> Holds(t, d, c)
    ensures Holds(t, d, Group([], [c])) <==> !Holds(t, d, c)
  {
    assert [c][0] == c;
  }

  lemma RangeClauseMeans(t: Dates, m: Matcher, d: Hit, field: string, bounds: Entries)
    requires WalkClause(Range(field, bounds)).Some?
    ensures ClauseMeaning(CompiledRanges(t), m, d, Range(field, bounds)) <==> PartsHold(t, d, WalkClause(Range(field, bounds)).value)
  {
    var interval := CompiledInterval(bounds, bounds).value;
    var reading := CompiledRanges(t);
    hide InInterval, CompiledInterval;
    forall v: Json
      ensures reading(v, bounds) <==> InInterval(t, v, interval)
    {
      assert reading(v, bounds) == CompiledReading(t, v, bounds);
    }
    SamePredicate(d.source, CompatibilityField(field), (v: Json) => reading(v, bounds), (v: Json) => InInterval(t, v, interval));
    SingleHolds(t, d, InRange(CompatibilityField(field), interval));
  }

  lemma {:induction false} BoolMeans(t: Dates, m: Matcher, d: Hit, valid: FieldPattern -> bool, b: BoolQuery)
    requires WalkClause(Clause.Bool(b)).Some? && CollectClause(valid, Clause.Bool(b)).Some?
    ensures ClauseMeaning(CompiledRanges(t), m, d, Clause.Bool(b)) <==>
            PartsHold(t, d, WalkClause(Clause.Bool(b)).value) && AllMatch(m, d, CollectClause(valid, Clause.Bool(b)).value)
    decreases b
  {
    hide WalkAll, Nested, CollectAll, MeaningUnder, PartsHold, AllMatch;
    var must, filter := WalkAll(b.must), WalkAll(b.filter);
    var negated, should := Nested(b.mustNot), Nested(b.should);
    AppendHolds(t, d, Append(must, filter), Append(NegatedParts(negated), ShouldParts(b, should)));
    AppendHolds(t, d, must, filter);
    AppendHolds(t, d, NegatedParts(negated), ShouldParts(b, should));
    ConcatMatches(m, d, Concat(CollectAll(valid, b.must), CollectAll(valid, b.filter)),
                  Concat(NoneAllowed(CollectAll(valid, b.should)), NoneAllowed(CollectAll(valid, b.mustNot))));
    ConcatMatches(m, d, CollectAll(valid, b.must), CollectAll(valid, b.filter));
    ConcatMatches(m, d, NoneAllowed(CollectAll(valid, b.should)), NoneAllowed(CollectAll(valid, b.mustNot)));
    NothingMatches(m, d);
    ListMeans(t, m, d, valid, b.must);
    ListMeans(t, m, d, valid, b.filter);
    NestedMeans(t, m, d, valid, b.mustNot);
    NestedMeans(t, m, d, valid, b.should);
    NegatedHold(t, m, d, b.mustNot, negated.value);
    ShouldHold(t, m, d, b, should.value);
  }

  lemma NothingMatches(m: Matcher, d: Hit)
    ensures AllMatch(m, d, [])
  {
  }

  lemma {:induction false} ListMeans(t: Dates, m: Matcher, d: Hit, valid: FieldPattern -> bool, qs: seq<Query>)
    requires WalkAll(qs).Some? && CollectAll(valid, qs).Some?
    ensures (forall i :: 0 <= i < |qs| ==> MeaningUnder(CompiledRanges(t), m, d, qs[i]))
       <==> PartsHold(t, d, WalkAll(qs).value) && AllMatch(m, d, CollectAll(valid, qs).value)
    decreases qs
  {
    if qs != [] {
      var front, last := qs[..|qs| - 1], qs[|qs| - 1];
      AppendHolds(t, d, WalkAll(front), Walk(last));
      ConcatMatches(m, d, CollectAll(valid, front), Collect(valid, last));
      ListMeans(t, m, d, valid, front);
      WalkMeans(t, m, d, valid, last);
      assert qs == front + [last];
    }
  }

  /** Each nested clause, compiled on its own, holds exactly when it is meant. */
  lemma {:induction false} NestedMeans(t: Dates, m: Matcher, d: Hit, valid: FieldPattern -> bool, qs: seq<Query>)
    requires Nested(qs).Some? && CollectAll(valid, qs) == Some([])
    ensures |Nested(qs).value| == |qs|
    ensures forall i :: 0 <= i < |qs| ==> (Holds(t, d, Nested(qs).value[i]) <==> MeaningUnder(CompiledRanges(t), m, d, qs[i]))
    decreases qs
  {
    hide Holds, MeaningUnder, PartsHold, AllMatch, Walk, Collect, ConditionOf;
    if qs != [] {
      var front, last := qs[..|qs| - 1], qs[|qs| - 1];
      assert Concat(CollectAll(valid, front), Collect(valid, last)) == Some([]);
      assert CollectAll(valid, front) == Some([]) && Collect(valid, last) == Some([]);
      NestedMeans(t, m, d, valid, front);
      WalkMeans(t, m, d, valid, last);
      ConditionHolds(t, d, Walk(last).value);
      NothingMatches(m, d);
      assert qs == front + [last];
    }
  }

  lemma NegatedHold(t: Dates, m: Matcher, d: Hit, qs: seq<Query>, cs: seq<Condition>)
    requires |cs| == |qs| && forall i :: 0 <= i < |qs| ==> (Holds(t, d, cs[i]) <==> MeaningUnder(CompiledRanges(t), m, d, qs[i]))
    ensures PartsHold(t, d, Parts([], cs, 0)) <==> forall i :: 0 <= i < |qs| ==> !MeaningUnder(CompiledRanges(t), m, d, qs[i])
  {
    hide MeaningUnder, Holds;
  }

  lemma {:induction false} SameCounts(t: Dates, m: Matcher, d: Hit, qs: seq<Query>, cs: seq<Condition>)
    requires |cs| == |qs| && forall i :: 0 <= i < |qs| ==> (Holds(t, d, cs[i]) <==> MeaningUnder(CompiledRanges(t), m, d, qs[i]))
    ensures CountHolds(t, d, cs) == CountMeaning(CompiledRanges(t), m, d, qs)
    decreases |qs|
  {
    hide MeaningUnder, Holds;
    if qs != [] {
      SameCounts(t, m, d, qs[..|qs| - 1], cs[..|cs| - 1]);
    }
  }

  lemma ShouldHold(t: Dates, m: Matcher, d: Hit, b: BoolQuery, cs: seq<Condition>)
    requires |cs| == |b.should| && forall i :: 0 <= i < |cs| ==> (Holds(t, d, cs[i]) <==> MeaningUnder(CompiledRanges(t), m, d, b.should[i]))
    ensures PartsHold(t, d, ShouldParts(b, Some(cs)).value) <==> CountMeaning(CompiledRanges(t), m, d, b.should) >= MinimumOf(b)
  {
    SameCounts(t, m, d, b.should, cs);
    if MinimumOf(b) > 0 {
      SingleHolds(t, d, MinShould(cs, MinimumOf(b)));
    }
  }

  /** What a search keeps: past the backend filter, if any, and past every gateway pattern. */
  predicate Selects(t: Dates, m: Matcher, d: Hit, filter: Option<Condition>, patterns: seq<FieldPattern>) {
    (filter.Some? ==> Holds(t, d, filter.value)) && AllMatch(m, d, patterns)
  }

  /** The backend filter and the patterns select by the query's meaning under the compiled ranges. */
  lemma SelectsByCompiledRanges(t: Dates, m: Matcher, d: Hit, valid: FieldPattern -> bool, q: Query)
    requires QueryFilter(q).Some? && Collect(valid, q).Some?
    ensures Selects(t, m, d, QueryFilter(q).value, Collect(valid, q).value) <==> MeaningUnder(CompiledRanges(t), m, d, q)
  {
    WalkMeans(t, m, d, valid, q);
    FilterHolds(t, d, Walk(q).value);
  }

  /** Compilation preserves meaning, for every query both passes accept and every document, where
      each range's bounds follow from the interval it compiles to. */
  lemma CompilationPreservesMeaning(t: Dates, m: Matcher, d: Hit, valid: FieldPattern -> bool, q: Query)
    requires QueryFilter(q).Some? && Collect(valid, q).Some?
    requires RangesSatisfy(q, (bounds: Entries) => RangeFaithful(t, bounds))
    ensures Selects(t, m, d, QueryFilter(q).value, Collect(valid, q).value) <==> Meaning(t, m, d, q)
  {
    var good := (bounds: Entries) => RangeFaithful(t, bounds);
    SelectsByCompiledRanges(t, m, d, valid, q);
    forall bounds: Entries, v | good(bounds)
      ensures CompiledRanges(t)(v, bounds) <==> EveryReading(t)(v, bounds)
    {
      FaithfulRange(t, bounds, v);
    }
    SameMeaning(CompiledRanges(t), EveryReading(t), good, m, d, q);
  }

  predicate FilterAdmits(t: Dates, d: Hit, filter: Option<Condition>) {
    filter.Some? ==> Holds(t, d, filter.value)
  }

  /** Validated filters always compile and collect no pattern, and select by the compiled ranges. */
  lemma AdmitsByCompiledRanges(t: Dates, m: Matcher, d: Hit, q: Query)
    requires Validated(q)
    ensures QueryFilter(q).Some?
    ensures FilterAdmits(t, d, QueryFilter(q).value) <==> MeaningUnder(CompiledRanges(t), m, d, q)
  {
    var valid: FieldPattern -> bool := p => true;
    ValidatedCompiles(valid, q);
    SelectsByCompiledRanges(t, m, d, valid, q);
    NothingMatches(m, d);
  }

  /** The filter compiles and admits a document exactly when the evaluator the gateway runs itself
      accepts its source. */
  predicate FilterAgrees(t: Dates, d: Hit, q: Query) {
    QueryFilter(q).Some? && (FilterAdmits(t, d, QueryFilter(q).value) <==> SourceMatches(d.source, q))
  }

  /** Validated filters always compile, and agree with the evaluator where both read the same interval
      from each range. */
  lemma CompiledFilterAgreesWithEvaluator(t: Dates, d: Hit, q: Query)
    requires Validated(q)
    ensures QueryFilter(q).Some?
    ensures RangesSatisfy(q, (bounds: Entries) => RangeAgrees(t, bounds)) ==> FilterAgrees(t, d, q)
  {
    var m: Matcher := (p, s) => false;
    var good := (bounds: Entries) => RangeAgrees(t, bounds);
    AdmitsByCompiledRanges(t, m, d, q);
    SourceMatchesIsPlainMeaning(m, d, q);
    forall bounds: Entries, v | good(bounds)
      ensures CompiledRanges(t)(v, bounds) <==> PlainReading()(v, bounds)
    {
      AgreeingRange(t, bounds, v);
    }
    if RangesSatisfy(q, good) {
      SameMeaning(CompiledRanges(t), PlainReading(), good, m, d, q);
    }
  }

  // ---------------------------------------------------------------- the conditions are exact

  /** A document with a given value at a dotted path and nothing else. */
  function Nest(path: seq<string>, v: Json): Json {
    if path == [] then v else Obj(map[path[0] := Nest(path[1..], v)])
  }

  lemma {:induction false} NestHolds(path: seq<string>, v: Json)
    ensures Descend(Nest(path, v), path) == Some(v)
  {
    if path != [] {
      NestHolds(path[1..], v);
    }
  }

  /** The document on which a range is judged by one value. */
  function Probe(field: string, v: Json): Hit {
    Hit("", Nest(Split(CompatibilityField(field), '.'), v))
  }

  lemma RangeOnProbe(r: Reading, m: Matcher, field: string, bounds: Entries, v: Json)
    requires !v.Arr?
    ensures MeaningUnder(r, m, Probe(field, v), Query([Range(field, bounds)])) <==> r(v, bounds)
  {
    var d, path := Probe(field, v), CompatibilityField(field);
    var q := Query([Range(field, bounds)]);
    NestHolds(Split(path, '.'), v);
    assert SourceField(d.source, path) == Some(v);
    assert ClauseMeaning(r, m, d, q.clauses[0]) <==> r(v, bounds);
  }

  /** Two readings of a range select the same documents exactly when they accept the same values. */
  lemma ReadingsDiffer(r: Reading, s: Reading, m: Matcher, field: string, bounds: Entries)
    requires forall v :: r(v, bounds) || s(v, bounds) ==> !v.Arr?
    ensures (forall d :: MeaningUnder(r, m, d, Query([Range(field, bounds)])) <==> MeaningUnder(s, m, d, Query([Range(field, bounds)])))
       <==> forall v :: r(v, bounds) <==> s(v, bounds)
  {
    var q := Query([Range(field, bounds)]);
    if forall v :: r(v, bounds) <==> s(v, bounds) {
      forall d
        ensures MeaningUnder(r, m, d, q) <==> MeaningUnder(s, m, d, q)
      {
        SamePredicate(d.source, CompatibilityField(field), (v: Json) => r(v, bounds), (v: Json) => s(v, bounds));
        assert ClauseMeaning(r, m, d, q.clauses[0]) <==> ClauseMeaning(s, m, d, q.clauses[0]);
      }
    } else {
      var v :| !(r(v, bounds) <==> s(v, bounds));
      RangeOnProbe(r, m, field, bounds, v);
      RangeOnProbe(s, m, field, bounds, v);
    }
  }

  /** A range query that compiles, of numbers or of dates, selects the documents it means, all of them,
      exactly when its bounds follow from the compiled interval. */
  lemma CompilationExact(t: Dates, m: Matcher, valid: FieldPattern -> bool, field: string, bounds: Entries)
    requires Dense(t)
    ensures var q := Query([Range(field, bounds)]);
            QueryFilter(q).Some? ==>
              Collect(valid, q).Some?
              && ((forall d :: Selects(t, m, d, QueryFilter(q).value, Collect(valid, q).value) <==> Meaning(t, m, d, q)) <==> RangeFaithful(t, bounds))
  {
    var q := Query([Range(field, bounds)]);
    RangeAlone(valid, field, bounds);
    if QueryFilter(q).Some? {
      var compiled, every := CompiledRanges(t), EveryReading(t);
      ReadingsAccept(t, bounds);
      RangeMeansIff(t, bounds);
      ReadingsDiffer(compiled, every, m, field, bounds);
      hide *;
      if RangeFaithful(t, bounds) {
        forall d
          ensures Selects(t, m, d, QueryFilter(q).value, Collect(valid, q).value) <==> Meaning(t, m, d, q)
        {
          SelectsByReadings(t, m, d, valid, q);
        }
      } else {
        var d :| !(MeaningUnder(compiled, m, d, q) <==> MeaningUnder(every, m, d, q));
        SelectsByReadings(t, m, d, valid, q);
      }
    }
  }

  lemma SelectsByReadings(t: Dates, m: Matcher, d: Hit, valid: FieldPattern -> bool, q: Query)
    requires QueryFilter(q).Some? && Collect(valid, q).Some?
    ensures (Selects(t, m, d, QueryFilter(q).value, Collect(valid, q).value) <==> Meaning(t, m, d, q))
       <==> (MeaningUnder(CompiledRanges(t), m, d, q) <==> MeaningUnder(EveryReading(t), m, d, q))
  {
    SelectsByCompiledRanges(t, m, d, valid, q);
  }

  /** The three readings as functions. */
  lemma ReadingsAccept(t: Dates, bounds: Entries)
    ensures forall v :: CompiledRanges(t)(v, bounds) <==> CompiledReading(t, v, bounds)
    ensures forall v :: EveryReading(t)(v, bounds) <==> EveryBound(t, v, bounds)
    ensures forall v :: PlainReading()(v, bounds) <==> PlainBounds(v, bounds)
    ensures forall v :: CompiledReading(t, v, bounds) || EveryBound(t, v, bounds) || PlainBounds(v, bounds) ==> !v.Arr?
  {
    hide CompiledInterval;
  }

  lemma RangeAlone(valid: FieldPattern -> bool, field: string, bounds: Entries)
    ensures var q := Query([Range(field, bounds)]);
            Collect(valid, q).Some? && (QueryFilter(q).Some? <==> CompiledInterval(bounds, bounds).Some?)
  {
    var q := Query([Range(field, bounds)]);
    var c := q.clauses[0];
    assert q.clauses == [c] && q.clauses[..0] == [];
    ConcatNothing(CollectClause(valid, c));
    AppendNothing(WalkClause(c));
    assert WalkClauses(q.clauses[..0]) == Some(NOTHING) && CollectClauses(valid, q.clauses[..0]) == Some([]);
    assert Walk(q) == WalkClause(c) && Collect(valid, q) == CollectClause(valid, c);
  }

  /** A validated range, `from` and `to` included, filters as the evaluator judges, on all documents,
      exactly when the compiled interval and the plain bounds imply each other. */
  lemma AgreementExact(t: Dates, field: string, bounds: Entries)
    requires Dense(t) && Validated(Query([Range(field, bounds)]))
    ensures (forall d :: FilterAgrees(t, d, Query([Range(field, bounds)]))) <==> RangeAgrees(t, bounds)
  {
    var q := Query([Range(field, bounds)]);
    var m: Matcher := (p, s) => false;
    var compiled, plain := CompiledRanges(t), PlainReading();
    AdmitsByCompiledRanges(t, m, Probe(field, Null), q);
    RangeAlone(p => true, field, bounds);
    RangeAgreesIff(t, bounds);
    ReadingsAccept(t, bounds);
    ReadingsDiffer(compiled, plain, m, field, bounds);
    hide *;
    if RangeAgrees(t, bounds) {
      forall d
        ensures FilterAgrees(t, d, q)
      {
        AgreesByReadings(t, m, d, q);
      }
    } else {
      var d :| !(MeaningUnder(compiled, m, d, q) <==> MeaningUnder(plain, m, d, q));
      AgreesByReadings(t, m, d, q);
    }
  }

  lemma AgreesByReadings(t: Dates, m: Matcher, d: Hit, q: Query)
    requires Validated(q)
    ensures FilterAgrees(t, d, q) <==> (MeaningUnder(CompiledRanges(t), m, d, q) <==> MeaningUnder(PlainReading(), m, d, q))
  {
    AdmitsByCompiledRanges(t, m, d, q);
    SourceMatchesIsPlainMeaning(m, d, q);
  }

  lemma {:induction false} ValidatedCompiles(valid: FieldPattern -> bool, q: Query)
    requires Validated(q)
    ensures Walk(q).Some? && Walk(q).value.text == 0 && Collect(valid, q) == Some([])
    decreases q
  {
    var c := q.clauses[0];
    ClauseCompiles(valid, c);
    assert q.clauses == [c] && q.clauses[..0] == [];
    AppendNothing(WalkClause(c));
    ConcatNothing(CollectClause(valid, c));
    assert WalkClauses(q.clauses[..0]) == Some(NOTHING);
    assert CollectClauses(valid, q.clauses[..0]) == Some([]);
  }

  lemma {:induction false} ClauseCompiles(valid: FieldPattern -> bool, c: Clause)
    requires ClauseValidated(c)
    ensures WalkClause(c).Some? && WalkClause(c).value.text == 0 && CollectClause(valid, c) == Some([])
    decreases c
  {
    match c {
      case Range(field, bounds) =>
        IntervalExists(bounds, bounds);
      case Bool(b) =>
        ListCompiles(valid, b.must);
        ListCompiles(valid, b.filter);
        ListCompiles(valid, b.mustNot);
        ListCompiles(valid, b.should);
      case _ =>
    }
  }

  lemma {:induction false} IntervalExists(bounds: seq<Bound>, all: seq<Bound>)
    requires forall x :: x in bounds ==> BoundOp(x.key, all).Some? || Ignored(x.key)
    ensures CompiledInterval(bounds, all).Some?
    decreases |bounds|
  {
    if bounds != [] {
      var front := bounds[..|bounds| - 1];
      assert forall x :: x in front ==> x in bounds;
      IntervalExists(front, all);
      assert bounds[|bounds| - 1] in bounds;
    }
  }

  lemma {:induction false} ListCompiles(valid: FieldPattern -> bool, qs: seq<Query>)
    requires forall i :: 0 <= i < |qs| ==> Validated(qs[i])
    ensures WalkAll(qs).Some? && WalkAll(qs).value.text == 0 && Nested(qs).Some?
    ensures CollectAll(valid, qs) == Some([])
    decreases qs
  {
    if qs != [] {
      var front, last := qs[..|qs| - 1], qs[|qs| - 1];
      ListCompiles(valid, front);
      ValidatedCompiles(valid, last);
      assert qs == front + [last];
    }
  }

  // ---------------------------------------------------------------- where patterns may stand

  predicate HasPattern(q: Query)
    decreases q
  {
    q.Query? && exists i :: 0 <= i < |q.clauses| && ClauseHasPattern(q.clauses[i])
  }

  predicate ClauseHasPattern(c: Clause)
    decreases c
  {
    match c
    case Pattern(_) => true
    case Bool(b) => AnyPattern(b.must) || AnyPattern(b.filter) || AnyPattern(b.should) || AnyPattern(b.mustNot)
    case _ => false
  }

  predicate AnyPattern(qs: seq<Query>)
    decreases qs
  {
    exists i :: 0 <= i < |qs| && HasPattern(qs[i])
  }

  /** A collected query's patterns are those it contains: none collected, none contained. */
  lemma {:induction false} CollectsWhatItHas(valid: FieldPattern -> bool, q: Query)
    requires Collect(valid, q).Some?
    ensures Collect(valid, q).value != [] <==> HasPattern(q)
    decreases q
  {
    ClausesCollect(valid, q.clauses);
  }

  lemma {:induction false} ClausesCollect(valid: FieldPattern -> bool, clauses: seq<Clause>)
    requires CollectClauses(valid, clauses).Some?
    ensures CollectClauses(valid, clauses).value != [] <==> exists i :: 0 <= i < |clauses| && ClauseHasPattern(clauses[i])
    decreases clauses
  {
    hide ClauseHasPattern, CollectClause;
    if clauses != [] {
      var front, last := clauses[..|clauses| - 1], clauses[|clauses| - 1];
      ClausesCollect(valid, front);
      ClauseCollects(valid, last);
      assert clauses[|front|] == last;
      assert forall i :: 0 <= i < |front| ==> clauses[i] == front[i];
      assert (exists i :: 0 <= i < |front| && ClauseHasPattern(front[i])) ==>
               exists i :: 0 <= i < |front| && ClauseHasPattern(clauses[i]) by {
        if i :| 0 <= i < |front| && ClauseHasPattern(front[i]) {
          assert ClauseHasPattern(clauses[i]);
        }
      }
    }
  }

  lemma {:induction false} ClauseCollects(valid: FieldPattern -> bool, c: Clause)
    requires CollectClause(valid, c).Some?
    ensures CollectClause(valid, c).value != [] <==> ClauseHasPattern(c)
    ensures c.Bool? ==> !AnyPattern(c.b.should) && !AnyPattern(c.b.mustNot)
    decreases c
  {
    match c {
      case Bool(b) =>
        ListCollects(valid, b.must);
        ListCollects(valid, b.filter);
        ListCollects(valid, b.should);
        ListCollects(valid, b.mustNot);
      case _ =>
    }
  }

  lemma {:induction false} ListCollects(valid: FieldPattern -> bool, qs: seq<Query>)
    requires CollectAll(valid, qs).Some?
    ensures CollectAll(valid, qs).value != [] <==> AnyPattern(qs)
    decreases qs
  {
    if qs != [] {
      var front, last := qs[..|qs| - 1], qs[|qs| - 1];
      ListCollects(valid, front);
      CollectsWhatItHas(valid, last);
      assert qs == front + [last];
      assert qs[|front|] == last;
      if AnyPattern(front) {
        var i :| 0 <= i < |front| && HasPattern(front[i]);
        assert qs[i] == front[i];
      }
    }
  }

  /** A pattern under should or must_not is refused, so the two passes never split a query wrongly. */
  lemma MisplacedPatternsAreRefused(valid: FieldPattern -> bool, b: BoolQuery)
    requires AnyPattern(b.should) || AnyPattern(b.mustNot)
    ensures CollectClause(valid, Clause.Bool(b)).None?
  {
    if CollectClause(valid, Clause.Bool(b)).Some? {
      ClauseCollects(valid, Clause.Bool(b));
    }
  }
}
