/** Query bodies, what they mean for one document, the reference evaluator, and the compilation
    to a backend filter plus patterns the gateway checks itself. */
module Queries {
  import opened Options
  import opened Values
  import opened Hits
  import opened Intervals
  import Decimals
  import Markers

  /** A query object's entries, in the order the parser hands them out. */
  datatype Query = NotAnObject | Query(clauses: seq<Clause>)

  datatype Clause =
    | MatchAll
    | Term(field: string, value: Json)
    | Terms(field: string, values: seq<Json>)
    | Range(field: string, bounds: Entries)
    | Exists(field: string)
    | Ids(ids: seq<Json>)
    | Text
    | Pattern(pattern: FieldPattern)
    | Bool(b: BoolQuery)
    | Malformed
    | Unsupported

  /** A single clause stands for a one-element list. */
  datatype BoolQuery = BoolQuery(must: seq<Query>, filter: seq<Query>, mustNot: seq<Query>, should: seq<Query>,
                                 minimum: Option<Json>)

  datatype Bound = Bound(key: string, value: Json)

  /** A JSON object hands its entries out in ascending order of their keys. */
  predicate KeysAscend(bounds: seq<Bound>) {
    forall i, j :: 0 <= i < j < |bounds| ==> CmpString(bounds[i].key, bounds[j].key).Less?
  }

  type Entries = bounds: seq<Bound> | KeysAscend(bounds) witness []

  datatype FieldPattern = FieldPattern(kind: PatternKind, field: string, text: string)
  datatype PatternKind = Regexp | Prefix | Wildcard

  /** Whether one string matches a pattern. */
  type Matcher = (FieldPattern, string) -> bool

  // ---------------------------------------------------------------- leaves, shared by both evaluators

  /** Arrays match when any element does. */
  predicate AnyValue(v: Json, p: Json -> bool)
    decreases v
  {
    if v.Arr? then exists i :: 0 <= i < |v.items| && AnyValue(v.items[i], p) else p(v)
  }

  predicate FieldHas(source: Json, field: string, p: Json -> bool) {
    var v := SourceField(source, field);
    v.Some? && AnyValue(v.value, p)
  }

  predicate FieldExists(source: Json, field: string) {
    match SourceField(source, field)
    case None => false
    case Some(Null) => false
    case Some(Arr(items)) => exists item :: item in items && !item.Null?
    case Some(_) => true
  }

  function TermValue(v: Json): Json {
    match Markers.Get(v, "value") case Some(value) => value case None => v
  }

  function OpOf(key: string): Option<RangeOp> {
    if key == "gt" then Some(Gt) else if key == "gte" then Some(Gte)
    else if key == "lt" then Some(Lt) else if key == "lte" then Some(Lte) else None
  }

  function Compatible(p: FieldPattern): FieldPattern { p.(field := CompatibilityField(p.field)) }

  predicate PatternHolds(m: Matcher, source: Json, p: FieldPattern) {
    FieldHas(source, p.field, (v: Json) => v.Str? && m(p, v.s))
  }

  // ---------------------------------------------------------------- minimum_should_match

  /** Decimal text of an unsigned 64-bit number, an optional plus sign in front. */
  function ParseU64(s: string): Option<nat> {
    var digits := if s != [] && s[0] == '+' then s[1..] else s;
    if digits != [] && Decimals.AllDigits(digits) && Decimals.Val(digits) < U64_END then Some(Decimals.Val(digits)) else None
  }

  function DivCeil(a: nat, b: nat): nat
    requires b > 0
  {
    (a + b - 1) / b
  }

  function ExplicitMinimum(value: Option<Json>, shouldLen: nat): Option<nat> {
    match value
    case Some(Int(i)) => if 0 <= i < U64_END then Some(i) else None
    case Some(Str(s)) =>
      if ParseU64(s).Some? then ParseU64(s)
      else if s != [] && s[|s| - 1] == '%' && ParseU64(s[..|s| - 1]).Some?
      then Some(DivCeil(shouldLen * ParseU64(s[..|s| - 1]).value, 100))
      else None
    case _ => None
  }

  function MinimumShouldMatch(value: Option<Json>, shouldLen: nat, hasRequiredClause: bool): nat {
    if shouldLen == 0 then 0
    else
      var least := if hasRequiredClause then 0 else 1;
      var explicit := ExplicitMinimum(value, shouldLen);
      var wanted := if explicit.Some? then explicit.value else least;
      var raised := if wanted < least then least else wanted;
      if raised > shouldLen then shouldLen else raised
  }

  function Required(b: BoolQuery): bool { b.must != [] || b.filter != [] }

  function MinimumOf(b: BoolQuery): nat {
    MinimumShouldMatch(b.minimum, |b.should|, Required(b))
  }

  /** A percentage up to 100 asks for the least count that is at least that share, and for one
      clause in any case when nothing else is required. */
  lemma PercentIsTheLeastShare(text: string, percent: nat, shouldLen: nat, hasRequiredClause: bool)
    requires ParseU64(text) == Some(percent) && percent <= 100 && shouldLen > 0
    ensures var k := MinimumShouldMatch(Some(Str(text + "%")), shouldLen, hasRequiredClause);
            && k <= shouldLen
            && k * 100 >= shouldLen * percent
            && (k > (if hasRequiredClause then 0 else 1) ==> (k - 1) * 100 < shouldLen * percent)
            && (!hasRequiredClause ==> k >= 1)
  {
    hide ParseU64, DivCeil, ExplicitMinimum;
    var share := shouldLen * percent;
    PercentParsed(text, percent, shouldLen);
    LeastShare(share, shouldLen);
    NoMoreThanAll(percent, shouldLen);
    var c := DivCeil(share, 100);
    var k := MinimumShouldMatch(Some(Str(text + "%")), shouldLen, hasRequiredClause);
    assert k == if c == 0 && !hasRequiredClause then 1 else c;
  }

  lemma NoMoreThanAll(percent: nat, shouldLen: nat)
    requires percent <= 100
    ensures shouldLen * percent <= shouldLen * 100
  {
    assert shouldLen * 100 == shouldLen * percent + shouldLen * (100 - percent);
  }

  lemma PercentParsed(text: string, percent: nat, shouldLen: nat)
    requires ParseU64(text) == Some(percent)
    ensures ExplicitMinimum(Some(Str(text + "%")), shouldLen) == Some(DivCeil(shouldLen * percent, 100))
  {
    var s := text + "%";
    assert s[..|s| - 1] == text && s[|s| - 1] == '%';
    assert ParseU64(s).None? by {
      var digits := if s[0] == '+' then s[1..] else s;
      assert digits[|digits| - 1] == '%';
    }
  }

  lemma LeastShare(share: nat, shouldLen: nat)
    ensures var c := DivCeil(share, 100); c * 100 >= share && (c > 0 ==> (c - 1) * 100 < share)
    ensures share <= shouldLen * 100 ==> DivCeil(share, 100) <= shouldLen
  {
  }

  // ---------------------------------------------------------------- meaning

  /** Elasticsearch's reading of one bound, `from`/`to` with their inclusion flags. */
  function BoundOp(key: string, bounds: seq<Bound>): Option<RangeOp> {
    if key == "from" then Some(if Flag(bounds, "include_lower") then Gte else Gt)
    else if key == "to" then Some(if Flag(bounds, "include_upper") then Lte else Lt)
    else OpOf(key)
  }

  /** Defaults to true. */
  predicate Flag(bounds: seq<Bound>, key: string)
    decreases |bounds|
  {
    if bounds == [] then true
    else if bounds[|bounds| - 1].key == key then
      (if bounds[|bounds| - 1].value.Bool? then bounds[|bounds| - 1].value.b else true)
    else Flag(bounds[..|bounds| - 1], key)
  }

  predicate Ignored(key: string) {
    key in {"include_lower", "include_upper", "boost"}
  }

  predicate EveryBound(t: Dates, actual: Json, bounds: seq<Bound>) {
    PointOf(t, actual).Some?
    && forall x :: x in bounds && BoundOp(x.key, bounds).Some? ==> Within(t, BoundOp(x.key, bounds).value, actual, x.value)
  }

  /** How one value is checked against the bounds of a range. */
  type Reading = (Json, Entries) -> bool

  /** A query object holds when every entry does. Text entries select by ranking, not here. */
  predicate MeaningUnder(reading: Reading, m: Matcher, d: Hit, q: Query)
    decreases q
  {
    q.Query? && forall i :: 0 <= i < |q.clauses| ==> ClauseMeaning(reading, m, d, q.clauses[i])
  }

  predicate ClauseMeaning(reading: Reading, m: Matcher, d: Hit, c: Clause)
    decreases c
  {
    match c
    case MatchAll => true
    case Term(field, value) => FieldHas(d.source, CompatibilityField(field), (v: Json) => v == TermValue(value))
    case Terms(field, values) => FieldHas(d.source, CompatibilityField(field), (v: Json) => v in values)
    case Range(field, bounds) => FieldHas(d.source, CompatibilityField(field), (v: Json) => reading(v, bounds))
    case Exists(field) => FieldExists(d.source, CompatibilityField(field))
    case Ids(ids) => Str(d.id) in ids
    case Text => true
    case Pattern(p) => PatternHolds(m, d.source, Compatible(p))
    case Bool(b) =>
      && (forall i :: 0 <= i < |b.must| ==> MeaningUnder(reading, m, d, b.must[i]))
      && (forall i :: 0 <= i < |b.filter| ==> MeaningUnder(reading, m, d, b.filter[i]))
      && (forall i :: 0 <= i < |b.mustNot| ==> !MeaningUnder(reading, m, d, b.mustNot[i]))
      && CountMeaning(reading, m, d, b.should) >= MinimumOf(b)
    case Malformed => false
    case Unsupported => false
  }

  function CountMeaning(reading: Reading, m: Matcher, d: Hit, qs: seq<Query>): nat
    decreases qs
  {
    if qs == [] then 0
    else CountMeaning(reading, m, d, qs[..|qs| - 1]) + if MeaningUnder(reading, m, d, qs[|qs| - 1]) then 1 else 0
  }

  /** Elasticsearch's meaning: every bound of a range counts. */
  predicate Meaning(t: Dates, m: Matcher, d: Hit, q: Query) {
    MeaningUnder(EveryReading(t), m, d, q)
  }

  function EveryReading(t: Dates): Reading {
    (v: Json, bounds: Entries) => EveryBound(t, v, bounds)
  }

  // ---------------------------------------------------------------- the reference evaluator

  /** The evaluator looks for one kind after another and judges by the first present. */
  function Priority(c: Clause): nat {
    match c
    case MatchAll => 0 case Term(_, _) => 1 case Terms(_, _) => 2 case Range(_, _) => 3
    case Exists(_) => 4 case Bool(_) => 5 case _ => 6
  }

  predicate IsFirst(clauses: seq<Clause>, k: nat) {
    k < |clauses| && Priority(clauses[k]) < 6 && forall j :: 0 <= j < |clauses| && j != k ==> Priority(clauses[k]) < Priority(clauses[j])
  }

  /** The bounds the evaluator looks at: plain ones that are numbers, and not `from` and `to`. */
  function PlainOp(x: Bound): Option<RangeOp> {
    if IsNumber(x.value) then OpOf(x.key) else None
  }

  predicate PlainBounds(actual: Json, bounds: seq<Bound>) {
    IsNumber(actual)
    && forall x :: x in bounds && PlainOp(x).Some? ==> Compares(PlainOp(x).value, NumberOf(actual), NumberOf(x.value))
  }

  function PlainReading(): Reading {
    (v: Json, bounds: Entries) => PlainBounds(v, bounds)
  }

  predicate SourceMatches(source: Json, q: Query)
    decreases q
  {
    q.Query? && exists k :: 0 <= k < |q.clauses| && IsFirst(q.clauses, k) && ClauseMatches(source, q.clauses[k])
  }

  predicate ClauseMatches(source: Json, c: Clause)
    decreases c
  {
    match c
    case MatchAll => true
    case Term(field, value) => FieldHas(source, CompatibilityField(field), (v: Json) => v == TermValue(value))
    case Terms(field, values) => FieldHas(source, CompatibilityField(field), (v: Json) => v in values)
    case Range(field, bounds) => FieldHas(source, CompatibilityField(field), (v: Json) => PlainBounds(v, bounds))
    case Exists(field) => FieldExists(source, CompatibilityField(field))
    case Bool(b) =>
      && (forall i :: 0 <= i < |b.must| ==> SourceMatches(source, b.must[i]))
      && (forall i :: 0 <= i < |b.filter| ==> SourceMatches(source, b.filter[i]))
      && (forall i :: 0 <= i < |b.mustNot| ==> !SourceMatches(source, b.mustNot[i]))
      && CountMatches(source, b.should) >= MinimumOf(b)
    case _ => false
  }

  function CountMatches(source: Json, qs: seq<Query>): nat
    decreases qs
  {
    if qs == [] then 0
    else CountMatches(source, qs[..|qs| - 1]) + if SourceMatches(source, qs[|qs| - 1]) then 1 else 0
  }

  /** Filter clauses as the validator admits them. */
  predicate Validated(q: Query)
    decreases q
  {
    q.Query? && |q.clauses| == 1 && ClauseValidated(q.clauses[0])
  }

  predicate ClauseValidated(c: Clause)
    decreases c
  {
    match c
    case MatchAll => true
    case Term(_, _) => true
    case Terms(_, _) => true
    case Range(_, bounds) => forall x :: x in bounds ==> BoundAdmitted(x, bounds)
    case Exists(_) => true
    case Bool(b) =>
      && (forall i :: 0 <= i < |b.must| ==> Validated(b.must[i]))
      && (forall i :: 0 <= i < |b.filter| ==> Validated(b.filter[i]))
      && (forall i :: 0 <= i < |b.mustNot| ==> Validated(b.mustNot[i]))
      && (forall i :: 0 <= i < |b.should| ==> Validated(b.should[i]))
    case _ => false
  }

  predicate BoundAdmitted(x: Bound, bounds: seq<Bound>) {
    if Ignored(x.key) then (if x.key == "boost" then IsNumber(x.value) else x.value.Bool?)
    else BoundOp(x.key, bounds).Some? && IsNumber(x.value)
  }

  // ---------------------------------------------------------------- the evaluator's meaning

  /** The bounds the evaluator reads, as an interval. */
  function PlainInterval(bounds: seq<Bound>): Interval {
    if bounds == [] then map[]
    else
      var front, x := PlainInterval(bounds[..|bounds| - 1]), bounds[|bounds| - 1];
      match PlainOp(x) case Some(op) => front[op := x.value] case None => front
  }

  lemma AscendingKeysDiffer(bounds: seq<Bound>)
    requires KeysAscend(bounds)
    ensures forall i, j :: 0 <= i < j < |bounds| ==> bounds[i].key != bounds[j].key
  {
    forall i, j | 0 <= i < j < |bounds|
      ensures bounds[i].key != bounds[j].key
    {
      StringOrder(bounds[i].key, bounds[j].key, []);
    }
  }

  lemma OneKeyPerOp(key: string, other: string)
    ensures OpOf(key).Some? && OpOf(key) == OpOf(other) ==> key == other
  {
  }

  lemma {:induction false} PlainEntries(bounds: seq<Bound>, op: RangeOp)
    requires forall i, j :: 0 <= i < j < |bounds| ==> bounds[i].key != bounds[j].key
    ensures op in PlainInterval(bounds) <==> exists x :: x in bounds && PlainOp(x) == Some(op)
    ensures forall x :: x in bounds && PlainOp(x) == Some(op) ==> PlainInterval(bounds)[op] == x.value
  {
    hide OpOf;
    if bounds != [] {
      var front, last := bounds[..|bounds| - 1], bounds[|bounds| - 1];
      assert bounds == front + [last];
      PlainEntries(front, op);
      assert forall x :: x in bounds <==> x in front || x == last;
      forall x | x in front && PlainOp(x).Some?
        ensures PlainOp(x) != PlainOp(last)
      {
        var i :| 0 <= i < |front| && front[i] == x;
        assert bounds[i].key != last.key;
        OneKeyPerOp(x.key, last.key);
      }
    }
  }

  /** Dates read as before, and ranges that nothing bounds as ranges of numbers. */
  function NumbersOnly(t: Dates): Dates { t.(unbounded := false) }

  lemma StillDense(t: Dates)
    requires Dense(t)
    ensures Dense(NumbersOnly(t))
  {
    forall a, b
      ensures HasBetween(NumbersOnly(t), a, b)
    {
      assert HasBetween(t, a, b);
      if IsBefore(t, a, b) {
        var c :| IsBefore(t, a, c) && IsBefore(t, c, b);
        assert IsBefore(NumbersOnly(t), a, c) && IsBefore(NumbersOnly(t), c, b);
      }
    }
    forall a
      ensures HasBeside(NumbersOnly(t), a)
    {
      assert HasBeside(t, a);
      if t.instant(a).Some? {
        var b, c :| IsBefore(t, b, a) && IsBefore(t, a, c);
        assert IsBefore(NumbersOnly(t), b, a) && IsBefore(NumbersOnly(t), a, c);
      }
    }
  }

  lemma PlainNumbers(bounds: Entries)
    ensures forall op :: op in PlainInterval(bounds) ==> IsNumber(PlainInterval(bounds)[op])
    ensures forall op :: op in PlainInterval(bounds) ==> exists x :: x in bounds && PlainOp(x) == Some(op) && x.value == PlainInterval(bounds)[op]
    ensures forall x :: x in bounds && PlainOp(x).Some? ==>
              PlainOp(x).value in PlainInterval(bounds) && PlainInterval(bounds)[PlainOp(x).value] == x.value
  {
    AscendingKeysDiffer(bounds);
    forall op: RangeOp
      ensures op in PlainInterval(bounds) <==> exists x :: x in bounds && PlainOp(x) == Some(op)
      ensures forall x :: x in bounds && PlainOp(x) == Some(op) ==> PlainInterval(bounds)[op] == x.value
    {
      PlainEntries(bounds, op);
    }
    hide PlainInterval, OpOf;
  }

  lemma NumberWithin(t: Dates, op: RangeOp, actual: Json, bound: Json)
    requires IsNumber(bound)
    ensures Within(t, op, actual, bound) <==> IsNumber(actual) && Compares(op, NumberOf(actual), NumberOf(bound))
    ensures IsNumber(actual) ==> PointOf(t, actual).Some?
  {
  }

  lemma PlainIsInterval(t: Dates, bounds: Entries, v: Json)
    ensures PlainBounds(v, bounds) <==> IsNumber(v) && InInterval(t, v, PlainInterval(bounds))
    ensures PlainBounds(v, bounds) <==> InInterval(NumbersOnly(t), v, PlainInterval(bounds))
  {
    var plain := PlainInterval(bounds);
    PlainNumbers(bounds);
    forall op | op in plain
      ensures Within(t, op, v, plain[op]) <==> IsNumber(v) && Compares(op, NumberOf(v), NumberOf(plain[op]))
      ensures Within(NumbersOnly(t), op, v, plain[op]) <==> IsNumber(v) && Compares(op, NumberOf(v), NumberOf(plain[op]))
      ensures !plain[op].Null?
    {
      NumberWithin(t, op, v, plain[op]);
      NumberWithin(NumbersOnly(t), op, v, plain[op]);
    }
    NumberWithin(t, Gt, v, Int(0));
    NumberWithin(NumbersOnly(t), Gt, v, Int(0));
    hide PlainInterval, PlainOp, Within, Compares, PointOf;
    if IsNumber(v) && forall op :: op in plain ==> Compares(op, NumberOf(v), NumberOf(plain[op])) {
      assert PlainBounds(v, bounds);
    }
  }

  lemma SameWithin(t: Dates, op: RangeOp, v: Json, bound: Json)
    ensures Within(NumbersOnly(t), op, v, bound) <==> Within(t, op, v, bound)
  {
  }

  lemma ReadsNumbers(t: Dates, interval: Interval, v: Json)
    requires IsBounded(interval) || !t.unbounded
    ensures InInterval(t, v, interval) <==> InInterval(NumbersOnly(t), v, interval)
  {
    forall op | op in interval
      ensures Within(t, op, v, interval[op]) <==> Within(NumbersOnly(t), op, v, interval[op])
    {
      SameWithin(t, op, v, interval[op]);
    }
    hide Within;
  }

  /** The evaluator computes the meaning under its own reading of ranges. */
  lemma {:induction false} SourceMatchesIsPlainMeaning(m: Matcher, d: Hit, q: Query)
    requires Validated(q)
    ensures SourceMatches(d.source, q) <==> MeaningUnder(PlainReading(), m, d, q)
    decreases q
  {
    ClauseMatchesIsMeaning(m, d, q.clauses[0]);
    assert IsFirst(q.clauses, 0);
  }

  lemma {:induction false} ClauseMatchesIsMeaning(m: Matcher, d: Hit, c: Clause)
    requires ClauseValidated(c)
    ensures ClauseMatches(d.source, c) <==> ClauseMeaning(PlainReading(), m, d, c)
    decreases c
  {
    var reading := PlainReading();
    match c {
      case Range(field, bounds) =>
        SamePredicate(d.source, CompatibilityField(field), (v: Json) => PlainBounds(v, bounds), (v: Json) => reading(v, bounds));
      case Bool(b) =>
        AllMatchIsMeaning(m, d, b.must);
        AllMatchIsMeaning(m, d, b.filter);
        AllMatchIsMeaning(m, d, b.mustNot);
        AllMatchIsMeaning(m, d, b.should);
      case _ =>
    }
  }

  lemma {:induction false} AllMatchIsMeaning(m: Matcher, d: Hit, qs: seq<Query>)
    requires forall i :: 0 <= i < |qs| ==> Validated(qs[i])
    ensures var reading := PlainReading();
            && (forall i :: 0 <= i < |qs| ==> (SourceMatches(d.source, qs[i]) <==> MeaningUnder(reading, m, d, qs[i])))
            && CountMatches(d.source, qs) == CountMeaning(reading, m, d, qs)
    decreases qs
  {
    var reading := PlainReading();
    forall i | 0 <= i < |qs|
      ensures SourceMatches(d.source, qs[i]) <==> MeaningUnder(reading, m, d, qs[i])
    {
      SourceMatchesIsPlainMeaning(m, d, qs[i]);
    }
    SameCount(reading, m, d, qs);
  }

  lemma {:induction false} SameCount(reading: Reading, m: Matcher, d: Hit, qs: seq<Query>)
    requires forall i :: 0 <= i < |qs| ==> (SourceMatches(d.source, qs[i]) <==> MeaningUnder(reading, m, d, qs[i]))
    ensures CountMatches(d.source, qs) == CountMeaning(reading, m, d, qs)
    decreases |qs|
  {
    hide SourceMatches, MeaningUnder;
    if qs != [] {
      SameCount(reading, m, d, qs[..|qs| - 1]);
    }
  }

  // ---------------------------------------------------------------- comparing readings

  /** Every range of the query satisfies a condition on its bounds. */
  predicate RangesSatisfy(q: Query, good: Entries -> bool)
    decreases q
  {
    q.Query? ==> forall i :: 0 <= i < |q.clauses| ==> ClauseRangesSatisfy(q.clauses[i], good)
  }

  predicate ClauseRangesSatisfy(c: Clause, good: Entries -> bool)
    decreases c
  {
    match c
    case Range(_, bounds) => good(bounds)
    case Bool(b) =>
      && AllRangesSatisfy(b.must, good) && AllRangesSatisfy(b.filter, good)
      && AllRangesSatisfy(b.mustNot, good) && AllRangesSatisfy(b.should, good)
    case _ => true
  }

  predicate AllRangesSatisfy(qs: seq<Query>, good: Entries -> bool)
    decreases qs
  {
    forall i :: 0 <= i < |qs| ==> RangesSatisfy(qs[i], good)
  }

  ghost predicate Agree(r: Reading, s: Reading, good: Entries -> bool) {
    forall bounds: Entries, v: Json :: good(bounds) ==> (r(v, bounds) <==> s(v, bounds))
  }

  /** Readings that agree on every range of a query give it the same meaning. */
  lemma {:induction false} SameMeaning(r: Reading, s: Reading, good: Entries -> bool, m: Matcher, d: Hit, q: Query)
    requires Agree(r, s, good) && RangesSatisfy(q, good)
    ensures MeaningUnder(r, m, d, q) <==> MeaningUnder(s, m, d, q)
    decreases q
  {
    if q.Query? {
      forall i | 0 <= i < |q.clauses|
        ensures ClauseMeaning(r, m, d, q.clauses[i]) <==> ClauseMeaning(s, m, d, q.clauses[i])
      {
        SameClauseMeaning(r, s, good, m, d, q.clauses[i]);
      }
    }
  }

  lemma {:induction false} SameClauseMeaning(r: Reading, s: Reading, good: Entries -> bool, m: Matcher, d: Hit, c: Clause)
    requires Agree(r, s, good) && ClauseRangesSatisfy(c, good)
    ensures ClauseMeaning(r, m, d, c) <==> ClauseMeaning(s, m, d, c)
    decreases c
  {
    match c {
      case Range(field, bounds) =>
        SamePredicate(d.source, CompatibilityField(field), (v: Json) => r(v, bounds), (v: Json) => s(v, bounds));
      case Bool(b) =>
        SameMeanings(r, s, good, m, d, b.must);
        SameMeanings(r, s, good, m, d, b.filter);
        SameMeanings(r, s, good, m, d, b.mustNot);
        SameMeanings(r, s, good, m, d, b.should);
      case _ =>
    }
  }

  lemma {:induction false} SameMeanings(r: Reading, s: Reading, good: Entries -> bool, m: Matcher, d: Hit, qs: seq<Query>)
    requires Agree(r, s, good) && AllRangesSatisfy(qs, good)
    ensures forall i :: 0 <= i < |qs| ==> (MeaningUnder(r, m, d, qs[i]) <==> MeaningUnder(s, m, d, qs[i]))
    ensures CountMeaning(r, m, d, qs) == CountMeaning(s, m, d, qs)
    decreases qs
  {
    if qs != [] {
      var front := qs[..|qs| - 1];
      assert forall i :: 0 <= i < |front| ==> front[i] == qs[i];
      SameMeanings(r, s, good, m, d, front);
      SameMeaning(r, s, good, m, d, qs[|qs| - 1]);
      hide MeaningUnder;
    }
  }

  predicate Constrained(bounds: seq<Bound>) {
    exists x :: x in bounds && BoundOp(x.key, bounds).Some? && !x.value.Null?
  }

  /** There are bounds, and all follow from those that the evaluator reads. */
  predicate PlainSuffices(t: Dates, bounds: Entries) {
    Constrained(bounds)
    && forall x :: x in bounds && BoundOp(x.key, bounds).Some? ==>
         Covers(NumbersOnly(t), PlainInterval(bounds), BoundOp(x.key, bounds).value, x.value)
  }

  /** The evaluator's reading of a range is its meaning, for every value, exactly when there are bounds
      and those it does not look at follow from those it does. */
  lemma PlainReadingExact(t: Dates, bounds: Entries)
    requires Dense(t)
    ensures (forall v :: PlainBounds(v, bounds) <==> EveryBound(t, v, bounds)) <==> PlainSuffices(t, bounds)
  {
    if PlainSuffices(t, bounds) {
      forall v
        ensures PlainBounds(v, bounds) <==> EveryBound(t, v, bounds)
      {
        SufficientPlain(t, bounds, v);
      }
    } else if !Constrained(bounds) {
      UnconstrainedDates(t, bounds);
    } else {
      var x :| x in bounds && BoundOp(x.key, bounds).Some?
               && !Covers(NumbersOnly(t), PlainInterval(bounds), BoundOp(x.key, bounds).value, x.value);
      StillDense(t);
      var v := UncoveredBreaks(NumbersOnly(t), PlainInterval(bounds), BoundOp(x.key, bounds).value, x.value);
      PlainIsInterval(t, bounds, v);
      SameWithin(t, BoundOp(x.key, bounds).value, v, x.value);
      hide *;
      assert PlainBounds(v, bounds) && !EveryBound(t, v, bounds) by {
        BreaksEvery(t, bounds, x, v);
      }
    }
  }

  lemma BreaksEvery(t: Dates, bounds: Entries, x: Bound, v: Json)
    requires x in bounds && BoundOp(x.key, bounds).Some? && !Within(t, BoundOp(x.key, bounds).value, v, x.value)
    ensures !EveryBound(t, v, bounds)
  {
    hide Within, BoundOp;
  }

  /** Where nothing bounds, dates are meant and the evaluator looks for numbers. */
  lemma UnconstrainedDates(t: Dates, bounds: Entries)
    requires Dense(t) && !Constrained(bounds)
    ensures exists v :: !PlainBounds(v, bounds) && EveryBound(t, v, bounds)
  {
    var s :| t.instant(s).Some?;
    hide BoundOp, Dense;
    assert !PlainBounds(Str(s), bounds) && EveryBound(t, Str(s), bounds);
  }

  lemma SufficientPlain(t: Dates, bounds: Entries, v: Json)
    requires PlainSuffices(t, bounds)
    ensures PlainBounds(v, bounds) <==> EveryBound(t, v, bounds)
  {
    var plain, u := PlainInterval(bounds), NumbersOnly(t);
    PlainIsInterval(t, bounds, v);
    if PlainBounds(v, bounds) {
      forall x | x in bounds && BoundOp(x.key, bounds).Some?
        ensures Within(t, BoundOp(x.key, bounds).value, v, x.value)
      {
        CoveredHolds(u, plain, BoundOp(x.key, bounds).value, x.value, v);
        SameWithin(t, BoundOp(x.key, bounds).value, v, x.value);
      }
      NumberWithin(t, Gt, v, Int(0));
      hide Within, BoundOp, PointOf, Covers;
    }
    if EveryBound(t, v, bounds) {
      PlainNumbers(bounds);
      SufficientIsBounded(t, bounds);
      EveryIsPlain(t, bounds, v);
    }
  }

  lemma SufficientIsBounded(t: Dates, bounds: Entries)
    requires PlainSuffices(t, bounds)
    ensures PlainInterval(bounds) != map[]
  {
    if PlainInterval(bounds) == map[] {
      var x :| x in bounds && BoundOp(x.key, bounds).Some? && !x.value.Null?;
      NothingCovers(NumbersOnly(t), BoundOp(x.key, bounds).value, x.value);
      hide Covers, BoundOp;
      assert false;
    }
  }

  lemma NothingCovers(t: Dates, op: RangeOp, bound: Json)
    requires !bound.Null?
    ensures !Covers(t, map[], op, bound)
  {
  }

  lemma EveryIsPlain(t: Dates, bounds: Entries, v: Json)
    requires EveryBound(t, v, bounds) && PlainInterval(bounds) != map[]
    ensures PlainBounds(v, bounds)
  {
    PlainNumbers(bounds);
    forall x | x in bounds && PlainOp(x).Some?
      ensures IsNumber(v) && Compares(PlainOp(x).value, NumberOf(v), NumberOf(x.value))
    {
      assert BoundOp(x.key, bounds) == OpOf(x.key) == PlainOp(x);
      NumberWithin(t, PlainOp(x).value, v, x.value);
    }
    var op :| op in PlainInterval(bounds);
    hide PlainInterval, PlainOp, Compares, BoundOp;
  }

  /** On validated filters the evaluator computes the meaning where every range has bounds and the
      plain ones imply its `from` and `to`. */
  lemma SourceMatchesIsMeaning(t: Dates, m: Matcher, d: Hit, q: Query)
    requires Validated(q) && RangesSatisfy(q, (bounds: Entries) => PlainSuffices(t, bounds))
    ensures SourceMatches(d.source, q) <==> Meaning(t, m, d, q)
  {
    var good := (bounds: Entries) => PlainSuffices(t, bounds);
    SourceMatchesIsPlainMeaning(m, d, q);
    forall bounds: Entries, v | good(bounds)
      ensures PlainReading()(v, bounds) <==> EveryReading(t)(v, bounds)
    {
      SufficientPlain(t, bounds, v);
    }
    SameMeaning(PlainReading(), EveryReading(t), good, m, d, q);
  }

  lemma {:induction false} SameAnyValue(v: Json, p: Json -> bool, r: Json -> bool)
    requires forall x :: p(x) <==> r(x)
    ensures AnyValue(v, p) <==> AnyValue(v, r)
    decreases v
  {
    if v.Arr? {
      forall i | 0 <= i < |v.items|
        ensures AnyValue(v.items[i], p) <==> AnyValue(v.items[i], r)
      {
        SameAnyValue(v.items[i], p, r);
      }
    }
  }

  lemma SamePredicate(source: Json, field: string, p: Json -> bool, r: Json -> bool)
    requires forall x :: p(x) <==> r(x)
    ensures FieldHas(source, field, p) <==> FieldHas(source, field, r)
  {
    var v := SourceField(source, field);
    if v.Some? {
      SameAnyValue(v.value, p, r);
    }
  }
}
