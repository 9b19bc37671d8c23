/** What the clauses of a query ask of a document, over counts, values and bounds themselves. */
module Clauses {
  import opened Options
  import opened Values
  import opened Hits
  import opened Intervals
  import opened Queries
  import Decimals

  // ---------------------------------------------------------------- minimum_should_match

  /** An integer below 2^64 or its decimal text, a plus sign in front allowed. */
  ghost predicate IsCount(v: Json, n: nat) {
    n < 0x1_0000_0000_0000_0000
    && (v == Int(n) || (v.Str? && (Spells(v.s, n) || (v.s != [] && v.s[0] == '+' && Spells(v.s[1..], n)))))
  }

  ghost predicate Spells(s: string, n: nat) {
    s != [] && Decimals.AllDigits(s) && Decimals.Val(s) == n
  }

  ghost predicate IsShare(v: Json, percent: nat) {
    v.Str? && v.s != [] && v.s[|v.s| - 1] == '%' && IsCount(Str(v.s[..|v.s| - 1]), percent)
  }

  /** That many matching `should` clauses are enough: one, where nothing else is required, and as many
      or as large a share as asked, but never more than there are. */
  ghost predicate Enough(minimum: Option<Json>, required: bool, clauses: nat, met: nat) {
    && (clauses == 0 || required || met >= 1)
    && (forall n: nat :: minimum.Some? && IsCount(minimum.value, n) ==> met >= n || met == clauses)
    && (forall p: nat :: minimum.Some? && IsShare(minimum.value, p) ==> met * 100 >= p * clauses || met == clauses)
  }

  lemma SpelledOnce(s: string)
    requires s != [] && Decimals.AllDigits(s)
    ensures s[0] != '+' && s[|s| - 1] != '%'
  {
  }

  /** Text is read as a number exactly when it spells one. */
  lemma ParsedIff(s: string, n: nat)
    ensures ParseU64(s) == Some(n) <==> IsCount(Str(s), n)
  {
    if s != [] && Decimals.AllDigits(s) {
      SpelledOnce(s);
    }
  }

  lemma CountIff(v: Json, clauses: nat, n: nat)
    requires IsCount(v, n)
    ensures ExplicitMinimum(Some(v), clauses) == Some(n) && forall p: nat :: !IsShare(v, p)
  {
    hide Decimals.AllDigits, Decimals.Val, ParseU64;
    if v.Str? {
      ParsedIff(v.s, n);
      var digits := if v.s[0] == '+' then v.s[1..] else v.s;
      assert Decimals.AllDigits(digits) && digits != [] by {
        if Spells(v.s, n) {
          SpelledOnce(v.s);
        }
      }
      SpelledOnce(digits);
    }
  }

  lemma ShareIff(v: Json, clauses: nat, p: nat)
    requires IsShare(v, p)
    ensures ExplicitMinimum(Some(v), clauses) == Some(DivCeil(clauses * p, 100)) && forall n: nat :: !IsCount(v, n)
  {
    var text := v.s[..|v.s| - 1];
    ParsedIff(text, p);
    PercentParsed(text, p, clauses);
    assert v.s == text + "%";
    forall n: nat
      ensures !IsCount(v, n)
    {
      if IsCount(v, n) {
        CountIff(v, clauses, n);
        assert false;
      }
    }
  }

  lemma SomeCountOrShare(v: Json, clauses: nat)
    requires ExplicitMinimum(Some(v), clauses).Some?
    ensures (exists n: nat :: IsCount(v, n)) || exists p: nat :: IsShare(v, p)
  {
    if v.Int? {
      assert IsCount(v, v.i);
    } else if ParseU64(v.s).Some? {
      ParsedIff(v.s, ParseU64(v.s).value);
      assert IsCount(v, ParseU64(v.s).value);
    } else {
      var text := v.s[..|v.s| - 1];
      ParsedIff(text, ParseU64(text).value);
      assert IsShare(v, ParseU64(text).value);
    }
  }

  lemma AtLeastShare(met: nat, share: nat)
    ensures met >= DivCeil(share, 100) <==> met * 100 >= share
  {
    LeastShare(share, 0);
    var c := DivCeil(share, 100);
    if met >= c {
      assert met * 100 >= c * 100;
    } else {
      assert met * 100 <= (c - 1) * 100;
    }
  }

  lemma EnoughIff(minimum: Option<Json>, required: bool, clauses: nat, met: nat)
    requires met <= clauses
    ensures met >= MinimumShouldMatch(minimum, clauses, required) <==> Enough(minimum, required, clauses, met)
  {
    hide IsCount, IsShare, ExplicitMinimum, DivCeil;
    if minimum.Some? {
      var v := minimum.value;
      if n: nat :| IsCount(v, n) {
        forall k: nat | IsCount(v, k)
          ensures k == n
        {
          CountIff(v, clauses, k);
          CountIff(v, clauses, n);
        }
        CountIff(v, clauses, n);
      } else if p: nat :| IsShare(v, p) {
        forall k: nat | IsShare(v, k)
          ensures met >= DivCeil(clauses * p, 100) <==> met * 100 >= k * clauses
        {
          ShareIff(v, clauses, k);
          ShareIff(v, clauses, p);
          AtLeastShare(met, clauses * k);
        }
        ShareIff(v, clauses, p);
      } else if ExplicitMinimum(Some(v), clauses).Some? {
        SomeCountOrShare(v, clauses);
      }
    } else {
      assert ExplicitMinimum(minimum, clauses) == None by { NoMinimum(clauses); }
    }
  }

  lemma NoMinimum(clauses: nat)
    ensures ExplicitMinimum(None, clauses) == None
  {
  }

  // ---------------------------------------------------------------- bool

  /** The clauses, by their place, that a document meets. */
  function Met(reading: Reading, m: Matcher, d: Hit, qs: seq<Query>): set<nat> {
    set i: nat | i < |qs| && MeaningUnder(reading, m, d, qs[i])
  }

  function Matched(source: Json, qs: seq<Query>): set<nat> {
    set i: nat | i < |qs| && SourceMatches(source, qs[i])
  }

  lemma {:induction false} CountIsSize(reading: Reading, m: Matcher, d: Hit, qs: seq<Query>)
    ensures CountMeaning(reading, m, d, qs) == |Met(reading, m, d, qs)| <= |qs|
    decreases |qs|
  {
    hide MeaningUnder;
    if qs != [] {
      var front := qs[..|qs| - 1];
      CountIsSize(reading, m, d, front);
      assert Met(reading, m, d, qs) ==
             if MeaningUnder(reading, m, d, qs[|qs| - 1]) then Met(reading, m, d, front) + {|qs| - 1} else Met(reading, m, d, front);
    }
  }

  lemma {:induction false} MatchedIsSize(source: Json, qs: seq<Query>)
    ensures CountMatches(source, qs) == |Matched(source, qs)| <= |qs|
    decreases |qs|
  {
    hide SourceMatches;
    if qs != [] {
      var front := qs[..|qs| - 1];
      MatchedIsSize(source, front);
      assert Matched(source, qs) ==
             if SourceMatches(source, qs[|qs| - 1]) then Matched(source, front) + {|qs| - 1} else Matched(source, front);
    }
  }

  /** A bool query means all of `must` and `filter`, none of `must_not`, and enough of `should`. */
  lemma BoolMeans(reading: Reading, m: Matcher, d: Hit, b: BoolQuery)
    ensures ClauseMeaning(reading, m, d, Clause.Bool(b)) <==>
            && (forall q :: q in b.must || q in b.filter ==> MeaningUnder(reading, m, d, q))
            && (forall q :: q in b.mustNot ==> !MeaningUnder(reading, m, d, q))
            && Enough(b.minimum, b.must != [] || b.filter != [], |b.should|, |Met(reading, m, d, b.should)|)
  {
    CountIsSize(reading, m, d, b.should);
    EnoughIff(b.minimum, Required(b), |b.should|, CountMeaning(reading, m, d, b.should));
    hide MeaningUnder, MinimumShouldMatch, Enough;
    assert forall i :: 0 <= i < |b.must| ==> b.must[i] in b.must;
    assert forall i :: 0 <= i < |b.filter| ==> b.filter[i] in b.filter;
    assert forall i :: 0 <= i < |b.mustNot| ==> b.mustNot[i] in b.mustNot;
  }

  /** And the evaluator decides it the same way. */
  lemma BoolMatches(source: Json, b: BoolQuery)
    ensures ClauseMatches(source, Clause.Bool(b)) <==>
            && (forall q :: q in b.must || q in b.filter ==> SourceMatches(source, q))
            && (forall q :: q in b.mustNot ==> !SourceMatches(source, q))
            && Enough(b.minimum, b.must != [] || b.filter != [], |b.should|, |Matched(source, b.should)|)
  {
    hide *;
    MatchedIsSize(source, b.should);
    EnoughIff(b.minimum, b.must != [] || b.filter != [], |b.should|, CountMatches(source, b.should));
    BoolJudged(source, b);
    assert forall i :: 0 <= i < |b.must| ==> b.must[i] in b.must;
    assert forall i :: 0 <= i < |b.filter| ==> b.filter[i] in b.filter;
    assert forall i :: 0 <= i < |b.mustNot| ==> b.mustNot[i] in b.mustNot;
  }

  lemma BoolJudged(source: Json, b: BoolQuery)
    ensures ClauseMatches(source, Clause.Bool(b)) <==>
            && (forall i :: 0 <= i < |b.must| ==> SourceMatches(source, b.must[i]))
            && (forall i :: 0 <= i < |b.filter| ==> SourceMatches(source, b.filter[i]))
            && (forall i :: 0 <= i < |b.mustNot| ==> !SourceMatches(source, b.mustNot[i]))
            && CountMatches(source, b.should) >= MinimumShouldMatch(b.minimum, |b.should|, b.must != [] || b.filter != [])
  {
    hide SourceMatches, CountMatches, MinimumShouldMatch;
  }

  /** Without a minimum: something is required, or there is no `should`, or some `should` holds. */
  lemma BoolByDefault(reading: Reading, m: Matcher, d: Hit, b: BoolQuery)
    requires b.minimum.None?
    ensures ClauseMeaning(reading, m, d, Clause.Bool(b)) <==>
            && (forall q :: q in b.must || q in b.filter ==> MeaningUnder(reading, m, d, q))
            && (forall q :: q in b.mustNot ==> !MeaningUnder(reading, m, d, q))
            && (b.must != [] || b.filter != [] || b.should == [] || exists q :: q in b.should && MeaningUnder(reading, m, d, q))
    ensures ClauseMatches(d.source, Clause.Bool(b)) <==>
            && (forall q :: q in b.must || q in b.filter ==> SourceMatches(d.source, q))
            && (forall q :: q in b.mustNot ==> !SourceMatches(d.source, q))
            && (b.must != [] || b.filter != [] || b.should == [] || exists q :: q in b.should && SourceMatches(d.source, q))
  {
    BoolMeans(reading, m, d, b);
    BoolMatches(d.source, b);
    hide MeaningUnder, SourceMatches, ClauseMeaning, ClauseMatches;
    SomeMet(reading, m, d, b.should);
  }

  lemma SomeMet(reading: Reading, m: Matcher, d: Hit, qs: seq<Query>)
    ensures |Met(reading, m, d, qs)| >= 1 <==> exists q :: q in qs && MeaningUnder(reading, m, d, q)
    ensures |Matched(d.source, qs)| >= 1 <==> exists q :: q in qs && SourceMatches(d.source, q)
  {
    hide MeaningUnder, SourceMatches;
    var met, matched := Met(reading, m, d, qs), Matched(d.source, qs);
    if q :| q in qs && MeaningUnder(reading, m, d, q) {
      var i: nat :| i < |qs| && qs[i] == q;
      assert i in met;
    }
    if q :| q in qs && SourceMatches(d.source, q) {
      var i: nat :| i < |qs| && qs[i] == q;
      assert i in matched;
    }
    if met != {} {
      var i :| i in met;
      assert qs[i] in qs;
    }
    if matched != {} {
      var i :| i in matched;
      assert qs[i] in qs;
    }
  }

  /** The evaluator judges by the first kind present: match_all, term, terms, range, exists, bool. */
  lemma FirstKindJudges(source: Json, first: Clause, second: Clause)
    requires || (first.MatchAll? && !second.MatchAll?)
             || (first.Term? && !second.MatchAll? && !second.Term?)
             || (first.Terms? && !second.MatchAll? && !second.Term? && !second.Terms?)
             || (first.Range? && (second.Exists? || second.Bool? || NeverJudges(second)))
             || (first.Exists? && (second.Bool? || NeverJudges(second)))
             || (first.Bool? && NeverJudges(second))
    ensures SourceMatches(source, Query([first, second])) <==> ClauseMatches(source, first)
    ensures SourceMatches(source, Query([second, first])) <==> ClauseMatches(source, first)
    ensures NeverJudges(second) ==> !SourceMatches(source, Query([second]))
  {
    hide ClauseMatches;
    var here, there := [first, second], [second, first];
    assert IsFirst(here, 0) && IsFirst(there, 1);
    assert !IsFirst(here, 1) && !IsFirst(there, 0) by { assert Priority(here[0]) < Priority(here[1]); }
  }

  predicate NeverJudges(c: Clause) {
    c.Ids? || c.Text? || c.Pattern? || c.Malformed? || c.Unsupported?
  }

  // ---------------------------------------------------------------- leaves

  /** A value itself, or for an array what is inside it at any depth. */
  ghost function Inside(v: Json): iset<Json>
    decreases v
  {
    if v.Arr? then iset i: nat, x | i < |v.items| && x in Inside(v.items[i]) :: x else iset{v}
  }

  lemma {:induction false} AnyInside(v: Json, p: Json -> bool)
    ensures AnyValue(v, p) <==> exists x :: x in Inside(v) && p(x)
    decreases v
  {
    if v.Arr? {
      forall i: nat | i < |v.items|
        ensures AnyValue(v.items[i], p) <==> exists x :: x in Inside(v.items[i]) && p(x)
      {
        AnyInside(v.items[i], p);
      }
      hide AnyValue, Inside;
      assert AnyValue(v, p) <==> exists i :: 0 <= i < |v.items| && AnyValue(v.items[i], p) by { ArrayUnfolds(v, p); }
      assert forall x :: x in Inside(v) <==> exists i: nat :: i < |v.items| && x in Inside(v.items[i]) by { ArrayUnfolds(v, p); }
    }
  }

  lemma ArrayUnfolds(v: Json, p: Json -> bool)
    requires v.Arr?
    ensures AnyValue(v, p) <==> exists i :: 0 <= i < |v.items| && AnyValue(v.items[i], p)
    ensures forall x :: x in Inside(v) <==> exists i: nat :: i < |v.items| && x in Inside(v.items[i])
  {
  }

  /** The values a document has under a field, a trailing ".keyword" dropped. */
  ghost function Under(source: Json, field: string): iset<Json> {
    match SourceField(source, CompatibilityField(field)) case Some(v) => Inside(v) case None => iset{}
  }

  lemma HasUnder(source: Json, field: string, p: Json -> bool)
    ensures FieldHas(source, CompatibilityField(field), p) <==> exists x :: x in Under(source, field) && p(x)
  {
    var v := SourceField(source, CompatibilityField(field));
    if v.Some? {
      AnyInside(v.value, p);
    }
  }

  /** A term asks for its value, `{"value": x}` standing for x, terms for one of theirs, ids for the
      document's; for both readers alike. */
  lemma TermsMean(reading: Reading, m: Matcher, d: Hit, field: string, value: Json, values: seq<Json>)
    requires !(value.Obj? && "value" in value.fields)
    ensures ClauseMeaning(reading, m, d, Term(field, value)) <==> value in Under(d.source, field)
    ensures ClauseMeaning(reading, m, d, Term(field, Obj(map["value" := value]))) <==> value in Under(d.source, field)
    ensures ClauseMeaning(reading, m, d, Terms(field, values)) <==> exists v :: v in values && v in Under(d.source, field)
    ensures ClauseMatches(d.source, Term(field, value)) <==> value in Under(d.source, field)
    ensures ClauseMatches(d.source, Term(field, Obj(map["value" := value]))) <==> value in Under(d.source, field)
    ensures ClauseMatches(d.source, Terms(field, values)) <==> exists v :: v in values && v in Under(d.source, field)
    ensures ClauseMeaning(reading, m, d, Ids(values)) <==> exists v :: v in values && v == Str(d.id)
  {
    var wrapped := Obj(map["value" := value]);
    assert TermValue(value) == value && TermValue(wrapped) == value;
    var one, wrappedOne, among := (v: Json) => v == TermValue(value), (v: Json) => v == TermValue(wrapped), (v: Json) => v in values;
    HasUnder(d.source, field, one);
    HasUnder(d.source, field, wrappedOne);
    HasUnder(d.source, field, among);
    hide FieldHas, Under, TermValue;
  }

  /** A field exists unless it is missing, null, or an array of nothing but nulls. */
  lemma ExistsMeans(reading: Reading, m: Matcher, d: Hit, field: string)
    ensures var v := SourceField(d.source, CompatibilityField(field));
            ClauseMeaning(reading, m, d, Exists(field)) <==>
            !(v.None? || v.value == Null || (v.value.Arr? && forall i :: 0 <= i < |v.value.items| ==> v.value.items[i] == Null))
    ensures ClauseMatches(d.source, Exists(field)) <==> ClauseMeaning(reading, m, d, Exists(field))
  {
    var v := SourceField(d.source, CompatibilityField(field));
    if v.Some? && v.value.Arr? {
      assert forall i :: 0 <= i < |v.value.items| ==> v.value.items[i] in v.value.items;
    }
  }

  /** Everything and text hold, and what cannot be read holds nowhere. */
  lemma ConstantsMean(reading: Reading, m: Matcher, d: Hit)
    ensures ClauseMeaning(reading, m, d, MatchAll) && ClauseMeaning(reading, m, d, Text) && ClauseMatches(d.source, MatchAll)
    ensures !ClauseMeaning(reading, m, d, Malformed) && !ClauseMeaning(reading, m, d, Unsupported)
    ensures !MeaningUnder(reading, m, d, NotAnObject) && !SourceMatches(d.source, NotAnObject)
  {
  }

  // ---------------------------------------------------------------- range

  lemma {:induction false} FlagIff(bounds: seq<Bound>, key: string)
    requires forall i, j :: 0 <= i < j < |bounds| ==> bounds[i].key != bounds[j].key
    ensures Flag(bounds, key) <==> Bound(key, Json.Bool(false)) !in bounds
    decreases |bounds|
  {
    if bounds != [] {
      var front, last := bounds[..|bounds| - 1], bounds[|bounds| - 1];
      FlagIff(front, key);
      assert bounds == front + [last];
      if last.key == key {
        forall i | 0 <= i < |front|
          ensures front[i] != Bound(key, Json.Bool(false))
        {
          assert bounds[i].key != last.key;
        }
      }
    }
  }

  /** One entry's bound on x; `from` and `to` include their end unless told otherwise. */
  ghost predicate Obeys(x: real, key: string, bound: real, openLower: bool, openUpper: bool) {
    if key == "gt" || (key == "from" && openLower) then x > bound
    else if key == "gte" || key == "from" then x >= bound
    else if key == "lt" || (key == "to" && openUpper) then x < bound
    else if key == "lte" || key == "to" then x <= bound
    else true
  }

  ghost predicate Bounding(key: string) {
    key in {"gt", "gte", "lt", "lte", "from", "to"}
  }

  ghost predicate ObeysEntry(t: Dates, v: Json, b: Bound, openLower: bool, openUpper: bool) {
    || b.value == Null
    || (IsNumber(v) && IsNumber(b.value) && Obeys(NumberOf(v), b.key, NumberOf(b.value), openLower, openUpper))
    || (v.Str? && b.value.Str? && t.instant(v.s).Some? && t.instant(b.value.s).Some?
        && Obeys(t.instant(v.s).value, b.key, t.instant(b.value.s).value, openLower, openUpper))
  }

  /** A number or date is in a range when each entry that bounds is null or of its kind and obeyed. */
  lemma RangeMeans(t: Dates, v: Json, bounds: Entries)
    ensures var openLower, openUpper := Bound("include_lower", Json.Bool(false)) in bounds, Bound("include_upper", Json.Bool(false)) in bounds;
            EveryBound(t, v, bounds) <==>
            && (IsNumber(v) || (v.Str? && t.instant(v.s).Some?))
            && forall b :: b in bounds && Bounding(b.key) ==> ObeysEntry(t, v, b, openLower, openUpper)
  {
    hide *;
    FlagsAre(bounds);
    forall b | b in bounds
      ensures BoundOp(b.key, bounds).Some? <==> Bounding(b.key)
      ensures Bounding(b.key) ==>
                (Within(t, BoundOp(b.key, bounds).value, v, b.value)
                 <==> ObeysEntry(t, v, b, !Flag(bounds, "include_lower"), !Flag(bounds, "include_upper")))
    {
      EntryMeans(t, v, b, bounds);
    }
    EveryUnfolds(t, v, bounds);
  }

  lemma FlagsAre(bounds: Entries)
    ensures Flag(bounds, "include_lower") <==> Bound("include_lower", Json.Bool(false)) !in bounds
    ensures Flag(bounds, "include_upper") <==> Bound("include_upper", Json.Bool(false)) !in bounds
  {
    AscendingKeysDiffer(bounds);
    FlagIff(bounds, "include_lower");
    FlagIff(bounds, "include_upper");
  }

  lemma EveryUnfolds(t: Dates, v: Json, bounds: Entries)
    ensures EveryBound(t, v, bounds) <==>
            && (IsNumber(v) || (v.Str? && t.instant(v.s).Some?))
            && forall b :: b in bounds && BoundOp(b.key, bounds).Some? ==> Within(t, BoundOp(b.key, bounds).value, v, b.value)
  {
    hide Within, BoundOp;
  }

  lemma EntryMeans(t: Dates, v: Json, b: Bound, bounds: Entries)
    ensures BoundOp(b.key, bounds).Some? <==> Bounding(b.key)
    ensures Bounding(b.key) ==>
              (Within(t, BoundOp(b.key, bounds).value, v, b.value)
               <==> ObeysEntry(t, v, b, !Flag(bounds, "include_lower"), !Flag(bounds, "include_upper")))
  {
    hide KeysAscend, Flag, CmpString;
  }

  /** The evaluator looks at the four plain bounds that are numbers, and at numbers only. */
  lemma PlainRangeMeans(v: Json, bounds: seq<Bound>)
    ensures PlainBounds(v, bounds) <==>
            IsNumber(v) && forall b :: b in bounds && b.key in {"gt", "gte", "lt", "lte"} && IsNumber(b.value) ==>
                             Obeys(NumberOf(v), b.key, NumberOf(b.value), false, false)
  {
  }

  lemma RangeClauseMeans(t: Dates, m: Matcher, d: Hit, field: string, bounds: Entries)
    ensures ClauseMeaning(EveryReading(t), m, d, Range(field, bounds)) <==> exists v :: v in Under(d.source, field) && EveryBound(t, v, bounds)
    ensures ClauseMatches(d.source, Range(field, bounds)) <==> exists v :: v in Under(d.source, field) && PlainBounds(v, bounds)
  {
    var reading := EveryReading(t);
    HasUnder(d.source, field, (v: Json) => reading(v, bounds));
    HasUnder(d.source, field, (v: Json) => PlainBounds(v, bounds));
    hide FieldHas, Under, EveryBound, PlainBounds;
  }

  /** A pattern asks for a string under its field that it matches. */
  lemma PatternMeans(reading: Reading, m: Matcher, d: Hit, p: FieldPattern)
    ensures ClauseMeaning(reading, m, d, Pattern(p)) <==>
            exists s :: Str(s) in Under(d.source, p.field) && m(FieldPattern(p.kind, CompatibilityField(p.field), p.text), s)
  {
    var matched := (v: Json) => v.Str? && m(Compatible(p), v.s);
    HasUnder(d.source, p.field, matched);
    hide FieldHas, Under;
    if v :| v in Under(d.source, p.field) && matched(v) {
      assert Str(v.s) in Under(d.source, p.field);
    }
    if s :| Str(s) in Under(d.source, p.field) && m(Compatible(p), s) {
      assert matched(Str(s));
    }
  }

  // ---------------------------------------------------------------- validation

  /** What an aggregation filter may hold: one clause a query, of six kinds, its range entries numbers
      under the known keys and its inclusion flags booleans. */
  lemma ValidatedIff(c: Clause, others: seq<Clause>)
    ensures Validated(Query([c])) <==> ClauseValidated(c)
    ensures |others| != 1 ==> !Validated(Query(others))
    ensures c.MatchAll? || c.Term? || c.Terms? || c.Exists? ==> ClauseValidated(c)
    ensures NeverJudges(c) ==> !ClauseValidated(c)
    ensures c.Range? ==> (ClauseValidated(c) <==>
                          forall b :: b in c.bounds ==>
                            if b.key in {"include_lower", "include_upper"} then b.value.Bool?
                            else (Bounding(b.key) || b.key == "boost") && IsNumber(b.value))
    ensures c.Bool? ==> (ClauseValidated(c) <==> forall q :: q in c.b.must + c.b.filter + c.b.mustNot + c.b.should ==> Validated(q))
  {
    if c.Range? {
      forall b | b in c.bounds
        ensures BoundAdmitted(b, c.bounds) <==>
                if b.key in {"include_lower", "include_upper"} then b.value.Bool?
                else (Bounding(b.key) || b.key == "boost") && IsNumber(b.value)
      {
        AdmittedIff(b, c.bounds);
      }
      hide BoundAdmitted, Bounding;
    } else if c.Bool? {
      hide Validated;
      SomewhereIn(c.b);
    }
  }

  lemma AdmittedIff(b: Bound, bounds: Entries)
    ensures BoundAdmitted(b, bounds) <==>
            if b.key in {"include_lower", "include_upper"} then b.value.Bool?
            else (Bounding(b.key) || b.key == "boost") && IsNumber(b.value)
  {
    hide Flag, KeysAscend;
  }

  lemma SomewhereIn(b: BoolQuery)
    ensures (forall q :: q in b.must + b.filter + b.mustNot + b.should ==> Validated(q)) <==>
            && (forall i :: 0 <= i < |b.must| ==> Validated(b.must[i]))
            && (forall i :: 0 <= i < |b.filter| ==> Validated(b.filter[i]))
            && (forall i :: 0 <= i < |b.mustNot| ==> Validated(b.mustNot[i]))
            && (forall i :: 0 <= i < |b.should| ==> Validated(b.should[i]))
  {
    hide Validated;
    assert forall i :: 0 <= i < |b.must| ==> b.must[i] in b.must;
    assert forall i :: 0 <= i < |b.filter| ==> b.filter[i] in b.filter;
    assert forall i :: 0 <= i < |b.mustNot| ==> b.mustNot[i] in b.mustNot;
    assert forall i :: 0 <= i < |b.should| ==> b.should[i] in b.should;
  }
}
