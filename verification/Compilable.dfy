/** Which queries compile, which are refused, and what a compiled range holds. */
module Compilable {
  import opened Options
  import opened Values
  import opened Hits
  import opened Intervals
  import opened Queries
  import opened QueryCompiler
  import opened QueryMeaning
  import Clauses

  // ---------------------------------------------------------------- the filter

  predicate KnownKey(key: string) {
    key in {"gt", "gte", "lt", "lte", "from", "to", "include_lower", "include_upper", "boost"}
  }

  /** Objects throughout, known kinds, known range keys, and no text under `must_not` or `should`. */
  predicate Compiles(q: Query)
    decreases q
  {
    q.Query? && forall i :: 0 <= i < |q.clauses| ==> ClauseCompiles(q.clauses[i])
  }

  predicate ClauseCompiles(c: Clause)
    decreases c
  {
    match c
    case Malformed => false
    case Unsupported => false
    case Range(_, bounds) => forall b :: b in bounds ==> KnownKey(b.key)
    case Bool(b) =>
      && (forall i :: 0 <= i < |b.must| ==> Compiles(b.must[i]))
      && (forall i :: 0 <= i < |b.filter| ==> Compiles(b.filter[i]))
      && (forall i :: 0 <= i < |b.mustNot| ==> Compiles(b.mustNot[i]) && !HasText(b.mustNot[i]))
      && (forall i :: 0 <= i < |b.should| ==> Compiles(b.should[i]) && !HasText(b.should[i]))
    case _ => true
  }

  /** Text that is required: at the top or inside `must` and `filter`. */
  predicate HasText(q: Query)
    decreases q
  {
    q.Query? && exists i :: 0 <= i < |q.clauses| && ClauseHasText(q.clauses[i])
  }

  predicate ClauseHasText(c: Clause)
    decreases c
  {
    match c
    case Text => true
    case Bool(b) =>
      || (exists i :: 0 <= i < |b.must| && HasText(b.must[i]))
      || (exists i :: 0 <= i < |b.filter| && HasText(b.filter[i]))
    case _ => false
  }

  /** A query is compiled exactly when it can be, and its text is counted. */
  lemma {:induction false} CompilesIff(q: Query)
    ensures Walk(q).Some? <==> Compiles(q)
    ensures Walk(q).Some? ==> (Walk(q).value.text > 0 <==> HasText(q))
    decreases q
  {
    if q.Query? {
      ClausesCompileIff(q.clauses);
    }
  }

  lemma {:induction false} ClausesCompileIff(clauses: seq<Clause>)
    ensures WalkClauses(clauses).Some? <==> forall i :: 0 <= i < |clauses| ==> ClauseCompiles(clauses[i])
    ensures WalkClauses(clauses).Some? ==>
              (WalkClauses(clauses).value.text > 0 <==> exists i :: 0 <= i < |clauses| && ClauseHasText(clauses[i]))
    decreases clauses
  {
    hide WalkClause, ClauseCompiles, ClauseHasText;
    if clauses != [] {
      var front, last := clauses[..|clauses| - 1], clauses[|clauses| - 1];
      ClausesCompileIff(front);
      ClauseCompilesIff(last);
      assert forall i :: 0 <= i < |front| ==> front[i] == clauses[i];
      assert clauses[|front|] == last;
    }
  }

  lemma {:induction false} ClauseCompilesIff(c: Clause)
    ensures WalkClause(c).Some? <==> ClauseCompiles(c)
    ensures WalkClause(c).Some? ==> (WalkClause(c).value.text > 0 <==> ClauseHasText(c))
    decreases c
  {
    hide ListIff, NestedIff;
    match c {
      case Range(_, bounds) => RangeCompilesIff(bounds, bounds);
      case Bool(b) =>
        ListCompilesIff(b.must);
        ListCompilesIff(b.filter);
        NestedCompileIff(b.mustNot);
        NestedCompileIff(b.should);
        BoolCompilesIff(b);
      case _ =>
    }
  }

  lemma {:induction false} RangeCompilesIff(bounds: seq<Bound>, all: seq<Bound>)
    ensures CompiledInterval(bounds, all).Some? <==> forall b :: b in bounds ==> KnownKey(b.key)
    decreases |bounds|
  {
    hide Flag, KnownKey, Ignored, BoundOp;
    if bounds != [] {
      var front, last := bounds[..|bounds| - 1], bounds[|bounds| - 1];
      RangeCompilesIff(front, all);
      KnownIff(last.key, all);
      assert bounds == front + [last];
      assert last in bounds && forall b :: b in bounds <==> b in front || b == last;
    }
  }

  lemma KnownIff(key: string, all: seq<Bound>)
    ensures KnownKey(key) <==> Ignored(key) || BoundOp(key, all).Some?
  {
    hide Flag;
  }

  predicate ListIff(qs: seq<Query>) {
    && (WalkAll(qs).Some? <==> forall i :: 0 <= i < |qs| ==> Compiles(qs[i]))
    && (WalkAll(qs).Some? ==> (WalkAll(qs).value.text > 0 <==> exists i :: 0 <= i < |qs| && HasText(qs[i])))
  }

  predicate NestedIff(qs: seq<Query>) {
    Nested(qs).Some? <==> forall i :: 0 <= i < |qs| ==> Compiles(qs[i]) && !HasText(qs[i])
  }

  lemma BoolCompilesIff(b: BoolQuery)
    requires ListIff(b.must) && ListIff(b.filter) && NestedIff(b.mustNot) && NestedIff(b.should)
    ensures var c := Clause.Bool(b);
            && (WalkClause(c).Some? <==> ClauseCompiles(c))
            && (WalkClause(c).Some? ==> (WalkClause(c).value.text > 0 <==> ClauseHasText(c)))
  {
    hide WalkAll, Nested, Compiles, HasText, MinimumShouldMatch;
  }

  lemma {:induction false} ListCompilesIff(qs: seq<Query>)
    ensures ListIff(qs)
    decreases qs
  {
    hide Walk, Compiles, HasText;
    if qs != [] {
      var front, last := qs[..|qs| - 1], qs[|qs| - 1];
      ListCompilesIff(front);
      CompilesIff(last);
      assert forall i :: 0 <= i < |front| ==> front[i] == qs[i];
      assert qs[|front|] == last;
    }
  }

  lemma {:induction false} NestedCompileIff(qs: seq<Query>)
    ensures NestedIff(qs)
    decreases qs
  {
    hide Walk, Compiles, HasText;
    if qs != [] {
      var front, last := qs[..|qs| - 1], qs[|qs| - 1];
      NestedCompileIff(front);
      CompilesIff(last);
      assert forall i :: 0 <= i < |front| ==> front[i] == qs[i];
      assert qs[|front|] == last;
    }
  }

  // ---------------------------------------------------------------- the patterns

  /** Objects along `must` and `filter`, regular expressions that parse, and no pattern under `should`
      or `must_not`. */
  predicate Collectable(valid: FieldPattern -> bool, q: Query)
    decreases q
  {
    q.Query? && forall i :: 0 <= i < |q.clauses| ==> ClauseCollectable(valid, q.clauses[i])
  }

  predicate ClauseCollectable(valid: FieldPattern -> bool, c: Clause)
    decreases c
  {
    match c
    case Pattern(p) => p.kind.Regexp? ==> valid(p)
    case Bool(b) =>
      && (forall i :: 0 <= i < |b.must| ==> Collectable(valid, b.must[i]))
      && (forall i :: 0 <= i < |b.filter| ==> Collectable(valid, b.filter[i]))
      && (forall i :: 0 <= i < |b.should| ==> Collectable(valid, b.should[i]) && !HasPattern(b.should[i]))
      && (forall i :: 0 <= i < |b.mustNot| ==> Collectable(valid, b.mustNot[i]) && !HasPattern(b.mustNot[i]))
    case _ => true
  }

  lemma {:induction false} CollectableIff(valid: FieldPattern -> bool, q: Query)
    ensures Collect(valid, q).Some? <==> Collectable(valid, q)
    decreases q
  {
    if q.Query? {
      ClausesCollectableIff(valid, q.clauses);
    }
  }

  lemma {:induction false} ClausesCollectableIff(valid: FieldPattern -> bool, clauses: seq<Clause>)
    ensures CollectClauses(valid, clauses).Some? <==> forall i :: 0 <= i < |clauses| ==> ClauseCollectable(valid, clauses[i])
    decreases clauses
  {
    hide CollectClause, ClauseCollectable;
    if clauses != [] {
      var front, last := clauses[..|clauses| - 1], clauses[|clauses| - 1];
      ClausesCollectableIff(valid, front);
      ClauseCollectableIff(valid, last);
      assert forall i :: 0 <= i < |front| ==> front[i] == clauses[i];
      assert clauses[|front|] == last;
    }
  }

  lemma {:induction false} ClauseCollectableIff(valid: FieldPattern -> bool, c: Clause)
    ensures CollectClause(valid, c).Some? <==> ClauseCollectable(valid, c)
    decreases c
  {
    match c {
      case Bool(b) =>
        AllCollectableIff(valid, b.must);
        AllCollectableIff(valid, b.filter);
        AllCollectableIff(valid, b.should);
        AllCollectableIff(valid, b.mustNot);
        NoneIff(valid, b.should);
        NoneIff(valid, b.mustNot);
        hide CollectAll, Collectable, HasPattern;
      case _ =>
    }
  }

  predicate AllCollectable(valid: FieldPattern -> bool, qs: seq<Query>) {
    CollectAll(valid, qs).Some? <==> forall i :: 0 <= i < |qs| ==> Collectable(valid, qs[i])
  }

  lemma NoneIff(valid: FieldPattern -> bool, qs: seq<Query>)
    ensures NoneAllowed(CollectAll(valid, qs)).Some? <==>
            CollectAll(valid, qs).Some? && forall i :: 0 <= i < |qs| ==> !HasPattern(qs[i])
  {
    if CollectAll(valid, qs).Some? {
      ListCollects(valid, qs);
    }
  }

  lemma {:induction false} AllCollectableIff(valid: FieldPattern -> bool, qs: seq<Query>)
    ensures AllCollectable(valid, qs)
    decreases qs
  {
    hide Collect, Collectable;
    if qs != [] {
      var front, last := qs[..|qs| - 1], qs[|qs| - 1];
      AllCollectableIff(valid, front);
      CollectableIff(valid, last);
      assert forall i :: 0 <= i < |front| ==> front[i] == qs[i];
      assert qs[|front|] == last;
    }
  }

  // ---------------------------------------------------------------- the compiled range

  lemma {:induction false} SomeSetting(bounds: seq<Bound>, all: seq<Bound>, op: RangeOp)
    requires CompiledInterval(bounds, all).Some?
    ensures op in CompiledInterval(bounds, all).value <==> exists b :: b in bounds && Sets(b, all, op)
    decreases |bounds|
  {
    if bounds != [] {
      var front, last := bounds[..|bounds| - 1], bounds[|bounds| - 1];
      StepSets(bounds, all, op);
      hide *;
      SomeSetting(front, all, op);
      assert bounds == front + [last];
      assert forall b :: b in bounds <==> b in front || b == last;
    }
  }

  lemma {:induction false} LastSetting(bounds: seq<Bound>, all: seq<Bound>, op: RangeOp, i: nat)
    requires CompiledInterval(bounds, all).Some?
    requires i < |bounds| && Sets(bounds[i], all, op) && forall j :: i < j < |bounds| ==> !Sets(bounds[j], all, op)
    ensures op in CompiledInterval(bounds, all).value && CompiledInterval(bounds, all).value[op] == bounds[i].value
    decreases |bounds|
  {
    StepSets(bounds, all, op);
    hide *;
    if i < |bounds| - 1 {
      LastSetting(bounds[..|bounds| - 1], all, op, i);
    }
  }

  predicate Sets(x: Bound, all: seq<Bound>, op: RangeOp) {
    !Ignored(x.key) && BoundOp(x.key, all) == Some(op)
  }

  lemma StepSets(bounds: seq<Bound>, all: seq<Bound>, op: RangeOp)
    requires bounds != [] && CompiledInterval(bounds, all).Some?
    ensures CompiledInterval(bounds[..|bounds| - 1], all).Some?
    ensures var front, last := CompiledInterval(bounds[..|bounds| - 1], all).value, bounds[|bounds| - 1];
            var interval := CompiledInterval(bounds, all).value;
            if Sets(last, all, op) then op in interval && interval[op] == last.value
            else (op in interval <==> op in front) && (op in front ==> interval[op] == front[op])
  {
    hide BoundOp, Ignored;
  }

  predicate Has(bounds: seq<Bound>, key: string) {
    exists b :: b in bounds && b.key == key
  }

  /** Which entry an operator takes its bound from: of two that mean the same, the later key. */
  predicate Gives(bounds: seq<Bound>, op: RangeOp, key: string) {
    var openLower, openUpper := Bound("include_lower", Json.Bool(false)) in bounds, Bound("include_upper", Json.Bool(false)) in bounds;
    match op
    case Gt => key == "gt" || (key == "from" && openLower && !Has(bounds, "gt"))
    case Gte => key == "gte" || (key == "from" && !openLower && !Has(bounds, "gte"))
    case Lt => (key == "to" && openUpper) || (key == "lt" && !(openUpper && Has(bounds, "to")))
    case Lte => (key == "to" && !openUpper) || (key == "lte" && !(!openUpper && Has(bounds, "to")))
  }

  /** A range that compiles bounds each operator by the entry that gives it, and by no other. */
  lemma CompiledRange(bounds: Entries, op: RangeOp)
    requires CompiledInterval(bounds, bounds).Some?
    ensures op in CompiledInterval(bounds, bounds).value <==> exists b :: b in bounds && Gives(bounds, op, b.key)
    ensures forall b :: b in bounds && Gives(bounds, op, b.key) ==>
              op in CompiledInterval(bounds, bounds).value && CompiledInterval(bounds, bounds).value[op] == b.value
  {
    SomeSetting(bounds, bounds, op);
    hide *;
    forall b | b in bounds && Gives(bounds, op, b.key)
      ensures op in CompiledInterval(bounds, bounds).value && CompiledInterval(bounds, bounds).value[op] == b.value
    {
      var i :| 0 <= i < |bounds| && bounds[i] == b;
      GivenLast(bounds, op, i);
      LastSetting(bounds, bounds, op, i);
    }
    if b :| b in bounds && Sets(b, bounds, op) {
      SomeGives(bounds, op, b);
    }
  }

  lemma GivenLast(bounds: Entries, op: RangeOp, i: nat)
    requires i < |bounds| && Gives(bounds, op, bounds[i].key)
    ensures Sets(bounds[i], bounds, op) && forall j :: i < j < |bounds| ==> !Sets(bounds[j], bounds, op)
  {
    GivenSets(bounds, op, bounds[i]);
    hide *;
    forall j | i < j < |bounds|
      ensures !Sets(bounds[j], bounds, op)
    {
      assert bounds[j] in bounds;
      assert CmpString(bounds[i].key, bounds[j].key).Less? by { Ascends(bounds, i, j); }
      KeysDiffer(bounds[i].key, bounds[j].key);
      if Sets(bounds[j], bounds, op) {
        OneSets(bounds, op, bounds[i], bounds[j]);
      }
    }
  }

  lemma Ascends(bounds: Entries, i: nat, j: nat)
    requires i < j < |bounds|
    ensures CmpString(bounds[i].key, bounds[j].key).Less?
  {
  }

  lemma GivenSets(bounds: Entries, op: RangeOp, x: Bound)
    requires x in bounds && Gives(bounds, op, x.key)
    ensures Sets(x, bounds, op)
  {
    Clauses.FlagsAre(bounds);
    hide Flag, KeysAscend;
  }

  /** Of two entries for one operator, the one that gives it does not come first. */
  lemma OneSets(bounds: Entries, op: RangeOp, x: Bound, y: Bound)
    requires x in bounds && y in bounds && Gives(bounds, op, x.key) && Sets(y, bounds, op)
    ensures || x.key == y.key || (x.key == "gt" && y.key == "from") || (x.key == "gte" && y.key == "from")
            || (x.key == "to" && y.key in {"lt", "lte"})
  {
    Clauses.FlagsAre(bounds);
    hide Flag, KeysAscend;
  }

  lemma KeysDiffer(a: string, b: string)
    requires CmpString(a, b).Less?
    ensures a != b && !(a == "gt" && b == "from") && !(a == "gte" && b == "from") && !(a == "to" && b in {"lt", "lte"})
  {
    StringOrder(a, b, []);
  }

  lemma SomeGives(bounds: Entries, op: RangeOp, x: Bound)
    requires x in bounds && Sets(x, bounds, op)
    ensures exists b :: b in bounds && Gives(bounds, op, b.key)
  {
    SetByKey(bounds, op, x);
    hide Sets, Gives, KeysAscend;
    if !Gives(bounds, op, x.key) {
      var y :| y in bounds && y.key == Preferred(op);
      assert Gives(bounds, op, y.key);
    }
  }

  function Preferred(op: RangeOp): string {
    match op case Gt => "gt" case Gte => "gte" case Lt => "to" case Lte => "to"
  }

  lemma SetByKey(bounds: Entries, op: RangeOp, x: Bound)
    requires x in bounds && Sets(x, bounds, op)
    ensures Gives(bounds, op, x.key) || (Has(bounds, Preferred(op)) && Gives(bounds, op, Preferred(op)))
  {
    Clauses.FlagsAre(bounds);
    hide Flag, KeysAscend, Has;
  }
}
