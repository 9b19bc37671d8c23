/** Compilation of a query to a backend filter and gateway-side patterns. */
module QueryCompiler {
  import opened Options
  import opened Values
  import opened Hits
  import opened Queries
  import opened Intervals

  datatype Condition =
    | MatchValue(key: string, value: Json)
    | MatchAny(key: string, values: seq<Json>)
    | InRange(key: string, interval: Interval)
    | NotEmpty(key: string)
    | IdAny(ids: seq<Json>)
    | Group(must: seq<Condition>, mustNot: seq<Condition>)
    | MinShould(conditions: seq<Condition>, minCount: nat)

  /** The backend's reading of a condition on one document. */
  predicate Holds(t: Dates, d: Hit, c: Condition)
    decreases c
  {
    match c
    case MatchValue(key, value) => FieldHas(d.source, key, (v: Json) => v == value)
    case MatchAny(key, values) => FieldHas(d.source, key, (v: Json) => v in values)
    case InRange(key, interval) => FieldHas(d.source, key, (v: Json) => InInterval(t, v, interval))
    case NotEmpty(key) => FieldExists(d.source, key)
    case IdAny(ids) => Str(d.id) in ids
    case Group(must, mustNot) =>
      && (forall i :: 0 <= i < |must| ==> Holds(t, d, must[i]))
      && (forall i :: 0 <= i < |mustNot| ==> !Holds(t, d, mustNot[i]))
    case MinShould(conditions, minCount) => CountHolds(t, d, conditions) >= minCount
  }

  function CountHolds(t: Dates, d: Hit, cs: seq<Condition>): nat
    decreases cs
  {
    if cs == [] then 0 else CountHolds(t, d, cs[..|cs| - 1]) + if Holds(t, d, cs[|cs| - 1]) then 1 else 0
  }

  /** What walking a query pushes: positive conditions, negated ones, and text entries. */
  datatype Parts = Parts(must: seq<Condition>, mustNot: seq<Condition>, text: nat)

  const NOTHING: Parts := Parts([], [], 0)

  function Append(a: Option<Parts>, b: Option<Parts>): Option<Parts> {
    if a.None? || b.None? then None
    else Some(Parts(a.value.must + b.value.must, a.value.mustNot + b.value.mustNot, a.value.text + b.value.text))
  }

  function ConditionOf(p: Parts): Condition {
    if p.mustNot == [] && |p.must| == 1 then p.must[0] else Group(p.must, p.mustNot)
  }

  /** Later entries of an operator replace earlier ones; an unknown key is refused. */
  function CompiledInterval(bounds: seq<Bound>, all: seq<Bound>): Option<Interval>
    decreases |bounds|
  {
    if bounds == [] then Some(map[])
    else
      var front, x := CompiledInterval(bounds[..|bounds| - 1], all), bounds[|bounds| - 1];
      if front.None? then None
      else if Ignored(x.key) then front
      else match BoundOp(x.key, all)
        case Some(op) => Some(front.value[op := x.value])
        case None => None
  }

  // ---------------------------------------------------------------- specification

  function Walk(q: Query): Option<Parts>
    decreases q
  {
    match q case NotAnObject => None case Query(clauses) => WalkClauses(clauses)
  }

  function WalkClauses(clauses: seq<Clause>): Option<Parts>
    decreases clauses
  {
    if clauses == [] then Some(NOTHING)
    else Append(WalkClauses(clauses[..|clauses| - 1]), WalkClause(clauses[|clauses| - 1]))
  }

  function WalkClause(c: Clause): Option<Parts>
    decreases c
  {
    match c
    case MatchAll => Some(NOTHING)
    case Term(field, value) => Some(Parts([MatchValue(CompatibilityField(field), TermValue(value))], [], 0))
    case Terms(field, values) => Some(Parts([MatchAny(CompatibilityField(field), values)], [], 0))
    case Range(field, bounds) =>
      (match CompiledInterval(bounds, bounds)
       case Some(interval) => Some(Parts([InRange(CompatibilityField(field), interval)], [], 0))
       case None => None)
    case Exists(field) => Some(Parts([NotEmpty(CompatibilityField(field))], [], 0))
    case Ids(ids) => Some(Parts([IdAny(ids)], [], 0))
    case Text => Some(Parts([], [], 1))
    case Pattern(_) => Some(NOTHING)
    case Bool(b) => Append(Append(WalkAll(b.must), WalkAll(b.filter)), Append(NegatedParts(Nested(b.mustNot)), ShouldParts(b, Nested(b.should))))
    case Malformed => None
    case Unsupported => None
  }

  function WalkAll(qs: seq<Query>): Option<Parts>
    decreases qs
  {
    if qs == [] then Some(NOTHING) else Append(WalkAll(qs[..|qs| - 1]), Walk(qs[|qs| - 1]))
  }

  /** Each clause compiled on its own; text is refused there. */
  function Nested(qs: seq<Query>): Option<seq<Condition>>
    decreases qs
  {
    if qs == [] then Some([])
    else
      var front, last := Nested(qs[..|qs| - 1]), Walk(qs[|qs| - 1]);
      if front.None? || last.None? || last.value.text > 0 then None else Some(front.value + [ConditionOf(last.value)])
  }

  function NegatedParts(cs: Option<seq<Condition>>): Option<Parts> {
    match cs case Some(conditions) => Some(Parts([], conditions, 0)) case None => None
  }

  function ShouldParts(b: BoolQuery, cs: Option<seq<Condition>>): Option<Parts> {
    match cs
    case None => None
    case Some(conditions) => Some(if MinimumOf(b) > 0 then Parts([MinShould(conditions, MinimumOf(b))], [], 0) else NOTHING)
  }

  function Wrapped(cs: seq<Condition>): seq<Condition> {
    seq(|cs|, i requires 0 <= i < |cs| => Group([], [cs[i]]))
  }

  /** The whole filter: everything negated is wrapped and joins the positive list. */
  function FilterOf(p: Parts): Option<Condition> {
    var all := p.must + Wrapped(p.mustNot);
    if all == [] then None else Some(Group(all, []))
  }

  function QueryFilter(q: Query): Option<Option<Condition>> {
    match Walk(q) case Some(p) => Some(FilterOf(p)) case None => None
  }

  function Concat(a: Option<seq<FieldPattern>>, b: Option<seq<FieldPattern>>): Option<seq<FieldPattern>> {
    if a.None? || b.None? then None else Some(a.value + b.value)
  }

  function Collect(valid: FieldPattern -> bool, q: Query): Option<seq<FieldPattern>>
    decreases q
  {
    match q case NotAnObject => None case Query(clauses) => CollectClauses(valid, clauses)
  }

  function CollectClauses(valid: FieldPattern -> bool, clauses: seq<Clause>): Option<seq<FieldPattern>>
    decreases clauses
  {
    if clauses == [] then Some([])
    else Concat(CollectClauses(valid, clauses[..|clauses| - 1]), CollectClause(valid, clauses[|clauses| - 1]))
  }

  function CollectClause(valid: FieldPattern -> bool, c: Clause): Option<seq<FieldPattern>>
    decreases c
  {
    match c
    case Pattern(p) => if p.kind.Regexp? && !valid(p) then None else Some([Compatible(p)])
    case Bool(b) =>
      Concat(Concat(CollectAll(valid, b.must), CollectAll(valid, b.filter)),
             Concat(NoneAllowed(CollectAll(valid, b.should)), NoneAllowed(CollectAll(valid, b.mustNot))))
    case _ => Some([])
  }

  function CollectAll(valid: FieldPattern -> bool, qs: seq<Query>): Option<seq<FieldPattern>>
    decreases qs
  {
    if qs == [] then Some([]) else Concat(CollectAll(valid, qs[..|qs| - 1]), Collect(valid, qs[|qs| - 1]))
  }

  /** Patterns under should and must_not are refused. */
  function NoneAllowed(found: Option<seq<FieldPattern>>): Option<seq<FieldPattern>> {
    if found == Some([]) then found else None
  }

  // ---------------------------------------------------------------- the vectors that are pushed to

  method CompileRange(bounds: Entries) returns (interval: Option<Interval>)
    ensures interval == CompiledInterval(bounds, bounds)
  {
    var range: Interval := map[];
    for i := 0 to |bounds|
      invariant CompiledInterval(bounds[..i], bounds) == Some(range)
    {
      assert bounds[..i + 1][..i] == bounds[..i];
      var x := bounds[i];
      if !Ignored(x.key) {
        var op := BoundOp(x.key, bounds);
        if op.None? {
          IntervalPrefix(bounds, i + 1, bounds);
          assert bounds[..|bounds|] == bounds;
          return None;
        }
        range := range[op.value := x.value];
      }
    }
    assert bounds[..|bounds|] == bounds;
    interval := Some(range);
  }

  lemma {:induction false} IntervalPrefix(bounds: seq<Bound>, i: nat, all: seq<Bound>)
    requires i <= |bounds| && CompiledInterval(bounds[..i], all).None?
    ensures CompiledInterval(bounds, all).None?
    decreases |bounds|
  {
    if i < |bounds| {
      var front := bounds[..|bounds| - 1];
      assert front[..i] == bounds[..i];
      IntervalPrefix(front, i, all);
    } else {
      assert bounds[..i] == bounds;
    }
  }

  /** Pushes onto the caller's vectors; after an error their contents do not matter. */
  method WalkQuery(q: Query, pushed: Parts) returns (r: Option<Parts>)
    ensures r == Append(Some(pushed), Walk(q))
    decreases q
  {
    if q.NotAnObject? {
      return None;
    }
    r := Some(pushed);
    AppendNothing(r);
    var clauses := q.clauses;
    for i := 0 to |clauses|
      invariant r.Some? && r == Append(Some(pushed), WalkClauses(clauses[..i]))
    {
      assert clauses[..i + 1][..i] == clauses[..i];
      r := WalkOne(clauses[i], r.value);
      AppendAssociates(Some(pushed), WalkClauses(clauses[..i]), WalkClause(clauses[i]));
      if r.None? {
        WalkClausesPrefix(clauses, i + 1);
        return;
      }
    }
    assert clauses[..|clauses|] == clauses;
  }

  lemma AppendAssociates(a: Option<Parts>, b: Option<Parts>, c: Option<Parts>)
    ensures Append(Append(a, b), c) == Append(a, Append(b, c))
  {
    if a.Some? && b.Some? && c.Some? {
      assert (a.value.must + b.value.must) + c.value.must == a.value.must + (b.value.must + c.value.must);
      assert (a.value.mustNot + b.value.mustNot) + c.value.mustNot == a.value.mustNot + (b.value.mustNot + c.value.mustNot);
    }
  }

  lemma {:induction false} WalkClausesPrefix(clauses: seq<Clause>, i: nat)
    requires i <= |clauses| && WalkClauses(clauses[..i]).None?
    ensures WalkClauses(clauses).None?
    decreases |clauses|
  {
    if i < |clauses| {
      var front := clauses[..|clauses| - 1];
      assert front[..i] == clauses[..i];
      WalkClausesPrefix(front, i);
    } else {
      assert clauses[..i] == clauses;
    }
  }

  lemma {:induction false} WalkAllPrefix(qs: seq<Query>, i: nat)
    requires i <= |qs| && WalkAll(qs[..i]).None?
    ensures WalkAll(qs).None?
    decreases |qs|
  {
    if i < |qs| {
      var front := qs[..|qs| - 1];
      assert front[..i] == qs[..i];
      WalkAllPrefix(front, i);
    } else {
      assert qs[..i] == qs;
    }
  }

  lemma {:induction false} NestedPrefix(qs: seq<Query>, i: nat)
    requires i <= |qs| && Nested(qs[..i]).None?
    ensures Nested(qs).None?
    decreases |qs|
  {
    if i < |qs| {
      var front := qs[..|qs| - 1];
      assert front[..i] == qs[..i];
      NestedPrefix(front, i);
    } else {
      assert qs[..i] == qs;
    }
  }

  method WalkList(qs: seq<Query>, pushed: Parts) returns (r: Option<Parts>)
    ensures r == Append(Some(pushed), WalkAll(qs))
    decreases qs, 1
  {
    r := Some(pushed);
    AppendNothing(r);
    for i := 0 to |qs|
      invariant r.Some? && r == Append(Some(pushed), WalkAll(qs[..i]))
    {
      assert qs[..i + 1][..i] == qs[..i];
      r := WalkQuery(qs[i], r.value);
      AppendAssociates(Some(pushed), WalkAll(qs[..i]), Walk(qs[i]));
      if r.None? {
        WalkAllPrefix(qs, i + 1);
        return;
      }
    }
    assert qs[..|qs|] == qs;
  }

  method WalkNested(qs: seq<Query>) returns (r: Option<seq<Condition>>)
    ensures r == Nested(qs)
    decreases qs, 1
  {
    var conditions: seq<Condition> := [];
    for i := 0 to |qs|
      invariant Nested(qs[..i]) == Some(conditions)
    {
      assert qs[..i + 1][..i] == qs[..i];
      var parts := WalkQuery(qs[i], NOTHING);
      AppendNothing(Walk(qs[i]));
      if parts.None? || parts.value.text > 0 {
        NestedPrefix(qs, i + 1);
        return None;
      }
      conditions := conditions + [ConditionOf(parts.value)];
    }
    assert qs[..|qs|] == qs;
    r := Some(conditions);
  }

  lemma AppendNothing(a: Option<Parts>)
    ensures Append(Some(NOTHING), a) == a && Append(a, Some(NOTHING)) == a
  {
    if a.Some? {
      assert [] + a.value.must == a.value.must == a.value.must + [];
      assert [] + a.value.mustNot == a.value.mustNot == a.value.mustNot + [];
    }
  }

  lemma AppendOneKind(a: Parts, conditions: seq<Condition>)
    ensures Append(Some(a), Some(Parts(conditions, [], 0))) == Some(a.(must := a.must + conditions))
    ensures Append(Some(a), Some(Parts([], conditions, 0))) == Some(a.(mustNot := a.mustNot + conditions))
    ensures Append(Some(a), Some(Parts([], [], 1))) == Some(a.(text := a.text + 1))
  {
    assert a.mustNot + [] == a.mustNot && a.must + [] == a.must;
  }

  method WalkOne(c: Clause, pushed: Parts) returns (r: Option<Parts>)
    ensures r == Append(Some(pushed), WalkClause(c))
    decreases c
  {
    hide WalkAll, Nested;
    AppendNothing(Some(pushed));
    if WalkClause(c).Some? {
      AppendOneKind(pushed, WalkClause(c).value.must);
    }
    match c {
      case MatchAll => r := Some(pushed);
      case Pattern(_) => r := Some(pushed);
      case Text => r := Some(pushed.(text := pushed.text + 1));
      case Term(field, value) => r := Some(pushed.(must := pushed.must + [MatchValue(CompatibilityField(field), TermValue(value))]));
      case Terms(field, values) => r := Some(pushed.(must := pushed.must + [MatchAny(CompatibilityField(field), values)]));
      case Exists(field) => r := Some(pushed.(must := pushed.must + [NotEmpty(CompatibilityField(field))]));
      case Ids(ids) => r := Some(pushed.(must := pushed.must + [IdAny(ids)]));
      case Range(field, bounds) =>
        var interval := CompileRange(bounds);
        r := if interval.Some? then Some(pushed.(must := pushed.must + [InRange(CompatibilityField(field), interval.value)])) else None;
      case Bool(b) => r := WalkBool(b, pushed);
      case Malformed => r := None;
      case Unsupported => r := None;
    }
  }

  method WalkBool(b: BoolQuery, pushed: Parts) returns (r: Option<Parts>)
    ensures r == Append(Some(pushed), WalkClause(Clause.Bool(b)))
    decreases b
  {
    hide WalkAll, Nested;
    AppendAssociates(Some(pushed), WalkAll(b.must), WalkAll(b.filter));
    AppendAssociates(Some(pushed), Append(WalkAll(b.must), WalkAll(b.filter)),
                     Append(NegatedParts(Nested(b.mustNot)), ShouldParts(b, Nested(b.should))));
    r := WalkList(b.must, pushed);
    if r.None? {
      return;
    }
    r := WalkList(b.filter, r.value);
    if r.None? {
      return;
    }
    var required := r;
    AppendAssociates(required, NegatedParts(Nested(b.mustNot)), ShouldParts(b, Nested(b.should)));
    var negated := WalkNested(b.mustNot);
    if negated.None? {
      return None;
    }
    AppendOneKind(r.value, negated.value);
    r := Some(r.value.(mustNot := r.value.mustNot + negated.value));
    assert r == Append(required, NegatedParts(Nested(b.mustNot)));
    AppendNothing(r);
    if b.should != [] {
      var should := WalkNested(b.should);
      if should.None? {
        return None;
      }
      if MinimumOf(b) > 0 {
        AppendOneKind(r.value, [MinShould(should.value, MinimumOf(b))]);
        r := Some(r.value.(must := r.value.must + [MinShould(should.value, MinimumOf(b))]));
      }
    } else {
      NoShould(b);
    }
  }

  lemma NoShould(b: BoolQuery)
    requires b.should == []
    ensures ShouldParts(b, Nested(b.should)) == Some(NOTHING)
  {
  }

  method CompileFilter(q: Query) returns (r: Option<Option<Condition>>)
    ensures r == QueryFilter(q)
  {
    hide Walk, Append;
    var parts := WalkQuery(q, NOTHING);
    AppendNothing(Walk(q));
    if parts.None? {
      return None;
    }
    var all := parts.value.must;
    var mustNot := parts.value.mustNot;
    for i := 0 to |mustNot|
      invariant all == parts.value.must + Wrapped(mustNot[..i])
    {
      assert Wrapped(mustNot[..i + 1]) == Wrapped(mustNot[..i]) + [Group([], [mustNot[i]])];
      all := all + [Group([], [mustNot[i]])];
    }
    assert mustNot[..|mustNot|] == mustNot;
    r := Some(if all == [] then None else Some(Group(all, [])));
  }

  method CollectPatterns(valid: FieldPattern -> bool, q: Query, found: seq<FieldPattern>) returns (r: Option<seq<FieldPattern>>)
    ensures r == Concat(Some(found), Collect(valid, q))
    decreases q
  {
    if q.NotAnObject? {
      return None;
    }
    var clauses := q.clauses;
    r := Some(found);
    assert found + [] == found;
    for i := 0 to |clauses|
      invariant r.Some? && r == Concat(Some(found), CollectClauses(valid, clauses[..i]))
    {
      assert clauses[..i + 1][..i] == clauses[..i];
      ConcatAssociates(Some(found), CollectClauses(valid, clauses[..i]), CollectClause(valid, clauses[i]));
      ghost var before := r;
      match clauses[i] {
        case Pattern(p) => r := if p.kind.Regexp? && !valid(p) then None else Some(r.value + [Compatible(p)]);
        case Bool(b) => r := CollectBool(valid, b, r.value);
        case _ => assert r.value + [] == r.value;
      }
      assert r == Concat(before, CollectClause(valid, clauses[i]));
      if r.None? {
        CollectClausesPrefix(valid, clauses, i + 1);
        return;
      }
    }
    assert clauses[..|clauses|] == clauses;
  }

  method CollectBool(valid: FieldPattern -> bool, b: BoolQuery, found: seq<FieldPattern>) returns (r: Option<seq<FieldPattern>>)
    ensures r == Concat(Some(found), CollectClause(valid, Clause.Bool(b)))
    decreases b
  {
    hide CollectAll;
    var must, filter := CollectAll(valid, b.must), CollectAll(valid, b.filter);
    ConcatAssociates(Some(found), must, filter);
    ConcatAssociates(Some(found), Concat(must, filter),
                     Concat(NoneAllowed(CollectAll(valid, b.should)), NoneAllowed(CollectAll(valid, b.mustNot))));
    r := CollectList(valid, b.must, found);
    if r.None? {
      return;
    }
    r := CollectList(valid, b.filter, r.value);
    if r.None? {
      return;
    }
    var nested := CollectList(valid, b.should, []);
    ConcatNothing(CollectAll(valid, b.should));
    if nested != Some([]) {
      return None;
    }
    nested := CollectList(valid, b.mustNot, []);
    ConcatNothing(CollectAll(valid, b.mustNot));
    if nested != Some([]) {
      return None;
    }
    ConcatNothing(r);
  }

  method CollectList(valid: FieldPattern -> bool, qs: seq<Query>, found: seq<FieldPattern>) returns (r: Option<seq<FieldPattern>>)
    ensures r == Concat(Some(found), CollectAll(valid, qs))
    decreases qs, 1
  {
    r := Some(found);
    ConcatNothing(r);
    for i := 0 to |qs|
      invariant r.Some? && r == Concat(Some(found), CollectAll(valid, qs[..i]))
    {
      assert qs[..i + 1][..i] == qs[..i];
      ConcatAssociates(Some(found), CollectAll(valid, qs[..i]), Collect(valid, qs[i]));
      r := CollectPatterns(valid, qs[i], r.value);
      if r.None? {
        CollectAllPrefix(valid, qs, i + 1);
        return;
      }
    }
    assert qs[..|qs|] == qs;
  }

  lemma ConcatAssociates(a: Option<seq<FieldPattern>>, b: Option<seq<FieldPattern>>, c: Option<seq<FieldPattern>>)
    ensures Concat(Concat(a, b), c) == Concat(a, Concat(b, c))
  {
    if a.Some? && b.Some? && c.Some? {
      assert (a.value + b.value) + c.value == a.value + (b.value + c.value);
    }
  }

  lemma ConcatNothing(a: Option<seq<FieldPattern>>)
    ensures Concat(Some([]), a) == a && Concat(a, Some([])) == a
  {
    if a.Some? {
      assert [] + a.value == a.value == a.value + [];
    }
  }

  lemma {:induction false} CollectClausesPrefix(valid: FieldPattern -> bool, clauses: seq<Clause>, i: nat)
    requires i <= |clauses| && CollectClauses(valid, clauses[..i]).None?
    ensures CollectClauses(valid, clauses).None?
    decreases |clauses|
  {
    if i < |clauses| {
      var front := clauses[..|clauses| - 1];
      assert front[..i] == clauses[..i];
      CollectClausesPrefix(valid, front, i);
    } else {
      assert clauses[..i] == clauses;
    }
  }

  lemma {:induction false} CollectAllPrefix(valid: FieldPattern -> bool, qs: seq<Query>, i: nat)
    requires i <= |qs| && CollectAll(valid, qs[..i]).None?
    ensures CollectAll(valid, qs).None?
    decreases |qs|
  {
    if i < |qs| {
      var front := qs[..|qs| - 1];
      assert front[..i] == qs[..i];
      CollectAllPrefix(valid, front, i);
    } else {
      assert qs[..i] == qs;
    }
  }
}
