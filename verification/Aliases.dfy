/** Administrative operations on the catalog: alias batches, index creation and deletion. */
module Aliases {
  import opened Options
  import opened Values
  import opened Markers
  import opened Documents
  import opened Catalogs

  datatype Request = AddRequest(alias: string, index: string) | RemoveRequest(alias: string, index: string) | MalformedRequest

  datatype AliasAction = Add(alias: string, index: string) | Remove(alias: string, index: string)

  datatype AdminResult = Done | Refused

  // ---------------------------------------------------------------- alias batches, as a relation

  type Relation = set<(string, string)>

  /** Which alias names which index. */
  function RelationOf(aliases: map<string, string>): Relation {
    set a | a in aliases :: (a, aliases[a])
  }

  function Targets(rel: Relation, alias: string): set<string> {
    set pair | pair in rel && pair.0 == alias :: pair.1
  }

  function ReplayOne(rel: Relation, action: AliasAction): Relation {
    match action
    case Add(alias, index) => rel + {(alias, index)}
    case Remove(alias, index) => rel - {(alias, index)}
  }

  /** The batch applied in order to the relation, where an alias may have several targets for a while. */
  function Replay(rel: Relation, actions: seq<AliasAction>): Relation {
    if actions == [] then rel else ReplayOne(Replay(rel, actions[..|actions| - 1]), actions[|actions| - 1])
  }

  /** An addition always takes effect, a removal when the pair is there at that point. */
  predicate TookEffect(rel: Relation, action: AliasAction) {
    action.Add? || (action.alias, action.index) in rel
  }

  predicate Effective(rel: Relation, actions: seq<AliasAction>) {
    actions != [] && (Effective(rel, actions[..|actions| - 1])
                      || TookEffect(Replay(rel, actions[..|actions| - 1]), actions[|actions| - 1]))
  }

  predicate SingleTargets(rel: Relation) {
    forall p, q :: p in rel && q in rel && p.0 == q.0 ==> p == q
  }

  function Named(actions: seq<AliasAction>): set<string> {
    set action | action in actions :: action.alias
  }

  /** Every request names an index; an added alias is not itself an index name. */
  predicate RequestAccepted(catalog: Catalog, r: Request) {
    && !r.MalformedRequest? && Resolve(catalog, r.index).Some?
    && (r.AddRequest? ==> r.alias !in catalog.indices)
  }

  function ActionOf(catalog: Catalog, r: Request): AliasAction
    requires RequestAccepted(catalog, r)
  {
    var index := Resolve(catalog, r.index).value;
    if r.AddRequest? then Add(r.alias, index) else Remove(r.alias, index)
  }

  function ActionsOf(catalog: Catalog, requests: seq<Request>): seq<AliasAction>
    requires forall i :: 0 <= i < |requests| ==> RequestAccepted(catalog, requests[i])
  {
    seq(|requests|, i requires 0 <= i < |requests| => ActionOf(catalog, requests[i]))
  }

  /** A relation with single targets, as the alias table. */
  function AsTable(rel: Relation): map<string, string>
    requires SingleTargets(rel)
  {
    map p | p in rel :: p.0 := p.1
  }

  predicate Accepted(catalog: Catalog, requests: seq<Request>) {
    forall i :: 0 <= i < |requests| ==> RequestAccepted(catalog, requests[i])
  }

  /** A batch is committed exactly when it is well formed, leaves no alias with two targets, has
      some effect and fits the catalog. */
  ghost predicate Commits(catalog: Catalog, requests: seq<Request>, fits: map<string, string> -> bool) {
    && requests != [] && Accepted(catalog, requests)
    && SingleTargets(Replay(RelationOf(catalog.aliases), ActionsOf(catalog, requests)))
    && Effective(RelationOf(catalog.aliases), ActionsOf(catalog, requests))
    && fits(AsTable(Replay(RelationOf(catalog.aliases), ActionsOf(catalog, requests))))
  }

  lemma {:induction false} UnnamedUntouched(rel: Relation, actions: seq<AliasAction>, alias: string)
    requires alias !in Named(actions)
    ensures Targets(Replay(rel, actions), alias) == Targets(rel, alias)
    decreases |actions|
  {
    if actions != [] {
      var front, last := actions[..|actions| - 1], actions[|actions| - 1];
      assert actions == front + [last];
      assert last in actions && forall x :: x in front ==> x in actions;
      UnnamedUntouched(rel, front, alias);
      ReplayOneTargets(Replay(rel, front), last, alias);
    }
  }

  /** A batch takes effect exactly when it adds something or removes a pair that is in the table before it. */
  lemma {:induction false} EffectiveIff(rel: Relation, actions: seq<AliasAction>)
    ensures Effective(rel, actions) <==> exists i :: 0 <= i < |actions| && (actions[i].Add? || (actions[i].alias, actions[i].index) in rel)
    ensures !Effective(rel, actions) ==> Replay(rel, actions) == rel
    decreases |actions|
  {
    if actions != [] {
      var front, last := actions[..|actions| - 1], actions[|actions| - 1];
      EffectiveIff(rel, front);
      assert actions[|front|] == last && forall i :: 0 <= i < |front| ==> front[i] == actions[i];
      if i :| 0 <= i < |front| && (front[i].Add? || (front[i].alias, front[i].index) in rel) {
        assert actions[i].Add? || (actions[i].alias, actions[i].index) in rel;
      }
      if (last.alias, last.index) in rel && !Effective(rel, front) {
        assert TookEffect(Replay(rel, front), last);
      }
    }
  }

  predicate Adds(action: AliasAction, pair: (string, string)) {
    action.Add? && (action.alias, action.index) == pair
  }

  predicate Removes(action: AliasAction, pair: (string, string)) {
    action.Remove? && (action.alias, action.index) == pair
  }

  /** After a batch an alias names an index exactly when the last action about the two adds it, or there is
      none and it did before. */
  lemma {:induction false} LastActionDecides(rel: Relation, actions: seq<AliasAction>, pair: (string, string))
    ensures pair in Replay(rel, actions) <==>
              || (exists i :: 0 <= i < |actions| && Adds(actions[i], pair) && forall j :: i < j < |actions| ==> !Removes(actions[j], pair))
              || (pair in rel && forall j :: 0 <= j < |actions| ==> !Removes(actions[j], pair))
    decreases |actions|
  {
    if actions != [] {
      var front, last := actions[..|actions| - 1], actions[|actions| - 1];
      LastActionDecides(rel, front, pair);
      hide Adds, Removes;
      assert actions[|front|] == last && forall i :: 0 <= i < |front| ==> front[i] == actions[i];
      LastAction(Replay(rel, front), last, pair);
      if Adds(last, pair) {
        assert Adds(actions[|front|], pair);
      } else if !Removes(last, pair) {
        if i :| 0 <= i < |front| && Adds(front[i], pair) && forall j :: i < j < |front| ==> !Removes(front[j], pair) {
          assert Adds(actions[i], pair) && forall j :: i < j < |actions| ==> !Removes(actions[j], pair);
        }
      }
    }
  }

  lemma LastAction(rel: Relation, action: AliasAction, pair: (string, string))
    ensures pair in ReplayOne(rel, action) <==> Adds(action, pair) || (pair in rel && !Removes(action, pair))
    ensures !(Adds(action, pair) && Removes(action, pair))
  {
  }

  lemma ReplayOneTargets(rel: Relation, action: AliasAction, alias: string)
    ensures Targets(ReplayOne(rel, action), alias) ==
            if action.alias != alias then Targets(rel, alias)
            else if action.Add? then Targets(rel, alias) + {action.index}
            else Targets(rel, alias) - {action.index}
  {
    forall t
      ensures t in Targets(ReplayOne(rel, action), alias) <==> (alias, t) in ReplayOne(rel, action)
      ensures t in Targets(rel, alias) <==> (alias, t) in rel
    {
      if (alias, t) in ReplayOne(rel, action) {
        assert (alias, t).0 == alias;
      }
      if (alias, t) in rel {
        assert (alias, t).0 == alias;
      }
    }
  }

  lemma SingleTargetsIff(rel: Relation)
    ensures SingleTargets(rel) <==> forall a :: |Targets(rel, a)| <= 1
  {
    if SingleTargets(rel) {
      forall a
        ensures |Targets(rel, a)| <= 1
      {
        if Targets(rel, a) != {} {
          var t :| t in Targets(rel, a);
          assert (a, t) in rel;
          assert Targets(rel, a) == {t};
        }
      }
    } else {
      var p, q :| p in rel && q in rel && p.0 == q.0 && p != q;
      assert {p.1, q.1} <= Targets(rel, p.0);
      if |Targets(rel, p.0)| <= 1 {
        AtMostOne(Targets(rel, p.0), p.1, q.1);
      }
    }
  }

  lemma AtMostOne<T>(s: set<T>, x: T, y: T)
    requires |s| <= 1 && x in s && y in s
    ensures x == y
  {
    assert |s - {x}| == |s| - 1;
    assert s - {x} == {};
    assert y in s - {x} || y == x;
  }

  function InitialTargets(aliases: map<string, string>, actions: seq<AliasAction>): map<string, set<string>> {
    map alias | alias in Named(actions) :: if alias in aliases then {aliases[alias]} else {}
  }

  lemma RelationTargets(aliases: map<string, string>, alias: string)
    ensures Targets(RelationOf(aliases), alias) == if alias in aliases then {aliases[alias]} else {}
  {
    if alias in aliases {
      assert (alias, aliases[alias]) in RelationOf(aliases);
      assert (alias, aliases[alias]).0 == alias;
    }
  }

  // ---------------------------------------------------------------- collections

  function Sanitized(c: char): char {
    if ('a' <= c <= 'z') || ('A' <= c <= 'Z') || ('0' <= c <= '9') || c == '_' || c == '-' then c else '_'
  }

  function CollectionName(index: string): string {
    "es_" + seq(|index|, i requires 0 <= i < |index| => Sanitized(index[i]))
  }

  function DocumentCollection(index: string): string {
    CollectionName(index) + "_documents"
  }

  function CollectionsOf(index: string): set<string> {
    {CollectionName(index), DocumentCollection(index)}
  }

  predicate NamespaceAvailable(catalog: Catalog, index: string) {
    && index !in catalog.aliases && index !in catalog.indices
    && forall existing :: existing in catalog.indices ==> CollectionsOf(index) !! CollectionsOf(existing)
  }

  /** A name is free when it is no index and no alias and neither collection it would have is an index's. */
  lemma NamespaceIff(catalog: Catalog, index: string)
    ensures NamespaceAvailable(catalog, index) <==>
            && index !in catalog.aliases && index !in catalog.indices
            && forall existing :: existing in catalog.indices ==>
                 && CollectionName(index) != CollectionName(existing)
                 && CollectionName(index) != CollectionName(existing) + "_documents"
                 && CollectionName(index) + "_documents" != CollectionName(existing)
  {
    hide CollectionName;
    forall existing
      ensures CollectionsOf(index) !! CollectionsOf(existing) <==>
              && CollectionName(index) != CollectionName(existing)
              && CollectionName(index) != CollectionName(existing) + "_documents"
              && CollectionName(index) + "_documents" != CollectionName(existing)
    {
      SameStem(CollectionName(index), CollectionName(existing));
    }
  }

  lemma SameStem(a: string, b: string)
    ensures a + "_documents" == b + "_documents" <==> a == b
  {
    if a + "_documents" == b + "_documents" {
      assert |a| == |b| && (a + "_documents")[..|a|] == a && (b + "_documents")[..|b|] == b;
    }
  }

  // ---------------------------------------------------------------- the administrator

  class Administrator {
    var indices: map<string, Index>
    var aliases: map<string, string>

    constructor ()
      ensures State() == Catalog(map[], map[])
    {
      indices, aliases := map[], map[];
    }

    function State(): Catalog
      reads this
    {
      Catalog(indices, aliases)
    }

    /** Validates the final topology and commits it in one transaction. */
    method UpdateAliases(requests: seq<Request>, fits: map<string, string> -> bool) returns (r: AdminResult)
      modifies this`aliases
      ensures r.Done? <==> Commits(old(State()), requests, fits)
      ensures r.Refused? ==> aliases == old(aliases)
      ensures r.Done? ==>
                RelationOf(aliases) == Replay(RelationOf(old(aliases)), ActionsOf(old(State()), requests))
      ensures State() == Administered(old(State()), Batch(requests, fits))
    {
      if requests == [] {
        return Refused;
      }
      var actions: seq<AliasAction> := [];
      for i := 0 to |requests|
        invariant forall j :: 0 <= j < i ==> RequestAccepted(State(), requests[j])
        invariant actions == ActionsOf(State(), requests[..i])
        invariant aliases == old(aliases)
      {
        if !RequestAccepted(State(), requests[i]) {
          return Refused;
        }
        actions := actions + [ActionOf(State(), requests[i])];
      }
      assert requests[..|requests|] == requests;
      var finalTargets, successful := FinalTargets(aliases, actions);
      if alias :| alias in finalTargets && |finalTargets[alias]| > 1 {
        SingleTargetsIff(Replay(RelationOf(aliases), actions));
        return Refused;
      }
      if !successful {
        return Refused;
      }
      var topology := ApplyTargets(aliases, finalTargets);
      TopologyIsReplay(aliases, actions, finalTargets, topology);
      TableOfReplay(topology, Replay(RelationOf(aliases), actions));
      if !fits(topology) {
        return Refused;
      }
      aliases := topology;
      r := Done;
    }

    method CreateIndex(name: string, properties: Properties, acceptable: string -> bool, fits: Properties -> bool)
      returns (r: AdminResult)
      modifies this`indices
      ensures r.Done? <==> acceptable(name) && NamespaceAvailable(old(State()), name) && !IsLegacy(properties) && fits(properties)
      ensures indices == if r.Done? then old(indices)[name := Index(name, properties, map[])] else old(indices)
      ensures State() == Administered(old(State()), Step.Create(name, properties, acceptable(name) && fits(properties)))
    {
      if !acceptable(name) || name in aliases {
        return Refused;
      }
      var pending := indices.Keys;
      while pending != {}
        invariant pending <= indices.Keys && indices == old(indices)
        invariant forall existing :: existing in indices && existing !in pending ==>
                    existing != name && CollectionsOf(name) !! CollectionsOf(existing)
        decreases |pending|
      {
        var existing :| existing in pending;
        pending := pending - {existing};
        if existing == name || CollectionName(name) in CollectionsOf(existing) || DocumentCollection(name) in CollectionsOf(existing) {
          return Refused;
        }
      }
      if IsLegacy(properties) || !fits(properties) {
        return Refused;
      }
      indices := indices[name := Index(name, properties, map[])];
      r := Done;
    }

    /** Only a concrete index, never an alias; its aliases go with it. */
    method DeleteIndex(name: string) returns (r: AdminResult)
      modifies this
      ensures r.Done? <==> name in old(indices)
      ensures indices == old(indices) - {name}
      ensures forall a :: a in aliases <==> a in old(aliases) && (r.Done? ==> old(aliases)[a] != name)
      ensures forall a :: a in aliases ==> aliases[a] == old(aliases)[a]
      ensures State() == Administered(old(State()), Step.Delete(name))
    {
      var resolved := Resolve(State(), name);
      if resolved != Some(name) {
        return Refused;
      }
      aliases := map a | a in aliases && aliases[a] != name :: aliases[a];
      indices := indices - {name};
      r := Done;
    }

    method PutIndexMapping(config: Config, name: string, body: Json) returns (r: AdminResult)
      modifies this`indices
      ensures State() == Administered(old(State()), Remap(config, name, body))
    {
      var resolved := Resolve(State(), name);
      if resolved.None? {
        return Refused;
      }
      var done := PutMapping(config, indices[resolved.value], body);
      indices := indices[resolved.value := done.0];
      r := if done.1.Invalid? then Refused else Done;
    }
  }

  function WithoutIndex(catalog: Catalog, name: string): Catalog {
    Catalog(catalog.indices - {name}, map a | a in catalog.aliases && catalog.aliases[a] != name :: catalog.aliases[a])
  }

  function Remapped(config: Config, catalog: Catalog, name: string, body: Json): Catalog {
    match Resolve(catalog, name)
    case None => catalog
    case Some(index) => catalog.(indices := catalog.indices[index := PutMapping(config, catalog.indices[index], body).0])
  }

  /** The targets of each named alias after the batch, and whether anything took effect. */
  method FinalTargets(aliases: map<string, string>, actions: seq<AliasAction>) returns (targets: map<string, set<string>>, successful: bool)
    ensures targets.Keys == Named(actions)
    ensures forall a :: a in targets ==> targets[a] == Targets(Replay(RelationOf(aliases), actions), a)
    ensures successful <==> Effective(RelationOf(aliases), actions)
  {
    ghost var rel := RelationOf(aliases);
    targets := InitialTargets(aliases, actions);
    successful := false;
    forall a | a in targets
      ensures targets[a] == Targets(rel, a)
    {
      RelationTargets(aliases, a);
    }
    for i := 0 to |actions|
      invariant targets.Keys == Named(actions)
      invariant forall a :: a in targets ==> targets[a] == Targets(Replay(rel, actions[..i]), a)
      invariant successful <==> Effective(rel, actions[..i])
    {
      ghost var before := Replay(rel, actions[..i]);
      var action := actions[i];
      assert actions[..i + 1][..i] == actions[..i];
      assert action in actions && action.alias in targets;
      forall a
        ensures Targets(Replay(rel, actions[..i + 1]), a) ==
                if action.alias != a then Targets(before, a)
                else if action.Add? then Targets(before, a) + {action.index} else Targets(before, a) - {action.index}
      {
        ReplayOneTargets(before, action, a);
      }
      assert action.index in Targets(before, action.alias) <==> (action.alias, action.index) in before by {
        if (action.alias, action.index) in before {
          assert (action.alias, action.index).0 == action.alias;
        }
      }
      if action.Add? {
        targets := targets[action.alias := targets[action.alias] + {action.index}];
        successful := true;
      } else {
        if action.index in targets[action.alias] {
          successful := true;
        }
        targets := targets[action.alias := targets[action.alias] - {action.index}];
      }
    }
    assert actions[..|actions|] == actions;
  }

  /** Upserts the single target of each alias, or deletes the row. */
  method ApplyTargets(aliases: map<string, string>, targets: map<string, set<string>>) returns (after: map<string, string>)
    requires forall a :: a in targets ==> |targets[a]| <= 1
    ensures forall a :: a in targets ==> (a in after <==> targets[a] != {})
    ensures forall a :: a in targets && a in after ==> after[a] in targets[a]
    ensures forall a :: a !in targets ==> (a in after <==> a in aliases) && (a in after ==> after[a] == aliases[a])
  {
    after := aliases;
    var pending := targets.Keys;
    while pending != {}
      invariant pending <= targets.Keys
      invariant forall a :: a in targets && a !in pending ==> (a in after <==> targets[a] != {})
      invariant forall a :: a in targets && a !in pending && a in after ==> after[a] in targets[a]
      invariant forall a :: a !in targets ==> (a in after <==> a in aliases) && (a in after ==> after[a] == aliases[a])
      decreases |pending|
    {
      var alias :| alias in pending;
      pending := pending - {alias};
      if targets[alias] != {} {
        var index :| index in targets[alias];
        after := after[alias := index];
      } else {
        after := after - {alias};
      }
    }
  }

  lemma TopologyIsReplay(aliases: map<string, string>, actions: seq<AliasAction>, targets: map<string, set<string>>,
                         after: map<string, string>)
    requires targets.Keys == Named(actions)
    requires forall a :: a in targets ==> targets[a] == Targets(Replay(RelationOf(aliases), actions), a) && |targets[a]| <= 1
    requires forall a :: a in targets ==> (a in after <==> targets[a] != {})
    requires forall a :: a in targets && a in after ==> after[a] in targets[a]
    requires forall a :: a !in targets ==> (a in after <==> a in aliases) && (a in after ==> after[a] == aliases[a])
    ensures RelationOf(after) == Replay(RelationOf(aliases), actions)
    ensures SingleTargets(Replay(RelationOf(aliases), actions))
  {
    var rel := Replay(RelationOf(aliases), actions);
    forall a
      ensures Targets(rel, a) == Targets(RelationOf(after), a)
    {
      RelationTargets(after, a);
      if a in targets {
        if a in after {
          forall t | t in targets[a]
            ensures t == after[a]
          {
            AtMostOne(targets[a], t, after[a]);
          }
          assert targets[a] == {after[a]};
        }
      } else {
        UnnamedUntouched(RelationOf(aliases), actions, a);
        RelationTargets(aliases, a);
      }
    }
    SameTargets(rel, RelationOf(after));
  }

  lemma SameTargets(r: Relation, s: Relation)
    requires forall a :: Targets(r, a) == Targets(s, a)
    ensures r == s
  {
    forall p: (string, string)
      ensures p in r <==> p in s
    {
      assert p in r ==> p.1 in Targets(r, p.0);
      assert p in s ==> p.1 in Targets(s, p.0);
      assert p == (p.0, p.1);
    }
  }

  lemma TableOfReplay(table: map<string, string>, rel: Relation)
    requires RelationOf(table) == rel && SingleTargets(rel)
    ensures AsTable(rel) == table
  {
    RelationOfTable(rel);
    SameRelation(AsTable(rel), table);
  }

  lemma RelationOfTable(rel: Relation)
    requires SingleTargets(rel)
    ensures RelationOf(AsTable(rel)) == rel
  {
    forall p: (string, string)
      ensures p in RelationOf(AsTable(rel)) <==> p in rel
    {
      assert p == (p.0, p.1);
      if p in rel {
        assert p.0 in AsTable(rel) && AsTable(rel)[p.0] == p.1;
      }
    }
  }

  lemma SameRelation(a: map<string, string>, b: map<string, string>)
    requires RelationOf(a) == RelationOf(b)
    ensures a == b
  {
    forall k
      ensures k in a <==> k in b
      ensures k in a && k in b ==> a[k] == b[k]
    {
      RelationTargets(a, k);
      RelationTargets(b, k);
      if k in a && k in b {
        assert a[k] in {a[k]};
      }
    }
  }

  // ---------------------------------------------------------------- every reachable catalog

  /** `admitted` stands for the name rules and capacity limits. */
  datatype Step =
    | Batch(requests: seq<Request>, fits: map<string, string> -> bool)
    | Create(name: string, properties: Properties, admitted: bool)
    | Delete(name: string)
    | Remap(config: Config, name: string, body: Json)

  ghost function Administered(catalog: Catalog, step: Step): Catalog {
    match step
    case Batch(requests, fits) =>
      if Commits(catalog, requests, fits)
      then catalog.(aliases := AsTable(Replay(RelationOf(catalog.aliases), ActionsOf(catalog, requests)))) else catalog
    case Create(name, properties, admitted) =>
      if admitted && NamespaceAvailable(catalog, name) && !IsLegacy(properties)
      then catalog.(indices := catalog.indices[name := Index(name, properties, map[])]) else catalog
    case Delete(name) => if name in catalog.indices then WithoutIndex(catalog, name) else catalog
    case Remap(config, name, body) => Remapped(config, catalog, name, body)
  }

  /** No name is both, no alias dangles, no two indices share a collection. */
  ghost predicate Consistent(catalog: Catalog) {
    && catalog.aliases.Keys !! catalog.indices.Keys
    && (forall a :: a in catalog.aliases ==> catalog.aliases[a] in catalog.indices)
    && (forall i, j :: i in catalog.indices && j in catalog.indices && i != j ==> CollectionsOf(i) !! CollectionsOf(j))
  }

  lemma {:induction false} ReplayedPairs(rel: Relation, actions: seq<AliasAction>)
    ensures forall p :: p in Replay(rel, actions) ==> p in rel || Add(p.0, p.1) in actions
    decreases |actions|
  {
    if actions != [] {
      var front, last := actions[..|actions| - 1], actions[|actions| - 1];
      ReplayedPairs(rel, front);
      assert actions == front + [last];
    }
  }

  lemma BatchKeepsConsistent(catalog: Catalog, requests: seq<Request>, fits: map<string, string> -> bool)
    requires Consistent(catalog) && Commits(catalog, requests, fits)
    ensures Consistent(Administered(catalog, Batch(requests, fits)))
  {
    var actions := ActionsOf(catalog, requests);
    var rel := Replay(RelationOf(catalog.aliases), actions);
    var after := AsTable(rel);
    ReplayedPairs(RelationOf(catalog.aliases), actions);
    forall a | a in after
      ensures a !in catalog.indices && after[a] in catalog.indices
    {
      var p :| p in rel && p.0 == a;
      assert after[a] == p.1;
      if p in RelationOf(catalog.aliases) {
        var b :| b in catalog.aliases && p == (b, catalog.aliases[b]);
      } else {
        var i :| 0 <= i < |actions| && actions[i] == Add(p.0, p.1);
        assert RequestAccepted(catalog, requests[i]);
        assert actions[i] == ActionOf(catalog, requests[i]);
      }
    }
  }

  lemma StepKeepsConsistent(catalog: Catalog, step: Step)
    requires Consistent(catalog)
    ensures Consistent(Administered(catalog, step))
  {
    match step {
      case Batch(requests, fits) =>
        if Commits(catalog, requests, fits) {
          BatchKeepsConsistent(catalog, requests, fits);
        }
      case Create(name, properties, admitted) =>
      case Delete(name) =>
      case Remap(config, name, body) =>
        assert Administered(catalog, step).indices.Keys == catalog.indices.Keys;
    }
  }

  ghost predicate IsRun(run: seq<Catalog>, steps: seq<Step>) {
    && |run| == |steps| + 1 && run[0] == Catalog(map[], map[])
    && forall k :: 0 <= k < |steps| ==> run[k + 1] == Administered(run[k], steps[k])
  }

  /** In every run the catalog stays consistent. */
  lemma {:induction false} CatalogStaysConsistent(run: seq<Catalog>, steps: seq<Step>, k: nat)
    requires IsRun(run, steps) && k < |run|
    ensures Consistent(run[k])
  {
    if k > 0 {
      CatalogStaysConsistent(run, steps, k - 1);
      StepKeepsConsistent(run[k - 1], steps[k - 1]);
    }
  }

  /** The pair a request asks about, the index resolved. */
  function PairOf(catalog: Catalog, r: Request): (string, string)
    requires RequestAccepted(catalog, r)
  {
    (r.alias, Resolve(catalog, r.index).value)
  }

  /** Every request is well formed, names an index or an alias of one, and adds no index name as alias. */
  ghost predicate AllWellFormed(catalog: Catalog, requests: seq<Request>) {
    forall i :: 0 <= i < |requests| ==>
      && (requests[i].AddRequest? || requests[i].RemoveRequest?)
      && (requests[i].index in catalog.indices
          || (requests[i].index in catalog.aliases && catalog.aliases[requests[i].index] in catalog.indices))
      && (requests[i].AddRequest? ==> requests[i].alias !in catalog.indices)
  }

  /** A batch is done exactly when there are requests, all well formed, one of them adds or removes a pair
      that is in the table, no alias ends with two indices, and the result fits. */
  lemma BatchDoneIff(catalog: Catalog, requests: seq<Request>, fits: map<string, string> -> bool)
    ensures Accepted(catalog, requests) <==> AllWellFormed(catalog, requests)
    ensures Accepted(catalog, requests) ==>
              var rel := Replay(RelationOf(catalog.aliases), ActionsOf(catalog, requests));
              (Commits(catalog, requests, fits)
               <==> && (exists i :: 0 <= i < |requests| && (requests[i].AddRequest? || IsRow(catalog.aliases, PairOf(catalog, requests[i]))))
                    && (forall p, q :: p in rel && q in rel && p.0 == q.0 ==> p == q) && fits(AsTable(rel)))
  {
    if Accepted(catalog, requests) {
      var rel, actions := RelationOf(catalog.aliases), ActionsOf(catalog, requests);
      EffectiveIff(rel, actions);
      forall i | 0 <= i < |requests|
        ensures actions[i].Add? <==> requests[i].AddRequest?
        ensures (actions[i].alias, actions[i].index) in rel <==> IsRow(catalog.aliases, PairOf(catalog, requests[i]))
      {
        RowIff(catalog.aliases, PairOf(catalog, requests[i]));
      }
      hide Replay, RelationOf, Effective, RequestAccepted, IsRow;
      if Effective(rel, actions) {
        var i :| 0 <= i < |actions| && (actions[i].Add? || (actions[i].alias, actions[i].index) in rel);
        assert requests[i].AddRequest? || IsRow(catalog.aliases, PairOf(catalog, requests[i]));
      }
      if i :| 0 <= i < |requests| && (requests[i].AddRequest? || IsRow(catalog.aliases, PairOf(catalog, requests[i]))) {
        assert actions[i].Add? || (actions[i].alias, actions[i].index) in rel;
      }
    }
  }

  predicate IsRow(aliases: map<string, string>, pair: (string, string)) {
    pair.0 in aliases && aliases[pair.0] == pair.1
  }

  lemma RowIff(aliases: map<string, string>, pair: (string, string))
    ensures pair in RelationOf(aliases) <==> IsRow(aliases, pair)
  {
  }

  /** Removals of pairs that are not in the table are refused and change nothing. */
  lemma RemovingNothingIsRefused(catalog: Catalog, requests: seq<Request>, fits: map<string, string> -> bool)
    requires AllWellFormed(catalog, requests)
    requires forall i :: 0 <= i < |requests| ==> requests[i].RemoveRequest?
    requires Accepted(catalog, requests) ==> forall i :: 0 <= i < |requests| ==> !IsRow(catalog.aliases, PairOf(catalog, requests[i]))
    ensures !Commits(catalog, requests, fits) && Administered(catalog, Batch(requests, fits)) == catalog
  {
    BatchDoneIff(catalog, requests, fits);
    hide Commits;
  }

  /** ASCII letters and digits, `_` and `-`, by code point. */
  predicate KeptInNames(code: int) {
    48 <= code <= 57 || 65 <= code <= 90 || 97 <= code <= 122 || code == 45 || code == 95
  }

  /** A collection name is "es_" and the index name, every other character replaced by `_`. */
  lemma CollectionNameIs(index: string)
    ensures |CollectionName(index)| == |index| + 3 && CollectionName(index)[..3] == "es_"
    ensures forall i :: 0 <= i < |index| ==>
              CollectionName(index)[i + 3] == if KeptInNames(index[i] as int) then index[i] else '_'
    ensures DocumentCollection(index) == CollectionName(index) + "_documents"
  {
  }

  /** A batch leaves the aliases it does not name alone. */
  lemma OtherAliasesUntouched(catalog: Catalog, requests: seq<Request>, fits: map<string, string> -> bool, alias: string)
    requires Commits(catalog, requests, fits) && alias !in Named(ActionsOf(catalog, requests))
    ensures var after := Administered(catalog, Batch(requests, fits)).aliases;
            (alias in after <==> alias in catalog.aliases) && (alias in after ==> after[alias] == catalog.aliases[alias])
  {
    var rel := Replay(RelationOf(catalog.aliases), ActionsOf(catalog, requests));
    var after := AsTable(rel);
    UnnamedUntouched(RelationOf(catalog.aliases), ActionsOf(catalog, requests), alias);
    RelationOfTable(rel);
    RelationTargets(after, alias);
    RelationTargets(catalog.aliases, alias);
    if alias in after {
      assert after[alias] in {after[alias]};
    }
    if alias in catalog.aliases {
      assert catalog.aliases[alias] in {catalog.aliases[alias]};
    }
  }

  /** In a consistent catalog every alias resolves to the index it names. */
  lemma AliasesResolve(catalog: Catalog, alias: string)
    requires Consistent(catalog) && alias in catalog.aliases
    ensures Resolve(catalog, alias) == Some(catalog.aliases[alias])
  {
  }
}
