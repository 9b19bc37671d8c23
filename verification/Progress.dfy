/** What requests that nothing disturbs achieve: the runs in which every command executes at once and
    every reply arrives. */
module Progress {
  import opened Decimals
  import opened Options
  import opened Scripts
  import opened Recovery
  import opened CacheProtocol
  import opened CacheSafety
  import opened CacheTheorems
  import opened Replies

  /** The world after some events. */
  function Through(w: World, evs: seq<Event>): World
    decreases |evs|
  {
    if evs == [] then w else Step(Through(w, evs[..|evs| - 1]), evs[|evs| - 1])
  }

  /** Each of them can happen when its turn comes. */
  ghost predicate CanHappen(answers: Answers, w: World, evs: seq<Event>)
    decreases |evs|
  {
    evs == [] || (CanHappen(answers, w, evs[..|evs| - 1]) && Allowed(answers, Through(w, evs[..|evs| - 1]), evs[|evs| - 1]))
  }

  /** The events can happen and lead to this server, backend and writer. */
  ghost predicate LeadsTo(answers: Answers, w: World, evs: seq<Event>, s: Server, backend: Backend, i: nat, x: Writer) {
    var v := Through(w, evs);
    CanHappen(answers, w, evs) && v.server == s && v.backend == backend && i in v.writers && v.writers[i] == x
  }

  lemma OneMore(answers: Answers, w: World, evs: seq<Event>, ev: Event)
    ensures Through(w, evs + [ev]) == Step(Through(w, evs), ev)
    ensures CanHappen(answers, w, evs + [ev]) <==> CanHappen(answers, w, evs) && Allowed(answers, Through(w, evs), ev)
  {
    assert (evs + [ev])[..|evs|] == evs;
  }

  lemma StepWorld(w: World, ev: Event)
    ensures Step(w, ev).server == Perform(w, ev).server && Step(w, ev).backend == Perform(w, ev).backend
    ensures Step(w, ev).writers == Perform(w, ev).writers && Step(w, ev).readers == Perform(w, ev).readers
  {
    hide Perform;
  }

  // ---------------------------------------------------------------- one event of a writer

  lemma Admits(answers: Answers, w: World, evs: seq<Event>, s: Server, b: Backend, i: nat, x: Writer, m: nat)
    requires LeadsTo(answers, w, evs, s, b, i, x) && x.phase.Admitting? && x.outcome.None?
    requires Admit(s, x.deployment, x.token, x.state).0.Admitted?
    ensures var (r, after) := Admit(s, x.deployment, x.token, x.state);
            LeadsTo(answers, w, evs + [Exec(i, m)], after, b, i, x.(outcome := Some(true), admitted := true, epoch := r.epoch))
  {
    OneMore(answers, w, evs, Exec(i, m));
    StepWorld(Through(w, evs), Exec(i, m));
    hide Admit, Through, CanHappen, Step;
  }

  lemma Claims(answers: Answers, w: World, evs: seq<Event>, s: Server, b: Backend, i: nat, x: Writer, m: nat)
    requires LeadsTo(answers, w, evs, s, b, i, x) && x.phase.Claiming? && x.outcome.None?
    requires s.admin.Missing? && s.catalog.Text? && |s.catalog.text| <= m
    ensures LeadsTo(answers, w, evs + [Exec(i, m)], s.(admin := Text(x.claim, true)), b, i,
                    x.(outcome := Some(true), snapshot := s.catalog.text))
  {
    OneMore(answers, w, evs, Exec(i, m));
    StepWorld(Through(w, evs), Exec(i, m));
    hide Through, CanHappen, Step;
  }

  lemma Commits(answers: Answers, w: World, evs: seq<Event>, s: Server, b: Backend, i: nat, x: Writer, m: nat)
    requires LeadsTo(answers, w, evs, s, b, i, x) && x.phase.Committing? && x.outcome.None? && s.admin == Text(x.claim, true)
    ensures LeadsTo(answers, w, evs + [Exec(i, m)], s.(catalog := Text(x.payload, true), admin := Missing), b, i,
                    x.(outcome := Some(true)))
  {
    OneMore(answers, w, evs, Exec(i, m));
    StepWorld(Through(w, evs), Exec(i, m));
    hide Through, CanHappen, Step;
  }

  lemma Drops(answers: Answers, w: World, evs: seq<Event>, s: Server, b: Backend, i: nat, x: Writer, m: nat)
    requires LeadsTo(answers, w, evs, s, b, i, x) && x.phase.Dropping? && x.outcome.None? && s.admin == Text(x.claim, true)
    ensures LeadsTo(answers, w, evs + [Exec(i, m)], s.(admin := Missing), b, i, x.(outcome := Some(true)))
  {
    OneMore(answers, w, evs, Exec(i, m));
    StepWorld(Through(w, evs), Exec(i, m));
    hide Through, CanHappen, Step;
  }

  lemma Releases(answers: Answers, w: World, evs: seq<Event>, s: Server, b: Backend, i: nat, x: Writer, m: nat, after: Server)
    requires LeadsTo(answers, w, evs, s, b, i, x) && x.phase.Releasing? && x.outcome.None?
    requires Release(s, x.deployment, x.token, x.epoch) == (true, after)
    ensures LeadsTo(answers, w, evs + [Exec(i, m)], after, b, i, x.(outcome := Some(true)))
  {
    OneMore(answers, w, evs, Exec(i, m));
    StepWorld(Through(w, evs), Exec(i, m));
    hide Release, Through, CanHappen, Step;
  }

  /** The phase a request is in once it has read that its command took effect. */
  function NextPhase(x: Writer): Phase {
    match x.phase
    case Admitting => Running
    case Claiming => Inside
    case Releasing => Ended
    case _ => Completed
  }

  lemma Hears(answers: Answers, w: World, evs: seq<Event>, s: Server, b: Backend, i: nat, x: Writer)
    requires LeadsTo(answers, w, evs, s, b, i, x) && x.alive && x.outcome == Some(true) && x.state == "active"
    requires x.phase in {Admitting, Claiming, Committing, Dropping}
    ensures LeadsTo(answers, w, evs + [Receive(i, true)], s, b, i,
                    x.(outcome := None, phase := NextPhase(x), claimed := x.claimed || x.phase.Claiming?))
  {
    OneMore(answers, w, evs, Receive(i, true));
    StepWorld(Through(w, evs), Receive(i, true));
    hide Through, CanHappen, Step;
  }

  lemma Opens(answers: Answers, w: World, evs: seq<Event>, s: Server, b: Backend, i: nat, x: Writer, admin: bool)
    requires LeadsTo(answers, w, evs, s, b, i, x) && x.alive && x.phase.Running?
    ensures LeadsTo(answers, w, evs + [Open(i, admin, false)], s, b, i, x.(phase := if admin then Claiming else Inside))
  {
    OneMore(answers, w, evs, Open(i, admin, false));
    StepWorld(Through(w, evs), Open(i, admin, false));
    hide Through, CanHappen, Step;
  }

  /** One backend mutation, sent, effective and proved. */
  lemma Mutates(answers: Answers, w: World, evs: seq<Event>, s: Server, b: Backend, i: nat, x: Writer, b': Backend)
    requires LeadsTo(answers, w, evs, s, b, i, x) && x.alive && x.phase.Inside? && x.attempts == {}
    ensures LeadsTo(answers, w, evs + [SendMutation(i, 0)] + [TakeEffect(i, 0, b')] + [Acknowledge(i, 0)], s, b', i,
                    x.(started := true, sent := x.sent + 1))
  {
    var sent := x.(attempts := {0}, started := true, sent := x.sent + 1);
    Sends(answers, w, evs, s, b, i, x);
    TakesEffect(answers, w, evs + [SendMutation(i, 0)], s, b, i, sent, b');
    Acknowledged(answers, w, evs + [SendMutation(i, 0)] + [TakeEffect(i, 0, b')], s, b', i, sent);
    hide LeadsTo;
    assert sent.(attempts := {}) == x.(started := true, sent := x.sent + 1);
  }

  lemma Sends(answers: Answers, w: World, evs: seq<Event>, s: Server, b: Backend, i: nat, x: Writer)
    requires LeadsTo(answers, w, evs, s, b, i, x) && x.alive && x.phase.Inside? && x.attempts == {}
    ensures LeadsTo(answers, w, evs + [SendMutation(i, 0)], s, b, i, x.(attempts := {0}, started := true, sent := x.sent + 1))
  {
    OneMore(answers, w, evs, SendMutation(i, 0));
    StepWorld(Through(w, evs), SendMutation(i, 0));
    hide Through, CanHappen, Step;
    assert {} + {0} == {0};
  }

  lemma TakesEffect(answers: Answers, w: World, evs: seq<Event>, s: Server, b: Backend, i: nat, x: Writer, b': Backend)
    requires LeadsTo(answers, w, evs, s, b, i, x) && 0 in x.attempts
    ensures LeadsTo(answers, w, evs + [TakeEffect(i, 0, b')], s, b', i, x)
  {
    OneMore(answers, w, evs, TakeEffect(i, 0, b'));
    StepWorld(Through(w, evs), TakeEffect(i, 0, b'));
    hide Through, CanHappen, Step;
  }

  lemma Acknowledged(answers: Answers, w: World, evs: seq<Event>, s: Server, b: Backend, i: nat, x: Writer)
    requires LeadsTo(answers, w, evs, s, b, i, x) && x.alive && x.phase.Inside? && x.attempts == {0}
    ensures LeadsTo(answers, w, evs + [Acknowledge(i, 0)], s, b, i, x.(attempts := {}))
  {
    OneMore(answers, w, evs, Acknowledge(i, 0));
    StepWorld(Through(w, evs), Acknowledge(i, 0));
    hide Through, CanHappen, Step;
    assert {0} - {0} == {};
  }

  lemma Leaves(answers: Answers, w: World, evs: seq<Event>, s: Server, b: Backend, i: nat, x: Writer, success: bool, payload: string)
    requires LeadsTo(answers, w, evs, s, b, i, x) && x.alive && x.phase.Inside? && x.outcome.None?
    requires x.claimed && !success ==> !x.started
    ensures LeadsTo(answers, w, evs + [Leave(i, success, true, payload)], s, b, i,
                    if !x.claimed then x.(phase := Completed)
                    else if success then x.(phase := Committing, payload := payload) else x.(phase := Dropping))
  {
    OneMore(answers, w, evs, Leave(i, success, true, payload));
    StepWorld(Through(w, evs), Leave(i, success, true, payload));
    hide Through, CanHappen, Step;
  }

  lemma Finishes(answers: Answers, w: World, evs: seq<Event>, s: Server, b: Backend, i: nat, x: Writer)
    requires LeadsTo(answers, w, evs, s, b, i, x) && x.alive && x.phase.Completed? && x.attempts == {} && x.outcome.None?
    ensures LeadsTo(answers, w, evs + [Finish(i)], s, b, i, x.(phase := Releasing, released := true))
  {
    OneMore(answers, w, evs, Finish(i));
    StepWorld(Through(w, evs), Finish(i));
    hide Through, CanHappen, Step;
  }

  // ---------------------------------------------------------------- whole requests

  /** A request the server can admit, with tokens and claims of its own. */
  ghost predicate CanStart(w: World, i: nat, d: string, token: string, claim: string, m: nat) {
    && ServerOk(w.server) && Valid(w.server, d, false) && Quiet(w.server)
    && Val(w.server.control.fields["epoch"]) < 9223372036854775807 && |w.server.catalog.text| <= m
    && i !in w.writers && IsTokenId(token)
    && forall j :: j in w.writers ==> w.writers[j].token != token && w.writers[j].claim != claim
  }

  function NewRequest(d: string, token: string, claim: string): Writer {
    Writer(d, token, claim, "active", Admitting, None, true, false, false, "", false, "", "", {}, false, 0)
  }

  lemma Enters(answers: Answers, w: World, i: nat, d: string, token: string, claim: string, m: nat)
    requires CanStart(w, i, d, token, claim, m)
    ensures LeadsTo(answers, w, [NewWriter(i, d, token, claim, "active")], w.server, w.backend, i, NewRequest(d, token, claim))
  {
    var ev := NewWriter(i, d, token, claim, "active");
    OneMore(answers, w, [], ev);
    assert [] + [ev] == [ev] && Through(w, []) == w && CanHappen(answers, w, []);
    StepWorld(w, ev);
    hide Through, CanHappen, Step, Valid, ServerOk, IsTokenId;
  }

  lemma QuietAdmits(s: Server, d: string, token: string)
    requires ServerOk(s) && Valid(s, d, false) && Quiet(s) && IsTokenId(token)
    requires Val(s.control.fields["epoch"]) < 9223372036854775807
    ensures Admit(s, d, token, "active").0.Admitted?
  {
    var f := s.control.fields;
    QuietMeansNoTokens(s);
    FieldsAreBase(f);
    DecimalIsBounded(f["epoch"]);
    LastEpoch(f["epoch"]);
    assert WriterField(token)[0] == 'w' && WriterField(token) !in BASE by { WriterFieldIsNotBase(token); }
  }

  lemma FieldsAreBase(f: map<string, string>)
    requires BASE <= f.Keys && |f| == 4
    ensures f.Keys == BASE
  {
    assert |BASE| == 4 by {
      assert "schema"[0] == 's' && "state"[0] == 's' && "schema"[1] == 'c' && "state"[1] == 't' && "deployment"[0] == 'd' && "epoch"[0] == 'e';
    }
    assert |f.Keys - BASE| == 0;
    assert f.Keys - BASE == {};
  }

  /** Admission until the handler runs, with the claim or without. */
  function Beginning(i: nat, d: string, token: string, claim: string, m: nat, admin: bool): seq<Event> {
    [NewWriter(i, d, token, claim, "active")] + [Exec(i, m)] + [Receive(i, true)] + [Open(i, admin, false)]
    + if admin then [Exec(i, m)] + [Receive(i, true)] else []
  }

  function Begun(w: World, d: string, token: string, claim: string, admin: bool): Writer
    requires Admit(w.server, d, token, "active").0.Admitted?
  {
    NewRequest(d, token, claim).(phase := Inside, admitted := true, epoch := Admit(w.server, d, token, "active").0.epoch,
                                 claimed := admin, snapshot := if admin && w.server.catalog.Text? then w.server.catalog.text else "")
  }

  lemma Begins(answers: Answers, w: World, i: nat, d: string, token: string, claim: string, m: nat, admin: bool)
    requires CanStart(w, i, d, token, claim, m)
    ensures Admit(w.server, d, token, "active").0.Admitted?
    ensures var s := Admit(w.server, d, token, "active").1;
            LeadsTo(answers, w, Beginning(i, d, token, claim, m, admin), if admin then s.(admin := Text(claim, true)) else s,
                    w.backend, i, Begun(w, d, token, claim, admin))
  {
    QuietAdmits(w.server, d, token);
    var (r, s) := Admit(w.server, d, token, "active");
    assert s.catalog == w.server.catalog && s.admin.Missing?;
    var x := NewRequest(d, token, claim);
    var e1 := [NewWriter(i, d, token, claim, "active")];
    var e2 := e1 + [Exec(i, m)];
    var e3 := e2 + [Receive(i, true)];
    var e4 := e3 + [Open(i, admin, false)];
    Enters(answers, w, i, d, token, claim, m);
    Admits(answers, w, e1, w.server, w.backend, i, x, m);
    var x2 := x.(outcome := Some(true), admitted := true, epoch := r.epoch);
    Hears(answers, w, e2, s, w.backend, i, x2);
    var x3 := x2.(outcome := None, phase := Running);
    Opens(answers, w, e3, s, w.backend, i, x3, admin);
    hide LeadsTo, Admit, ServerOk, Valid;
    if admin {
      var x4 := x3.(phase := Claiming);
      Claims(answers, w, e4, s, w.backend, i, x4, m);
      var x5 := x4.(outcome := Some(true), snapshot := s.catalog.text);
      Hears(answers, w, e4 + [Exec(i, m)], s.(admin := Text(claim, true)), w.backend, i, x5);
      assert e4 + [Exec(i, m)] + [Receive(i, true)] == e4 + ([Exec(i, m)] + [Receive(i, true)]);
      assert x5.(outcome := None, phase := Inside, claimed := true) == Begun(w, d, token, claim, true);
    } else {
      assert e4 + [] == e4;
      assert x3.(phase := Inside) == Begun(w, d, token, claim, false);
    }
  }

  /** The server after a request that left this catalog: quiet again, one epoch later. */
  ghost predicate IsNextQuiet(before: Server, after: Server, catalog: string) {
    && before.control.Hash? && "epoch" in before.control.fields && Canonical(before.control.fields["epoch"])
    && (exists epoch :: Canonical(epoch) && Val(epoch) == Val(before.control.fields["epoch"]) + 1
          && after == before.(control := Hash(before.control.fields["epoch" := epoch], true), catalog := Text(catalog, true)))
  }

  lemma ReleasedServer(s: Server, d: string, token: string, catalog: string)
    requires ServerOk(s) && Valid(s, d, false) && Quiet(s) && Admit(s, d, token, "active").0.Admitted?
    ensures var (r, t) := Admit(s, d, token, "active");
            var released := Release(t.(catalog := Text(catalog, true)), d, token, r.epoch);
            released.0 && IsNextQuiet(s, released.1, catalog) && released.1.admin.Missing?
  {
    var (r, t) := Admit(s, d, token, "active");
    ReleaseUndoesAdmit(s, d, token);
    CatalogBeside(t, d, token, r.epoch, catalog);
    hide Admit, Release, ServerOk;
    assert Valid(s, d, false) ==> Canonical(s.control.fields["epoch"]);
    EpochOf(s, d, token);
  }

  lemma EpochOf(s: Server, d: string, token: string)
    requires Admit(s, d, token, "active").0.Admitted? && Valid(s, d, false)
    ensures Canonical(Admit(s, d, token, "active").0.epoch)
  {
  }

  lemma CatalogBeside(t: Server, d: string, token: string, epoch: string, catalog: string)
    requires Release(t, d, token, epoch).0
    ensures Release(t.(catalog := Text(catalog, true)), d, token, epoch)
         == (true, Release(t, d, token, epoch).1.(catalog := Text(catalog, true)))
  {
  }

  /** From the handler's end to the released token, for a request whose catalog is settled. */
  lemma Ends(answers: Answers, w: World, evs: seq<Event>, s: Server, b: Backend, i: nat, x: Writer, m: nat, after: Server)
    requires LeadsTo(answers, w, evs, s, b, i, x) && x.alive && x.phase.Completed? && x.attempts == {} && x.outcome.None?
    requires Release(s, x.deployment, x.token, x.epoch) == (true, after)
    ensures LeadsTo(answers, w, evs + [Finish(i)] + [Exec(i, m)], after, b, i,
                    x.(phase := Releasing, released := true, outcome := Some(true)))
  {
    Finishes(answers, w, evs, s, b, i, x);
    Releases(answers, w, evs + [Finish(i)], s, b, i, x.(phase := Releasing, released := true), m, after);
    hide LeadsTo, Release;
  }

  /** An administrative request from admission to release, its catalog published. */
  function CommittedRun(i: nat, d: string, token: string, claim: string, m: nat, payload: string, backend: Backend): seq<Event> {
    Beginning(i, d, token, claim, m, true) + [SendMutation(i, 0)] + [TakeEffect(i, 0, backend)] + [Acknowledge(i, 0)]
    + [Leave(i, true, true, payload)] + [Exec(i, m)] + [Receive(i, true)] + [Finish(i)] + [Exec(i, m)]
  }

  /** An administrative request that nothing disturbs changes backend and catalog, and leaves the cache
      quiet, unclaimed and one epoch later. */
  lemma AdministrationCommits(answers: Answers, w: World, i: nat, d: string, token: string, claim: string, m: nat,
                              payload: string, backend: Backend)
    requires CanStart(w, i, d, token, claim, m)
    ensures var evs := CommittedRun(i, d, token, claim, m, payload, backend);
            && CanHappen(answers, w, evs) && Through(w, evs).backend == backend
            && IsNextQuiet(w.server, Through(w, evs).server, payload)
  {
    var b := Beginning(i, d, token, claim, m, true);
    Begins(answers, w, i, d, token, claim, m, true);
    var (r, t) := Admit(w.server, d, token, "active");
    var s := t.(admin := Text(claim, true));
    var x := Begun(w, d, token, claim, true);
    hide LeadsTo, Admit, ServerOk, Valid, Beginning, CanStart;
    Mutates(answers, w, b, s, w.backend, i, x, backend);
    var e1 := b + [SendMutation(i, 0)] + [TakeEffect(i, 0, backend)] + [Acknowledge(i, 0)];
    var x1 := x.(started := true, sent := x.sent + 1);
    Leaves(answers, w, e1, s, backend, i, x1, true, payload);
    var x2 := x1.(phase := Committing, payload := payload);
    Commits(answers, w, e1 + [Leave(i, true, true, payload)], s, backend, i, x2, m);
    var u := s.(catalog := Text(payload, true), admin := Missing);
    Hears(answers, w, e1 + [Leave(i, true, true, payload)] + [Exec(i, m)], u, backend, i, x2.(outcome := Some(true)));
    var x3 := x2.(outcome := None, phase := Completed);
    StartedServer(w, i, d, token, claim, m);
    ReleasedServer(w.server, d, token, payload);
    assert u == t.(catalog := Text(payload, true));
    var after := Release(u, d, token, r.epoch).1;
    Ends(answers, w, e1 + [Leave(i, true, true, payload)] + [Exec(i, m)] + [Receive(i, true)], u, backend, i, x3, m, after);
    RunEnds(answers, w, CommittedRun(i, d, token, claim, m, payload, backend), after, backend, i,
            x3.(phase := Releasing, released := true, outcome := Some(true)));
  }

  lemma StartedServer(w: World, i: nat, d: string, token: string, claim: string, m: nat)
    requires CanStart(w, i, d, token, claim, m)
    ensures ServerOk(w.server) && Valid(w.server, d, false) && Quiet(w.server)
    ensures Admit(w.server, d, token, "active").1.admin.Missing? && Admit(w.server, d, token, "active").1.catalog == w.server.catalog
    ensures w.server.catalog.Text? && w.server.catalog.persistent
  {
  }

  lemma RunEnds(answers: Answers, w: World, evs: seq<Event>, s: Server, b: Backend, i: nat, x: Writer)
    requires LeadsTo(answers, w, evs, s, b, i, x)
    ensures CanHappen(answers, w, evs) && Through(w, evs).server == s && Through(w, evs).backend == b
  {
  }

  function DroppedRun(i: nat, d: string, token: string, claim: string, m: nat): seq<Event> {
    Beginning(i, d, token, claim, m, true) + [Leave(i, false, true, "")] + [Exec(i, m)] + [Receive(i, true)] + [Finish(i)] + [Exec(i, m)]
  }

  /** An administrative request that fails before it sent anything gives its claim back: the catalog is as
      before, and the cache quiet and one epoch later. */
  lemma AdministrationDrops(answers: Answers, w: World, i: nat, d: string, token: string, claim: string, m: nat)
    requires CanStart(w, i, d, token, claim, m) && w.server.catalog.Text?
    ensures var evs := DroppedRun(i, d, token, claim, m);
            && CanHappen(answers, w, evs) && Through(w, evs).backend == w.backend
            && IsNextQuiet(w.server, Through(w, evs).server, w.server.catalog.text)
  {
    var b := Beginning(i, d, token, claim, m, true);
    Begins(answers, w, i, d, token, claim, m, true);
    var (r, t) := Admit(w.server, d, token, "active");
    var s := t.(admin := Text(claim, true));
    var x := Begun(w, d, token, claim, true);
    hide LeadsTo, Admit, ServerOk, Valid, Beginning, CanStart;
    Leaves(answers, w, b, s, w.backend, i, x, false, "");
    var x1 := x.(phase := Dropping);
    Drops(answers, w, b + [Leave(i, false, true, "")], s, w.backend, i, x1, m);
    var u := s.(admin := Missing);
    Hears(answers, w, b + [Leave(i, false, true, "")] + [Exec(i, m)], u, w.backend, i, x1.(outcome := Some(true)));
    var x2 := x1.(outcome := None, phase := Completed);
    StartedServer(w, i, d, token, claim, m);
    ReleasedServer(w.server, d, token, w.server.catalog.text);
    assert u == t.(catalog := Text(w.server.catalog.text, true));
    var after := Release(u, d, token, r.epoch).1;
    Ends(answers, w, b + [Leave(i, false, true, "")] + [Exec(i, m)] + [Receive(i, true)], u, w.backend, i, x2, m, after);
    RunEnds(answers, w, DroppedRun(i, d, token, claim, m), after, w.backend, i,
            x2.(phase := Releasing, released := true, outcome := Some(true)));
  }

  function WrittenRun(i: nat, d: string, token: string, claim: string, m: nat, backend: Backend): seq<Event> {
    Beginning(i, d, token, claim, m, false) + [SendMutation(i, 0)] + [TakeEffect(i, 0, backend)] + [Acknowledge(i, 0)]
    + [Leave(i, true, true, "")] + [Finish(i)] + [Exec(i, m)]
  }

  /** A document write that nothing disturbs changes the backend and leaves the cache quiet and one epoch
      later, never having claimed. */
  lemma WriteCompletes(answers: Answers, w: World, i: nat, d: string, token: string, claim: string, m: nat, backend: Backend)
    requires CanStart(w, i, d, token, claim, m) && w.server.catalog.Text?
    ensures var evs := WrittenRun(i, d, token, claim, m, backend);
            && CanHappen(answers, w, evs) && Through(w, evs).backend == backend
            && IsNextQuiet(w.server, Through(w, evs).server, w.server.catalog.text)
  {
    var b := Beginning(i, d, token, claim, m, false);
    Begins(answers, w, i, d, token, claim, m, false);
    var (r, t) := Admit(w.server, d, token, "active");
    var x := Begun(w, d, token, claim, false);
    hide LeadsTo, Admit, ServerOk, Valid, Beginning, CanStart;
    Mutates(answers, w, b, t, w.backend, i, x, backend);
    var e1 := b + [SendMutation(i, 0)] + [TakeEffect(i, 0, backend)] + [Acknowledge(i, 0)];
    var x1 := x.(started := true, sent := x.sent + 1);
    Leaves(answers, w, e1, t, backend, i, x1, true, "");
    var x2 := x1.(phase := Completed);
    StartedServer(w, i, d, token, claim, m);
    ReleasedServer(w.server, d, token, w.server.catalog.text);
    assert t == t.(catalog := Text(w.server.catalog.text, true));
    var after := Release(t, d, token, r.epoch).1;
    Ends(answers, w, e1 + [Leave(i, true, true, "")], t, backend, i, x2, m, after);
    RunEnds(answers, w, WrittenRun(i, d, token, claim, m, backend), after, backend, i,
            x2.(phase := Releasing, released := true, outcome := Some(true)));
  }

  // ---------------------------------------------------------------- reads

  function ReadRun(r: nat, d: string, sem: string, digest: string, maxBytes: nat, m: nat, response: string): seq<Event> {
    [NewReader(r, d, sem, digest)] + [ExecLookup(r, maxBytes, m)] + [ReadBackend(r)] + [Respond(r, response)] + [ExecPublish(r, maxBytes)]
  }

  /** The events can happen and lead to this server and this reader, over the same backend. */
  ghost predicate ReadsTo(answers: Answers, w: World, evs: seq<Event>, s: Server, r: nat, x: Reader) {
    var v := Through(w, evs);
    CanHappen(answers, w, evs) && v.server == s && v.backend == w.backend && r in v.readers && v.readers[r] == x
  }

  /** A cacheable read that misses in a quiet cache publishes its response, and whoever looks it up next
      under the same limits is served that response. */
  lemma ReadFillsTheCache(answers: Answers, w: World, r: nat, d: string, sem: string, digest: string, maxBytes: nat, m: nat,
                          response: string)
    requires r !in w.readers && Lookup(w.server, d, sem, digest, maxBytes, m).Miss?
    requires answers(sem, digest, w.server.catalog.text, w.backend, response) && 0 < |response| <= maxBytes
    ensures var evs := ReadRun(r, d, sem, digest, maxBytes, m, response);
            && CanHappen(answers, w, evs)
            && Lookup(Through(w, evs).server, d, sem, digest, maxBytes, m) == Hit(w.server.control.fields["epoch"], response)
  {
    var epoch := w.server.control.fields["epoch"];
    MissFacts(w.server, d, sem, digest, maxBytes, m);
    var e1, e2 := [NewReader(r, d, sem, digest)], [NewReader(r, d, sem, digest)] + [ExecLookup(r, maxBytes, m)];
    var x := Reader(d, sem, digest, true, None, false, {}, {}, None);
    Asks(answers, w, r, d, sem, digest);
    LooksUp(answers, w, e1, r, x, maxBytes, m, epoch);
    var x2 := x.(ticket := Some(epoch), snapshot := true, catalogs := {w.server.catalog.text});
    Looks(answers, w, e2, r, x2);
    var x3 := x2.(backends := {w.backend});
    Responds(answers, w, e2 + [ReadBackend(r)], r, x3, w.server.catalog.text, response);
    var x4 := x3.(response := Some(response));
    Publishes(answers, w, e2 + [ReadBackend(r)] + [Respond(r, response)], r, x4, maxBytes);
    PublishedIsServed(w.server, d, sem, digest, epoch, response, maxBytes, m);
  }

  lemma MissFacts(s: Server, d: string, sem: string, digest: string, maxBytes: nat, m: nat)
    requires Lookup(s, d, sem, digest, maxBytes, m).Miss?
    ensures Valid(s, d, false) && Quiet(s) && Lookup(s, d, sem, digest, maxBytes, m) == Miss(s.control.fields["epoch"], s.catalog.text)
  {
  }

  lemma Asks(answers: Answers, w: World, r: nat, d: string, sem: string, digest: string)
    requires r !in w.readers
    ensures ReadsTo(answers, w, [NewReader(r, d, sem, digest)], w.server, r, Reader(d, sem, digest, true, None, false, {}, {}, None))
  {
    var ev := NewReader(r, d, sem, digest);
    OneMore(answers, w, [], ev);
    assert [] + [ev] == [ev] && Through(w, []) == w && CanHappen(answers, w, []);
    StepWorld(w, ev);
    hide Through, CanHappen, Step;
  }

  lemma LooksUp(answers: Answers, w: World, evs: seq<Event>, r: nat, x: Reader, maxBytes: nat, m: nat, epoch: string)
    requires ReadsTo(answers, w, evs, w.server, r, x) && x.alive && x.ticket.None? && w.server.catalog.Text?
    requires Lookup(w.server, x.deployment, x.semantic, x.digest, maxBytes, m) == Miss(epoch, w.server.catalog.text)
    ensures ReadsTo(answers, w, evs + [ExecLookup(r, maxBytes, m)], w.server, r,
                    x.(ticket := Some(epoch), snapshot := true, catalogs := {w.server.catalog.text}, backends := {}))
  {
    OneMore(answers, w, evs, ExecLookup(r, maxBytes, m));
    StepWorld(Through(w, evs), ExecLookup(r, maxBytes, m));
    hide Through, CanHappen, Step, Lookup;
  }

  lemma Looks(answers: Answers, w: World, evs: seq<Event>, r: nat, x: Reader)
    requires ReadsTo(answers, w, evs, w.server, r, x) && x.alive && x.ticket.Some? && x.backends == {}
    ensures ReadsTo(answers, w, evs + [ReadBackend(r)], w.server, r, x.(backends := {w.backend}))
  {
    OneMore(answers, w, evs, ReadBackend(r));
    StepWorld(Through(w, evs), ReadBackend(r));
    hide Through, CanHappen, Step;
    assert {} + {w.backend} == {w.backend};
  }

  lemma Responds(answers: Answers, w: World, evs: seq<Event>, r: nat, x: Reader, catalog: string, response: string)
    requires ReadsTo(answers, w, evs, w.server, r, x) && x.alive && x.response.None?
    requires x.catalogs == {catalog} && x.backends == {w.backend} && answers(x.semantic, x.digest, catalog, w.backend, response)
    ensures ReadsTo(answers, w, evs + [Respond(r, response)], w.server, r, x.(response := Some(response)))
  {
    OneMore(answers, w, evs, Respond(r, response));
    StepWorld(Through(w, evs), Respond(r, response));
    hide Through, CanHappen, Step;
    assert catalog in x.catalogs && w.backend in x.backends;
  }

  lemma Publishes(answers: Answers, w: World, evs: seq<Event>, r: nat, x: Reader, maxBytes: nat)
    requires ReadsTo(answers, w, evs, w.server, r, x) && x.ticket.Some? && x.response.Some?
    requires Valid(w.server, x.deployment, false) && Quiet(w.server) && w.server.control.fields["epoch"] == x.ticket.value
    requires 0 < |x.response.value| <= maxBytes
    ensures var published := Publish(w.server, x.deployment, x.semantic, x.digest, x.ticket.value, x.response.value, maxBytes);
            && published.0.Stored?
            && ReadsTo(answers, w, evs + [ExecPublish(r, maxBytes)], published.1, r, x)
  {
    OneMore(answers, w, evs, ExecPublish(r, maxBytes));
    StepWorld(Through(w, evs), ExecPublish(r, maxBytes));
    hide Through, CanHappen, Step, Valid, Quiet, Header;
  }
}
