/** The inductive invariant of the cache protocol and what it gives over whole runs. */
module CacheSafety {
  import opened Decimals
  import opened Options
  import opened Scripts
  import opened CacheProtocol
  import opened Recovery

  // ---------------------------------------------------------------- the invariant

  /** The shape of the shared keys in every reachable state. */
  ghost predicate ServerOk(s: Server) {
    && s.catalog.Text? && s.catalog.persistent
    && (s.admin.Missing? || (s.admin.Text? && s.admin.persistent))
    && (s.lineage.Missing? || (s.lineage.Text? && s.lineage.persistent && s.lineage.text in s.identities))
    && (forall d :: d in s.identities ==> s.identities[d] == Text("1", true))
    && (s.control.Missing? || s.control.Other? || (s.control.Hash? && HashOk(s)))
  }

  ghost predicate HashOk(s: Server)
    requires s.control.Hash?
  {
    var f := s.control.fields;
    && s.control.persistent && BASE <= f.Keys
    && f["schema"] == SCHEMA && Decimal(f["epoch"]) && f["deployment"] in s.identities
    && (f["state"] == "active" || f["state"] == "maintenance")
    && (f["state"] == "active" ==> s.lineage == Text(f["deployment"], true))
    && (forall k :: k in f && k !in BASE ==> IsTokenField(k, f[k], f[k]) && f[k] != "0")
  }

  /** An identity that was current at some time and can never become current again with
      a smaller epoch. */
  ghost predicate Past(s: Server, deployment: string, epoch: string) {
    && deployment in s.identities && Decimal(epoch)
    && (Identity(s).Some? && Identity(s).value.0 == deployment && Decimal(Identity(s).value.1)
        ==> Val(epoch) <= Val(Identity(s).value.1))
  }

  ghost predicate Current(s: Server, deployment: string, epoch: string) {
    Identity(s) == Some((deployment, epoch))
  }

  ghost predicate ReaderOk(w: World, x: Reader) {
    && (x.ticket.None? ==> x.catalogs == {} && x.response.None?)
    && (x.ticket.Some? ==>
      && Past(w.server, x.deployment, x.ticket.value)
      && (Current(w.server, x.deployment, x.ticket.value) ==>
            Quiet(w.server) && x.catalogs <= {Catalog(w)} && x.backends <= {w.backend}))
  }

  /** A response is possible for the states its reader saw, when it saw only one. */
  ghost predicate ResponseOk(answers: Answers, x: Reader) {
    x.response.Some? ==>
      x.catalogs != {} &&
      forall c, b :: x.catalogs <= {c} && x.backends <= {b} ==>
        answers(x.semantic, x.digest, c, b, x.response.value)
  }

  ghost predicate PublicationOk(answers: Answers, w: World, p: Publication) {
    && p.response != []
    && Past(w.server, p.key.deployment, p.epoch)
    && (Current(w.server, p.key.deployment, p.epoch) ==>
          Quiet(w.server) && answers(p.key.semantic, p.key.digest, Catalog(w), w.backend, p.response))
  }

  ghost predicate EntryOk(w: World, k: EntryKey) {
    k in w.server.entries && w.server.entries[k].Text? ==>
      exists p :: p in w.published && p.key == k && Value(p) == w.server.entries[k].text
  }

  ghost predicate ReadersOk(answers: Answers, w: World) {
    forall r :: r in w.readers ==> ReaderOk(w, w.readers[r]) && ResponseOk(answers, w.readers[r])
  }

  ghost predicate PublicationsOk(answers: Answers, w: World) {
    && (forall p :: p in w.published ==> PublicationOk(answers, w, p))
    && (forall k :: k in w.server.entries ==> EntryOk(w, k))
  }

  ghost predicate HistoryOk(w: World) {
    && (forall d: string, e: string :: (d, e) in w.history ==>
          && Past(w.server, d, e)
          && (Current(w.server, d, e) ==> Quiet(w.server) && w.history[(d, e)] == (Catalog(w), w.backend)))
    && (Identity(w.server).Some? && Quiet(w.server) ==>
          Identity(w.server).value in w.history && w.history[Identity(w.server).value] == (Catalog(w), w.backend))
  }

  /** A request that can still change, or already uncertainly changed, the backend or the catalog. */
  ghost predicate Dangerous(w: World, x: Writer) {
    !x.phase.Ended? || x.attempts != {} || HoldsClaim(w, x)
  }

  ghost predicate WriterOk(w: World, x: Writer) {
    && IsTokenId(x.token) && (x.state == "active" || x.state == "maintenance")
    && (!x.admitted ==>
          (x.phase.Admitting? || x.phase.Ended?) && x.attempts == {} && !x.started && !HoldsClaim(w, x))
    && (x.phase.Admitting? ==> x.admitted == (x.outcome == Some(true)))
    && (x.released <==> x.phase.Releasing? || (x.phase.Ended? && x.released))
    && (x.released ==> x.admitted && x.attempts == {} && !HoldsClaim(w, x))
    // Fence: the token is in the control hash, if there is one.
    && (x.admitted && !x.released && Dangerous(w, x) && w.server.control.Hash? ==> TokenIn(w.server, x.token))
    && (HoldsClaim(w, x) ==>
          || (x.phase.Claiming? && x.outcome == Some(true))
          || (x.phase.Inside? && x.claimed)
          || ((x.phase.Committing? || x.phase.Dropping?) && x.outcome.None?)
          || x.phase.Ended?)
    && (x.phase.Inside? && x.claimed ==> HoldsClaim(w, x))
    && (x.phase.Claiming? && x.outcome == Some(true) ==> HoldsClaim(w, x))
    && ((x.phase.Committing? || x.phase.Dropping?) && x.outcome.None? ==> HoldsClaim(w, x))
    && (x.phase.Running? || x.phase.Inside? || x.phase.Completed? ==> x.outcome.None?)
    && (x.claimed ==> x.phase in {Inside, Committing, Dropping, Completed, Releasing, Ended})
    && (x.phase.Dropping? ==> !x.started)
    && (x.sent > 0 || x.attempts != {} ==> x.started)
  }

  ghost predicate WritersOk(w: World) {
    && (forall i :: i in w.writers ==> WriterOk(w, w.writers[i]))
    && (forall i, j :: i in w.writers && j in w.writers && i != j ==>
          w.writers[i].token != w.writers[j].token && w.writers[i].claim != w.writers[j].claim)
  }

  // ---------------------------------------------------------------- the claim ledger

  datatype Ledger = Ledger(open: Option<nat>, catalog: string)

  /** Replays the claim events: one claim at a time, and a publication starts from the
      catalog as it is. `None` when the events break either rule. */
  function Replay(initial: string, events: seq<ClaimEvent>): Option<Ledger>
    decreases |events|
  {
    if events == [] then Some(Ledger(None, initial))
    else
      match Replay(initial, events[..|events| - 1])
      case None => None
      case Some(l) =>
        (match events[|events| - 1]
         case Acquired(i) => if l.open.None? then Some(Ledger(Some(i), l.catalog)) else None
         case Published(i, before, after) =>
           if l.open == Some(i) && before == l.catalog then Some(Ledger(None, after)) else None
         case Dropped(i) => if l.open == Some(i) then Some(Ledger(None, l.catalog)) else None
         case Cleared(i) => if l.open == Some(i) then Some(Ledger(None, l.catalog)) else None)
  }

  predicate PastHandler(x: Writer) {
    x.phase.Dropping? || x.phase.Completed? || x.phase.Releasing? || x.phase.Ended?
  }

  ghost predicate ClaimsOk(initial: string, w: World) {
    var l := Replay(initial, w.claims);
    && l.Some? && l.value.catalog == Catalog(w)
    && (w.server.admin.Missing? <==> l.value.open.None?)
    && (l.value.open.Some? ==>
          var i := l.value.open.value;
          i in w.writers && HoldsClaim(w, w.writers[i]) && w.writers[i].snapshot == Catalog(w))
    && (forall k :: 0 <= k < |w.claims| && w.claims[k].Dropped? ==>
          var i := w.claims[k].writer;
          i in w.writers && w.writers[i].sent == 0 && PastHandler(w.writers[i]))
  }

  ghost predicate Inv(answers: Answers, initial: string, w: World) {
    && ServerOk(w.server)
    && ReadersOk(answers, w)
    && PublicationsOk(answers, w)
    && HistoryOk(w)
    && WritersOk(w)
    && ClaimsOk(initial, w)
  }

  // ---------------------------------------------------------------- effects of the scripts

  lemma AdmitEffects(s: Server, d: string, token: string, state: string)
    requires ServerOk(s) && IsTokenId(token) && Admit(s, d, token, state).0.Admitted?
    ensures var s' := Admit(s, d, token, state).1;
            var e := Admit(s, d, token, state).0.epoch;
            && ServerOk(s') && TokenIn(s', token) && !Quiet(s')
            && s'.identities == s.identities && s'.catalog == s.catalog && s'.admin == s.admin && s'.entries == s.entries
            && (forall t :: TokenIn(s, t) ==> TokenIn(s', t))
            && Identity(s).Some? && Identity(s).value.0 == d && Decimal(Identity(s).value.1) && Decimal(e)
            && Val(e) == Val(Identity(s).value.1) + 1
            && Identity(s') == (if state == "active" then Some((d, e)) else None)
  {
    var f := s.control.fields;
    var s' := Admit(s, d, token, state).1;
    var e := Admit(s, d, token, state).0.epoch;
    SuccIsNext(f["epoch"]);
    WriterFieldIsNotBase(token);
    var g := s'.control.fields;
    QuietMeansNoTokens(s');
    assert g["epoch"] == e && g["state"] == state && g["deployment"] == d && g["schema"] == SCHEMA by {
      assert WriterField(token) != "schema" && WriterField(token) != "deployment";
      assert WriterField(token) != "epoch" && WriterField(token) != "state";
    }
    assert IsTokenField(WriterField(token), e, e) by {
      LeIsNumericOrder(e, e);
      assert WriterField(token)[..7] == "writer:" && WriterField(token)[7..] == token;
    }
    ZeroIsDecimal();
    assert e != "0";
    forall k | k in g && k !in BASE
      ensures IsTokenField(k, g[k], g[k]) && g[k] != "0"
    {
      if k != WriterField(token) {
        assert g[k] == f[k];
      }
    }
  }

  lemma ReleaseEffects(s: Server, d: string, token: string, epoch: string)
    requires ServerOk(s) && Release(s, d, token, epoch).0
    ensures var s' := Release(s, d, token, epoch).1;
            && ServerOk(s') && Identity(s') == Identity(s)
            && s'.identities == s.identities && s'.catalog == s.catalog && s'.admin == s.admin && s'.entries == s.entries
            && !Quiet(s)
            && (forall t :: t != token && TokenIn(s, t) ==> TokenIn(s', t))
  {
    var s' := Release(s, d, token, epoch).1;
    WriterFieldIsNotBase(token);
    QuietMeansNoTokens(s);
    forall t | t != token && TokenIn(s, t)
      ensures TokenIn(s', t)
    {
      TokenFieldsDiffer(t, token);
    }
  }

  /** How an event may move the current identity, and that a quiet identity freezes the
      catalog and the backend. */
  ghost predicate Calm(w: World, v: World) {
    && (forall d :: d in w.server.identities ==> d in v.server.identities)
    && (|| Identity(v.server).None?
        || Identity(v.server) == Identity(w.server)
        || (&& Identity(w.server).Some? && Identity(v.server).value.0 == Identity(w.server).value.0
            && Decimal(Identity(v.server).value.1) && Decimal(Identity(w.server).value.1)
            && Val(Identity(v.server).value.1) > Val(Identity(w.server).value.1) && !Quiet(v.server))
        || Identity(v.server).value.0 !in w.server.identities)
    && (Identity(w.server).Some? && Identity(v.server) == Identity(w.server) && Quiet(w.server) ==>
          Quiet(v.server) && Catalog(v) == Catalog(w) && v.backend == w.backend)
  }

  /** A request that may still act keeps the server from being quiet: this is the fence at work. */
  lemma ActiveWriterIsLoud(w: World, i: nat)
    requires ServerOk(w.server) && i in w.writers && WriterOk(w, w.writers[i])
    requires w.writers[i].phase in {Claiming, Committing, Dropping} || w.writers[i].attempts != {}
    ensures !Quiet(w.server)
  {
    var x := w.writers[i];
    WriterFieldIsNotBase(x.token);
    if w.server.control.Hash? {
      QuietMeansNoTokens(w.server);
    }
  }

  // ---------------------------------------------------------------- one event: keys and identity

  lemma AfterWritesFrame(s: Server, d: string, identity: string, order: seq<string>, n: nat)
    requires 1 <= n <= |order| + 4
    ensures var t := AfterWrites(s, d, identity, order, n);
            && t.catalog == s.catalog && t.admin == s.admin && t.entries == s.entries
            && forall k :: k in s.identities ==> k in t.identities
  {
  }

  lemma IdentityIsNew(s: Server, d: string, identity: string, catalog: string)
    requires ServerOk(s) && RecoverAllowed(s, d, identity, catalog)
    ensures Identity(s).Some? ==> Identity(s).value.0 != identity
  {
  }

  lemma RecoverKeepsServer(s: Server, d: string, identity: string, catalog: string, order: seq<string>, stop: nat)
    requires ServerOk(s) && RecoverAllowed(s, d, identity, catalog) && Lists(order, ExtraFields(s))
    ensures var t := ApplySome(s, RecoverWrites(s, d, identity, order), stop);
            && ServerOk(t) && t.catalog == s.catalog && t.admin == s.admin && t.entries == s.entries
            && (forall k :: k in s.identities ==> k in t.identities)
            && (Identity(t).None? || Identity(t) == Identity(s) || Identity(t) == Some((identity, "0")))
            && (Identity(t) == Identity(s) && Identity(s).Some? ==> Quiet(t) == Quiet(s))
  {
    hide RecoverWrites, ApplySome, AfterWrites;
    StateAfterStop(s, d, identity, order, stop);
    var t := ApplySome(s, RecoverWrites(s, d, identity, order), stop);
    if Skip(s) < stop {
      var n := if stop - Skip(s) <= |order| + 4 then stop - Skip(s) else |order| + 4;
      StagesAreOk(s, d, identity, order, n);
      AfterWritesFrame(s, d, identity, order, n);
      IdentityIsNew(s, d, identity, catalog);
    }
  }

  lemma FencedTokens(s: Server, d: string)
    requires ServerOk(s) && s.lineage == Text(d, true) && d in s.identities
    ensures BASE <= Fenced(s, d).Keys
    ensures forall k :: k in Fenced(s, d) && k !in BASE ==> IsTokenField(k, Fenced(s, d)[k], Fenced(s, d)[k]) && Fenced(s, d)[k] != "0"
  {
    forall k | k in Fenced(s, d) && k !in BASE
      ensures IsTokenField(k, Fenced(s, d)[k], Fenced(s, d)[k]) && Fenced(s, d)[k] != "0"
    {
      assert k in s.control.fields;
    }
  }

  lemma WithoutSome(s: Server, d: string, identity: string, order: seq<string>, n: nat)
    requires ServerOk(s) && d in s.identities && s.lineage == Text(d, true)
    requires Lists(order, ExtraFields(s)) && 4 <= n <= |order| + 4
    ensures var t := AfterWrites(s, d, identity, order, n);
            ServerOk(t) && Identity(t) == Some((identity, "0"))
  {
    ZeroIsDecimal();
    FencedTokens(s, d);
    var g := AfterWrites(s, d, identity, order, n).control.fields;
    forall x | x in Elements(order[..n - 4])
      ensures x !in BASE
    {
      assert x in order;
    }
    assert BASE <= g.Keys;
    forall k | k in g && k !in BASE
      ensures IsTokenField(k, g[k], g[k]) && g[k] != "0"
    {
      assert g[k] == Fenced(s, d)[k];
    }
  }

  lemma StagesAreOk(s: Server, d: string, identity: string, order: seq<string>, n: nat)
    requires ServerOk(s) && d in s.identities && s.lineage == Text(d, true)
    requires Lists(order, ExtraFields(s)) && 1 <= n <= |order| + 4
    ensures var t := AfterWrites(s, d, identity, order, n);
            ServerOk(t) && (n < 4 ==> Identity(t).None?) && (n >= 4 ==> Identity(t) == Some((identity, "0")))
  {
    ZeroIsDecimal();
    FencedTokens(s, d);
    if n >= 4 {
      WithoutSome(s, d, identity, order, n);
    }
  }

  lemma SameServerIsCalm(w: World, v: World)
    requires v.server == w.server && v.backend == w.backend
    ensures Calm(w, v)
  {
  }

  lemma AdmittingKeepsServer(w: World, i: nat, catalogMax: nat)
    requires ServerOk(w.server) && i in w.writers && WriterOk(w, w.writers[i]) && w.writers[i].phase.Admitting?
    ensures ServerOk(Execute(w, i, catalogMax).server) && Calm(w, Execute(w, i, catalogMax))
  {
    var x := w.writers[i];
    if Admit(w.server, x.deployment, x.token, x.state).0.Admitted? {
      AdmitEffects(w.server, x.deployment, x.token, x.state);
    } else {
      SameServerIsCalm(w, Execute(w, i, catalogMax));
    }
  }

  lemma ReleasingKeepsServer(w: World, i: nat, catalogMax: nat)
    requires ServerOk(w.server) && i in w.writers && w.writers[i].phase.Releasing?
    ensures ServerOk(Execute(w, i, catalogMax).server) && Calm(w, Execute(w, i, catalogMax))
  {
    var x := w.writers[i];
    if Release(w.server, x.deployment, x.token, x.epoch).0 {
      ReleaseEffects(w.server, x.deployment, x.token, x.epoch);
    } else {
      SameServerIsCalm(w, Execute(w, i, catalogMax));
    }
  }

  lemma ClaimCommandKeepsServer(w: World, i: nat, catalogMax: nat)
    requires ServerOk(w.server) && i in w.writers && WriterOk(w, w.writers[i])
    requires w.writers[i].phase in {Claiming, Committing, Dropping}
    ensures ServerOk(Execute(w, i, catalogMax).server) && Calm(w, Execute(w, i, catalogMax))
  {
    ActiveWriterIsLoud(w, i);
    ClaimCommandFrame(w, i, catalogMax);
    var v := Execute(w, i, catalogMax);
    hide Execute, WriterOk;
    assert Identity(v.server) == Identity(w.server);
  }

  lemma ClaimCommandFrame(w: World, i: nat, catalogMax: nat)
    requires ServerOk(w.server) && i in w.writers && w.writers[i].phase in {Claiming, Committing, Dropping}
    ensures var s, t := w.server, Execute(w, i, catalogMax).server;
            && t.control == s.control && t.identities == s.identities && t.lineage == s.lineage
            && t.catalog.Text? && t.catalog.persistent
            && (t.admin.Missing? || (t.admin.Text? && t.admin.persistent))
  {
    hide ExecuteAdmit, ExecuteRelease;
  }

  lemma OtherEventsKeepServer(w: World, ev: Event)
    requires !ev.ExecPublish? && !ev.Exec? && !ev.TakeEffect? && !ev.LoseEntry? && !ev.RestoreEntry?
    requires !ev.LoseControl? && !ev.ClearClaim? && !ev.Repair? && !ev.BootstrapBy? && !ev.RecoverBy?
    ensures Perform(w, ev).server == w.server && Perform(w, ev).backend == w.backend
  {
  }

  lemma EntriesDoNotMatter(w: World, v: World)
    requires ServerOk(w.server)
    requires v.server == w.server.(entries := v.server.entries) && v.backend == w.backend
    ensures ServerOk(v.server) && Calm(w, v) && Identity(v.server) == Identity(w.server)
  {
  }

  lemma BootstrapKeepsServer(s: Server, d: string, catalog: string, stop: nat)
    requires ServerOk(s) && BootstrapAllowed(s, d, catalog)
    ensures var t := ApplySome(s, BootstrapWrites(d), stop);
            && ServerOk(t) && t.catalog == s.catalog && t.admin == s.admin && t.entries == s.entries
            && (forall k :: k in s.identities ==> k in t.identities)
            && (Identity(t).None? || Identity(t) == Some((d, "0")))
            && Identity(s).None?
  {
    BootstrapStates(s, d, stop);
    ZeroIsDecimal();
  }

  /** The shared keys stay well-formed and the identity moves only as allowed. */
  ghost predicate Settled(w: World, v: World) {
    ServerOk(v.server) && Calm(w, v)
  }

  lemma RecoverIsCalm(answers: Answers, w: World, ev: Event)
    requires ServerOk(w.server) && Allowed(answers, w, ev) && ev.RecoverBy?
    ensures Settled(w, Perform(w, ev))
  {
    var RecoverBy(d, identity, catalog, order, stop) := ev;
    if identity != d && RecoverAllowed(w.server, d, identity, catalog) {
      RecoverKeepsServer(w.server, d, identity, catalog, order, stop);
    }
  }

  lemma BootstrapIsCalm(w: World, ev: Event)
    requires ServerOk(w.server) && ev.BootstrapBy?
    ensures Settled(w, Perform(w, ev))
  {
    if BootstrapAllowed(w.server, ev.deployment, ev.catalog) {
      BootstrapKeepsServer(w.server, ev.deployment, ev.catalog, ev.stop);
    }
  }

  lemma ExecIsCalm(answers: Answers, w: World, ev: Event)
    requires ServerOk(w.server) && WritersOk(w) && Allowed(answers, w, ev) && ev.Exec?
    ensures Settled(w, Perform(w, ev))
  {
    var i := ev.i;
    assert WriterOk(w, w.writers[i]);
    assert Perform(w, ev) == Execute(w, i, ev.catalogMax);
    if w.writers[i].phase.Admitting? {
      AdmittingKeepsServer(w, i, ev.catalogMax);
    } else if w.writers[i].phase.Releasing? {
      ReleasingKeepsServer(w, i, ev.catalogMax);
    } else {
      ClaimCommandKeepsServer(w, i, ev.catalogMax);
    }
  }

  lemma EntryEventIsCalm(w: World, ev: Event)
    requires ServerOk(w.server) && (ev.ExecPublish? || ev.LoseEntry? || ev.RestoreEntry?)
    ensures Settled(w, Perform(w, ev))
  {
    EntriesDoNotMatter(w, Perform(w, ev));
  }

  lemma TakeEffectIsCalm(answers: Answers, w: World, ev: Event)
    requires ServerOk(w.server) && WritersOk(w) && Allowed(answers, w, ev) && ev.TakeEffect?
    ensures Settled(w, Perform(w, ev))
  {
    ActiveWriterIsLoud(w, ev.i);
  }

  lemma OperatorEventIsCalm(answers: Answers, w: World, ev: Event)
    requires ServerOk(w.server) && Allowed(answers, w, ev) && (ev.LoseControl? || ev.ClearClaim? || ev.Repair?)
    ensures Settled(w, Perform(w, ev))
  {
    hide *;
    if ev.LoseControl? {
      LosingControlIsCalm(w, ev);
    } else if ev.ClearClaim? {
      ClearingClaimIsCalm(answers, w, ev);
    } else {
      RepairIsCalm(answers, w, ev);
    }
  }

  lemma LosingControlIsCalm(w: World, ev: Event)
    requires ServerOk(w.server) && ev.LoseControl?
    ensures Settled(w, Perform(w, ev))
  {
    assert Identity(Perform(w, ev).server).None?;
  }

  lemma ClearingClaimIsCalm(answers: Answers, w: World, ev: Event)
    requires ServerOk(w.server) && Allowed(answers, w, ev) && ev.ClearClaim?
    ensures Settled(w, Perform(w, ev))
  {
    var v := Perform(w, ev);
    hide Allowed, Perform, Decimal;
    assert v.server == w.server.(admin := Missing) && v.backend == w.backend by { ClearingClaim(w, ev); }
    assert Identity(v.server) == Identity(w.server);
  }

  lemma ClearingClaim(w: World, ev: Event)
    requires ev.ClearClaim?
    ensures Perform(w, ev).server == w.server.(admin := Missing) && Perform(w, ev).backend == w.backend
  {
  }

  lemma RepairIsCalm(answers: Answers, w: World, ev: Event)
    requires ServerOk(w.server) && Allowed(answers, w, ev) && ev.Repair?
    ensures Settled(w, Perform(w, ev))
  {
    hide ServerOk;
  }

  lemma OtherEventIsCalm(w: World, ev: Event)
    requires ServerOk(w.server)
    requires !ev.ExecPublish? && !ev.Exec? && !ev.TakeEffect? && !ev.LoseEntry? && !ev.RestoreEntry?
    requires !ev.LoseControl? && !ev.ClearClaim? && !ev.Repair? && !ev.BootstrapBy? && !ev.RecoverBy?
    ensures Settled(w, Perform(w, ev))
  {
    OtherEventsKeepServer(w, ev);
    SameServerIsCalm(w, Perform(w, ev));
  }

  lemma StepKeepsServer(answers: Answers, w: World, ev: Event)
    requires ServerOk(w.server) && WritersOk(w) && Allowed(answers, w, ev)
    ensures Settled(w, Perform(w, ev))
  {
    hide *;
    match ev {
      case Exec(_, _) => ExecIsCalm(answers, w, ev);
      case ExecPublish(_, _) => EntryEventIsCalm(w, ev);
      case LoseEntry(_, _) => EntryEventIsCalm(w, ev);
      case RestoreEntry(_) => EntryEventIsCalm(w, ev);
      case TakeEffect(_, _, _) => TakeEffectIsCalm(answers, w, ev);
      case LoseControl(_) => OperatorEventIsCalm(answers, w, ev);
      case ClearClaim(_) => OperatorEventIsCalm(answers, w, ev);
      case Repair(_) => OperatorEventIsCalm(answers, w, ev);
      case BootstrapBy(_, _, _) => BootstrapIsCalm(w, ev);
      case RecoverBy(_, _, _, _, _) => RecoverIsCalm(answers, w, ev);
      case _ => OtherEventIsCalm(w, ev);
    }
  }

  // ---------------------------------------------------------------- one event: readers, entries, history

  /** A past identity stays past, and can only be current if it already was. */
  lemma PastKept(w: World, v: World, d: string, e: string)
    requires ServerOk(w.server) && Settled(w, v) && Past(w.server, d, e)
    ensures Past(v.server, d, e)
    ensures Current(v.server, d, e) ==> Current(w.server, d, e)
  {
  }

  lemma ReaderKept(answers: Answers, w: World, v: World, x: Reader)
    requires ServerOk(w.server) && Settled(w, v) && ReaderOk(w, x)
    ensures ReaderOk(v, x)
  {
    if x.ticket.Some? {
      PastKept(w, v, x.deployment, x.ticket.value);
    }
  }

  lemma PublicationKept(answers: Answers, w: World, v: World, p: Publication)
    requires ServerOk(w.server) && Settled(w, v) && PublicationOk(answers, w, p)
    ensures PublicationOk(answers, v, p)
  {
    PastKept(w, v, p.key.deployment, p.epoch);
  }

  lemma LookupGivesTicket(w: World, x: Reader, maxBytes: nat, catalogMax: nat)
    requires ServerOk(w.server) && ReaderOk(w, x) && x.ticket.None?
    ensures ReaderOk(w, AfterLookup(x, Lookup(w.server, x.deployment, x.semantic, x.digest, maxBytes, catalogMax)))
  {
    var reply := Lookup(w.server, x.deployment, x.semantic, x.digest, maxBytes, catalogMax);
    if Valid(w.server, x.deployment, false) {
      var e := w.server.control.fields["epoch"];
      assert Identity(w.server) == Some((x.deployment, e));
    }
  }

  lemma ReaderEvent(answers: Answers, w: World, ev: Event)
    requires ServerOk(w.server) && ReadersOk(answers, w) && Allowed(answers, w, ev)
    requires ev.NewReader? || ev.ExecLookup? || ev.LoadCatalog? || ev.ReadBackend? || ev.Respond? || ev.CancelReader?
    ensures ReadersOk(answers, Perform(w, ev))
  {
    var r := ev.r;
    var v := Perform(w, ev);
    if ev.ExecLookup? {
      LookupGivesTicket(w, w.readers[r], ev.maxBytes, ev.catalogMax);
    }
    assert r in v.readers && ReaderOk(v, v.readers[r]) && ResponseOk(answers, v.readers[r]);
    forall q | q in v.readers
      ensures ReaderOk(v, v.readers[q]) && ResponseOk(answers, v.readers[q])
    {
      if q != r {
        assert v.readers[q] == w.readers[q];
      }
    }
  }

  lemma OtherEventKeepsReaders(answers: Answers, w: World, ev: Event)
    requires ServerOk(w.server) && ReadersOk(answers, w) && Settled(w, Perform(w, ev))
    requires Perform(w, ev).readers == w.readers
    ensures ReadersOk(answers, Perform(w, ev))
  {
    hide ReaderOk, ResponseOk, Perform, ServerOk, Settled;
    var v := Perform(w, ev);
    forall q | q in v.readers
      ensures ReaderOk(v, v.readers[q]) && ResponseOk(answers, v.readers[q])
    {
      ReaderKept(answers, w, v, w.readers[q]);
    }
  }

  lemma ReadersUntouched(w: World, ev: Event)
    requires !ev.NewReader? && !ev.ExecLookup? && !ev.LoadCatalog? && !ev.ReadBackend? && !ev.Respond? && !ev.CancelReader?
    ensures Perform(w, ev).readers == w.readers
  {
    if ev.Exec? && ev.i in w.writers {
      ExecKeepsBeside(w, ev.i, ev.catalogMax);
    }
    hide Execute, AfterReply, AfterHandler, Lookup, Publish, AfterLookup, RecoverWrites, BootstrapWrites, ApplySome;
  }

  lemma StepKeepsReaders(answers: Answers, w: World, ev: Event)
    requires ServerOk(w.server) && ReadersOk(answers, w) && Allowed(answers, w, ev) && Settled(w, Perform(w, ev))
    ensures ReadersOk(answers, Perform(w, ev))
  {
    hide *;
    if ev.NewReader? || ev.ExecLookup? || ev.LoadCatalog? || ev.ReadBackend? || ev.Respond? || ev.CancelReader? {
      ReaderEvent(answers, w, ev);
    } else {
      ReadersUntouched(w, ev);
      OtherEventKeepsReaders(answers, w, ev);
    }
  }

  /** The response a reader publishes under an unchanged quiet epoch is possible right now. */
  lemma StoredResponse(answers: Answers, w: World, x: Reader, maxBytes: nat)
    requires ServerOk(w.server) && ReaderOk(w, x) && ResponseOk(answers, x)
    requires x.ticket.Some? && x.response.Some?
    requires Publish(w.server, x.deployment, x.semantic, x.digest, x.ticket.value, x.response.value, maxBytes).0.Stored?
    ensures PublicationOk(answers, w, Publication(EntryKey(x.deployment, x.semantic, x.digest), x.ticket.value, x.response.value))
  {
    assert Current(w.server, x.deployment, x.ticket.value);
    assert answers(x.semantic, x.digest, Catalog(w), w.backend, x.response.value);
  }

  lemma PublishEvent(answers: Answers, w: World, ev: Event)
    requires ServerOk(w.server) && ReadersOk(answers, w) && PublicationsOk(answers, w)
    requires ev.ExecPublish? && Allowed(answers, w, ev)
    ensures PublicationsOk(answers, Perform(w, ev))
  {
    var x := w.readers[ev.r];
    var v := Perform(w, ev);
    var (reply, s') := Publish(w.server, x.deployment, x.semantic, x.digest, x.ticket.value, x.response.value, ev.maxBytes);
    if reply.Stored? {
      var p := Publication(EntryKey(x.deployment, x.semantic, x.digest), x.ticket.value, x.response.value);
      StoredResponse(answers, w, x, ev.maxBytes);
      EntryEventIsCalm(w, ev);
      forall q | q in v.published
        ensures PublicationOk(answers, v, q)
      {
        PublicationKept(answers, w, v, q);
      }
      forall k | k in v.server.entries
        ensures EntryOk(v, k)
      {
        if k == p.key {
          assert p in v.published && Value(p) == v.server.entries[k].text;
        } else {
          EntryKept(w, v, k);
        }
      }
    }
  }

  lemma EntryKept(w: World, v: World, k: EntryKey)
    requires k in w.server.entries && EntryOk(w, k)
    requires k in v.server.entries && v.server.entries[k] == w.server.entries[k]
    requires w.published <= v.published
    ensures EntryOk(v, k)
  {
    if w.server.entries[k].Text? {
      var p :| p in w.published && p.key == k && Value(p) == w.server.entries[k].text;
      assert p in v.published;
    }
  }

  lemma EntryEvent(answers: Answers, w: World, ev: Event)
    requires ServerOk(w.server) && PublicationsOk(answers, w) && Allowed(answers, w, ev)
    requires ev.LoseEntry? || ev.RestoreEntry?
    ensures PublicationsOk(answers, Perform(w, ev))
  {
    var v := Perform(w, ev);
    EntryEventIsCalm(w, ev);
    forall q | q in v.published
      ensures PublicationOk(answers, v, q)
    {
      PublicationKept(answers, w, v, q);
    }
    var key := if ev.LoseEntry? then ev.key else ev.publication.key;
    forall k | k in v.server.entries
      ensures EntryOk(v, k)
    {
      if k != key {
        EntryKept(w, v, k);
      } else if ev.RestoreEntry? {
        assert ev.publication in v.published;
      }
    }
  }

  lemma ScriptsKeepBeside(s: Server, d: string, token: string, state: string, epoch: string)
    ensures var after := Admit(s, d, token, state).1; after.entries == s.entries && after.lineage == s.lineage
    ensures var after := Release(s, d, token, epoch).1; after.entries == s.entries && after.lineage == s.lineage
  {
  }

  lemma ExecKeepsBeside(w: World, i: nat, m: nat)
    requires i in w.writers
    ensures SameBeside(w, Execute(w, i, m))
  {
    AdmitKeepsBeside(w, i);
    ClaimKeepsBeside(w, i, m);
    CommitKeepsBeside(w, i);
    DropKeepsBeside(w, i);
    ReleaseKeepsBeside(w, i);
    hide ExecuteAdmit, ExecuteClaim, ExecuteCommit, ExecuteDrop, ExecuteRelease;
  }

  /** What no writer's command touches. */
  predicate SameBeside(w: World, v: World) {
    && v.published == w.published && v.history == w.history && v.readers == w.readers
    && v.server.entries == w.server.entries && v.server.lineage == w.server.lineage
  }

  lemma AdmitKeepsBeside(w: World, i: nat)
    requires i in w.writers
    ensures SameBeside(w, ExecuteAdmit(w, i))
  {
    var x := w.writers[i];
    ScriptsKeepBeside(w.server, x.deployment, x.token, x.state, x.epoch);
    hide Admit;
  }

  lemma ClaimKeepsBeside(w: World, i: nat, m: nat)
    requires i in w.writers
    ensures SameBeside(w, ExecuteClaim(w, i, m))
  {
  }

  lemma CommitKeepsBeside(w: World, i: nat)
    requires i in w.writers
    ensures SameBeside(w, ExecuteCommit(w, i))
  {
  }

  lemma DropKeepsBeside(w: World, i: nat)
    requires i in w.writers
    ensures SameBeside(w, ExecuteDrop(w, i))
  {
  }

  lemma ReleaseKeepsBeside(w: World, i: nat)
    requires i in w.writers
    ensures SameBeside(w, ExecuteRelease(w, i))
  {
    var x := w.writers[i];
    ScriptsKeepBeside(w.server, x.deployment, x.token, x.state, x.epoch);
    hide Release;
  }

  lemma EntriesUntouched(answers: Answers, w: World, ev: Event)
    requires ServerOk(w.server) && Allowed(answers, w, ev)
    requires !ev.ExecPublish? && !ev.LoseEntry? && !ev.RestoreEntry?
    ensures Perform(w, ev).published == w.published && Perform(w, ev).server.entries == w.server.entries
  {
    match ev {
      case Exec(i, m) => ExecKeepsBeside(w, i, m);
      case BootstrapBy(d, c, stop) =>
        if BootstrapAllowed(w.server, d, c) {
          BootstrapKeepsServer(w.server, d, c, stop);
        }
      case RecoverBy(d, id, c, order, stop) =>
        if id != d && RecoverAllowed(w.server, d, id, c) {
          RecoverKeepsServer(w.server, d, id, c, order, stop);
        }
      case _ =>
    }
  }

  lemma OtherEventKeepsEntries(answers: Answers, w: World, v: World)
    requires ServerOk(w.server) && PublicationsOk(answers, w) && Settled(w, v)
    requires v.published == w.published && v.server.entries == w.server.entries
    ensures PublicationsOk(answers, v)
  {
    hide PublicationOk, EntryOk, ServerOk, Settled;
    forall q | q in v.published
      ensures PublicationOk(answers, v, q)
    {
      PublicationKept(answers, w, v, q);
    }
    forall k | k in v.server.entries
      ensures EntryOk(v, k)
    {
      EntryKept(w, v, k);
    }
  }

  lemma StepKeepsPublications(answers: Answers, w: World, ev: Event)
    requires ServerOk(w.server) && WritersOk(w) && ReadersOk(answers, w) && PublicationsOk(answers, w)
    requires Allowed(answers, w, ev) && Settled(w, Perform(w, ev))
    ensures PublicationsOk(answers, Perform(w, ev))
  {
    hide *;
    if ev.ExecPublish? {
      PublishEvent(answers, w, ev);
    } else if ev.LoseEntry? || ev.RestoreEntry? {
      EntryEvent(answers, w, ev);
    } else {
      EntriesUntouched(answers, w, ev);
      OtherEventKeepsEntries(answers, w, Perform(w, ev));
    }
  }

  lemma StepKeepsHistory(w: World, v: World)
    requires ServerOk(w.server) && HistoryOk(w) && Settled(w, v) && v.history == w.history
    ensures HistoryOk(Observe(v))
    ensures forall k :: k in w.history ==> k in Observe(v).history && Observe(v).history[k] == w.history[k]
  {
    var u := Observe(v);
    forall d: string, e: string | (d, e) in w.history
      ensures Past(v.server, d, e)
      ensures Current(v.server, d, e) ==> Quiet(v.server) && w.history[(d, e)] == (Catalog(v), v.backend)
    {
      PastKept(w, v, d, e);
    }
    if Identity(v.server).Some? && Quiet(v.server) {
      var (d, e) := Identity(v.server).value;
      assert Past(v.server, d, e);
      if (d, e) in w.history {
        assert Current(v.server, d, e);
      }
    }
    forall k | k in w.history
      ensures k in u.history && u.history[k] == w.history[k]
    {
      var (d, e) := k;
      assert (d, e) in w.history;
    }
  }

  // ---------------------------------------------------------------- one event: fenced requests

  lemma WriterKept(w: World, v: World, x: Writer)
    requires WriterOk(w, x) && HoldsClaim(v, x) == HoldsClaim(w, x)
    requires x.admitted && !x.released && Dangerous(w, x) && v.server.control.Hash? ==> TokenIn(v.server, x.token)
    ensures WriterOk(v, x)
  {
  }

  /** Writer `i` takes its new form; every other writer is as it was and keeps its guarantees. */
  lemma OneWriter(w: World, v: World, i: nat)
    requires WritersOk(w) && i in v.writers && v.writers == w.writers[i := v.writers[i]]
    requires WriterOk(v, v.writers[i])
    requires forall j :: j in w.writers && j != i ==> WriterOk(v, w.writers[j])
    requires forall j :: j in w.writers && j != i ==>
               w.writers[j].token != v.writers[i].token && w.writers[j].claim != v.writers[i].claim
    ensures WritersOk(v)
  {
    hide WriterOk;
    forall j | j in v.writers
      ensures WriterOk(v, v.writers[j])
    {
      if j != i {
        assert v.writers[j] == w.writers[j];
      }
    }
  }

  predicate IsWriterEvent(ev: Event) {
    ev.Receive? || ev.Open? || ev.PostRead? || ev.SendMutation? || ev.Acknowledge? || ev.Leave? || ev.Finish?
    || ev.CancelWriter? || ev.Account?
  }

  lemma WriterEventKinds(ev: Event)
    requires ev.Receive? || ev.Open? || ev.PostRead? || ev.SendMutation? || ev.Acknowledge? || ev.Leave? || ev.Finish?
             || ev.CancelWriter? || ev.Account?
    ensures IsWriterEvent(ev)
  {
  }

  /** A writer's new form after an event of its own. */
  function OwnForm(x: Writer, ev: Event): Writer {
    match ev
    case Receive(_, parsed) => if x.outcome.None? then x else AfterReply(x, parsed)
    case Open(_, admin, rejected) => x.(phase := if admin then Claiming else if rejected then Completed else Inside)
    case PostRead(_) => x.(started := true)
    case SendMutation(_, a) => x.(attempts := x.attempts + {a}, started := true, sent := x.sent + 1)
    case Acknowledge(_, a) => x.(attempts := x.attempts - {a})
    case Leave(_, success, fits, payload) => AfterHandler(x, success, fits, payload)
    case Finish(_) => if x.attempts == {} then x.(phase := Releasing, outcome := None, released := true) else x.(phase := Ended)
    case CancelWriter(_) => x.(alive := false)
    case Account(_) => x.(phase := Ended, alive := false, attempts := {})
    case _ => x
  }

  lemma OwnFrame(w: World, ev: Event)
    requires IsWriterEvent(ev) && ev.i in w.writers
    ensures Perform(w, ev) == PutWriter(w, ev.i, OwnForm(w.writers[ev.i], ev))
  {
    if w.writers[ev.i] == OwnForm(w.writers[ev.i], ev) {
      assert w.writers[ev.i := w.writers[ev.i]] == w.writers;
    }
  }

  lemma ReplyKeeps(w: World, x: Writer, parsed: bool)
    requires WriterOk(w, x) && x.outcome.Some? && x.phase in {Admitting, Claiming, Committing, Dropping, Releasing}
    ensures WriterOk(w, AfterReply(x, parsed))
  {
  }

  lemma HandlerKeeps(w: World, x: Writer, success: bool, fits: bool, payload: string)
    requires WriterOk(w, x) && x.phase.Inside?
    ensures WriterOk(w, AfterHandler(x, success, fits, payload))
  {
  }

  lemma InsideKeeps(w: World, x: Writer, ev: Event)
    requires WriterOk(w, x) && x.phase.Inside? && (ev.PostRead? || ev.SendMutation? || ev.Acknowledge?)
    ensures WriterOk(w, OwnForm(x, ev))
  {
  }

  lemma EdgeKeeps(w: World, x: Writer, ev: Event)
    requires WriterOk(w, x)
    requires (ev.Open? && x.phase.Running?) || (ev.Finish? && x.phase.Completed?) || ev.CancelWriter? || ev.Account?
    ensures WriterOk(w, OwnForm(x, ev))
  {
  }

  lemma EventPhase(answers: Answers, w: World, ev: Event)
    requires Allowed(answers, w, ev) && IsWriterEvent(ev)
    ensures ev.Receive? || ev.Open? || ev.PostRead? || ev.SendMutation? || ev.Acknowledge? || ev.Leave? || ev.Finish?
            || ev.CancelWriter? || ev.Account?
    ensures ev.i in w.writers
    ensures var x := w.writers[ev.i];
            && (ev.Receive? ==> x.outcome.Some? && x.phase in {Admitting, Claiming, Committing, Dropping, Releasing})
            && (ev.Open? ==> x.phase.Running?)
            && (ev.PostRead? || ev.SendMutation? || ev.Acknowledge? || ev.Leave? ==> x.phase.Inside?)
            && (ev.Finish? ==> x.phase.Completed?)
  {
  }

  lemma OwnFields(x: Writer, ev: Event)
    ensures var y := OwnForm(x, ev); y.token == x.token && y.claim == x.claim && y.snapshot == x.snapshot
    ensures ev.Receive? && x.outcome.Some? ==> OwnForm(x, ev) == AfterReply(x, ev.parsed)
    ensures ev.Leave? ==> OwnForm(x, ev) == AfterHandler(x, ev.success, ev.fits, ev.payload)
  {
    hide AfterReply, AfterHandler;
    if ev.Receive? && x.outcome.Some? {
      ReplyFields(x, ev.parsed);
    }
    if ev.Leave? {
      HandlerFields(x, ev.success, ev.fits, ev.payload);
    }
  }

  lemma ReplyFields(x: Writer, parsed: bool)
    requires x.outcome.Some?
    ensures var y := AfterReply(x, parsed); y.token == x.token && y.claim == x.claim && y.snapshot == x.snapshot
  {
    if x.phase.Claiming? {
      ClaimReplyFields(x, parsed);
    } else {
      OtherReplyFields(x, parsed);
    }
    hide AfterReply;
  }

  lemma ClaimReplyFields(x: Writer, parsed: bool)
    requires x.outcome.Some? && x.phase.Claiming?
    ensures var y := AfterReply(x, parsed); y.token == x.token && y.claim == x.claim && y.snapshot == x.snapshot
  {
  }

  lemma OtherReplyFields(x: Writer, parsed: bool)
    requires x.outcome.Some? && !x.phase.Claiming?
    ensures var y := AfterReply(x, parsed); y.token == x.token && y.claim == x.claim && y.snapshot == x.snapshot
  {
    var y := AfterReply(x, parsed);
    assert y == x.(outcome := None, phase := y.phase);
  }

  lemma HandlerFields(x: Writer, success: bool, fits: bool, payload: string)
    ensures var y := AfterHandler(x, success, fits, payload); y.token == x.token && y.claim == x.claim && y.snapshot == x.snapshot
  {
  }

  lemma WriterIn(w: World, i: nat)
    requires WritersOk(w) && i in w.writers
    ensures WriterOk(w, w.writers[i])
  {
  }

  lemma OwnFormOk(answers: Answers, w: World, ev: Event)
    requires WritersOk(w) && Allowed(answers, w, ev) && IsWriterEvent(ev)
    ensures IsWriterEvent(ev) && ev.i in w.writers
    ensures var y := OwnForm(w.writers[ev.i], ev);
            WriterOk(w, y) && y.token == w.writers[ev.i].token && y.claim == w.writers[ev.i].claim
            && y.snapshot == w.writers[ev.i].snapshot
  {
    hide *;
    EventPhase(answers, w, ev);
    var x := w.writers[ev.i];
    WriterIn(w, ev.i);
    OwnFields(x, ev);
    if ev.Receive? {
      ReplyKeeps(w, x, ev.parsed);
    } else if ev.Leave? {
      HandlerKeeps(w, x, ev.success, ev.fits, ev.payload);
    } else if ev.PostRead? || ev.SendMutation? || ev.Acknowledge? {
      InsideKeeps(w, x, ev);
    } else {
      EdgeKeeps(w, x, ev);
    }
  }

  lemma OwnStep(answers: Answers, w: World, ev: Event)
    requires WritersOk(w) && Allowed(answers, w, ev) && IsWriterEvent(ev)
    ensures var v := Perform(w, ev);
            && v.server == w.server && v.claims == w.claims && v.backend == w.backend
            && ev.i in w.writers && ev.i in v.writers && v.writers == w.writers[ev.i := v.writers[ev.i]]
            && WriterOk(v, v.writers[ev.i])
            && v.writers[ev.i].token == w.writers[ev.i].token && v.writers[ev.i].claim == w.writers[ev.i].claim
            && v.writers[ev.i].snapshot == w.writers[ev.i].snapshot
  {
    hide WriterOk, OwnForm, Perform, Allowed, WritersOk, IsWriterEvent;
    EventPhase(answers, w, ev);
    OwnFormOk(answers, w, ev);
    OwnFrame(w, ev);
    SameServerSameWriter(w, Perform(w, ev), OwnForm(w.writers[ev.i], ev));
  }

  lemma SameServerSameWriter(w: World, v: World, x: Writer)
    requires v.server == w.server && WriterOk(w, x)
    ensures WriterOk(v, x)
  {
  }

  lemma WriterEvent(answers: Answers, w: World, ev: Event)
    requires WritersOk(w) && Allowed(answers, w, ev) && IsWriterEvent(ev)
    ensures WritersOk(Perform(w, ev))
  {
    OwnStep(answers, w, ev);
    var v := Perform(w, ev);
    hide *;
    SameServerWriters(w, v, ev.i);
  }

  lemma SameServerWriters(w: World, v: World, i: nat)
    requires WritersOk(w) && v.server == w.server
    requires i in v.writers && v.writers == w.writers[i := v.writers[i]] && WriterOk(v, v.writers[i])
    requires i in w.writers && v.writers[i].token == w.writers[i].token && v.writers[i].claim == w.writers[i].claim
    ensures WritersOk(v)
  {
    forall j | j in w.writers && j != i
      ensures WriterOk(v, w.writers[j])
    {
      assert WriterOk(w, w.writers[j]);
      WriterKept(w, v, w.writers[j]);
    }
    OneWriter(w, v, i);
  }

  lemma NewWriterEvent(answers: Answers, w: World, ev: Event)
    requires WritersOk(w) && Allowed(answers, w, ev) && ev.NewWriter?
    ensures WritersOk(Perform(w, ev))
  {
    var v := Perform(w, ev);
    forall j | j in w.writers && j != ev.i
      ensures WriterOk(v, w.writers[j])
    {
      assert WriterOk(w, w.writers[j]);
      WriterKept(w, v, w.writers[j]);
    }
    OneWriter(w, v, ev.i);
  }

  /** The effect of a command in flight on the other writers: their claims and tokens stay. */
  ghost predicate Undisturbed(w: World, v: World, i: nat) {
    forall j :: j in w.writers && j != i ==>
      && HoldsClaim(v, w.writers[j]) == HoldsClaim(w, w.writers[j])
      && (w.writers[j].admitted && !w.writers[j].released && Dangerous(w, w.writers[j]) && v.server.control.Hash?
          ==> TokenIn(v.server, w.writers[j].token))
  }

  lemma UndisturbedWriters(w: World, v: World, i: nat)
    requires WritersOk(w) && Undisturbed(w, v, i)
    requires i in w.writers && i in v.writers && v.writers == w.writers[i := v.writers[i]] && WriterOk(v, v.writers[i])
    requires v.writers[i].token == w.writers[i].token && v.writers[i].claim == w.writers[i].claim
    ensures WritersOk(v)
  {
    forall j | j in w.writers && j != i
      ensures WriterOk(v, w.writers[j])
    {
      assert WriterOk(w, w.writers[j]);
      WriterKept(w, v, w.writers[j]);
    }
    OneWriter(w, v, i);
  }

  lemma AdmittingWriter(w: World, i: nat, m: nat)
    requires ServerOk(w.server) && WritersOk(w) && i in w.writers && w.writers[i].phase.Admitting? && w.writers[i].outcome.None?
    ensures WritersOk(Execute(w, i, m))
  {
    var x := w.writers[i];
    var v := Execute(w, i, m);
    assert WriterOk(w, x);
    if Admit(w.server, x.deployment, x.token, x.state).0.Admitted? {
      AdmitEffects(w.server, x.deployment, x.token, x.state);
      forall j | j in w.writers && j != i && w.writers[j].admitted && !w.writers[j].released && Dangerous(w, w.writers[j])
        ensures TokenIn(v.server, w.writers[j].token)
      {
        assert WriterOk(w, w.writers[j]);
      }
      UndisturbedWriters(w, v, i);
    } else {
      SameServerWriters(w, v, i);
    }
  }

  lemma ReleasingWriter(w: World, i: nat, m: nat)
    requires ServerOk(w.server) && WritersOk(w) && i in w.writers && w.writers[i].phase.Releasing? && w.writers[i].outcome.None?
    ensures WritersOk(Execute(w, i, m))
  {
    var x := w.writers[i];
    var v := Execute(w, i, m);
    assert WriterOk(w, x);
    if Release(w.server, x.deployment, x.token, x.epoch).0 {
      ReleaseEffects(w.server, x.deployment, x.token, x.epoch);
      forall j | j in w.writers && j != i && w.writers[j].admitted && !w.writers[j].released && Dangerous(w, w.writers[j])
        ensures TokenIn(v.server, w.writers[j].token)
      {
        assert WriterOk(w, w.writers[j]);
      }
      UndisturbedWriters(w, v, i);
    } else {
      SameServerWriters(w, v, i);
    }
  }

  lemma ClaimCommandOwn(w: World, i: nat, m: nat)
    requires i in w.writers && WriterOk(w, w.writers[i]) && w.writers[i].outcome.None?
    requires w.writers[i].phase in {Claiming, Committing, Dropping}
    ensures var v := Execute(w, i, m);
            && i in v.writers && v.writers == w.writers[i := v.writers[i]] && WriterOk(v, v.writers[i])
            && v.writers[i].token == w.writers[i].token && v.writers[i].claim == w.writers[i].claim
            && v.server.control == w.server.control
            && (v.server.admin == w.server.admin
                || (w.server.admin.Missing? && HoldsClaim(v, w.writers[i]))
                || (HoldsClaim(w, w.writers[i]) && v.server.admin.Missing?))
  {
    var x := w.writers[i];
    var v := Execute(w, i, m);
    hide WriterOk;
    if x.phase.Claiming? {
      if v.server == w.server {
        RejectedOk(w, v, x, v.writers[i]);
      } else {
        ClaimedOk(w, v, x, v.writers[i]);
      }
    } else {
      HoldsWhenPending(w, x);
      FreedOk(w, v, x, v.writers[i]);
    }
  }

  lemma RejectedOk(w: World, v: World, x: Writer, y: Writer)
    requires WriterOk(w, x) && x.phase.Claiming? && x.outcome.None? && v.server == w.server && y == x.(outcome := Some(false))
    ensures WriterOk(v, y)
  {
  }

  lemma ClaimedOk(w: World, v: World, x: Writer, y: Writer)
    requires WriterOk(w, x) && x.phase.Claiming? && x.outcome.None?
    requires v.server.control == w.server.control && HoldsClaim(v, x)
    requires y == x.(outcome := Some(true), snapshot := y.snapshot)
    ensures WriterOk(v, y)
  {
  }

  lemma HoldsWhenPending(w: World, x: Writer)
    requires WriterOk(w, x) && (x.phase.Committing? || x.phase.Dropping?) && x.outcome.None?
    ensures HoldsClaim(w, x)
  {
  }

  lemma FreedOk(w: World, v: World, x: Writer, y: Writer)
    requires WriterOk(w, x) && (x.phase.Committing? || x.phase.Dropping?) && x.outcome.None?
    requires v.server.control == w.server.control && v.server.admin.Missing? && y == x.(outcome := Some(true))
    ensures WriterOk(v, y)
  {
  }

  lemma ClaimCommandOthers(w: World, v: World, i: nat)
    requires WritersOk(w) && i in w.writers && v.server.control == w.server.control
    requires || v.server.admin == w.server.admin
             || (w.server.admin.Missing? && HoldsClaim(v, w.writers[i]))
             || (HoldsClaim(w, w.writers[i]) && v.server.admin.Missing?)
    ensures Undisturbed(w, v, i)
  {
    forall j | j in w.writers && j != i
      ensures HoldsClaim(v, w.writers[j]) == HoldsClaim(w, w.writers[j])
      ensures w.writers[j].admitted && !w.writers[j].released && Dangerous(w, w.writers[j]) && v.server.control.Hash?
              ==> TokenIn(v.server, w.writers[j].token)
    {
      assert WriterOk(w, w.writers[j]);
    }
  }

  lemma ClaimCommandWriter(w: World, i: nat, m: nat)
    requires WritersOk(w) && i in w.writers && w.writers[i].outcome.None?
    requires w.writers[i].phase in {Claiming, Committing, Dropping}
    ensures WritersOk(Execute(w, i, m))
  {
    hide Execute, Undisturbed, HoldsClaim, WriterOk;
    var v := Execute(w, i, m);
    ClaimCommandOwn(w, i, m);
    ClaimCommandOthers(w, v, i);
    UndisturbedWriters(w, v, i);
  }

  lemma ExecWriter(answers: Answers, w: World, ev: Event)
    requires ServerOk(w.server) && WritersOk(w) && Allowed(answers, w, ev) && ev.Exec?
    ensures WritersOk(Perform(w, ev))
  {
    hide WritersOk, Execute, ServerOk;
    if w.writers[ev.i].phase.Admitting? {
      AdmittingWriter(w, ev.i, ev.catalogMax);
    } else if w.writers[ev.i].phase.Releasing? {
      ReleasingWriter(w, ev.i, ev.catalogMax);
    } else {
      ClaimCommandWriter(w, ev.i, ev.catalogMax);
    }
  }

  /** Losing the control key, or clearing a claim its stopped owner left. */
  lemma SharedEvent(answers: Answers, w: World, ev: Event)
    requires WritersOk(w) && Allowed(answers, w, ev) && (ev.LoseControl? || ev.ClearClaim?)
    ensures WritersOk(Perform(w, ev))
  {
    var v := Perform(w, ev);
    assert v.writers == w.writers;
    assert ev.LoseControl? ==> !v.server.control.Hash? && v.server.admin == w.server.admin;
    assert ev.ClearClaim? ==> v.server.admin.Missing? && v.server.control == w.server.control
                              && w.writers[ev.i].phase.Ended? && HoldsClaim(w, w.writers[ev.i]);
    hide Perform, Allowed;
    forall j | j in w.writers
      ensures WriterOk(v, w.writers[j])
    {
      assert WriterOk(w, w.writers[j]);
      if ev.LoseControl? {
        WriterKept(w, v, w.writers[j]);
      }
    }
  }

  /** After the operator's assertion no writer is dangerous, so tokens may go. */
  lemma AdministrationEvent(answers: Answers, w: World, ev: Event)
    requires ServerOk(w.server) && WritersOk(w) && Allowed(answers, w, ev) && (ev.BootstrapBy? || ev.RecoverBy?)
    ensures WritersOk(Perform(w, ev))
    ensures Perform(w, ev).server != w.server ==>
              w.server.admin.Missing? && Perform(w, ev).server.admin.Missing? && Perform(w, ev).server.catalog == w.server.catalog
  {
    AdministrationServer(answers, w, ev);
    var v := Perform(w, ev);
    assert v.writers == w.writers;
    forall j | j in w.writers
      ensures WriterOk(v, w.writers[j])
    {
      assert WriterOk(w, w.writers[j]);
      if v.server != w.server {
        assert !Dangerous(w, w.writers[j]);
      }
    }
  }

  lemma AdministrationServer(answers: Answers, w: World, ev: Event)
    requires ServerOk(w.server) && Allowed(answers, w, ev) && (ev.BootstrapBy? || ev.RecoverBy?)
    ensures Perform(w, ev).server != w.server ==>
              w.server.admin.Missing? && Perform(w, ev).server.admin.Missing? && Perform(w, ev).server.catalog == w.server.catalog
  {
    if Perform(w, ev).server != w.server {
      match ev {
        case BootstrapBy(d, c, stop) => BootstrapKeepsServer(w.server, d, c, stop);
        case RecoverBy(d, id, c, order, stop) => RecoverKeepsServer(w.server, d, id, c, order, stop);
      }
    }
  }

  lemma UnrelatedFrame(w: World, ev: Event)
    requires ev.NewReader? || ev.ExecLookup? || ev.LoadCatalog? || ev.ReadBackend? || ev.Respond? || ev.ExecPublish?
             || ev.CancelReader? || ev.TakeEffect? || ev.LoseEntry? || ev.RestoreEntry? || ev.Repair?
    ensures var v := Perform(w, ev);
            && v.writers == w.writers && v.claims == w.claims && v.server.admin == w.server.admin
            && v.server.control == w.server.control && v.server.catalog == w.server.catalog
  {
  }

  lemma SameKeysWriters(w: World, v: World)
    requires WritersOk(w) && v.writers == w.writers
    requires v.server.admin == w.server.admin && v.server.control == w.server.control
    ensures WritersOk(v)
  {
    forall j | j in w.writers
      ensures WriterOk(v, w.writers[j])
    {
      assert WriterOk(w, w.writers[j]);
      WriterKept(w, v, w.writers[j]);
    }
  }

  lemma StepKeepsWriters(answers: Answers, w: World, ev: Event)
    requires ServerOk(w.server) && WritersOk(w) && Allowed(answers, w, ev)
    ensures WritersOk(Perform(w, ev))
  {
    hide *;
    match ev {
      case NewWriter(_, _, _, _, _) => NewWriterEvent(answers, w, ev);
      case Exec(_, _) => ExecWriter(answers, w, ev);
      case LoseControl(_) => SharedEvent(answers, w, ev);
      case ClearClaim(_) => SharedEvent(answers, w, ev);
      case BootstrapBy(_, _, _) => AdministrationEvent(answers, w, ev);
      case RecoverBy(_, _, _, _, _) => AdministrationEvent(answers, w, ev);
      case _ =>
        if ev.Receive? || ev.Open? || ev.PostRead? || ev.SendMutation? || ev.Acknowledge? || ev.Leave? || ev.Finish?
           || ev.CancelWriter? || ev.Account? {
          WriterEventKinds(ev);
          WriterEvent(answers, w, ev);
        } else {
          UnrelatedFrame(w, ev);
          SameKeysWriters(w, Perform(w, ev));
        }
    }
  }

  // ---------------------------------------------------------------- one event: the claim ledger

  /** What the ledger needs of the requests, from one world to the next. */
  ghost predicate SameClaims(w: World, v: World) {
    forall i :: i in w.writers ==>
      && i in v.writers && v.writers[i].claim == w.writers[i].claim
      && (HoldsClaim(w, w.writers[i]) ==> v.writers[i].snapshot == w.writers[i].snapshot)
      && (PastHandler(w.writers[i]) ==> PastHandler(v.writers[i]) && v.writers[i].sent == w.writers[i].sent)
  }

  lemma ClaimsKept(initial: string, w: World, v: World)
    requires ClaimsOk(initial, w) && SameClaims(w, v)
    requires v.claims == w.claims && v.server.admin == w.server.admin && Catalog(v) == Catalog(w)
    ensures ClaimsOk(initial, v)
  {
    hide Replay;
  }

  lemma OneMoreClaim(initial: string, claims: seq<ClaimEvent>, e: ClaimEvent)
    requires Replay(initial, claims).Some?
    ensures Replay(initial, claims + [e]) ==
            var l := Replay(initial, claims).value;
            match e
            case Acquired(i) => if l.open.None? then Some(Ledger(Some(i), l.catalog)) else None
            case Published(i, before, after) =>
              if l.open == Some(i) && before == l.catalog then Some(Ledger(None, after)) else None
            case Dropped(i) => if l.open == Some(i) then Some(Ledger(None, l.catalog)) else None
            case Cleared(i) => if l.open == Some(i) then Some(Ledger(None, l.catalog)) else None
  {
    assert (claims + [e])[..|claims|] == claims;
  }

  /** Two requests never hold the claim at once: the ledger's open claim is the holder's. */
  lemma HolderIsOpen(initial: string, w: World, i: nat)
    requires ClaimsOk(initial, w) && WritersOk(w) && i in w.writers && HoldsClaim(w, w.writers[i])
    ensures Replay(initial, w.claims).value.open == Some(i) && w.writers[i].snapshot == Catalog(w)
  {
    hide Replay, WriterOk;
    var k := Replay(initial, w.claims).value.open.value;
    assert w.writers[k].claim == w.writers[i].claim;
  }

  lemma AppendedClaims(initial: string, w: World, v: World, e: ClaimEvent)
    requires ClaimsOk(initial, w) && SameClaims(w, v) && v.claims == w.claims + [e]
    requires Replay(initial, v.claims).Some? && Replay(initial, v.claims).value.catalog == Catalog(v)
    requires v.server.admin.Missing? <==> Replay(initial, v.claims).value.open.None?
    requires Replay(initial, v.claims).value.open.Some? ==>
               var i := Replay(initial, v.claims).value.open.value;
               i in v.writers && HoldsClaim(v, v.writers[i]) && v.writers[i].snapshot == Catalog(v)
    requires e.Dropped? ==> e.writer in v.writers && v.writers[e.writer].sent == 0 && PastHandler(v.writers[e.writer])
    ensures ClaimsOk(initial, v)
  {
    hide Replay;
    forall k | 0 <= k < |v.claims| && v.claims[k].Dropped?
      ensures var i := v.claims[k].writer; i in v.writers && v.writers[i].sent == 0 && PastHandler(v.writers[i])
    {
      if k < |w.claims| {
        assert w.claims[k] == v.claims[k];
      }
    }
  }

  /** Changing one request's outcome, and its snapshot if it did not hold the claim. */
  lemma OneWriterClaims(w: World, v: World, i: nat)
    requires i in w.writers && i in v.writers && v.writers == w.writers[i := v.writers[i]]
    requires v.writers[i].claim == w.writers[i].claim && v.writers[i].phase == w.writers[i].phase
    requires v.writers[i].sent == w.writers[i].sent
    requires HoldsClaim(w, w.writers[i]) ==> v.writers[i].snapshot == w.writers[i].snapshot
    ensures SameClaims(w, v)
  {
  }

  lemma PutFrame(w: World, i: nat, y: Writer)
    ensures var v := PutWriter(w, i, y);
            && i in v.writers && v.writers[i] == y && v.writers == w.writers[i := v.writers[i]]
            && v.server == w.server && v.claims == w.claims
  {
  }

  lemma ClaimingFrame(w: World, i: nat, m: nat)
    requires w.server.catalog.Text? && i in w.writers && w.writers[i].phase.Claiming?
    ensures var v := Execute(w, i, m);
            && i in v.writers && v.writers == w.writers[i := v.writers[i]]
            && v.server.catalog == w.server.catalog && v.writers[i].claim == w.writers[i].claim
            && v.writers[i].phase == w.writers[i].phase && v.writers[i].sent == w.writers[i].sent
            && (|| (v.server.admin == w.server.admin && v.claims == w.claims && v.writers[i].snapshot == w.writers[i].snapshot)
                || (w.server.admin.Missing? && HoldsClaim(v, v.writers[i]) && v.claims == w.claims + [Acquired(i)]
                    && v.writers[i].snapshot == w.server.catalog.text))
  {
    var x := w.writers[i];
    var s := w.server;
    assert Execute(w, i, m) == ExecuteClaim(w, i, m);
    if !s.admin.Missing? || |s.catalog.text| > m {
      PutFrame(w, i, x.(outcome := Some(false)));
    } else {
      PutFrame(w.(server := s.(admin := Text(x.claim, true)), claims := w.claims + [Acquired(i)]), i,
               x.(outcome := Some(true), snapshot := s.catalog.text));
    }
    hide PutWriter, Execute;
  }

  lemma FreeingFrame(w: World, i: nat, m: nat)
    requires i in w.writers && (w.writers[i].phase.Committing? || w.writers[i].phase.Dropping?)
    requires HoldsClaim(w, w.writers[i])
    ensures var v := Execute(w, i, m); var x := w.writers[i];
            && i in v.writers && v.writers == w.writers[i := v.writers[i]]
            && v.writers[i].claim == x.claim && v.writers[i].snapshot == x.snapshot
            && v.writers[i].phase == x.phase && v.writers[i].sent == x.sent && v.server.admin.Missing?
            && v.server.catalog == (if x.phase.Committing? then Text(x.payload, true) else w.server.catalog)
            && v.claims == w.claims + [if x.phase.Committing? then Published(i, x.snapshot, x.payload) else Dropped(i)]
  {
  }

  lemma ClaimingClaims(initial: string, w: World, i: nat, m: nat)
    requires w.server.catalog.Text? && ClaimsOk(initial, w) && i in w.writers && w.writers[i].phase.Claiming?
    ensures ClaimsOk(initial, Execute(w, i, m))
  {
    var v := Execute(w, i, m);
    ClaimingFrame(w, i, m);
    hide Execute, Replay, SameClaims;
    OneWriterClaims(w, v, i);
    if v.claims == w.claims + [Acquired(i)] {
      OneMoreClaim(initial, w.claims, Acquired(i));
      AppendedClaims(initial, w, v, Acquired(i));
    } else {
      ClaimsKept(initial, w, v);
    }
  }

  lemma FreeingClaims(initial: string, w: World, i: nat, m: nat)
    requires w.server.catalog.Text? && WritersOk(w) && ClaimsOk(initial, w) && i in w.writers
    requires w.writers[i].outcome.None? && (w.writers[i].phase.Committing? || w.writers[i].phase.Dropping?)
    ensures ClaimsOk(initial, Execute(w, i, m))
  {
    var x := w.writers[i];
    var v := Execute(w, i, m);
    WriterIn(w, i);
    HoldsWhenPending(w, x);
    NothingSent(w, x);
    HolderIsOpen(initial, w, i);
    FreeingFrame(w, i, m);
    hide Execute, Replay, SameClaims, WritersOk, WriterOk;
    OneWriterClaims(w, v, i);
    var e := if x.phase.Committing? then Published(i, x.snapshot, x.payload) else Dropped(i);
    OneMoreClaim(initial, w.claims, e);
    AppendedClaims(initial, w, v, e);
  }

  lemma NothingSent(w: World, x: Writer)
    requires WriterOk(w, x)
    ensures x.phase.Dropping? ==> x.sent == 0
  {
  }

  lemma ScriptsKeepClaimKeys(s: Server, d: string, token: string, state: string, epoch: string)
    ensures Admit(s, d, token, state).1.admin == s.admin && Admit(s, d, token, state).1.catalog == s.catalog
    ensures Release(s, d, token, epoch).1.admin == s.admin && Release(s, d, token, epoch).1.catalog == s.catalog
  {
  }

  lemma TokenCommandFrame(w: World, i: nat, m: nat)
    requires i in w.writers && (w.writers[i].phase.Admitting? || w.writers[i].phase.Releasing?)
    ensures var v := Execute(w, i, m);
            && i in v.writers && v.writers == w.writers[i := v.writers[i]] && v.claims == w.claims
            && v.writers[i].claim == w.writers[i].claim && v.writers[i].snapshot == w.writers[i].snapshot
            && v.writers[i].phase == w.writers[i].phase && v.writers[i].sent == w.writers[i].sent
            && v.server.admin == w.server.admin && v.server.catalog == w.server.catalog
  {
    var x := w.writers[i];
    ScriptsKeepClaimKeys(w.server, x.deployment, x.token, x.state, x.epoch);
    hide Admit, Release, PutWriter;
    if x.phase.Admitting? {
      assert Execute(w, i, m) == ExecuteAdmit(w, i);
      match Admit(w.server, x.deployment, x.token, x.state).0 {
        case AdmitFailed => PutFrame(w, i, x.(outcome := Some(false)));
        case Admitted(epoch) =>
          PutFrame(w.(server := Admit(w.server, x.deployment, x.token, x.state).1), i,
                   x.(outcome := Some(true), admitted := true, epoch := epoch));
      }
    } else {
      assert Execute(w, i, m) == ExecuteRelease(w, i);
      var r := Release(w.server, x.deployment, x.token, x.epoch);
      PutFrame(w.(server := r.1), i, x.(outcome := Some(r.0)));
    }
  }

  lemma TokenCommandClaims(initial: string, w: World, i: nat, m: nat)
    requires ClaimsOk(initial, w)
    requires i in w.writers && (w.writers[i].phase.Admitting? || w.writers[i].phase.Releasing?)
    ensures ClaimsOk(initial, Execute(w, i, m))
  {
    TokenCommandFrame(w, i, m);
    hide Execute, Replay;
    OneWriterClaims(w, Execute(w, i, m), i);
    ClaimsKept(initial, w, Execute(w, i, m));
  }

  lemma ExecClaims(answers: Answers, initial: string, w: World, ev: Event)
    requires ServerOk(w.server) && WritersOk(w) && ClaimsOk(initial, w) && Allowed(answers, w, ev) && ev.Exec?
    ensures ClaimsOk(initial, Perform(w, ev))
  {
    hide WritersOk, ClaimsOk, Execute;
    if w.writers[ev.i].phase.Admitting? || w.writers[ev.i].phase.Releasing? {
      TokenCommandClaims(initial, w, ev.i, ev.catalogMax);
    } else if w.writers[ev.i].phase.Claiming? {
      ClaimingClaims(initial, w, ev.i, ev.catalogMax);
    } else {
      FreeingClaims(initial, w, ev.i, ev.catalogMax);
    }
  }

  lemma ClearClaims(answers: Answers, initial: string, w: World, ev: Event)
    requires WritersOk(w) && ClaimsOk(initial, w) && Allowed(answers, w, ev) && ev.ClearClaim?
    ensures ClaimsOk(initial, Perform(w, ev))
  {
    var v := Perform(w, ev);
    assert v.writers == w.writers && v.server.admin.Missing? && v.server.catalog == w.server.catalog
           && v.claims == w.claims + [Cleared(ev.i)];
    assert ev.i in w.writers && HoldsClaim(w, w.writers[ev.i]);
    hide Replay, Perform, Allowed;
    HolderIsOpen(initial, w, ev.i);
    OneMoreClaim(initial, w.claims, Cleared(ev.i));
    AppendedClaims(initial, w, v, Cleared(ev.i));
  }

  lemma OwnFormPastHandler(answers: Answers, w: World, ev: Event)
    requires Allowed(answers, w, ev) && IsWriterEvent(ev)
    ensures ev.i in w.writers
    ensures var x := w.writers[ev.i];
            PastHandler(x) ==> PastHandler(OwnForm(x, ev)) && OwnForm(x, ev).sent == x.sent
  {
    EventPhase(answers, w, ev);
    hide Allowed;
  }

  lemma OwnFormClaims(answers: Answers, w: World, ev: Event)
    requires Allowed(answers, w, ev) && IsWriterEvent(ev)
    ensures SameClaims(w, Perform(w, ev))
  {
    EventPhase(answers, w, ev);
    OwnFormPastHandler(answers, w, ev);
    OwnFrame(w, ev);
    OwnFields(w.writers[ev.i], ev);
    hide Perform, Allowed, OwnForm, PastHandler;
  }

  lemma WriterEventFrame(answers: Answers, w: World, ev: Event)
    requires Allowed(answers, w, ev) && IsWriterEvent(ev)
    ensures var v := Perform(w, ev);
            v.claims == w.claims && v.server.admin == w.server.admin && Catalog(v) == Catalog(w)
  {
    EventPhase(answers, w, ev);
    OwnFrame(w, ev);
    hide Perform, Allowed, OwnForm, IsWriterEvent;
  }

  lemma WriterEventClaims(answers: Answers, initial: string, w: World, ev: Event)
    requires WritersOk(w) && ClaimsOk(initial, w) && Allowed(answers, w, ev) && IsWriterEvent(ev)
    ensures ClaimsOk(initial, Perform(w, ev))
  {
    hide *;
    OwnFormClaims(answers, w, ev);
    WriterEventFrame(answers, w, ev);
    ClaimsKept(initial, w, Perform(w, ev));
  }

  lemma NewWriterClaims(answers: Answers, initial: string, w: World, ev: Event)
    requires ClaimsOk(initial, w) && Allowed(answers, w, ev) && ev.NewWriter?
    ensures ClaimsOk(initial, Perform(w, ev))
  {
    var v := Perform(w, ev);
    assert SameClaims(w, v);
    ClaimsKept(initial, w, v);
  }

  lemma SameWritersClaims(initial: string, w: World, v: World)
    requires ClaimsOk(initial, w) && v.writers == w.writers && v.claims == w.claims
    requires v.server.admin == w.server.admin && v.server.catalog == w.server.catalog
    ensures ClaimsOk(initial, v)
  {
    ClaimsKept(initial, w, v);
  }

  lemma AdministrationFrame(answers: Answers, w: World, ev: Event)
    requires ServerOk(w.server) && Allowed(answers, w, ev) && (ev.BootstrapBy? || ev.RecoverBy? || ev.LoseControl?)
    ensures var v := Perform(w, ev);
            && v.writers == w.writers && v.claims == w.claims
            && v.server.admin == w.server.admin && v.server.catalog == w.server.catalog
  {
    match ev {
      case BootstrapBy(d, c, stop) =>
        if BootstrapAllowed(w.server, d, c) {
          BootstrapKeepsServer(w.server, d, c, stop);
        }
      case RecoverBy(d, id, c, order, stop) =>
        if id != d && RecoverAllowed(w.server, d, id, c) {
          RecoverKeepsServer(w.server, d, id, c, order, stop);
        }
      case _ =>
    }
  }

  lemma StepKeepsClaims(answers: Answers, initial: string, w: World, ev: Event)
    requires ServerOk(w.server) && WritersOk(w) && ClaimsOk(initial, w) && Allowed(answers, w, ev)
    ensures ClaimsOk(initial, Perform(w, ev))
  {
    hide *;
    match ev {
      case NewWriter(_, _, _, _, _) => NewWriterClaims(answers, initial, w, ev);
      case Exec(_, _) => ExecClaims(answers, initial, w, ev);
      case ClearClaim(_) => ClearClaims(answers, initial, w, ev);
      case BootstrapBy(_, _, _) => AdministrationClaims(answers, initial, w, ev);
      case RecoverBy(_, _, _, _, _) => AdministrationClaims(answers, initial, w, ev);
      case LoseControl(_) => AdministrationClaims(answers, initial, w, ev);
      case Receive(_, _) => OwnClaims(answers, initial, w, ev);
      case Open(_, _, _) => OwnClaims(answers, initial, w, ev);
      case PostRead(_) => OwnClaims(answers, initial, w, ev);
      case SendMutation(_, _) => OwnClaims(answers, initial, w, ev);
      case Acknowledge(_, _) => OwnClaims(answers, initial, w, ev);
      case Leave(_, _, _, _) => OwnClaims(answers, initial, w, ev);
      case Finish(_) => OwnClaims(answers, initial, w, ev);
      case CancelWriter(_) => OwnClaims(answers, initial, w, ev);
      case Account(_) => OwnClaims(answers, initial, w, ev);
      case _ =>
        UnrelatedFrame(w, ev);
        SameWritersClaims(initial, w, Perform(w, ev));
    }
  }

  lemma AdministrationClaims(answers: Answers, initial: string, w: World, ev: Event)
    requires ServerOk(w.server) && WritersOk(w) && ClaimsOk(initial, w) && Allowed(answers, w, ev)
    requires ev.BootstrapBy? || ev.RecoverBy? || ev.LoseControl?
    ensures ClaimsOk(initial, Perform(w, ev))
  {
    hide *;
    AdministrationFrame(answers, w, ev);
    SameWritersClaims(initial, w, Perform(w, ev));
  }

  lemma OwnClaims(answers: Answers, initial: string, w: World, ev: Event)
    requires ServerOk(w.server) && WritersOk(w) && ClaimsOk(initial, w) && Allowed(answers, w, ev)
    requires ev.Receive? || ev.Open? || ev.PostRead? || ev.SendMutation? || ev.Acknowledge? || ev.Leave? || ev.Finish?
             || ev.CancelWriter? || ev.Account?
    ensures ClaimsOk(initial, Perform(w, ev))
  {
    hide *;
    WriterEventKinds(ev);
    WriterEventClaims(answers, initial, w, ev);
  }
}
