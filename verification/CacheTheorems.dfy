/** What the cache protocol guarantees over every run. */
module CacheTheorems {
  import opened Decimals
  import opened Options
  import opened Scripts
  import opened Recovery
  import opened CacheProtocol
  import opened CacheSafety

  // ---------------------------------------------------------------- the invariant over runs

  lemma ObserveKeeps(answers: Answers, initial: string, v: World)
    requires ServerOk(v.server) && ReadersOk(answers, v) && PublicationsOk(answers, v) && WritersOk(v) && ClaimsOk(initial, v)
    requires HistoryOk(Observe(v))
    ensures Inv(answers, initial, Observe(v))
  {
    var u := Observe(v);
    assert u.server == v.server && u.backend == v.backend && u.readers == v.readers && u.writers == v.writers
           && u.published == v.published && u.claims == v.claims;
    SameReaders(answers, v, u);
    SamePublications(answers, v, u);
    hide Observe, ServerOk, ReadersOk, PublicationsOk, WritersOk, ClaimsOk, HistoryOk;
    SameKeysWriters(v, u);
    SameWritersClaims(initial, v, u);
  }

  lemma SameReaders(answers: Answers, v: World, u: World)
    requires ReadersOk(answers, v) && u.server == v.server && u.backend == v.backend && u.readers == v.readers
    ensures ReadersOk(answers, u)
  {
    forall r | r in u.readers
      ensures ReaderOk(u, u.readers[r]) && ResponseOk(answers, u.readers[r])
    {
      assert ReaderOk(v, v.readers[r]);
    }
  }

  lemma SamePublications(answers: Answers, v: World, u: World)
    requires PublicationsOk(answers, v) && u.server == v.server && u.backend == v.backend && u.published == v.published
    ensures PublicationsOk(answers, u)
  {
    forall p | p in u.published
      ensures PublicationOk(answers, u, p)
    {
      assert PublicationOk(answers, v, p);
    }
    forall k | k in u.server.entries
      ensures EntryOk(u, k)
    {
      EntryKept(v, u, k);
    }
  }

  lemma HistoryFrame(w: World, ev: Event)
    ensures Perform(w, ev).history == w.history
  {
    if ev.Exec? && ev.i in w.writers {
      ExecKeepsBeside(w, ev.i, ev.catalogMax);
    }
    hide Execute, AfterReply, AfterHandler, Lookup, Publish, AfterLookup, RecoverWrites, BootstrapWrites, ApplySome;
  }

  ghost predicate Extends(w: World, v: World) {
    forall k :: k in w.history ==> k in v.history && v.history[k] == w.history[k]
  }

  lemma InvParts(answers: Answers, initial: string, w: World)
    requires Inv(answers, initial, w)
    ensures ServerOk(w.server) && ReadersOk(answers, w) && PublicationsOk(answers, w) && HistoryOk(w) && WritersOk(w)
            && ClaimsOk(initial, w)
  {
  }

  lemma HistoryStep(w: World, v: World)
    requires ServerOk(w.server) && HistoryOk(w) && Settled(w, v) && v.history == w.history
    ensures HistoryOk(Observe(v)) && Extends(w, Observe(v))
  {
    StepKeepsHistory(w, v);
  }

  lemma SettledServer(w: World, v: World)
    requires Settled(w, v)
    ensures ServerOk(v.server)
  {
  }

  /** Every event a replica, a client, the network, the adversary or the operator can cause
      keeps the invariant, and never rewrites what a past identity meant. */
  lemma StepKeepsInv(answers: Answers, initial: string, w: World, ev: Event)
    requires Inv(answers, initial, w) && Allowed(answers, w, ev)
    ensures Inv(answers, initial, Observe(Perform(w, ev))) && Extends(w, Observe(Perform(w, ev)))
  {
    hide *;
    InvParts(answers, initial, w);
    StepKeepsServer(answers, w, ev);
    SettledServer(w, Perform(w, ev));
    StepKeepsReaders(answers, w, ev);
    StepKeepsPublications(answers, w, ev);
    StepKeepsWriters(answers, w, ev);
    StepKeepsClaims(answers, initial, w, ev);
    HistoryFrame(w, ev);
    HistoryStep(w, Perform(w, ev));
    ObserveKeeps(answers, initial, Perform(w, ev));
  }

  lemma InitInv(answers: Answers, w: World)
    requires Init(w)
    ensures Inv(answers, Catalog(w), w)
  {
  }

  lemma {:induction false} RunInv(answers: Answers, ws: seq<World>, evs: seq<Event>, k: nat)
    requires IsRun(answers, ws, evs) && k < |ws|
    ensures Inv(answers, Catalog(ws[0]), ws[k])
  {
    hide Inv, Allowed, Init, Perform, Observe;
    if k == 0 {
      InitInv(answers, ws[0]);
    } else {
      RunInv(answers, ws, evs, k - 1);
      assert Allowed(answers, ws[k - 1], evs[k - 1]) && ws[k - 1 + 1] == Step(ws[k - 1], evs[k - 1]);
      StepKeepsInv(answers, Catalog(ws[0]), ws[k - 1], evs[k - 1]);
    }
  }

  lemma {:induction false} RunExtends(answers: Answers, ws: seq<World>, evs: seq<Event>, j: nat, k: nat)
    requires IsRun(answers, ws, evs) && j <= k < |ws|
    ensures Extends(ws[j], ws[k])
    decreases k
  {
    hide Inv, Allowed, Init, Perform, Observe;
    if j < k {
      RunExtends(answers, ws, evs, j, k - 1);
      RunInv(answers, ws, evs, k - 1);
      assert Allowed(answers, ws[k - 1], evs[k - 1]) && ws[k - 1 + 1] == Step(ws[k - 1], evs[k - 1]);
      StepKeepsInv(answers, Catalog(ws[0]), ws[k - 1], evs[k - 1]);
    }
  }

  // ---------------------------------------------------------------- coherence

  lemma HeaderIsUnambiguous(d: string, sem: string, e: string, e': string, response: string)
    requires Canonical(e) && Canonical(e')
    requires Header(d, sem, e) <= Header(d, sem, e') + response
    ensures e == e'
  {
    var p := d + "\n" + sem + "\n";
    var text := Header(d, sem, e') + response;
    assert Header(d, sem, e) == p + (e + "\n") && text == p + (e' + "\n" + response);
    var a, b := e + "\n", e' + "\n" + response;
    assert text[|p|..] == b && Header(d, sem, e)[|p|..] == a;
    assert a <= b by {
      assert forall i :: 0 <= i < |a| ==> a[i] == Header(d, sem, e)[|p| + i] && b[i] == text[|p| + i];
    }
    assert a[|e|] == '\n' && b[|e'|] == '\n';
    assert forall i :: 0 <= i < |e| ==> e[i] == a[i] && e'[i] == b[i];
  }

  lemma HitComesFromPublication(answers: Answers, w: World, d: string, sem: string, digest: string, m: nat, c: nat)
    requires ServerOk(w.server) && PublicationsOk(answers, w)
    requires Lookup(w.server, d, sem, digest, m, c).Hit?
    ensures var r := Lookup(w.server, d, sem, digest, m, c);
            Publication(EntryKey(d, sem, digest), r.epoch, r.response) in w.published
            && Current(w.server, d, r.epoch)
  {
    var r := Lookup(w.server, d, sem, digest, m, c);
    var key := EntryKey(d, sem, digest);
    assert EntryOk(w, key);
    var text := w.server.entries[key].text;
    var p :| p in w.published && p.key == key && Value(p) == text;
    assert PublicationOk(answers, w, p);
    HeaderIsUnambiguous(d, sem, r.epoch, p.epoch, p.response);
    assert r.response == text[|Header(d, sem, r.epoch)|..] == p.response;
    assert p == Publication(key, r.epoch, r.response);
  }

  /** Cache coherence: a hit is a response an uncached dispatch could give from exactly the
      catalog and the backend as they are at the moment of the lookup. */
  lemma CacheCoherence(answers: Answers, ws: seq<World>, evs: seq<Event>, k: nat,
                       d: string, sem: string, digest: string, m: nat, c: nat)
    requires IsRun(answers, ws, evs) && k < |ws|
    requires Lookup(ws[k].server, d, sem, digest, m, c).Hit?
    ensures answers(sem, digest, Catalog(ws[k]), ws[k].backend, Lookup(ws[k].server, d, sem, digest, m, c).response)
  {
    RunInv(answers, ws, evs, k);
    var w := ws[k];
    hide IsRun;
    HitComesFromPublication(answers, w, d, sem, digest, m, c);
    var r := Lookup(w.server, d, sem, digest, m, c);
    assert PublicationOk(answers, w, Publication(EntryKey(d, sem, digest), r.epoch, r.response));
  }

  // ---------------------------------------------------------------- the fence

  /** While a request has a mutation not proved complete, a catalog command of unknown
      outcome, or the claim, its token is in the control hash (if the hash exists at all),
      and no lookup, publication or ticket gets through. */
  lemma FenceHolds(answers: Answers, ws: seq<World>, evs: seq<Event>, k: nat, i: nat)
    requires IsRun(answers, ws, evs) && k < |ws| && i in ws[k].writers
    requires var x := ws[k].writers[i];
             x.attempts != {} || x.phase in {Claiming, Committing, Dropping} || HoldsClaim(ws[k], x)
    ensures ws[k].server.control.Hash? ==> TokenIn(ws[k].server, ws[k].writers[i].token)
    ensures !Quiet(ws[k].server)
    ensures forall d, sem, digest, m, c ::
              !Lookup(ws[k].server, d, sem, digest, m, c).Hit? && !Lookup(ws[k].server, d, sem, digest, m, c).Miss?
    ensures forall d, sem, digest, e, r, m :: !Publish(ws[k].server, d, sem, digest, e, r, m).0.Stored?
  {
    RunInv(answers, ws, evs, k);
    var w := ws[k];
    hide IsRun;
    WriterIn(w, i);
    if w.writers[i].attempts != {} || w.writers[i].phase in {Claiming, Committing, Dropping} {
      ActiveWriterIsLoud(w, i);
    }
  }

  /** A held claim has exactly one holder, and the holder's token fences the cache. */
  lemma ClaimHasOneFencedHolder(answers: Answers, ws: seq<World>, evs: seq<Event>, k: nat)
    requires IsRun(answers, ws, evs) && k < |ws| && !ws[k].server.admin.Missing?
    ensures exists i :: i in ws[k].writers && HoldsClaim(ws[k], ws[k].writers[i])
                     && (ws[k].server.control.Hash? ==> TokenIn(ws[k].server, ws[k].writers[i].token))
    ensures forall i, j :: (&& i in ws[k].writers && HoldsClaim(ws[k], ws[k].writers[i])
                            && j in ws[k].writers && HoldsClaim(ws[k], ws[k].writers[j])) ==> i == j
  {
    RunInv(answers, ws, evs, k);
    var w := ws[k];
    hide IsRun, Replay;
    var i := Replay(Catalog(ws[0]), w.claims).value.open.value;
    FenceHolds(answers, ws, evs, k, i);
    forall a, b | a in w.writers && b in w.writers && HoldsClaim(w, w.writers[a]) && HoldsClaim(w, w.writers[b])
      ensures a == b
    {
      HolderIsOpen(Catalog(ws[0]), w, a);
      HolderIsOpen(Catalog(ws[0]), w, b);
    }
  }

  // ---------------------------------------------------------------- identities

  /** No (deployment, epoch) pair ever names two different quiet states: not after writes,
      not after the control key was lost and recovered, not after an interrupted recovery. */
  lemma QuietIdentityIsUnique(answers: Answers, ws: seq<World>, evs: seq<Event>, j: nat, k: nat, d: string, e: string)
    requires IsRun(answers, ws, evs) && j <= k < |ws|
    requires Current(ws[j].server, d, e) && Quiet(ws[j].server)
    requires Current(ws[k].server, d, e) && Quiet(ws[k].server)
    ensures Catalog(ws[j]) == Catalog(ws[k]) && ws[j].backend == ws[k].backend
  {
    RunInv(answers, ws, evs, j);
    RunInv(answers, ws, evs, k);
    RunExtends(answers, ws, evs, j, k);
    hide IsRun;
    assert (d, e) in ws[j].history && ws[j].history[(d, e)] == (Catalog(ws[j]), ws[j].backend);
    assert ws[k].history[(d, e)] == (Catalog(ws[k]), ws[k].backend);
  }

  lemma CurrentIsPast(s: Server, d: string, e: string)
    requires ServerOk(s) && Current(s, d, e)
    ensures Past(s, d, e)
  {
  }

  lemma {:induction false} PastForever(answers: Answers, ws: seq<World>, evs: seq<Event>, j: nat, k: nat, d: string, e: string)
    requires IsRun(answers, ws, evs) && j <= k < |ws| && Past(ws[j].server, d, e)
    ensures Past(ws[k].server, d, e)
    decreases k
  {
    hide Inv, Allowed, Init, Perform, Observe, Past;
    if j < k {
      PastForever(answers, ws, evs, j, k - 1, d, e);
      RunInv(answers, ws, evs, k - 1);
      assert Allowed(answers, ws[k - 1], evs[k - 1]) && ws[k - 1 + 1] == Step(ws[k - 1], evs[k - 1]);
      InvParts(answers, Catalog(ws[0]), ws[k - 1]);
      StepKeepsServer(answers, ws[k - 1], evs[k - 1]);
      PastKept(ws[k - 1], Perform(ws[k - 1], evs[k - 1]), d, e);
      ObserveServer(Perform(ws[k - 1], evs[k - 1]));
    }
  }

  /** Between any two moments of a run at which a deployment is current its epoch has not
      decreased, whatever was current in between. */
  lemma EpochsOnlyGrow(answers: Answers, ws: seq<World>, evs: seq<Event>, j: nat, k: nat, d: string, e: string, e': string)
    requires IsRun(answers, ws, evs) && j <= k < |ws|
    requires Current(ws[j].server, d, e) && Current(ws[k].server, d, e')
    ensures Decimal(e) && Decimal(e') && Val(e) <= Val(e')
  {
    RunInv(answers, ws, evs, j);
    RunInv(answers, ws, evs, k);
    InvParts(answers, Catalog(ws[0]), ws[j]);
    InvParts(answers, Catalog(ws[0]), ws[k]);
    CurrentIsPast(ws[j].server, d, e);
    CurrentIsPast(ws[k].server, d, e');
    PastForever(answers, ws, evs, j, k, d, e);
  }

  /** Where one event changes a deployment's epoch, the server it leaves is not quiet. */
  lemma NewEpochsAreBusy(answers: Answers, ws: seq<World>, evs: seq<Event>, k: nat, d: string, e: string, e': string)
    requires IsRun(answers, ws, evs) && k + 1 < |ws|
    requires Current(ws[k].server, d, e) && Current(ws[k + 1].server, d, e') && e != e'
    ensures !Quiet(ws[k + 1].server) && Val(e) < Val(e')
  {
    RunInv(answers, ws, evs, k);
    assert Allowed(answers, ws[k], evs[k]) && ws[k + 1] == Step(ws[k], evs[k]);
    InvParts(answers, Catalog(ws[0]), ws[k]);
    hide IsRun, Allowed, Perform, Inv;
    StepKeepsServer(answers, ws[k], evs[k]);
  }

  // ---------------------------------------------------------------- interrupted administration

  /** Nothing current, or the new identity current with a leftover of the old one. */
  ghost predicate Blocked(s: Server) {
    || Identity(s).None?
    || (&& s.control.Hash? && BASE <= s.control.fields.Keys && s.control.fields["epoch"] == "0"
        && exists k :: k in s.control.fields && k !in BASE && s.control.fields[k] != "0")
  }

  lemma BlockedRefuses(s: Server)
    requires Blocked(s)
    ensures Refused(s)
  {
    if Identity(s).None? {
      NoIdentityRefuses(s);
    } else {
      var k :| k in s.control.fields && k !in BASE && s.control.fields[k] != "0";
      LeftoverTokenRefuses(s, k);
    }
  }

  lemma LeftoverStopsRelease(s: Server, d: string, token: string, epoch: string)
    requires Blocked(s)
    ensures Identity(s).Some? ==> Release(s, d, token, epoch) == (false, s)
    ensures Identity(s).None? ==> Identity(Release(s, d, token, epoch).1).None?
  {
    if Identity(s).Some? {
      var k :| k in s.control.fields && k !in BASE && s.control.fields[k] != "0";
      var v := s.control.fields[k];
      ZeroIsDecimal();
      if IsTokenField(k, v, "0") {
        LeIsNumericOrder(v, "0");
        LeIsNumericOrder("0", v);
        assert false;
      }
      assert !TokensOk(s.control.fields, "0");
    } else if Release(s, d, token, epoch).0 {
      WriterFieldIsNotBase(token);
    }
  }

  lemma BlockedDependsOnControl(s: Server, t: Server)
    requires Blocked(s) && ServerOk(s) && ServerOk(t) && t.control == s.control
    ensures Blocked(t)
  {
  }

  lemma ExecControl(w: World, i: nat, m: nat)
    requires i in w.writers
    ensures Execute(w, i, m).server.control == w.server.control
            || (w.writers[i].phase.Admitting?
                && Execute(w, i, m).server == Admit(w.server, w.writers[i].deployment, w.writers[i].token, w.writers[i].state).1)
            || (w.writers[i].phase.Releasing?
                && Execute(w, i, m).server == Release(w.server, w.writers[i].deployment, w.writers[i].token, w.writers[i].epoch).1)
  {
    hide Admit, Release;
  }

  lemma ExecKeepsBlocked(w: World, i: nat, m: nat)
    requires ServerOk(w.server) && Blocked(w.server) && i in w.writers && ServerOk(Execute(w, i, m).server)
    ensures Blocked(Execute(w, i, m).server)
  {
    var x := w.writers[i];
    ExecControl(w, i, m);
    BlockedRefuses(w.server);
    LeftoverStopsRelease(w.server, x.deployment, x.token, x.epoch);
    var t := Execute(w, i, m).server;
    assert Admit(w.server, x.deployment, x.token, x.state).1 == w.server;
    hide Execute, Release, Admit;
    if t.control == w.server.control {
      BlockedDependsOnControl(w.server, t);
    }
  }

  lemma OtherEventsControl(w: World, ev: Event)
    requires !ev.Exec? && !ev.LoseControl? && !ev.BootstrapBy? && !ev.RecoverBy?
    ensures Perform(w, ev).server.control == w.server.control
  {
  }

  lemma LostControlIsBlocked(w: World, ev: Event)
    requires ev.LoseControl?
    ensures Blocked(Perform(w, ev).server)
  {
  }

  lemma StepKeepsBlocked(answers: Answers, initial: string, w: World, ev: Event)
    requires Inv(answers, initial, w) && Allowed(answers, w, ev)
    requires !ev.BootstrapBy? && !ev.RecoverBy?
    requires Blocked(w.server)
    ensures Blocked(Perform(w, ev).server) && Perform(w, ev).server.lineage == w.server.lineage
  {
    InvParts(answers, initial, w);
    StepKeepsServer(answers, w, ev);
    SettledServer(w, Perform(w, ev));
    LineageIsTheOperators(w, ev);
    if ev.Exec? {
      assert ev.i in w.writers && Perform(w, ev) == Execute(w, ev.i, ev.catalogMax);
      hide *;
      ExecKeepsBlocked(w, ev.i, ev.catalogMax);
    } else if ev.LoseControl? {
      hide *;
      LostControlIsBlocked(w, ev);
    } else {
      hide *;
      OtherEventsControl(w, ev);
      BlockedDependsOnControl(w.server, Perform(w, ev).server);
    }
  }

  lemma ExecKeepsLineage(w: World, i: nat, m: nat)
    requires i in w.writers
    ensures Execute(w, i, m).server.lineage == w.server.lineage
  {
    ExecKeepsBeside(w, i, m);
    hide Execute;
  }

  /** Only bootstrap and recovery write the lineage. */
  lemma LineageIsTheOperators(w: World, ev: Event)
    requires !ev.BootstrapBy? && !ev.RecoverBy?
    ensures Perform(w, ev).server.lineage == w.server.lineage
  {
    if ev.Exec? && ev.i in w.writers {
      ExecKeepsLineage(w, ev.i, ev.catalogMax);
    }
    hide Execute, AfterReply, AfterHandler;
  }

  lemma ReachableTokensAreNonzero(s: Server)
    requires ServerOk(s)
    ensures NoZeroToken(s)
  {
  }

  lemma InterruptedIsBlocked(s: Server, d: string, identity: string, catalog: string, order: seq<string>, stop: nat)
    requires RecoverAllowed(s, d, identity, catalog) && Lists(order, ExtraFields(s)) && NoZeroToken(s)
    requires 0 < stop < |RecoverWrites(s, d, identity, order)|
    ensures Blocked(ApplySome(s, RecoverWrites(s, d, identity, order), stop))
  {
    hide RecoverWrites, ApplySome, AfterWrites, Identity;
    StateAfterStop(s, d, identity, order, stop);
    if stop <= Skip(s) {
      MissingControlHasNoIdentity(s);
    } else if stop < Skip(s) + 4 {
      FencedHasNoIdentity(s, d, identity, order, stop - Skip(s));
    } else {
      LeftoverStays(s, d, identity, catalog, order, stop - Skip(s));
    }
  }

  /** An administrative operation that was allowed, began to write, and stopped before its last
      write. */
  ghost predicate Interrupts(s: Server, ev: Event) {
    || (&& ev.RecoverBy? && ev.identity != ev.deployment
        && RecoverAllowed(s, ev.deployment, ev.identity, ev.catalog)
        && 0 < ev.stop < |RecoverWrites(s, ev.deployment, ev.identity, ev.order)|)
    || (&& ev.BootstrapBy? && BootstrapAllowed(s, ev.deployment, ev.catalog) && ev.stop == 1)
  }

  /** A recovery that was allowed and made its last write. */
  ghost predicate CompletesRecovery(s: Server, ev: Event) {
    && ev.RecoverBy? && ev.identity != ev.deployment
    && RecoverAllowed(s, ev.deployment, ev.identity, ev.catalog)
    && ev.stop >= |RecoverWrites(s, ev.deployment, ev.identity, ev.order)|
  }

  /** Blocked, and with a lineage on record, so that bootstrap is refused too. */
  ghost predicate Stuck(s: Server) {
    Blocked(s) && !s.lineage.Missing?
  }

  lemma InterruptedRecoveryIsStuck(answers: Answers, initial: string, w: World, ev: Event)
    requires Inv(answers, initial, w) && Allowed(answers, w, ev) && ev.RecoverBy? && Interrupts(w.server, ev)
    ensures Stuck(Perform(w, ev).server)
  {
    ReachableTokensAreNonzero(w.server);
    InterruptedIsBlocked(w.server, ev.deployment, ev.identity, ev.catalog, ev.order, ev.stop);
    StateAfterStop(w.server, ev.deployment, ev.identity, ev.order, ev.stop);
    hide RecoverWrites, ApplySome, Blocked, Inv;
    assert Perform(w, ev).server
        == ApplySome(w.server, RecoverWrites(w.server, ev.deployment, ev.identity, ev.order), ev.stop);
  }

  lemma InterruptedBootstrapIsStuck(w: World, ev: Event)
    requires ev.BootstrapBy? && Interrupts(w.server, ev)
    ensures Stuck(Perform(w, ev).server)
  {
    BootstrapStates(w.server, ev.deployment, 1);
  }

  lemma InterruptedIsStuck(answers: Answers, initial: string, w: World, ev: Event)
    requires Inv(answers, initial, w) && Allowed(answers, w, ev) && Interrupts(w.server, ev)
    ensures Stuck(Perform(w, ev).server)
  {
    if ev.RecoverBy? {
      hide Inv, Allowed, Perform, Stuck;
      InterruptedRecoveryIsStuck(answers, initial, w, ev);
    } else {
      InterruptedBootstrapIsStuck(w, ev);
    }
  }

  /** A recovery that is refused, or stops before its first write, changes nothing. */
  lemma IdleRecovery(w: World, ev: Event)
    requires ev.RecoverBy? && !Interrupts(w.server, ev) && !CompletesRecovery(w.server, ev)
    ensures Perform(w, ev).server == w.server
  {
    StateAfterStop(w.server, ev.deployment, ev.identity, ev.order, 0);
    hide RecoverWrites;
    if ev.identity != ev.deployment && RecoverAllowed(w.server, ev.deployment, ev.identity, ev.catalog) {
      assert ev.stop == 0;
    }
  }

  lemma RefusedBootstrap(w: World, ev: Event)
    requires ev.BootstrapBy? && !w.server.lineage.Missing?
    ensures Perform(w, ev).server == w.server
  {
  }

  /** Only a recovery that makes its last write ends it: any other event, a refused or again
      interrupted recovery and any bootstrap among them, leaves the server stuck. */
  lemma StepKeepsStuck(answers: Answers, initial: string, w: World, ev: Event)
    requires Inv(answers, initial, w) && Allowed(answers, w, ev) && Stuck(w.server)
    requires !CompletesRecovery(w.server, ev)
    ensures Stuck(Perform(w, ev).server)
  {
    if ev.RecoverBy? {
      if Interrupts(w.server, ev) {
        hide Inv, Allowed, Perform, Stuck, Interrupts;
        InterruptedRecoveryIsStuck(answers, initial, w, ev);
      } else {
        IdleRecovery(w, ev);
      }
    } else if ev.BootstrapBy? {
      RefusedBootstrap(w, ev);
    } else {
      hide Inv, Allowed, Perform, Blocked;
      StepKeepsBlocked(answers, initial, w, ev);
    }
  }

  lemma {:induction false} InterruptedStaysStuck(answers: Answers, ws: seq<World>, evs: seq<Event>, j: nat, k: nat)
    requires IsRun(answers, ws, evs) && j < k < |ws| && Interrupts(ws[j].server, evs[j])
    requires forall n :: j < n < k ==> !CompletesRecovery(ws[n].server, evs[n])
    ensures Stuck(ws[k].server)
    decreases k
  {
    hide Inv, Allowed, Init, Perform, Observe, Stuck, Interrupts, CompletesRecovery;
    RunInv(answers, ws, evs, k - 1);
    assert Allowed(answers, ws[k - 1], evs[k - 1]) && ws[k - 1 + 1] == Step(ws[k - 1], evs[k - 1]);
    if k == j + 1 {
      InterruptedIsStuck(answers, Catalog(ws[0]), ws[j], evs[j]);
    } else {
      InterruptedStaysStuck(answers, ws, evs, j, k - 1);
      StepKeepsStuck(answers, Catalog(ws[0]), ws[k - 1], evs[k - 1]);
    }
    ObserveServer(Perform(ws[k - 1], evs[k - 1]));
  }

  lemma ObserveServer(w: World)
    ensures Observe(w).server == w.server
  {
  }

  /** A recovery or bootstrap stopped part-way leaves every lookup, publication and admission
      refused or busy, and so they stay through any events until a recovery makes its last write. */
  lemma InterruptedAdministrationStaysRefused(answers: Answers, ws: seq<World>, evs: seq<Event>, j: nat, k: nat)
    requires IsRun(answers, ws, evs) && j < k < |ws| && Interrupts(ws[j].server, evs[j])
    requires forall n :: j < n < k ==> !CompletesRecovery(ws[n].server, evs[n])
    ensures Refused(ws[k].server)
  {
    InterruptedStaysStuck(answers, ws, evs, j, k);
    BlockedRefuses(ws[k].server);
  }

  /** And such a recovery does end it: it leaves its new identity current and quiet. */
  lemma CompletedRecoveryServesAgain(answers: Answers, ws: seq<World>, evs: seq<Event>, k: nat)
    requires IsRun(answers, ws, evs) && k + 1 < |ws| && CompletesRecovery(ws[k].server, evs[k])
    ensures Current(ws[k + 1].server, evs[k].identity, "0") && Quiet(ws[k + 1].server)
  {
    var ev := evs[k];
    assert Allowed(answers, ws[k], ev) && ws[k + 1] == Step(ws[k], ev);
    ObserveServer(Perform(ws[k], ev));
    hide IsRun, Inv, Observe, RecoverWrites, ApplySome;
    CompletedRecovery(ws[k].server, ev.deployment, ev.identity, ev.catalog, ev.order, ev.stop);
  }

  // ---------------------------------------------------------------- the catalog

  /** The catalog after the publications among the first events. */
  function CatalogAfter(initial: string, events: seq<ClaimEvent>): string
    decreases |events|
  {
    if events == [] then initial
    else if events[|events| - 1].Published? then events[|events| - 1].after
    else CatalogAfter(initial, events[..|events| - 1])
  }

  /** A replayable ledger is serial: a publication directly follows its own acquisition,
      starts from the catalog the earlier publications left, and so does a dropped claim. */
  lemma {:induction false} ReplayIsSerial(initial: string, events: seq<ClaimEvent>)
    requires Replay(initial, events).Some?
    ensures Replay(initial, events).value.catalog == CatalogAfter(initial, events)
    ensures Replay(initial, events).value.open ==
            if events != [] && events[|events| - 1].Acquired? then Some(events[|events| - 1].writer) else None
    ensures forall k :: 0 <= k < |events| && events[k].Acquired? ==> k == 0 || !events[k - 1].Acquired?
    ensures forall k :: 0 <= k < |events| && !events[k].Acquired? ==> k > 0 && events[k - 1] == Acquired(events[k].writer)
    ensures forall k :: 0 <= k < |events| && events[k].Published? ==> events[k].before == CatalogAfter(initial, events[..k])
    decreases |events|
  {
    if events != [] {
      var n := |events| - 1;
      var front := events[..n];
      ReplayIsSerial(initial, front);
      forall k | 0 <= k < |events| && events[k].Published?
        ensures events[k].before == CatalogAfter(initial, events[..k])
      {
        if k < n {
          assert events[k] == front[k] && front[..k] == events[..k];
        }
      }
      assert forall k :: 0 <= k < n ==> events[k] == front[k];
    }
  }

  /** Catalog serialisation: the catalog is the initial one after the committed publications
      in claim order, each computed from its predecessor's result, with no lost update; and a
      claim dropped without publication belongs to a request that sent no mutation. */
  lemma CatalogIsSerial(answers: Answers, ws: seq<World>, evs: seq<Event>, k: nat)
    requires IsRun(answers, ws, evs) && k < |ws|
    ensures Catalog(ws[k]) == CatalogAfter(Catalog(ws[0]), ws[k].claims)
    ensures var events := ws[k].claims;
            && (forall n :: 0 <= n < |events| && events[n].Acquired? ==> n == 0 || !events[n - 1].Acquired?)
            && (forall n :: 0 <= n < |events| && !events[n].Acquired? ==> n > 0 && events[n - 1] == Acquired(events[n].writer))
            && (forall n :: 0 <= n < |events| && events[n].Published? ==>
                  events[n].before == CatalogAfter(Catalog(ws[0]), events[..n]))
            && (forall n :: 0 <= n < |events| && events[n].Dropped? ==>
                  events[n].writer in ws[k].writers && ws[k].writers[events[n].writer].sent == 0)
  {
    RunInv(answers, ws, evs, k);
    hide IsRun;
    ReplayIsSerial(Catalog(ws[0]), ws[k].claims);
  }

  // ---------------------------------------------------------------- calls that undo or answer each other

  /** A stored response is served by the next lookup under the same identity and limits. */
  lemma PublishedIsServed(s: Server, d: string, sem: string, digest: string, e: string, response: string, m: nat, c: nat)
    requires Publish(s, d, sem, digest, e, response, m).0.Stored?
    ensures Lookup(Publish(s, d, sem, digest, e, response, m).1, d, sem, digest, m, c) == Hit(e, response)
  {
    var header := Header(d, sem, e);
    var value := header + response;
    assert value[..|header|] == header && value[|header|..] == response;
  }

  /** Releasing a token just admitted restores everything except the epoch, which has moved on. */
  lemma ReleaseUndoesAdmit(s: Server, d: string, token: string)
    requires ServerOk(s) && Admit(s, d, token, "active").0.Admitted?
    ensures var (r, t) := Admit(s, d, token, "active");
            && Release(t, d, token, r.epoch) == (true, s.(control := Hash(s.control.fields["epoch" := r.epoch], true)))
            && Val(r.epoch) == Val(s.control.fields["epoch"]) + 1
  {
    AdmitEffects(s, d, token, "active");
    WriterFieldIsNotBase(token);
    var f := s.control.fields;
    var (r, t) := Admit(s, d, token, "active");
    var g := t.control.fields;
    SuccIsNext(f["epoch"]);
    forall k | k in g && k !in BASE
      ensures IsTokenField(k, g[k], r.epoch)
    {
      LeIsNumericOrder(g[k], r.epoch);
      if k != WriterField(token) {
        assert k in f && g[k] == f[k];
        LeIsNumericOrder(f[k], f["epoch"]);
      } else {
        assert k[..7] == "writer:" && k[7..] == token;
      }
    }
    assert TokensOk(g, r.epoch);
    assert g - {WriterField(token)} == f["epoch" := r.epoch];
  }
}
