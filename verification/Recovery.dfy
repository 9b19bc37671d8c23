/** Bootstrap and recovery stopped after any number of their writes: what the shared keys
    hold then, what the ordinary operations answer, and how a later recovery finishes. */
module Recovery {
  import opened Decimals
  import opened Options
  import opened Scripts

  // ---------------------------------------------------------------- facts about the keys

  lemma WriterFieldIsNotBase(id: string)
    ensures WriterField(id) !in BASE
  {
    assert WriterField(id)[0] == 'w';
    assert "schema"[0] == 's' && "deployment"[0] == 'd' && "epoch"[0] == 'e' && "state"[0] == 's';
  }

  lemma BaseSize()
    ensures |BASE| == 4
  {
    assert "schema"[0] == 's' && "deployment"[0] == 'd' && "epoch"[0] == 'e' && "state"[0] == 's';
    assert "schema"[1] == 'c' && "state"[1] == 't';
    assert "schema" !in {"deployment", "epoch", "state"};
    assert "deployment" !in {"epoch", "state"};
    assert "epoch" !in {"state"};
    assert BASE == {"schema"} + ({"deployment"} + ({"epoch"} + {"state"}));
  }

  lemma SubsetOfSameSize<T>(a: set<T>, b: set<T>)
    requires a <= b && |a| == |b|
    ensures a == b
  {
    if x :| x in b && x !in a {
      assert a + {x} <= b;
      SubsetSize(a + {x}, b);
    }
  }

  lemma SubsetSize<T>(a: set<T>, b: set<T>)
    requires a <= b
    ensures |a| <= |b|
  {
    if x :| x in a {
      SubsetSize(a - {x}, b - {x});
    }
  }

  lemma QuietMeansNoTokens(s: Server)
    requires s.control.Hash? && BASE <= s.control.fields.Keys
    ensures |s.control.fields| == 4 <==> s.control.fields.Keys == BASE
  {
    BaseSize();
    assert |s.control.fields| == |s.control.fields.Keys|;
    if |s.control.fields| == 4 {
      SubsetOfSameSize(BASE, s.control.fields.Keys);
    }
  }

  lemma TokenFieldsDiffer(a: string, b: string)
    requires a != b
    ensures WriterField(a) != WriterField(b)
  {
    assert WriterField(a)[7..] == a;
    assert WriterField(b)[7..] == b;
  }

  // ---------------------------------------------------------------- the state after n writes

  function FieldsOf(s: Server): map<string, string> {
    if s.control.Hash? then s.control.fields else map[]
  }

  predicate WrongType(s: Server) {
    !s.control.Missing? && !s.control.Hash?
  }

  /** The control fields once recovery has fenced the old deployment. */
  function Fenced(s: Server, deployment: string): map<string, string> {
    FieldsOf(s) + FreshFields(deployment, "maintenance")
  }

  /** The control fields once recovery has activated the new identity. */
  function Activated(s: Server, deployment: string, identity: string): map<string, string> {
    Fenced(s, deployment) + map["deployment" := identity, "state" := "active"]
  }

  function Recorded(s: Server, identity: string): Server {
    s.(identities := s.identities[identity := Text("1", true)], lineage := Text(identity, true))
  }

  /** What the keys hold after the first `n` writes of recovery, not counting the removal
      of a control key of the wrong type. */
  function AfterWrites(s: Server, deployment: string, identity: string, order: seq<string>, n: nat): Server
    requires 1 <= n <= |order| + 4
  {
    if n == 1 then s.(control := Hash(Fenced(s, deployment), !s.control.Hash? || s.control.persistent))
    else if n == 2 then s.(control := Hash(Fenced(s, deployment), true))
    else if n == 3 then Recorded(s, identity).(control := Hash(Fenced(s, deployment), true))
    else Recorded(s, identity).(control := Hash(Activated(s, deployment, identity) - Elements(order[..n - 4]), true))
  }

  function Elements(order: seq<string>): set<string> {
    set x | x in order
  }

  lemma ApplyOne(s: Server, ws: seq<Write>, n: nat)
    requires n < |ws|
    ensures ApplyAll(s, ws[..n + 1]) == Apply(ApplyAll(s, ws[..n]), ws[n])
  {
    assert ws[..n + 1][..n] == ws[..n];
  }

  function Skip(s: Server): nat {
    if WrongType(s) then 1 else 0
  }

  /** The n-th write of recovery, not counting the removal of a control key of the wrong type. */
  function WriteAt(deployment: string, identity: string, order: seq<string>, n: nat): Write
    requires n < |order| + 4
  {
    if n == 0 then SetFields(FreshFields(deployment, "maintenance"))
    else if n == 1 then Persist
    else if n == 2 then Record(identity)
    else if n == 3 then SetFields(map["deployment" := identity, "state" := "active"])
    else DeleteField(order[n - 4])
  }

  lemma WritesByIndex(s: Server, deployment: string, identity: string, order: seq<string>)
    ensures var ws := RecoverWrites(s, deployment, identity, order);
            && |ws| == Skip(s) + 4 + |order|
            && (Skip(s) == 1 ==> ws[0] == DeleteControl)
            && forall n :: 0 <= n < |order| + 4 ==> ws[Skip(s) + n] == WriteAt(deployment, identity, order, n)
  {
  }

  lemma DeletionStep(f: map<string, string>, order: seq<string>, k: nat)
    requires k < |order|
    ensures f - Elements(order[..k]) - {order[k]} == f - Elements(order[..k + 1])
  {
    assert order[..k + 1] == order[..k] + [order[k]];
    assert Elements(order[..k + 1]) == Elements(order[..k]) + {order[k]};
  }

  /** One more write leads from one described state to the next. */
  lemma WriteStep(s: Server, deployment: string, identity: string, order: seq<string>, n: nat)
    requires n < |order| + 4
    ensures Apply(if n == 0 then (if WrongType(s) then s.(control := Missing) else s)
                  else AfterWrites(s, deployment, identity, order, n),
                  WriteAt(deployment, identity, order, n))
            == AfterWrites(s, deployment, identity, order, n + 1)
  {
    if n == 0 {
      var f := FreshFields(deployment, "maintenance");
      assert map[] + f == f;
    } else if n == 3 {
      assert order[..0] == [];
      assert Elements([]) == {};
      var f := Activated(s, deployment, identity);
      assert f - {} == f;
    } else if n >= 4 {
      DeletionStep(Activated(s, deployment, identity), order, n - 4);
    }
  }

  lemma {:induction false} RecoverPrefix(s: Server, deployment: string, identity: string, order: seq<string>, n: nat)
    requires n <= |order| + 4
    ensures |RecoverWrites(s, deployment, identity, order)| == Skip(s) + 4 + |order|
    ensures ApplyAll(s, RecoverWrites(s, deployment, identity, order)[..Skip(s) + n]) ==
            if n == 0 then (if WrongType(s) then s.(control := Missing) else s)
            else AfterWrites(s, deployment, identity, order, n)
    decreases n
  {
    var ws := RecoverWrites(s, deployment, identity, order);
    WritesByIndex(s, deployment, identity, order);
    assert ws[..0] == [];
    if n == 0 {
      if Skip(s) == 1 {
        ApplyOne(s, ws, 0);
      }
    } else {
      RecoverPrefix(s, deployment, identity, order, n - 1);
      ApplyOne(s, ws, Skip(s) + n - 1);
      WriteStep(s, deployment, identity, order, n - 1);
    }
  }

  // ---------------------------------------------------------------- stopping part-way

  /** What ordinary clients get before an interrupted administrative operation is finished. */
  ghost predicate Refused(s: Server) {
    && (forall d, sem, digest, m, c ::
          Lookup(s, d, sem, digest, m, c).LookupFailed? || Lookup(s, d, sem, digest, m, c).Busy?)
    && (forall d, sem, digest, e, response, m ::
          !Publish(s, d, sem, digest, e, response, m).0.Stored? && Publish(s, d, sem, digest, e, response, m).1 == s)
    && (forall d, token, st :: Admit(s, d, token, st) == (AdmitFailed, s))
  }

  lemma NoIdentityRefuses(s: Server)
    requires Identity(s).None?
    ensures Refused(s)
  {
  }

  /** No leftover field carries the epoch "0", so none passes for a token of a fresh epoch. */
  predicate NoZeroToken(s: Server) {
    forall k :: k in ExtraFields(s) ==> s.control.fields[k] != "0"
  }

  lemma LeftoverTokenRefuses(s: Server, field: string)
    requires s.control.Hash? && BASE <= s.control.fields.Keys && s.control.fields["epoch"] == "0"
    requires field in s.control.fields && field !in BASE && s.control.fields[field] != "0"
    ensures Refused(s)
  {
    QuietMeansNoTokens(s);
    ZeroIsDecimal();
    var v := s.control.fields[field];
    if IsTokenField(field, v, "0") {
      LeIsNumericOrder(v, "0");
      LeIsNumericOrder("0", v);
      assert false;
    }
    assert !TokensOk(s.control.fields, "0");
  }

  lemma StateAfterStop(s: Server, deployment: string, identity: string, order: seq<string>, stop: nat)
    ensures var ws := RecoverWrites(s, deployment, identity, order);
            && |ws| == Skip(s) + 4 + |order|
            && ApplySome(s, ws, stop) ==
               (if stop == 0 then s
                else if stop <= Skip(s) then s.(control := Missing)
                else AfterWrites(s, deployment, identity, order,
                                 if stop - Skip(s) <= |order| + 4 then stop - Skip(s) else |order| + 4))
  {
    var ws := RecoverWrites(s, deployment, identity, order);
    WritesByIndex(s, deployment, identity, order);
    if stop < Skip(s) {
      assert ws[..0] == [];
    } else {
      var n := if stop - Skip(s) <= |order| + 4 then stop - Skip(s) else |order| + 4;
      RecoverPrefix(s, deployment, identity, order, n);
      if stop >= |ws| {
        assert ws[..|ws|] == ws;
      }
    }
  }

  /** Once recovery has written anything and until it has written everything, every
      lookup, publication and admission is refused or busy. */
  lemma PartialRecoveryRefuses(s: Server, deployment: string, identity: string, catalog: string,
                               order: seq<string>, stop: nat)
    requires RecoverAllowed(s, deployment, identity, catalog)
    requires Lists(order, ExtraFields(s)) && NoZeroToken(s)
    requires 0 < stop < |RecoverWrites(s, deployment, identity, order)|
    ensures Refused(ApplySome(s, RecoverWrites(s, deployment, identity, order), stop))
  {
    hide RecoverWrites, ApplySome, AfterWrites, Refused, Identity;
    StateAfterStop(s, deployment, identity, order, stop);
    if stop <= Skip(s) {
      MissingControlHasNoIdentity(s);
      NoIdentityRefuses(s.(control := Missing));
    } else if stop < Skip(s) + 4 {
      FencedHasNoIdentity(s, deployment, identity, order, stop - Skip(s));
      NoIdentityRefuses(AfterWrites(s, deployment, identity, order, stop - Skip(s)));
    } else {
      var n := stop - Skip(s);
      LeftoverStays(s, deployment, identity, catalog, order, n);
      LeftoverTokenRefuses(AfterWrites(s, deployment, identity, order, n), order[n - 4]);
    }
  }

  lemma MissingControlHasNoIdentity(s: Server)
    ensures Identity(s.(control := Missing)).None?
  {
  }

  lemma FencedHasNoIdentity(s: Server, deployment: string, identity: string, order: seq<string>, n: nat)
    requires 1 <= n < 4
    ensures Identity(AfterWrites(s, deployment, identity, order, n)).None?
  {
  }

  /** While the removal loop runs, the next field to remove is still there. */
  lemma LeftoverStays(s: Server, deployment: string, identity: string, catalog: string, order: seq<string>, n: nat)
    requires RecoverAllowed(s, deployment, identity, catalog)
    requires Lists(order, ExtraFields(s)) && NoZeroToken(s) && 4 <= n < |order| + 4
    ensures var t := AfterWrites(s, deployment, identity, order, n);
            && t.control.Hash? && BASE <= t.control.fields.Keys && t.control.fields["epoch"] == "0"
            && order[n - 4] in t.control.fields && order[n - 4] !in BASE && t.control.fields[order[n - 4]] != "0"
  {
    var k := n - 4;
    assert order[k] in ExtraFields(s);
    assert order[k] !in Elements(order[..k]);
    forall x | x in Elements(order[..k])
      ensures x !in BASE
    {
      assert x in order;
    }
  }

  /** A recovery that runs to its end leaves the new identity current, quiet and at epoch zero,
      with the catalog as it was, whatever the control key held before. */
  lemma CompletedRecovery(s: Server, deployment: string, identity: string, catalog: string,
                          order: seq<string>, stop: nat)
    requires RecoverAllowed(s, deployment, identity, catalog)
    requires Lists(order, ExtraFields(s))
    requires stop >= |RecoverWrites(s, deployment, identity, order)|
    ensures var t := ApplySome(s, RecoverWrites(s, deployment, identity, order), stop);
            && Identity(t) == Some((identity, "0")) && Quiet(t) && t.catalog == s.catalog
            && identity in t.identities && t.entries == s.entries
  {
    StateAfterStop(s, deployment, identity, order, stop);
    assert order[..|order|] == order;
    assert Elements(order) == ExtraFields(s);
    WithoutExtras(s, deployment, identity);
    var f := FreshFields(identity, "active");
    var t := Recorded(s, identity).(control := Hash(f, true));
    assert ApplySome(s, RecoverWrites(s, deployment, identity, order), stop) == t;
    FreshIsQuiet(t, identity);
  }

  lemma WithoutExtras(s: Server, deployment: string, identity: string)
    ensures Activated(s, deployment, identity) - ExtraFields(s) == FreshFields(identity, "active")
  {
    var f := Activated(s, deployment, identity);
    assert f.Keys == FieldsOf(s).Keys + BASE;
    assert ExtraFields(s) == FieldsOf(s).Keys - BASE;
  }

  lemma FreshIsQuiet(t: Server, identity: string)
    requires t.control == Hash(FreshFields(identity, "active"), true)
    requires t.catalog.Text? && t.catalog.persistent && t.admin.Missing?
    ensures Identity(t) == Some((identity, "0")) && Quiet(t)
  {
    assert t.control.fields.Keys == BASE;
    QuietMeansNoTokens(t);
    ZeroIsDecimal();
  }

  lemma ZeroIsDecimal()
    ensures Decimal("0") && Val("0") == 0
  {
    assert "0"[..0] == "";
  }

  /** However recovery is stopped, the operator can run it again under any identity never
      used: from the old configuration before the lineage moved, from the new one after. */
  lemma RecoveryCanBeRetried(s: Server, deployment: string, identity: string, catalog: string,
                             order: seq<string>, stop: nat, newer: string)
    requires RecoverAllowed(s, deployment, identity, catalog)
    requires newer !in s.identities && newer != identity
    ensures var t := ApplySome(s, RecoverWrites(s, deployment, identity, order), stop);
            RecoverAllowed(t, if stop < Skip(s) + 3 then deployment else identity, newer, catalog)
  {
    StateAfterStop(s, deployment, identity, order, stop);
  }

  /** Bootstrap: recording the lineage comes first and enables nothing; only the second
      write admits clients; after the first, recovery finishes the job. */
  lemma PartialBootstrap(s: Server, deployment: string, catalog: string, stop: nat, newer: string)
    requires BootstrapAllowed(s, deployment, catalog)
    ensures var t := ApplySome(s, BootstrapWrites(deployment), stop);
            && (stop < 2 ==> Refused(t))
            && (stop == 1 && newer != deployment && newer !in s.identities ==> RecoverAllowed(t, deployment, newer, catalog))
            && (stop >= 2 ==> Identity(t) == Some((deployment, "0")) && Quiet(t))
  {
    BootstrapStates(s, deployment, stop);
    var t := ApplySome(s, BootstrapWrites(deployment), stop);
    if stop >= 2 {
      FreshIsQuiet(t, deployment);
    } else {
      NoIdentityRefuses(t);
    }
  }

  lemma BootstrapStates(s: Server, deployment: string, stop: nat)
    requires s.control.Missing?
    ensures ApplySome(s, BootstrapWrites(deployment), stop) ==
            if stop == 0 then s
            else if stop == 1 then Recorded(s, deployment)
            else Recorded(s, deployment).(control := Hash(FreshFields(deployment, "active"), true))
  {
    var ws := BootstrapWrites(deployment);
    assert ws[..0] == [];
    ApplyOne(s, ws, 0);
    ApplyOne(s, ws, 1);
    assert ws[..2] == ws;
  }
}
