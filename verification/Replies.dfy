/** When each script of the read cache gives which reply, read off the shared keys themselves. */
module Replies {
  import opened Decimals
  import opened Options
  import opened Scripts

  /** The control hash holds these fields and never expires, nor does the catalog string. */
  ghost predicate IsOpen(s: Server, deployment: string, states: set<string>, fields: map<string, string>) {
    && s.control == Hash(fields, true) && s.catalog.Text? && s.catalog.persistent
    && "schema" in fields && fields["schema"] == "1"
    && "deployment" in fields && fields["deployment"] == deployment
    && "epoch" in fields && Canonical(fields["epoch"]) && Val(fields["epoch"]) <= 9223372036854775807
    && "state" in fields && fields["state"] in states
  }

  lemma ValidIff(s: Server, deployment: string, allowMaintenance: bool)
    ensures Valid(s, deployment, allowMaintenance)
       <==> s.control.Hash? && IsOpen(s, deployment, if allowMaintenance then {"active", "maintenance"} else {"active"}, s.control.fields)
  {
    if s.control.Hash? && "epoch" in s.control.fields {
      EpochIff(s.control.fields["epoch"]);
    }
    hide Decimal, Canonical, Val;
  }

  lemma EpochIff(epoch: string)
    ensures Decimal(epoch) <==> Canonical(epoch) && Val(epoch) <= 9223372036854775807
  {
    if Canonical(epoch) {
      DecimalIsBounded(epoch);
    }
  }

  /** The four fixed fields alone, and no claim. */
  ghost predicate IsQuiet(s: Server, fields: map<string, string>) {
    fields.Keys == {"schema", "deployment", "epoch", "state"} && s.admin.Missing?
  }

  lemma QuietIff(s: Server, deployment: string, states: set<string>, fields: map<string, string>)
    requires IsOpen(s, deployment, states, fields)
    ensures Quiet(s) <==> IsQuiet(s, fields)
  {
    var four := {"schema", "deployment", "epoch", "state"};
    assert |four| == 4 by {
      assert "schema"[0] == 's' && "state"[0] == 's' && "schema"[1] == 'c' && "state"[1] == 't' && "deployment"[0] == 'd' && "epoch"[0] == 'e';
    }
    assert four <= fields.Keys && |fields| == |fields.Keys|;
    if |fields| == 4 {
      assert |fields.Keys - four| == 0;
      assert fields.Keys - four == {};
    }
  }

  /** The stored entry is this response under the current stamp, and will expire. */
  ghost predicate IsStored(s: Server, deployment: string, semantic: string, digest: string, epoch: string, response: string) {
    var key := EntryKey(deployment, semantic, digest);
    key in s.entries && s.entries[key] == Text(deployment + "\n" + semantic + "\n" + epoch + "\n" + response, false)
  }

  ghost predicate IsServable(s: Server, deployment: string, semantic: string, digest: string, epoch: string, maxBytes: nat, response: string) {
    IsStored(s, deployment, semantic, digest, epoch, response) && 0 < |response| <= maxBytes
  }

  /** An open, quiet cache answers a lookup with a servable entry, otherwise with the epoch and the
      catalog, unless that is too large; a closed one is busy; anything else fails. */
  lemma LookupAnswers(s: Server, deployment: string, semantic: string, digest: string, maxBytes: nat, catalogMax: nat)
    ensures var r := Lookup(s, deployment, semantic, digest, maxBytes, catalogMax);
            var open := s.control.Hash? && IsOpen(s, deployment, {"active"}, s.control.fields);
            var quiet := open && IsQuiet(s, s.control.fields);
            var epoch := if open then s.control.fields["epoch"] else "";
            var servable := exists x :: IsServable(s, deployment, semantic, digest, epoch, maxBytes, x);
            && (r.Busy? <==> open && !quiet)
            && (r.Hit? <==> quiet && servable)
            && (r.Hit? ==> r.epoch == epoch && IsServable(s, deployment, semantic, digest, epoch, maxBytes, r.response))
            && (r.Miss? <==> quiet && !servable && |s.catalog.text| <= catalogMax)
            && (r.Miss? ==> r == Miss(epoch, s.catalog.text))
            && (r.LookupFailed? <==> !open || (quiet && !servable && |s.catalog.text| > catalogMax))
  {
    ValidIff(s, deployment, false);
    if Valid(s, deployment, false) {
      QuietIff(s, deployment, {"active"}, s.control.fields);
      ServableIff(s, deployment, semantic, digest, s.control.fields["epoch"], maxBytes);
    }
    hide Valid, Quiet, IsOpen, IsQuiet, IsServable, Header;
  }

  lemma ServableIff(s: Server, deployment: string, semantic: string, digest: string, epoch: string, maxBytes: nat)
    ensures var key := EntryKey(deployment, semantic, digest);
            var entry := if key in s.entries then s.entries[key] else Missing;
            var header := Header(deployment, semantic, epoch);
            var whole := entry.Text? && !entry.persistent && |entry.text| <= maxBytes + |header|
                         && header <= entry.text && |entry.text| > |header|;
            && (whole ==> IsServable(s, deployment, semantic, digest, epoch, maxBytes, entry.text[|header|..]))
            && (!whole ==> forall x :: !IsServable(s, deployment, semantic, digest, epoch, maxBytes, x))
  {
    var header := Header(deployment, semantic, epoch);
    assert header == deployment + "\n" + semantic + "\n" + epoch + "\n";
    var key := EntryKey(deployment, semantic, digest);
    if key in s.entries && s.entries[key].Text? && header <= s.entries[key].text {
      assert s.entries[key].text == header + s.entries[key].text[|header|..];
    }
    hide Header;
    forall x | IsServable(s, deployment, semantic, digest, epoch, maxBytes, x)
      ensures s.entries[key] == Text(header + x, false)
    {
    }
  }

  /** A publication is stored, under the stamp of the current epoch, exactly in an open, quiet cache
      whose epoch is the ticket's, and when it is neither empty nor too large. */
  lemma PublishAnswers(s: Server, deployment: string, semantic: string, digest: string, ticketEpoch: string, response: string, maxBytes: nat)
    ensures var (r, after) := Publish(s, deployment, semantic, digest, ticketEpoch, response, maxBytes);
            var open := s.control.Hash? && IsOpen(s, deployment, {"active"}, s.control.fields);
            && (r.PublishFailed? <==> !open)
            && (r.Stored? <==> && open && IsQuiet(s, s.control.fields) && s.control.fields["epoch"] == ticketEpoch
                               && 0 < |response| <= maxBytes)
            && (r.Stored? ==> IsStored(after, deployment, semantic, digest, ticketEpoch, response))
            && (forall key :: key != EntryKey(deployment, semantic, digest) || !r.Stored? ==>
                  (key in after.entries <==> key in s.entries) && (key in s.entries ==> after.entries[key] == s.entries[key]))
            && after == s.(entries := after.entries)
  {
    ValidIff(s, deployment, false);
    if Valid(s, deployment, false) {
      QuietIff(s, deployment, {"active"}, s.control.fields);
    }
    hide Valid, Quiet, IsOpen, IsQuiet;
  }

  /** A writer's field: 32 lower-case hexadecimal digits, and an epoch no later than the current one. */
  ghost predicate IsWriter(field: string, value: string, epoch: string) {
    exists id :: field == "writer:" + id && IsWriterId(id) && Canonical(value) && Canonical(epoch) && Val(value) <= Val(epoch)
  }

  ghost predicate IsWriterId(id: string) {
    |id| == 32 && forall c :: c in id ==> c in "0123456789abcdef"
  }

  lemma HexIff(id: string)
    ensures IsTokenId(id) <==> IsWriterId(id)
  {
    forall c
      ensures IsHex(c) <==> c in "0123456789abcdef"
    {
      HexDigit(c);
    }
    hide IsHex;
    assert forall i :: 0 <= i < |id| ==> id[i] in id;
  }

  lemma HexDigit(c: char)
    ensures IsHex(c) <==> c in "0123456789abcdef"
  {
    var all := "0123456789abcdef";
    assert all[0] == '0' && all[1] == '1' && all[2] == '2' && all[3] == '3' && all[4] == '4' && all[5] == '5';
    assert all[6] == '6' && all[7] == '7' && all[8] == '8' && all[9] == '9' && all[10] == 'a' && all[11] == 'b';
    assert all[12] == 'c' && all[13] == 'd' && all[14] == 'e' && all[15] == 'f';
  }

  lemma WriterIff(field: string, value: string, epoch: string)
    requires Canonical(epoch) && Val(epoch) <= 9223372036854775807
    ensures IsTokenField(field, value, epoch) <==> IsWriter(field, value, epoch)
  {
    EpochIff(value);
    if Canonical(value) {
      LeIsNumericOrder(value, epoch);
    }
    hide Decimal, Canonical, Val, Le, IsTokenId;
    if |field| >= 7 {
      HexIff(field[7..]);
      if field[..7] == "writer:" {
        assert field == "writer:" + field[7..];
      }
    }
    if id :| field == "writer:" + id && IsWriterId(id) {
      assert field[7..] == id && field[..7] == "writer:";
      HexIff(id);
    }
  }

  /** Every further field is a writer's. */
  ghost predicate OnlyWriters(fields: map<string, string>, epoch: string) {
    forall k :: k in fields && k !in {"schema", "deployment", "epoch", "state"} ==> IsWriter(k, fields[k], epoch)
  }

  lemma WritersIff(fields: map<string, string>, epoch: string)
    requires Canonical(epoch) && Val(epoch) <= 9223372036854775807
    ensures TokensOk(fields, epoch) <==> OnlyWriters(fields, epoch)
  {
    forall k | k in fields
      ensures IsTokenField(k, fields[k], epoch) <==> IsWriter(k, fields[k], epoch)
    {
      WriterIff(k, fields[k], epoch);
    }
    hide IsTokenField, IsWriter;
  }

  /** A writer is admitted exactly into an open cache without a claim and with nothing but writers beside
      the four fields, below the last epoch, under a new token and into a known state; it then owns the
      next epoch. */
  lemma AdmitAnswers(s: Server, deployment: string, token: string, nextState: string)
    ensures var (r, after) := Admit(s, deployment, token, nextState);
            var open := s.control.Hash? && IsOpen(s, deployment, {"active"}, s.control.fields);
            && (r.Admitted? <==> && open && s.admin.Missing? && OnlyWriters(s.control.fields, s.control.fields["epoch"])
                                 && Val(s.control.fields["epoch"]) < 9223372036854775807
                                 && IsWriterId(token) && "writer:" + token !in s.control.fields
                                 && nextState in {"active", "maintenance"})
            && (r.Admitted? ==> && Canonical(r.epoch) && Val(r.epoch) == Val(s.control.fields["epoch"]) + 1
                                && after == s.(control := Hash(s.control.fields + map["epoch" := r.epoch, "writer:" + token := r.epoch, "state" := nextState], true)))
            && (!r.Admitted? ==> after == s)
  {
    ValidIff(s, deployment, false);
    if Valid(s, deployment, false) {
      var f := s.control.fields;
      WritersIff(f, f["epoch"]);
      LastEpoch(f["epoch"]);
      HexIff(token);
      hide Valid, TokensOk, OnlyWriters, Decimal, IsTokenId, IsWriterId;
      assert WriterField(token) == "writer:" + token;
      assert ("writer:" + token)[0] == 'w';
      if Admit(s, deployment, token, nextState).0.Admitted? {
        var next := Succ(f["epoch"]);
        assert f["epoch" := next][WriterField(token) := next]["state" := nextState]
            == f + map["epoch" := next, "writer:" + token := next, "state" := nextState];
      }
    }
  }

  lemma LastEpoch(epoch: string)
    requires Canonical(epoch) && Val(epoch) <= 9223372036854775807
    ensures epoch == MAX_EPOCH <==> Val(epoch) == 9223372036854775807
  {
    MaxEpochValue();
    LeIsNumericOrder(epoch, MAX_EPOCH);
    LeIsNumericOrder(MAX_EPOCH, epoch);
    if Val(epoch) == 9223372036854775807 {
      LeBothWays(epoch, MAX_EPOCH);
    }
  }

  lemma LeBothWays(a: string, b: string)
    requires Le(a, b) && Le(b, a)
    ensures a == b
  {
    LexBothWays(a, b);
  }

  lemma {:induction false} LexBothWays(a: string, b: string)
    requires |a| == |b| && LexLe(a, b) && LexLe(b, a)
    ensures a == b
  {
    if a != [] {
      LexBothWays(a[1..], b[1..]);
      assert a == [a[0]] + a[1..] && b == [b[0]] + b[1..];
    }
  }

  /** A release removes the writer's field exactly when it records the given epoch, in either state of an
      open cache with nothing but writers beside the four fields; claims do not matter. */
  lemma ReleaseAnswers(s: Server, deployment: string, token: string, epoch: string)
    ensures var (released, after) := Release(s, deployment, token, epoch);
            var open := s.control.Hash? && IsOpen(s, deployment, {"active", "maintenance"}, s.control.fields);
            && (released <==> && open && OnlyWriters(s.control.fields, s.control.fields["epoch"])
                              && "writer:" + token in s.control.fields && s.control.fields["writer:" + token] == epoch)
            && after == if released then s.(control := Hash(s.control.fields - {"writer:" + token}, true)) else s
  {
    ValidIff(s, deployment, true);
    if Valid(s, deployment, true) {
      WritersIff(s.control.fields, s.control.fields["epoch"]);
      hide Valid, TokensOk, OnlyWriters;
      assert WriterField(token) == "writer:" + token;
    }
  }

  /** Bootstrap takes a catalog as read and nothing else; recovery takes the lineage it continues, on
      record, and an identity never used. */
  lemma AdministrationAnswers(s: Server, deployment: string, identity: string, catalog: string)
    ensures BootstrapAllowed(s, deployment, catalog)
       <==> && s.catalog == Text(catalog, true) && s.control.Missing? && s.admin.Missing? && s.lineage.Missing?
            && deployment !in s.identities
    ensures RecoverAllowed(s, deployment, identity, catalog)
       <==> && s.catalog == Text(catalog, true) && s.admin.Missing? && s.lineage == Text(deployment, true)
            && deployment in s.identities && s.identities[deployment] == Text("1", true) && identity !in s.identities
  {
  }
}
