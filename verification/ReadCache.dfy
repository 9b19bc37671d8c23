/** The scripts as they run: command by command on the shared keys. */
module ReadCache {
  import opened Decimals
  import opened Scripts

  /** The shared keys as the scripts change them, command by command. */
  class CacheServer {
    var control: Key
    var catalog: Key
    var admin: Key
    var entries: map<EntryKey, Key>
    var lineage: Key
    var identities: map<string, Key>

    function State(): Server
      reads this
    {
      Server(control, catalog, admin, entries, lineage, identities)
    }

    method Validate(deployment: string, allowMaintenance: bool) returns (ok: bool)
      ensures ok == Valid(State(), deployment, allowMaintenance)
    {
      if !control.Hash? || !control.persistent {
        return false;
      }
      if !catalog.Text? || !catalog.persistent {
        return false;
      }
      var f := control.fields;
      if "schema" !in f || f["schema"] != SCHEMA || "deployment" !in f || f["deployment"] != deployment {
        return false;
      }
      if "epoch" !in f || !Decimal(f["epoch"]) || "state" !in f {
        return false;
      }
      return f["state"] == "active" || (allowMaintenance && f["state"] == "maintenance");
    }

    /** The loop over HGETALL: nil at the first field that is not a token. */
    method TokenFields() returns (ok: bool)
      requires control.Hash? && "epoch" in control.fields
      ensures ok == TokensOk(control.fields, control.fields["epoch"])
    {
      var f := control.fields;
      var pending := f.Keys;
      while pending != {}
        invariant pending <= f.Keys
        invariant forall k :: k in f && k !in BASE && k !in pending ==> IsTokenField(k, f[k], f["epoch"])
        decreases |pending|
      {
        var k :| k in pending;
        if k !in BASE && !IsTokenField(k, f[k], f["epoch"]) {
          return false;
        }
        pending := pending - {k};
      }
      return true;
    }

    method Lookup(deployment: string, semantic: string, digest: string, maxBytes: nat, catalogMax: nat)
      returns (r: LookupReply)
      ensures r == Scripts.Lookup(State(), deployment, semantic, digest, maxBytes, catalogMax)
    {
      var ok := Validate(deployment, false);
      if !ok {
        return LookupFailed;
      }
      var epoch := control.fields["epoch"];
      if |control.fields| != 4 || !admin.Missing? {
        return Busy;
      }
      var miss := if |catalog.text| > catalogMax then LookupFailed else Miss(epoch, catalog.text);
      var header := Header(deployment, semantic, epoch);
      var key := EntryKey(deployment, semantic, digest);
      if key !in entries {
        return miss;
      }
      var entry := entries[key];
      // Wrong-type, oversized, immortal and corrupt entries are misses, never control errors.
      if !entry.Text? || entry.persistent || |entry.text| > maxBytes + |header| {
        return miss;
      }
      if |entry.text| < |header| || entry.text[..|header|] != header {
        return miss;
      }
      var response := entry.text[|header|..];
      if response == [] {
        return miss;
      }
      return Hit(epoch, response);
    }

    method Publish(deployment: string, semantic: string, digest: string, ticketEpoch: string,
                   response: string, maxBytes: nat)
      returns (r: PublishReply)
      modifies this`entries
      ensures (r, State()) == Scripts.Publish(old(State()), deployment, semantic, digest, ticketEpoch, response, maxBytes)
    {
      var ok := Validate(deployment, false);
      if !ok {
        return PublishFailed;
      }
      var epoch := control.fields["epoch"];
      if |control.fields| != 4 || !admin.Missing? || epoch != ticketEpoch {
        return Skipped;
      }
      if |response| == 0 || |response| > maxBytes {
        return Skipped;
      }
      var value := Header(deployment, semantic, epoch) + response;
      entries := entries[EntryKey(deployment, semantic, digest) := Text(value, false)];
      return Stored;
    }

    method Admit(deployment: string, token: string, nextState: string) returns (r: AdmitReply)
      modifies this`control
      ensures (r, State()) == Scripts.Admit(old(State()), deployment, token, nextState)
    {
      var ok := Validate(deployment, false);
      if !ok {
        return AdmitFailed;
      }
      var tokens := TokenFields();
      if !admin.Missing? || !tokens {
        return AdmitFailed;
      }
      var f := control.fields;
      if f["epoch"] == MAX_EPOCH || !IsTokenId(token) || WriterField(token) in f {
        return AdmitFailed;
      }
      var next := Increment(f["epoch"]);
      if nextState != "active" && nextState != "maintenance" {
        return AdmitFailed;
      }
      // One command changes the epoch and records ownership together.
      control := Hash(f["epoch" := next][WriterField(token) := next]["state" := nextState], true);
      return Admitted(next);
    }

    method Release(deployment: string, token: string, epoch: string) returns (released: bool)
      modifies this`control
      ensures (released, State()) == Scripts.Release(old(State()), deployment, token, epoch)
    {
      var ok := Validate(deployment, true);
      if !ok {
        return false;
      }
      var tokens := TokenFields();
      if !tokens {
        return false;
      }
      var f := control.fields;
      if WriterField(token) !in f || f[WriterField(token)] != epoch {
        return false;
      }
      control := Hash(f - {WriterField(token)}, true);
      return true;
    }

    method Perform(w: Write)
      modifies this`control, this`lineage, this`identities
      ensures State() == Apply(old(State()), w)
    {
      match w {
        case DeleteControl =>
          control := Missing;
        case SetFields(values) =>
          if control.Missing? {
            control := Hash(values, true);
          } else if control.Hash? {
            control := Hash(control.fields + values, control.persistent);
          }
        case Persist =>
          if control.Hash? {
            control := Hash(control.fields, true);
          }
        case Record(identity) =>
          identities := identities[identity := Text("1", true)];
          lineage := Text(identity, true);
        case DeleteField(field) =>
          if control.Hash? {
            control := Hash(control.fields - {field}, control.persistent);
          }
      }
    }

    /** At most `stop` of the writes happen; the call reports success only when all did. */
    method PerformSome(ws: seq<Write>, stop: nat) returns (done: bool)
      modifies this`control, this`lineage, this`identities
      ensures done == (|ws| <= stop)
      ensures State() == ApplyAll(old(State()), if stop < |ws| then ws[..stop] else ws)
    {
      var i := 0;
      assert ws[..0] == [];
      while i < |ws| && i < stop
        invariant 0 <= i <= |ws| && i <= stop
        invariant State() == ApplyAll(old(State()), ws[..i])
      {
        Perform(ws[i]);
        assert ws[..i + 1][..i] == ws[..i];
        i := i + 1;
      }
      assert ws[..|ws|] == ws;
      return |ws| <= stop;
    }

    method Bootstrap(deployment: string, readCatalog: string, stop: nat) returns (done: bool)
      modifies this`control, this`lineage, this`identities
      ensures var s, ws := old(State()), BootstrapWrites(deployment);
              if BootstrapAllowed(s, deployment, readCatalog)
              then done == (|ws| <= stop) && State() == ApplyAll(s, if stop < |ws| then ws[..stop] else ws)
              else !done && State() == s
    {
      if catalog != Text(readCatalog, true) || !admin.Missing? || deployment in identities {
        return false;
      }
      if !control.Missing? || !lineage.Missing? {
        return false;
      }
      done := PerformSome(BootstrapWrites(deployment), stop);
    }

    /** The leftover fields, listed in an arbitrary order. */
    method ListExtra() returns (order: seq<string>)
      ensures Lists(order, ExtraFields(State()))
    {
      order := [];
      var pending := if control.Hash? then control.fields.Keys - BASE else {};
      while pending != {}
        invariant Lists(order, ExtraFields(State()) - pending)
        invariant pending <= ExtraFields(State())
        decreases |pending|
      {
        var k :| k in pending;
        pending := pending - {k};
        order := order + [k];
      }
    }

    method Recover(deployment: string, identity: string, readCatalog: string, stop: nat)
      returns (done: bool, order: seq<string>)
      modifies this`control, this`lineage, this`identities
      ensures Lists(order, ExtraFields(old(State())))
      ensures var s := old(State());
              var ws := RecoverWrites(s, deployment, identity, order);
              if RecoverAllowed(s, deployment, identity, readCatalog)
              then done == (|ws| <= stop) && State() == ApplyAll(s, if stop < |ws| then ws[..stop] else ws)
              else !done && State() == s
    {
      order := ListExtra();
      if catalog != Text(readCatalog, true) || !admin.Missing? || identity in identities {
        return false, order;
      }
      if lineage != Text(deployment, true) || deployment !in identities || identities[deployment] != Text("1", true) {
        return false, order;
      }
      done := PerformSome(RecoverWrites(State(), deployment, identity, order), stop);
    }
  }
}
