/** Gateway replicas, their clients' requests and the shared server as one transition
    system. A request may stop at any point; a command it has sent may still execute later,
    its reply unread; a backend mutation not proved complete may still take effect; response
    entries may vanish or return; the control key may be lost; an operator may reconcile. */
module CacheProtocol {
  import opened Decimals
  import opened Options
  import opened Scripts

  type Backend = map<string, string>

  /** Which responses an uncached dispatch could give: semantic identity, request digest,
      catalog and backend state, response. Several responses may be possible for one state. */
  type Answers = (string, string, string, Backend, string) -> bool

  // ---------------------------------------------------------------- requests

  /** A cacheable read: its ticket, what it has read since, and the response to publish. */
  datatype Reader = Reader(
    deployment: string,
    semantic: string,
    digest: string,
    alive: bool,
    ticket: Option<string>,
    snapshot: bool,
    catalogs: set<string>,
    backends: set<Backend>,
    response: Option<string>)

  datatype Phase =
    | Admitting      // ADMIT sent
    | Running        // token known, the catalog not opened yet
    | Claiming       // begin with a claim sent
    | Inside         // the handler runs
    | Committing     // catalog publication sent
    | Dropping       // claim release sent
    | Completed      // publication_complete
    | Releasing      // RELEASE sent
    | Ended          // no further command will be sent

  /** A fenced request. `outcome` is the effect of the command in flight once it has
      executed; `attempts` are the mutations sent and not proved complete; `started` is the
      administrative flag; `sent` counts mutations ever sent. */
  datatype Writer = Writer(
    deployment: string,
    token: string,
    claim: string,
    state: string,
    phase: Phase,
    outcome: Option<bool>,
    alive: bool,
    admitted: bool,
    released: bool,
    epoch: string,
    claimed: bool,
    snapshot: string,
    payload: string,
    attempts: set<nat>,
    started: bool,
    sent: nat)

  datatype Publication = Publication(key: EntryKey, epoch: string, response: string)

  /** What happened to the administrative claim, in order. */
  datatype ClaimEvent =
    | Acquired(writer: nat)
    | Published(writer: nat, before: string, after: string)
    | Dropped(writer: nat)
    | Cleared(writer: nat)

  datatype World = World(
    server: Server,
    backend: Backend,
    readers: map<nat, Reader>,
    writers: map<nat, Writer>,
    published: set<Publication>,
    history: map<(string, string), (string, Backend)>,
    claims: seq<ClaimEvent>)

  // ---------------------------------------------------------------- events

  datatype Event =
    | NewReader(r: nat, deployment: string, semantic: string, digest: string)
    | ExecLookup(r: nat, maxBytes: nat, catalogMax: nat)
    | LoadCatalog(r: nat)
    | ReadBackend(r: nat)
    | Respond(r: nat, response: string)
    | ExecPublish(r: nat, maxBytes: nat)
    | CancelReader(r: nat)
    | NewWriter(i: nat, deployment: string, token: string, claim: string, state: string)
    | Exec(i: nat, catalogMax: nat)
    | Receive(i: nat, parsed: bool)
    | Open(i: nat, admin: bool, rejected: bool)
    | PostRead(i: nat)
    | SendMutation(i: nat, attempt: nat)
    | TakeEffect(i: nat, attempt: nat, backend: Backend)
    | Acknowledge(i: nat, attempt: nat)
    | Leave(i: nat, success: bool, fits: bool, payload: string)
    | Finish(i: nat)
    | CancelWriter(i: nat)
    | LoseEntry(key: EntryKey, corrupt: bool)
    | RestoreEntry(publication: Publication)
    | LoseControl(wrongType: bool)
    | Account(i: nat)
    | ClearClaim(i: nat)
    | Repair(backend: Backend)
    | BootstrapBy(deployment: string, catalog: string, stop: nat)
    | RecoverBy(deployment: string, identity: string, catalog: string, order: seq<string>, stop: nat)

  function Value(p: Publication): string {
    Header(p.key.deployment, p.key.semantic, p.epoch) + p.response
  }

  function Catalog(w: World): string {
    if w.server.catalog.Text? then w.server.catalog.text else ""
  }

  predicate HoldsClaim(w: World, writer: Writer) {
    w.server.admin == Text(writer.claim, true)
  }

  /** The operator's assertion: no writer can act any more. */
  predicate Reconciled(w: World) {
    forall i :: i in w.writers ==> w.writers[i].phase.Ended? && w.writers[i].attempts == {}
  }

  predicate LiveReader(w: World, r: nat) {
    r in w.readers && w.readers[r].alive
  }

  predicate LiveWriter(w: World, i: nat, phase: Phase) {
    i in w.writers && w.writers[i].alive && w.writers[i].phase == phase
  }

  ghost predicate Allowed(answers: Answers, w: World, ev: Event) {
    match ev
    case NewReader(r, _, _, _) => r !in w.readers
    case ExecLookup(r, _, _) => LiveReader(w, r) && w.readers[r].ticket.None?
    case LoadCatalog(r) =>
      LiveReader(w, r) && w.readers[r].ticket.Some? && !w.readers[r].snapshot && w.server.admin.Missing?
    case ReadBackend(r) => LiveReader(w, r) && w.readers[r].ticket.Some?
    case Respond(r, response) =>
      LiveReader(w, r) && w.readers[r].catalogs != {} && w.readers[r].response.None?
      && forall c, b :: w.readers[r].catalogs <= {c} && w.readers[r].backends <= {b} ==>
           answers(w.readers[r].semantic, w.readers[r].digest, c, b, response)
    // Sent while alive, executed at any later time.
    case ExecPublish(r, _) => r in w.readers && w.readers[r].ticket.Some? && w.readers[r].response.Some?
    case CancelReader(r) => r in w.readers
    case NewWriter(i, _, token, claim, state) =>
      i !in w.writers && IsTokenId(token) && (state == "active" || state == "maintenance")
      && (forall j :: j in w.writers ==> w.writers[j].token != token && w.writers[j].claim != claim)
      && w.server.admin != Text(claim, true)
    // A command in flight executes once, whether or not its request is still waiting.
    case Exec(i, _) =>
      i in w.writers && w.writers[i].outcome.None?
      && w.writers[i].phase in {Admitting, Claiming, Committing, Dropping, Releasing}
    case Receive(i, _) =>
      i in w.writers && w.writers[i].alive && w.writers[i].outcome.Some?
      && w.writers[i].phase in {Admitting, Claiming, Committing, Dropping, Releasing}
    case Open(i, _, _) => LiveWriter(w, i, Running)
    case PostRead(i) => LiveWriter(w, i, Inside)
    case SendMutation(i, attempt) => LiveWriter(w, i, Inside) && attempt !in w.writers[i].attempts
    case TakeEffect(i, attempt, _) => i in w.writers && attempt in w.writers[i].attempts
    case Acknowledge(i, attempt) => LiveWriter(w, i, Inside) && attempt in w.writers[i].attempts
    case Leave(i, _, _, _) => LiveWriter(w, i, Inside)
    case Finish(i) => LiveWriter(w, i, Completed)
    case CancelWriter(i) => i in w.writers
    case LoseEntry(_, _) => true
    case RestoreEntry(p) => p in w.published
    case LoseControl(_) => true
    case Account(i) => i in w.writers
    case ClearClaim(i) => i in w.writers && w.writers[i].phase.Ended? && w.writers[i].attempts == {} && HoldsClaim(w, w.writers[i])
    case Repair(_) => Identity(w.server).None?
    case BootstrapBy(_, _, _) => Reconciled(w)
    case RecoverBy(_, identity, _, order, _) => Reconciled(w) && Lists(order, ExtraFields(w.server))
  }

  function PutReader(w: World, r: nat, reader: Reader): World {
    w.(readers := w.readers[r := reader])
  }

  function PutWriter(w: World, i: nat, writer: Writer): World {
    w.(writers := w.writers[i := writer])
  }

  function AfterLookup(reader: Reader, reply: LookupReply): Reader {
    match reply
    case Miss(epoch, catalog) => reader.(ticket := Some(epoch), snapshot := true, catalogs := {catalog}, backends := {})
    // An envelope the reader cannot decode leaves it with the ticket and the ordinary path.
    case Hit(epoch, _) => reader.(ticket := Some(epoch), snapshot := false, catalogs := {}, backends := {})
    case _ => reader.(alive := false)
  }

  function ExecuteAdmit(w: World, i: nat): World
    requires i in w.writers
  {
    var x := w.writers[i];
    match Admit(w.server, x.deployment, x.token, x.state).0
    case AdmitFailed => PutWriter(w, i, x.(outcome := Some(false)))
    case Admitted(epoch) =>
      PutWriter(w.(server := Admit(w.server, x.deployment, x.token, x.state).1), i,
                x.(outcome := Some(true), admitted := true, epoch := epoch))
  }

  /** begin_snapshot with a claim: rejected unless the catalog is readable and unclaimed. */
  function ExecuteClaim(w: World, i: nat, catalogMax: nat): World
    requires i in w.writers
  {
    var x := w.writers[i];
    var s := w.server;
    if !s.admin.Missing? || !s.catalog.Text? || |s.catalog.text| > catalogMax
    then PutWriter(w, i, x.(outcome := Some(false)))
    else PutWriter(w.(server := s.(admin := Text(x.claim, true)), claims := w.claims + [Acquired(i)]), i,
                   x.(outcome := Some(true), snapshot := s.catalog.text))
  }

  function ExecuteCommit(w: World, i: nat): World
    requires i in w.writers
  {
    var x := w.writers[i];
    var s := w.server;
    if s.admin != Text(x.claim, true) then PutWriter(w, i, x.(outcome := Some(false)))
    else PutWriter(w.(server := s.(catalog := Text(x.payload, true), admin := Missing),
                      claims := w.claims + [Published(i, x.snapshot, x.payload)]), i, x.(outcome := Some(true)))
  }

  function ExecuteDrop(w: World, i: nat): World
    requires i in w.writers
  {
    var x := w.writers[i];
    var s := w.server;
    if s.admin != Text(x.claim, true) then PutWriter(w, i, x.(outcome := Some(false)))
    else PutWriter(w.(server := s.(admin := Missing), claims := w.claims + [Dropped(i)]), i, x.(outcome := Some(true)))
  }

  function ExecuteRelease(w: World, i: nat): World
    requires i in w.writers
  {
    var x := w.writers[i];
    var r := Release(w.server, x.deployment, x.token, x.epoch);
    PutWriter(w.(server := r.1), i, x.(outcome := Some(r.0)))
  }

  /** The command in flight takes effect on the server. */
  function Execute(w: World, i: nat, catalogMax: nat): World
    requires i in w.writers
  {
    match w.writers[i].phase
    case Admitting => ExecuteAdmit(w, i)
    case Claiming => ExecuteClaim(w, i, catalogMax)
    case Committing => ExecuteCommit(w, i)
    case Dropping => ExecuteDrop(w, i)
    case Releasing => ExecuteRelease(w, i)
    case _ => w
  }

  /** The request reads the reply of its command. */
  function AfterReply(x: Writer, parsed: bool): Writer
    requires x.outcome.Some?
  {
    var y := x.(outcome := None);
    match x.phase
    case Admitting => y.(phase := if x.outcome.value && x.state == "active" then Running else Ended)
    case Claiming =>
      // Rejection proves there is no claim; an unreadable snapshot does not.
      if !x.outcome.value then y.(phase := Completed)
      else if parsed then y.(phase := Inside, claimed := true)
      else y.(phase := Ended)
    case Committing => y.(phase := if x.outcome.value then Completed else Ended)
    case Dropping => y.(phase := if x.outcome.value then Completed else Ended)
    case _ => y.(phase := Ended)
  }

  /** How dispatch_catalog ends: commit on success, drop only when nothing was sent. */
  function AfterHandler(x: Writer, success: bool, fits: bool, payload: string): Writer {
    if !x.claimed then x.(phase := Completed)
    else if success then (if fits then x.(phase := Committing, payload := payload, outcome := None) else x.(phase := Ended))
    else if !x.started then x.(phase := Dropping, outcome := None)
    else x.(phase := Ended)
  }

  function Perform(w: World, ev: Event): World {
    match ev
    case NewReader(r, d, sem, digest) => PutReader(w, r, Reader(d, sem, digest, true, None, false, {}, {}, None))
    case ExecLookup(r, maxBytes, catalogMax) =>
      if r !in w.readers then w else
        var x := w.readers[r];
        PutReader(w, r, AfterLookup(x, Lookup(w.server, x.deployment, x.semantic, x.digest, maxBytes, catalogMax)))
    case LoadCatalog(r) =>
      if r !in w.readers then w else PutReader(w, r, w.readers[r].(catalogs := w.readers[r].catalogs + {Catalog(w)}))
    case ReadBackend(r) =>
      if r !in w.readers then w else PutReader(w, r, w.readers[r].(backends := w.readers[r].backends + {w.backend}))
    case Respond(r, response) => if r !in w.readers then w else PutReader(w, r, w.readers[r].(response := Some(response)))
    case ExecPublish(r, maxBytes) =>
      if r !in w.readers || w.readers[r].ticket.None? || w.readers[r].response.None? then w else
        var x := w.readers[r];
        var (reply, s') := Publish(w.server, x.deployment, x.semantic, x.digest, x.ticket.value, x.response.value, maxBytes);
        if !reply.Stored? then w else
          w.(server := s',
             published := w.published + {Publication(EntryKey(x.deployment, x.semantic, x.digest), x.ticket.value, x.response.value)})
    case CancelReader(r) => if r !in w.readers then w else PutReader(w, r, w.readers[r].(alive := false))
    case NewWriter(i, d, token, claim, state) =>
      PutWriter(w, i, Writer(d, token, claim, state, Admitting, None, true, false, false, "", false, "", "", {}, false, 0))
    case Exec(i, catalogMax) => if i !in w.writers then w else Execute(w, i, catalogMax)
    case Receive(i, parsed) =>
      if i !in w.writers || w.writers[i].outcome.None? then w else PutWriter(w, i, AfterReply(w.writers[i], parsed))
    case Open(i, admin, rejected) =>
      if i !in w.writers then w else
        PutWriter(w, i, w.writers[i].(phase := if admin then Claiming else if rejected then Completed else Inside))
    case PostRead(i) => if i !in w.writers then w else PutWriter(w, i, w.writers[i].(started := true))
    case SendMutation(i, a) =>
      if i !in w.writers then w else
        PutWriter(w, i, w.writers[i].(attempts := w.writers[i].attempts + {a}, started := true, sent := w.writers[i].sent + 1))
    case TakeEffect(_, _, backend) => w.(backend := backend)
    case Acknowledge(i, a) => if i !in w.writers then w else PutWriter(w, i, w.writers[i].(attempts := w.writers[i].attempts - {a}))
    case Leave(i, success, fits, payload) =>
      if i !in w.writers then w else PutWriter(w, i, AfterHandler(w.writers[i], success, fits, payload))
    case Finish(i) =>
      if i !in w.writers then w
      else if w.writers[i].attempts == {} then PutWriter(w, i, w.writers[i].(phase := Releasing, outcome := None, released := true))
      else PutWriter(w, i, w.writers[i].(phase := Ended))
    case CancelWriter(i) => if i !in w.writers then w else PutWriter(w, i, w.writers[i].(alive := false))
    case LoseEntry(key, corrupt) => w.(server := w.server.(entries := w.server.entries[key := if corrupt then Other else Missing]))
    case RestoreEntry(p) => w.(server := w.server.(entries := w.server.entries[p.key := Text(Value(p), false)]))
    case LoseControl(wrongType) => w.(server := w.server.(control := if wrongType then Other else Missing))
    case Account(i) =>
      if i !in w.writers then w else PutWriter(w, i, w.writers[i].(phase := Ended, alive := false, attempts := {}))
    case ClearClaim(i) => w.(server := w.server.(admin := Missing), claims := w.claims + [Cleared(i)])
    case Repair(backend) => w.(backend := backend)
    case BootstrapBy(d, catalog, stop) =>
      if !BootstrapAllowed(w.server, d, catalog) then w else w.(server := ApplySome(w.server, BootstrapWrites(d), stop))
    case RecoverBy(d, identity, catalog, order, stop) =>
      if identity == d || !RecoverAllowed(w.server, d, identity, catalog) then w
      else w.(server := ApplySome(w.server, RecoverWrites(w.server, d, identity, order), stop))
  }

  /** Ghost history: the catalog and backend of every quiet identity, as first observed. */
  function Observe(w: World): World {
    if Identity(w.server).Some? && Quiet(w.server)
    then w.(history := w.history[Identity(w.server).value := (Catalog(w), w.backend)])
    else w
  }

  function Step(w: World, ev: Event): World {
    Observe(Perform(w, ev))
  }

  /** Before bootstrap: an initialized catalog and nothing else. */
  predicate Init(w: World) {
    && w.server.control.Missing? && w.server.lineage.Missing? && w.server.admin.Missing?
    && w.server.catalog.Text? && w.server.catalog.persistent
    && w.server.entries == map[] && w.server.identities == map[]
    && w.readers == map[] && w.writers == map[] && w.published == {} && w.history == map[] && w.claims == []
  }

  /** A run: its worlds, one more than its events. */
  ghost predicate IsRun(answers: Answers, ws: seq<World>, evs: seq<Event>) {
    && |ws| == |evs| + 1
    && Init(ws[0])
    && forall k :: 0 <= k < |evs| ==> Allowed(answers, ws[k], evs[k]) && ws[k + 1] == Step(ws[k], evs[k])
  }
}
