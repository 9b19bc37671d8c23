/** What the read cache's server-side scripts do to the Redis keys they share: the control hash,
    the catalog string, the administrative claim, the disposable response entries and the
    identity lineage. Every script first runs the validation prelude. */
module Scripts {
  import opened Decimals
  import opened Options

  /** A Redis key: absent, of a type no script expects, a string or a hash. `persistent`
      means the key has no time to live. */
  datatype Key =
    | Missing
    | Other
    | Text(text: string, persistent: bool)
    | Hash(fields: map<string, string>, persistent: bool)

  /** Response entries live under a key that spells out deployment, semantic identity and digest. */
  datatype EntryKey = EntryKey(deployment: string, semantic: string, digest: string)

  datatype Server = Server(
    control: Key,
    catalog: Key,
    admin: Key,
    entries: map<EntryKey, Key>,
    lineage: Key,
    identities: map<string, Key>)

  const SCHEMA: string := "1"
  const BASE: set<string> := {"schema", "deployment", "epoch", "state"}

  predicate IsHex(c: char) {
    '0' <= c <= '9' || 'a' <= c <= 'f'
  }

  predicate IsTokenId(id: string) {
    |id| == 32 && forall i :: 0 <= i < |id| ==> IsHex(id[i])
  }

  function WriterField(id: string): string {
    "writer:" + id
  }

  predicate IsTokenField(field: string, value: string, epoch: string) {
    && |field| == 39 && field[..7] == "writer:" && IsTokenId(field[7..])
    && Decimal(value) && Le(value, epoch)
  }

  // ---------------------------------------------------------------- validation

  /** The prelude: a permanent control hash of this schema and deployment, a permanent
      catalog string, a well-formed epoch and an accepted state. */
  predicate Valid(s: Server, deployment: string, allowMaintenance: bool) {
    && s.control.Hash? && s.control.persistent
    && s.catalog.Text? && s.catalog.persistent
    && var f := s.control.fields;
    && BASE <= f.Keys
    && f["schema"] == SCHEMA && f["deployment"] == deployment && Decimal(f["epoch"])
    && (f["state"] == "active" || (allowMaintenance && f["state"] == "maintenance"))
  }

  /** Every field beyond the four fixed ones is a well-formed writer token. */
  predicate TokensOk(fields: map<string, string>, epoch: string) {
    forall k :: k in fields && k !in BASE ==> IsTokenField(k, fields[k], epoch)
  }

  /** No writer token and no administrative claim. */
  predicate Quiet(s: Server) {
    s.control.Hash? && |s.control.fields| == 4 && s.admin.Missing?
  }

  /** The deployment and epoch under which ordinary operations are accepted. */
  predicate Live(s: Server, deployment: string, epoch: string) {
    Valid(s, deployment, false) && s.control.fields["epoch"] == epoch
  }

  /** The deployment and epoch under which the server accepts ordinary operations, if any. */
  function Identity(s: Server): Option<(string, string)> {
    if s.control.Hash? && "deployment" in s.control.fields && Valid(s, s.control.fields["deployment"], false)
    then Some((s.control.fields["deployment"], s.control.fields["epoch"]))
    else None
  }

  predicate TokenIn(s: Server, id: string) {
    s.control.Hash? && WriterField(id) in s.control.fields
  }

  // ---------------------------------------------------------------- scripts

  function Header(deployment: string, semantic: string, epoch: string): string {
    deployment + "\n" + semantic + "\n" + epoch + "\n"
  }

  datatype LookupReply =
    | LookupFailed
    | Busy
    | Miss(epoch: string, catalog: string)
    | Hit(epoch: string, response: string)

  function MissReply(s: Server, epoch: string, catalogMax: nat): LookupReply
    requires s.catalog.Text?
  {
    if |s.catalog.text| > catalogMax then LookupFailed else Miss(epoch, s.catalog.text)
  }

  function Lookup(s: Server, deployment: string, semantic: string, digest: string,
                  maxBytes: nat, catalogMax: nat): LookupReply
  {
    if !Valid(s, deployment, false) then LookupFailed
    else if !Quiet(s) then Busy
    else
      var epoch := s.control.fields["epoch"];
      var header := Header(deployment, semantic, epoch);
      var key := EntryKey(deployment, semantic, digest);
      var entry := if key in s.entries then s.entries[key] else Missing;
      if !entry.Text? || entry.persistent || |entry.text| > maxBytes + |header| then MissReply(s, epoch, catalogMax)
      else if !(header <= entry.text) || |entry.text| == |header| then MissReply(s, epoch, catalogMax)
      else Hit(epoch, entry.text[|header|..])
  }

  datatype PublishReply = PublishFailed | Skipped | Stored

  function Publish(s: Server, deployment: string, semantic: string, digest: string,
                   ticketEpoch: string, response: string, maxBytes: nat): (PublishReply, Server)
  {
    if !Valid(s, deployment, false) then (PublishFailed, s)
    else if !Quiet(s) || s.control.fields["epoch"] != ticketEpoch then (Skipped, s)
    else if response == [] || |response| > maxBytes then (Skipped, s)
    else
      var value := Header(deployment, semantic, ticketEpoch) + response;
      (Stored, s.(entries := s.entries[EntryKey(deployment, semantic, digest) := Text(value, false)]))
  }

  datatype AdmitReply = AdmitFailed | Admitted(epoch: string)

  function Admit(s: Server, deployment: string, token: string, nextState: string): (AdmitReply, Server)
  {
    if !Valid(s, deployment, false) then (AdmitFailed, s)
    else
      var f := s.control.fields;
      if !s.admin.Missing? || !TokensOk(f, f["epoch"]) then (AdmitFailed, s)
      else if f["epoch"] == MAX_EPOCH || !IsTokenId(token) || WriterField(token) in f then (AdmitFailed, s)
      else if nextState != "active" && nextState != "maintenance" then (AdmitFailed, s)
      else
        var next := Succ(f["epoch"]);
        (Admitted(next),
         s.(control := Hash(f["epoch" := next][WriterField(token) := next]["state" := nextState], true)))
  }

  function Release(s: Server, deployment: string, token: string, epoch: string): (bool, Server)
  {
    if !Valid(s, deployment, true) then (false, s)
    else
      var f := s.control.fields;
      if !TokensOk(f, f["epoch"]) then (false, s)
      else if WriterField(token) !in f || f[WriterField(token)] != epoch then (false, s)
      else (true, s.(control := Hash(f - {WriterField(token)}, true)))
  }

  // ---------------------------------------------------------------- administration

  /** The single Redis writes of the two administrative scripts. A Lua error or a lost
      server keeps the writes already done. */
  datatype Write =
    | DeleteControl
    | SetFields(values: map<string, string>)
    | Persist
    | Record(identity: string)
    | DeleteField(field: string)

  function Apply(s: Server, w: Write): Server {
    match w
    case DeleteControl => s.(control := Missing)
    case SetFields(values) =>
      (match s.control
       case Missing => s.(control := Hash(values, true))
       case Hash(f, p) => s.(control := Hash(f + values, p))
       case _ => s)
    case Persist => if s.control.Hash? then s.(control := Hash(s.control.fields, true)) else s
    case Record(identity) =>
      s.(identities := s.identities[identity := Text("1", true)], lineage := Text(identity, true))
    case DeleteField(field) =>
      if s.control.Hash? then s.(control := Hash(s.control.fields - {field}, s.control.persistent)) else s
  }

  function ApplyAll(s: Server, ws: seq<Write>): Server
    decreases |ws|
  {
    if ws == [] then s else Apply(ApplyAll(s, ws[..|ws| - 1]), ws[|ws| - 1])
  }

  /** A script stopped after at most `stop` writes. */
  function ApplySome(s: Server, ws: seq<Write>, stop: nat): Server {
    ApplyAll(s, if stop < |ws| then ws[..stop] else ws)
  }

  /** The administrative prelude: the catalog read by the operator, no claim, a fresh identity. */
  predicate AdminValid(s: Server, identity: string, catalog: string) {
    s.catalog == Text(catalog, true) && s.admin.Missing? && identity !in s.identities
  }

  predicate BootstrapAllowed(s: Server, deployment: string, catalog: string) {
    AdminValid(s, deployment, catalog) && s.control.Missing? && s.lineage.Missing?
  }

  function FreshFields(deployment: string, state: string): map<string, string> {
    map["schema" := SCHEMA, "deployment" := deployment, "epoch" := "0", "state" := state]
  }

  function BootstrapWrites(deployment: string): seq<Write> {
    [Record(deployment), SetFields(FreshFields(deployment, "active"))]
  }

  predicate RecoverAllowed(s: Server, deployment: string, identity: string, catalog: string) {
    && AdminValid(s, identity, catalog)
    && s.lineage == Text(deployment, true)
    && deployment in s.identities && s.identities[deployment] == Text("1", true)
  }

  /** The fields the last loop of recovery removes. */
  function ExtraFields(s: Server): set<string> {
    if s.control.Hash? then s.control.fields.Keys - BASE else {}
  }

  ghost predicate Lists(order: seq<string>, elements: set<string>) {
    && (forall x :: x in order <==> x in elements)
    && (forall i, j :: 0 <= i < j < |order| ==> order[i] != order[j])
  }

  function Deletions(order: seq<string>): (ws: seq<Write>)
    ensures |ws| == |order|
    ensures forall i :: 0 <= i < |ws| ==> ws[i] == DeleteField(order[i])
  {
    seq(|order|, i requires 0 <= i < |order| => DeleteField(order[i]))
  }

  /** Fence first, then the lineage, then activation, then the leftover tokens in the
      order the server lists them. */
  function RecoverWrites(s: Server, deployment: string, identity: string, order: seq<string>): seq<Write> {
    (if s.control.Missing? || s.control.Hash? then [] else [DeleteControl])
    + [SetFields(FreshFields(deployment, "maintenance")), Persist, Record(identity),
       SetFields(map["deployment" := identity, "state" := "active"])]
    + Deletions(order)
  }
}
