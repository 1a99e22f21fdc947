/**
  The broker's control plane as a transition system.

  Every mutating handler and the reconciler hold one process-wide lock, but a request may be
  abandoned at any `await`, leaving only a prefix of its writes behind. A run is therefore a
  sequence of single-row writes, cloud calls and clock readings. `Enabled` is the row-level policy:
  what must be true of the stored rows for a write to be legitimate. The handlers of module
  `Broker` are proved to issue only enabled writes; the theorems of `BrokerTheorems` are proved of
  every sequence of enabled writes.
*/
module BrokerModel {
  import opened Util
  import opened Enrollments

  type Id = nat
  type User = nat
  type Number = nat

  const MAX_ATTEMPTS: nat := 5

  datatype State = Pending | Provisioning | Ready | Failed | Deleting

  datatype Role = Reader | Operator | Admin

  // ---------- Provisioning bookkeeping shared by workspaces and connections ----------

  /** Absent JSON fields read as 0, false and `u64::MAX`. */
  datatype Provision = Provision(state: State, attempts: nat, retryable: bool, retryAt: nat)

  const FRESH := Provision(State.Pending, 0, false, MAX_U64)
  const DOOMED := Provision(Deleting, 0, false, MAX_U64)

  /** What a provisioning call answers: a reported state, or an error that may be transient. */
  datatype CloudReply = Reported(state: State) | Errored(transient: bool)

  predicate ShouldRetry(p: Provision, now: nat) {
    p.state != Failed || (p.retryable && p.attempts < MAX_ATTEMPTS && p.retryAt <= now)
  }

  function Power2(n: nat): nat {
    if n == 0 then 1 else 2 * Power2(n - 1)
  }

  /** Earliest retry after the `k`-th recorded failure at time `now`. */
  function Backoff(now: nat, k: nat): nat {
    Sat(now + 30 * Power2(if k < 6 then k else 6))
  }

  function Outcome(p: Provision, reply: CloudReply, now: nat): Provision {
    match reply
    case Reported(Ready) => p.(state := Ready, attempts := 0, retryable := false)
    case Reported(Provisioning) => p.(state := Provisioning, retryable := false)
    case Reported(Pending) => p.(state := State.Pending, retryable := false)
    case Reported(_) => p.(state := Failed, retryable := false)
    case Errored(transient) =>
      Provision(Failed, p.attempts + 1, transient, Backoff(now, p.attempts + 1))
  }

  /** The two saves of one provisioning attempt. */
  ghost predicate AttemptStep(prev: Provision, row: Provision, now: nat) {
    || (prev.state !in {Ready, Deleting} && ShouldRetry(prev, now) && row == prev.(state := Provisioning))
    || (prev.state == Provisioning && exists reply :: row == Outcome(prev, reply, now))
  }

  // ---------- Managed configurations ----------

  /** A parsed configuration, reduced to the relay names of its forwarding rules. */
  datatype Config = Config(localNames: seq<string>, remoteNames: seq<string>)

  /** `raw` is the plain YAML reader, `screen` every further check made on managed text. */
  datatype Parser = Parser(raw: string -> Option<Config>, screen: string -> bool)

  function RelayNames(c: Config): set<string> {
    (set n | n in c.localNames) + (set n | n in c.remoteNames)
  }

  /** Managed parsing accepts only readable text that passes the screen and has a rule. */
  function Managed(parser: Parser, yaml: string): Option<Config> {
    match parser.raw(yaml)
    case None => None
    case Some(c) => if parser.screen(yaml) && c.localNames + c.remoteNames != [] then Some(c) else None
  }

  // ---------- Rows ----------

  datatype Workspace = Workspace(createdBy: User, prov: Provision, creatorReady: bool, journal: set<User>)
  datatype Connection = Connection(name: string, prov: Provision)
  datatype Profile = Profile(name: string, current: Option<Number>, next: Number)
  datatype Gateway = Gateway(profile: Id, revoked: bool, lastSeen: Option<nat>, applied: Option<Number>)

  /** The latest cloud confirmation of an absence, forgotten at the next write. */
  datatype Note = NoNote | NamespaceGone | ConnectionGone(c: Id)

  /**
    Everything the tables hold about one workspace: the rows of its own partition, the rows of
    the per-user index naming it, the enrollments naming it, and its immutable revision texts.
    `used` collects the generated ids and `born` remembers that the workspace id was handed out.
  */
  datatype Partition = Partition(
    workspace: Option<Workspace>,
    members: map<User, Role>,
    index: set<User>,
    connections: map<Id, Connection>,
    profiles: map<Id, Profile>,
    texts: map<(Id, Number), string>,
    revisions: set<(Id, Number)>,
    gateways: map<Id, Gateway>,
    enrollments: map<Id, Enrollment>,
    used: set<Id>,
    born: bool,
    note: Note)

  const EMPTY := Partition(None, map[], {}, map[], map[], map[], {}, map[], map[], {}, false, NoNote)

  datatype Db = Db(parts: map<Id, Partition>, clock: nat)

  const INITIAL := Db(map[], 0)

  function Part(db: Db, ws: Id): Partition {
    if ws in db.parts then db.parts[ws] else EMPTY
  }

  predicate InState(p: Partition, s: State) {
    p.workspace.Some? && p.workspace.value.prov.state == s
  }

  predicate Active(p: Partition) {
    p.workspace.Some? && p.workspace.value.prov.state != Deleting
  }

  // ---------- Questions the handlers ask ----------

  function ReadyNames(p: Partition): set<string> {
    set c | c in p.connections && p.connections[c].prov.state == Ready :: p.connections[c].name
  }

  /** `check_config` on a Ready workspace: parses, and every relay name is a Ready connection's. */
  predicate Acceptable(parser: Parser, p: Partition, yaml: string) {
    var c := Managed(parser, yaml);
    c.Some? && RelayNames(c.value) <= ReadyNames(p)
  }

  /** The text `profile`'s published revision points at, when it is listed and stored. */
  predicate HasPublishedText(p: Partition, profile: Id) {
    && profile in p.profiles
    && p.profiles[profile].current.Some?
    && p.profiles[profile].current.value != 0
    && (profile, p.profiles[profile].current.value) in p.revisions
    && (profile, p.profiles[profile].current.value) in p.texts
  }

  function PublishedText(p: Partition, profile: Id): string
    requires HasPublishedText(p, profile)
  {
    p.texts[(profile, p.profiles[profile].current.value)]
  }

  /** `published_config` succeeds. */
  predicate Servable(parser: Parser, p: Partition, profile: Id) {
    && InState(p, Ready)
    && HasPublishedText(p, profile)
    && Acceptable(parser, p, PublishedText(p, profile))
  }

  /** The raw relay names a profile's published text mentions, ignoring ASCII case. */
  predicate References(parser: Parser, p: Partition, profile: Id, name: string)
    requires profile in p.profiles
  {
    var current := p.profiles[profile].current;
    && current.Some?
    && (profile, current.value) in p.texts
    && parser.raw(p.texts[(profile, current.value)]).Some?
    && exists n :: n in RelayNames(parser.raw(p.texts[(profile, current.value)]).value) && Lower(n) == Lower(name)
  }

  predicate Unused(parser: Parser, p: Partition, name: string) {
    forall profile :: profile in p.profiles ==> !References(parser, p, profile, name)
  }

  /** Only the workspace row itself is left. */
  predicate SweptClean(p: Partition) {
    && p.members == map[] && p.connections == map[] && p.profiles == map[]
    && p.revisions == {} && p.gateways == map[] && p.enrollments == map[]
  }

  predicate OtherAdmin(p: Partition, u: User) {
    exists v :: v in p.members && v != u && p.members[v] == Admin
  }

  // ---------- Writes, cloud calls and their effect ----------

  datatype Action =
    | PutWorkspace(workspace: Workspace)
    | DropWorkspace
    | PutMember(user: User, role: Role)
    | DropMember(user: User)
    | PutIndex(user: User)
    | DropIndex(user: User)
    | PutConnection(id: Id, connection: Connection)
    | DropConnection(id: Id)
    | PutProfile(id: Id, profile: Profile)
    | DropProfile(id: Id)
    | PutText(id: Id, number: Number, yaml: string)
    | PutRevision(id: Id, number: Number)
    | DropRevision(id: Id, number: Number)
    | PutGateway(id: Id, gateway: Gateway)
    | DropGateway(id: Id)
    | PutEnrollment(id: Id, enrollment: Enrollment)
    | DropEnrollment(id: Id)
    | CallEnsureNamespace
    | CallEnsureConnection(id: Id)
    | CallDeleteConnection(id: Id)
    | ConfirmNoConnection(id: Id)
    | ConfirmNoNamespace

  function Apply(p: Partition, a: Action): Partition {
    var q := if a.DropEnrollment? then p else p.(note := NoNote);
    match a
    case PutWorkspace(w) => q.(workspace := Some(w), born := true)
    case DropWorkspace => q.(workspace := None)
    case PutMember(u, r) => q.(members := q.members[u := r])
    case DropMember(u) => q.(members := q.members - {u})
    case PutIndex(u) => q.(index := q.index + {u})
    case DropIndex(u) => q.(index := q.index - {u})
    case PutConnection(c, row) => q.(connections := q.connections[c := row], used := q.used + {c})
    case DropConnection(c) => q.(connections := q.connections - {c})
    case PutProfile(id, row) => q.(profiles := q.profiles[id := row], used := q.used + {id})
    case DropProfile(id) => q.(profiles := q.profiles - {id})
    case PutText(id, n, yaml) => q.(texts := q.texts[(id, n) := yaml])
    case PutRevision(id, n) => q.(revisions := q.revisions + {(id, n)})
    case DropRevision(id, n) => q.(revisions := q.revisions - {(id, n)})
    case PutGateway(g, row) => q.(gateways := q.gateways[g := row], used := q.used + {g})
    case DropGateway(g) => q.(gateways := q.gateways - {g})
    case PutEnrollment(e, row) => q.(enrollments := q.enrollments[e := row], used := q.used + {e})
    case DropEnrollment(e) => q.(enrollments := q.enrollments - {e})
    case CallEnsureNamespace => q
    case CallEnsureConnection(_) => q
    case CallDeleteConnection(_) => q
    case ConfirmNoConnection(c) => q.(note := ConnectionGone(c))
    case ConfirmNoNamespace => q.(note := NamespaceGone)
  }

  // ---------- The row-level policy ----------

  ghost predicate WorkspacePolicy(p: Partition, row: Workspace, now: nat) {
    if p.workspace.None? then
      p == EMPTY && row.prov == FRESH && !row.creatorReady && row.journal == {}
    else
      var prev := p.workspace.value;
      && row.createdBy == prev.createdBy
      && (|| row == prev
          || (prev.prov.state != Deleting && row == prev.(creatorReady := true))
          || (AttemptStep(prev.prov, row.prov, now) && row == prev.(prov := row.prov))
          || (prev.prov.state != Deleting && p.connections == map[]
              && row == prev.(prov := DOOMED, creatorReady := false, journal := p.members.Keys)))
  }

  predicate AdminPresent(p: Partition) {
    exists v :: v in p.members && p.members[v] == Admin
  }

  ghost predicate ConnectionPolicy(parser: Parser, p: Partition, c: Id, row: Connection, now: nat) {
    if c in p.connections then
      var prev := p.connections[c];
      && row.name == prev.name
      && (|| row == prev
          || (InState(p, Ready) && AttemptStep(prev.prov, row.prov, now))
          || (Active(p) && prev.prov.state != Deleting && Unused(parser, p, prev.name) && row.prov == DOOMED))
    else
      && InState(p, Ready) && c !in p.used && row.prov == FRESH
      && forall d :: d in p.connections ==> Lower(p.connections[d].name) != Lower(row.name)
  }

  ghost predicate ProfilePolicy(parser: Parser, p: Partition, id: Id, row: Profile) {
    && InState(p, Ready)
    && if id in p.profiles then
         var prev := p.profiles[id];
         || (0 < prev.next < MAX_U64 && row == prev.(next := prev.next + 1))
         || (exists n ::
               && n != 0 && (id, n) in p.revisions && (id, n) in p.texts
               && Acceptable(parser, p, p.texts[(id, n)])
               && row == prev.(current := Some(n)))
       else
         id !in p.used && row.current == None && row.next == 1
  }

  ghost predicate GatewayPolicy(parser: Parser, p: Partition, g: Id, row: Gateway) {
    if g in p.gateways then
      var prev := p.gateways[g];
      Active(p) && row.profile == prev.profile && (prev.revoked ==> row.revoked)
    else
      g !in p.used && !row.revoked && Servable(parser, p, row.profile)
  }

  ghost predicate Enabled(parser: Parser, p: Partition, now: nat, a: Action) {
    match a
    case PutWorkspace(w) => WorkspacePolicy(p, w, now)
    case DropWorkspace => InState(p, Deleting) && p.note == NamespaceGone
    case PutMember(u, r) =>
      && Active(p)
      && (u in p.members && p.members[u] == Admin && r != Admin ==> OtherAdmin(p, u))
    case DropMember(u) =>
      && p.workspace.Some? && u in p.members
      && (Active(p) && p.members[u] == Admin ==> OtherAdmin(p, u))
    case PutIndex(u) => Active(p) && u in p.members
    case DropIndex(u) => u !in p.members
    case PutConnection(c, row) => ConnectionPolicy(parser, p, c, row, now)
    case DropConnection(c) =>
      c in p.connections && p.connections[c].prov.state == Deleting && p.note == ConnectionGone(c)
    case PutProfile(id, row) => ProfilePolicy(parser, p, id, row)
    case DropProfile(id) =>
      && id in p.profiles
      && (|| (InState(p, Ready)
              && forall g :: g in p.gateways && p.gateways[g].profile == id ==> p.gateways[g].revoked)
          || (InState(p, Deleting) && p.gateways == map[]))
    case PutText(id, n, _) =>
      && InState(p, Ready) && id in p.profiles
      && n != 0 && n == p.profiles[id].next - 1 && (id, n) !in p.texts
    case PutRevision(id, n) =>
      InState(p, Ready) && id in p.profiles && (id, n) in p.texts && (id, n) !in p.revisions
    case DropRevision(id, n) => InState(p, Deleting) && p.profiles == map[]
    case PutGateway(g, row) => GatewayPolicy(parser, p, g, row)
    case DropGateway(g) => InState(p, Deleting)
    case PutEnrollment(e, row) =>
      if e in p.enrollments then row.profile == p.enrollments[e].profile
      else e !in p.used && Servable(parser, p, row.profile)
    case DropEnrollment(e) => true
    case CallEnsureNamespace => InState(p, Provisioning)
    case CallEnsureConnection(c) =>
      InState(p, Ready) && c in p.connections && p.connections[c].prov.state == Provisioning
    case CallDeleteConnection(c) =>
      && c in p.connections && p.connections[c].prov.state == Deleting
      && Unused(parser, p, p.connections[c].name)
    case ConfirmNoConnection(c) => c in p.connections && p.connections[c].prov.state == Deleting
    case ConfirmNoNamespace =>
      InState(p, Deleting) && SweptClean(p) && p.index !! p.workspace.value.journal
  }

  // ---------- Runs ----------

  /** A clock reading, a step of a request on one workspace, or a removal by the lock-free cleaner. */
  datatype Step = Tick(to: nat) | On(ws: Id, act: Action) | Cleaned(ws: Id, id: Id)

  /** What a step does to workspace `ws`. */
  function ActionOn(s: Step, ws: Id): Option<Action> {
    match s
    case Tick(_) => None
    case On(w, act) => if w == ws then Some(act) else None
    case Cleaned(w, e) => if w == ws then Some(DropEnrollment(e)) else None
  }

  ghost predicate StepEnabled(parser: Parser, db: Db, s: Step) {
    match s
    case Tick(to) => db.clock <= to <= MAX_U64
    case On(ws, act) => Enabled(parser, Part(db, ws), db.clock, act)
    case Cleaned(ws, e) => e in Part(db, ws).enrollments && Part(db, ws).enrollments[e].expiresAt <= db.clock
  }

  function ApplyStep(db: Db, s: Step): Db {
    match s
    case Tick(to) => db.(clock := to)
    case On(ws, act) => db.(parts := db.parts[ws := Apply(Part(db, ws), act)])
    case Cleaned(ws, e) => db.(parts := db.parts[ws := Apply(Part(db, ws), DropEnrollment(e))])
  }

  function Exec(trace: seq<Step>): Db {
    if trace == [] then INITIAL
    else ApplyStep(Exec(trace[..|trace| - 1]), trace[|trace| - 1])
  }

  ghost predicate Legal(parser: Parser, trace: seq<Step>) {
    trace == [] ||
    (&& Legal(parser, trace[..|trace| - 1])
     && StepEnabled(parser, Exec(trace[..|trace| - 1]), trace[|trace| - 1]))
  }
}
