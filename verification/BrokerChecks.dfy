/**
  What the handlers check, read and mean to write: the refusal for every input, the reads that find
  it, the plan of an uninterrupted request, and what one pass of the reconciler does.
*/
module BrokerChecks {
  import opened Util
  import opened Enrollments
  import opened BrokerModel
  import opened BrokerInvariants
  import opened BrokerTheorems

  datatype Refusal =
    | BadRequest | Unauthorized | Forbidden | NotFound | Conflict
    | WorkspaceNotEmpty | ConnectionInUse | ProfileInUse

  datatype Reply<+T> = Done(value: T) | Refused(why: Refusal) | Abandoned

  /** `q` is `p` except that some enrollments may have been cleaned up. */
  ghost predicate Drifted(p: Partition, q: Partition) {
    && q == p.(enrollments := q.enrollments)
    && forall e :: e in q.enrollments ==> e in p.enrollments && q.enrollments[e] == p.enrollments[e]
  }

  /** A request that meant to perform `plan`: all of it when done, none when refused, else a prefix. */
  ghost predicate Followed<T>(journal: seq<Action>, plan: seq<Action>, r: Reply<T>) {
    && journal <= plan
    && (r.Done? ==> journal == plan)
    && (r.Refused? ==> journal == [])
  }

  // ---------- Checks, in the order the handlers make them ----------

  /** The request is refused exactly when a check fails, and for that reason; an admitted one may be abandoned. */
  ghost predicate Decided<T>(r: Reply<T>, why: Option<Refusal>) {
    match why
    case None => !r.Refused?
    case Some(w) => r == Refused(w)
  }

  /** `authorize`, then `workspace(.., ready = true)`. */
  function OnReady(p: Partition, authorized: bool): Option<Refusal> {
    if !authorized then Some(Forbidden)
    else if p.workspace.None? then Some(NotFound)
    else if p.workspace.value.prov.state != Ready then Some(Conflict)
    else None
  }

  function OnProfile(p: Partition, id: Id, authorized: bool): Option<Refusal> {
    if OnReady(p, authorized).Some? then OnReady(p, authorized)
    else if id !in p.profiles then Some(NotFound)
    else None
  }

  function CreateProfileCheck(p: Partition, name: string, wellNamed: bool, authorized: bool): Option<Refusal> {
    if OnReady(p, authorized).Some? then OnReady(p, authorized)
    else if !wellNamed then Some(BadRequest)
    else if TakenName(p.profiles, name) then Some(Conflict)
    else None
  }

  function DeleteProfileCheck(p: Partition, id: Id, authorized: bool): Option<Refusal> {
    if OnProfile(p, id, authorized).Some? then OnProfile(p, id, authorized)
    else if UsedProfile(p, id) then Some(ProfileInUse)
    else None
  }

  function CreateRevisionCheck(parser: Parser, p: Partition, id: Id, yaml: string, authorized: bool): Option<Refusal> {
    if OnProfile(p, id, authorized).Some? then OnProfile(p, id, authorized)
    else if !Acceptable(parser, p, yaml) then Some(BadRequest)
    else if p.profiles[id].next == 0 || p.profiles[id].next >= MAX_U64 then Some(Conflict)
    else None
  }

  function PublishCheck(parser: Parser, p: Partition, id: Id, number: Number, expected: Option<Number>, authorized: bool)
    : Option<Refusal>
  {
    if OnProfile(p, id, authorized).Some? then OnProfile(p, id, authorized)
    else if p.profiles[id].current != expected then Some(Conflict)
    else if number == 0 then Some(BadRequest)
    else if (id, number) !in p.revisions || (id, number) !in p.texts then Some(NotFound)
    else if !Acceptable(parser, p, p.texts[(id, number)]) then Some(BadRequest)
    else None
  }

  /** `authorize`, then `active_workspace`. */
  function OnActive(p: Partition, authorized: bool): Option<Refusal> {
    if !authorized then Some(Forbidden)
    else if p.workspace.None? then Some(NotFound)
    else if p.workspace.value.prov.state == Deleting then Some(Conflict)
    else None
  }

  function CreateMemberCheck(p: Partition, u: User, role: Role, authorized: bool): Option<Refusal> {
    if OnActive(p, authorized).Some? then OnActive(p, authorized)
    else if u in p.members && p.members[u] != role then Some(Conflict)
    else None
  }

  /** `protect_last_admin`: the change would leave the workspace without any admin. */
  predicate LosesLastAdmin(p: Partition, u: User, role: Option<Role>) {
    u in p.members && p.members[u] == Admin && role != Some(Admin) && !OtherAdmin(p, u)
  }

  function UpdateMemberCheck(p: Partition, u: User, role: Role, authorized: bool): Option<Refusal> {
    if OnActive(p, authorized).Some? then OnActive(p, authorized)
    else if u !in p.members then Some(NotFound)
    else if LosesLastAdmin(p, u, Some(role)) then Some(Conflict)
    else None
  }

  function DeleteMemberCheck(p: Partition, u: User, authorized: bool): Option<Refusal> {
    if OnActive(p, authorized).Some? then OnActive(p, authorized)
    else if LosesLastAdmin(p, u, None) then Some(Conflict)
    else None
  }

  /** What the cloud answers during one pass. */
  datatype Deletion = Absent | StillThere | Failing
  datatype Cloud = Cloud(
    namespace: CloudReply,
    connection: Id -> CloudReply,
    deletion: Id -> Deletion,
    namespaceDeletion: Deletion)

  predicate TakenConnectionName(connections: map<Id, Connection>, name: string) {
    exists c :: c in connections && Lower(connections[c].name) == Lower(name)
  }

  function CreateConnectionCheck(p: Partition, name: string, wellNamed: bool, authorized: bool): Option<Refusal> {
    if OnReady(p, authorized).Some? then OnReady(p, authorized)
    else if !wellNamed then Some(BadRequest)
    else if TakenConnectionName(p.connections, name) then Some(Conflict)
    else None
  }

  /** Some published revision's text is missing or unreadable. */
  predicate Unreadable(parser: Parser, p: Partition, id: Id)
    requires id in p.profiles
  {
    && p.profiles[id].current.Some?
    && ((id, p.profiles[id].current.value) !in p.texts || parser.raw(p.texts[(id, p.profiles[id].current.value)]).None?)
  }

  predicate AllReadable(parser: Parser, p: Partition) {
    forall id :: id in p.profiles ==> !Unreadable(parser, p, id)
  }

  lemma PublishedAreReadable(parser: Parser, p: Partition)
    requires PartInv(parser, p)
    ensures AllReadable(parser, p)
  {
  }

  /** In every run, published texts can be read, so looking for references never fails. */
  lemma PublishedTextsAreReadable(parser: Parser, trace: seq<Step>, k: nat, ws: Id)
    requires Legal(parser, trace) && k <= |trace|
    ensures AllReadable(parser, PartAt(trace, k, ws))
  {
    PartInvAt(parser, trace, k, ws);
  }

  function DeleteConnectionCheck(parser: Parser, p: Partition, c: Id, authorized: bool): Option<Refusal> {
    if OnActive(p, authorized).Some? then OnActive(p, authorized)
    else if c !in p.connections then Some(NotFound)
    else if !Unused(parser, p, p.connections[c].name) then Some(ConnectionInUse)
    else None
  }

  /** `q` is `p` with other connection rows. */
  ghost predicate OnlyConnections(p: Partition, q: Partition) {
    Drifted(p.(connections := q.connections, used := q.used, note := q.note), q)
  }

  function DeleteWorkspaceCheck(p: Partition, authorized: bool): Option<Refusal> {
    if !authorized then Some(Forbidden)
    else if p.workspace.None? then Some(NotFound)
    else if p.connections != map[] then Some(WorkspaceNotEmpty)
    else None
  }

  /** `q` is `p` with another workspace row. */
  ghost predicate OnlyWorkspace(p: Partition, q: Partition) {
    Drifted(p.(workspace := q.workspace, born := q.born, note := q.note), q)
  }

  /** `q` is `p` with other index rows. */
  ghost predicate OnlyIndex(p: Partition, q: Partition) {
    Drifted(p.(index := q.index, note := q.note), q)
  }

  /** `q` is the swept partition `p`. */
  ghost predicate SweptBut(p: Partition, q: Partition) {
    Drifted(p.(note := q.note), q)
  }

  lemma IndexRowSwept(p: Partition, m: Partition, q: Partition, u: User)
    requires SweptBut(p.(index := m.index), m) && SweptBut(m.(index := m.index - {u}), q)
    ensures SweptBut(p.(index := q.index), q) && q.index == m.index - {u}
    ensures q.workspace == m.workspace && q.members == m.members
  {
  }

  lemma OneMoreSwept(p: Partition, m: Partition, q: Partition, id: Id)
    requires SweptBut(p.(profiles := m.profiles), m) && SweptBut(m.(profiles := m.profiles - {id}), q)
    ensures SweptBut(p.(profiles := q.profiles), q) && q.profiles == m.profiles - {id}
    ensures q.workspace == m.workspace && q.gateways == m.gateways
  {
  }

  lemma RevisionSwept(p: Partition, m: Partition, q: Partition, key: (Id, Number))
    requires SweptBut(p.(revisions := m.revisions), m) && SweptBut(m.(revisions := m.revisions - {key}), q)
    ensures SweptBut(p.(revisions := q.revisions), q) && q.revisions == m.revisions - {key}
    ensures q.workspace == m.workspace && q.profiles == m.profiles
  {
  }

  lemma EnrollmentSwept(p: Partition, m: Partition, q: Partition, e: Id)
    requires SweptBut(p, m) && SweptBut(m, q) && e !in q.enrollments
    ensures SweptBut(p, q) && q.workspace == m.workspace
    ensures q.enrollments.Keys <= m.enrollments.Keys - {e}
  {
  }

  /** Only index rows were written since `p`, and only the members in `todo` may still lack theirs. */
  ghost predicate IndexedBut(p: Partition, q: Partition, todo: set<User>) {
    OnlyIndex(p, q) && todo <= q.members.Keys && q.members.Keys - todo <= q.index
  }

  lemma OneMoreIndexed(p: Partition, m: Partition, q: Partition, todo: set<User>, u: User)
    requires IndexedBut(p, m, todo) && u in todo && Drifted(m.(index := m.index + {u}, note := q.note), q)
    ensures IndexedBut(p, q, todo - {u}) && q.workspace == m.workspace
  {
  }

  /** The creation of the workspace was interrupted before its creator was recorded as a member. */
  predicate NeedsRepair(p: Partition) {
    p.workspace.Some? && !p.workspace.value.creatorReady && p.workspace.value.prov.state in {State.Pending, Provisioning}
  }

  function RepairedMembers(p: Partition): map<User, Role> {
    if NeedsRepair(p) && p.workspace.value.createdBy !in p.members
    then p.members[p.workspace.value.createdBy := Admin]
    else p.members
  }

  /** `q` is an active workspace `p` after its creator and index rows were repaired and its namespace perhaps processed. */
  ghost predicate Repaired(p: Partition, q: Partition)
    requires p.workspace.Some?
  {
    var v := p.workspace.value;
    && Active(q) && q.members == RepairedMembers(p) && q.members.Keys <= q.index
    && q.workspace.value == v.(creatorReady := NeedsRepair(p) || v.creatorReady, prov := q.workspace.value.prov)
  }

  /**
    What the repair of an interrupted creation means for admins: afterwards there is one exactly when
    there was one before or the creator was still missing, which is when the repair writes a member.
  */
  lemma RepairGivesAdminExactly(p: Partition, q: Partition)
    requires q.members == RepairedMembers(p)
    ensures AdminPresent(q) <==> AdminPresent(p) || (NeedsRepair(p) && p.workspace.value.createdBy !in p.members)
  {
    if NeedsRepair(p) && p.workspace.value.createdBy !in p.members {
      assert q.members[p.workspace.value.createdBy] == Admin;
    }
  }

  /** What a completed pass did to the namespace of an active workspace. */
  ghost predicate NamespaceProcessed(p: Partition, reply: CloudReply, t0: nat, t1: nat, q: Partition) {
    && p.workspace.Some? && q.workspace.Some?
    && var v, w := p.workspace.value.prov, q.workspace.value.prov;
       if v.state == Ready then w == v
       else Attained(v, reply, t0, t1, w)
  }

  /** One attempt was decided and recorded between `t0` and `t1`. */
  ghost predicate Attained(v: Provision, reply: CloudReply, t0: nat, t1: nat, w: Provision) {
    exists a, b :: t0 <= a <= b <= t1 && w == Attempted(v, reply, a, b)
  }

  /** One attempt decided at `a` and recorded at `b`. */
  function Attempted(v: Provision, reply: CloudReply, a: nat, b: nat): Provision {
    if ShouldRetry(v, a) then Outcome(v.(state := Provisioning), reply, b) else v
  }

  /** What a completed pass between `t0` and `t1` did to connection `c` of `p`. */
  ghost predicate Processed(parser: Parser, p: Partition, c: Id, cloud: Cloud, t0: nat, t1: nat, q: Partition)
    requires c in p.connections
  {
    var row := p.connections[c];
    match row.prov.state
    case Ready => c in q.connections && q.connections[c] == row
    case Deleting =>
      if Unused(parser, p, row.name) && cloud.deletion(c).Absent? then c !in q.connections
      else c in q.connections && q.connections[c] == row
    case _ =>
      && c in q.connections && q.connections[c].name == row.name
      && Attained(row.prov, cloud.connection(c), t0, t1, q.connections[c].prov)
  }

  lemma DeletionProcessed(parser: Parser, p: Partition, c: Id, cloud: Cloud, t0: nat, t1: nat, q: Partition)
    requires c in p.connections && p.connections[c].prov.state == Deleting && Unused(parser, p, p.connections[c].name)
    requires Processed(parser, p, c, cloud, t0, t1, q)
    ensures c !in q.connections <==> cloud.deletion(c).Absent?
    ensures c in q.connections ==> q.connections[c] == p.connections[c]
  {
  }

  /** `q` has the same connections, profiles and texts as `p`. */
  ghost predicate SameServing(p: Partition, q: Partition) {
    q.connections == p.connections && q.profiles == p.profiles && q.texts == p.texts
  }

  /** A whole pass over the connections of `p`. */
  ghost predicate Passed(parser: Parser, p: Partition, cloud: Cloud, t0: nat, t1: nat, q: Partition) {
    && q.connections.Keys <= p.connections.Keys
    && forall c :: c in p.connections ==> Processed(parser, p, c, cloud, t0, t1, q)
  }

  lemma PassedLater(parser: Parser, p: Partition, m: Partition, cloud: Cloud, t0: nat, tm: nat, t1: nat, q: Partition)
    requires SameServing(p, m) && t0 <= tm && Passed(parser, m, cloud, tm, t1, q)
    ensures Passed(parser, p, cloud, t0, t1, q)
  {
    forall c | c in p.connections ensures Processed(parser, p, c, cloud, t0, t1, q) {
      assert Processed(parser, m, c, cloud, tm, t1, q);
      SameReferences(parser, p, m, p.connections[c].name);
    }
  }

  /** Processing `c` between `m` and `q` completes `c` and leaves what was done to `d` before. */
  lemma ProcessedLater(parser: Parser, p: Partition, m: Partition, q: Partition, c: Id, d: Id, cloud: Cloud, t0: nat, tm: nat, t1: nat)
    requires c in p.connections && d in p.connections && c in m.connections && m.connections[c] == p.connections[c]
    requires OnlyConnections(p, m) && t0 <= tm <= t1
    requires q.connections - {c} == m.connections - {c}
    requires Processed(parser, m, c, cloud, tm, t1, q)
    requires d != c ==> Processed(parser, p, d, cloud, t0, tm, m)
    ensures Processed(parser, p, d, cloud, t0, t1, q)
  {
    if d == c {
      assert Unused(parser, p, p.connections[c].name) == Unused(parser, m, p.connections[c].name) by {
        SameReferences(parser, p, m, p.connections[c].name);
      }
    } else {
      RestrictedKeys(m.connections, q.connections, c);
    }
  }

  /** A pass that has still to see the connections `todo`. */
  ghost predicate PassedBut(parser: Parser, p: Partition, todo: set<Id>, cloud: Cloud, t0: nat, t1: nat, q: Partition) {
    && OnlyConnections(p, q) && q.connections.Keys <= p.connections.Keys && todo <= q.connections.Keys
    && (forall c :: c in todo ==> q.connections[c] == p.connections[c])
    && (forall c :: c in p.connections && c !in todo ==> Processed(parser, p, c, cloud, t0, t1, q))
  }

  lemma OneMorePassed(parser: Parser, p: Partition, m: Partition, q: Partition, c: Id, todo: set<Id>, cloud: Cloud,
                      t0: nat, tm: nat, t1: nat)
    requires c in todo && PassedBut(parser, p, todo, cloud, t0, tm, m) && t0 <= tm <= t1
    requires OnlyConnections(m, q) && q.connections - {c} == m.connections - {c}
    requires Processed(parser, m, c, cloud, tm, t1, q)
    ensures PassedBut(parser, p, todo - {c}, cloud, t0, t1, q)
  {
    RestrictedKeys(m.connections, q.connections, c);
    forall d | d in p.connections && d !in todo - {c}
      ensures Processed(parser, p, d, cloud, t0, t1, q)
    {
      ProcessedLater(parser, p, m, q, c, d, cloud, t0, tm, t1);
    }
  }

  /** Maps that agree away from `c` have the same keys away from `c`. */
  lemma RestrictedKeys<V>(m: map<Id, V>, q: map<Id, V>, c: Id)
    requires q - {c} == m - {c} && c in m
    ensures q.Keys <= m.Keys && m.Keys - {c} <= q.Keys
    ensures forall d :: d in m && d != c ==> q[d] == m[d]
  {
    forall d | d != c
      ensures d in m <==> d in q
      ensures d in m ==> m[d] == q[d]
    {
      assert d in m <==> d in m - {c};
      assert d in q <==> d in q - {c};
      if d in m {
        assert (m - {c})[d] == m[d] && (q - {c})[d] == q[d];
      }
    }
  }

  lemma SameReferences(parser: Parser, p: Partition, q: Partition, name: string)
    requires p.profiles == q.profiles && p.texts == q.texts
    ensures Unused(parser, p, name) == Unused(parser, q, name)
  {
    forall id | id in p.profiles
      ensures References(parser, p, id, name) == References(parser, q, id, name)
    {
    }
  }

  /** `published_config`, error by error. */
  function ServeCheck(parser: Parser, p: Partition, profile: Id): Option<Refusal> {
    if p.workspace.None? then Some(NotFound)
    else if p.workspace.value.prov.state != Ready then Some(Conflict)
    else if profile !in p.profiles then Some(NotFound)
    else if p.profiles[profile].current.None? then Some(Conflict)
    else
      var key := (profile, p.profiles[profile].current.value);
      if key.1 == 0 then Some(BadRequest)
      else if key !in p.revisions || key !in p.texts then Some(NotFound)
      else if !Acceptable(parser, p, p.texts[key]) then Some(BadRequest)
      else None
  }

  lemma ServeCheckIsExact(parser: Parser, p: Partition, profile: Id)
    ensures ServeCheck(parser, p, profile).None? <==> Servable(parser, p, profile)
  {
  }

  function MintCheck(parser: Parser, p: Partition, profile: Id, wellNamed: bool): Option<Refusal> {
    if !wellNamed then Some(BadRequest) else ServeCheck(parser, p, profile)
  }

  function RevokeCheck(p: Partition, g: Id, authorized: bool): Option<Refusal> {
    if OnActive(p, authorized).Some? then OnActive(p, authorized)
    else if g !in p.gateways then Some(NotFound)
    else None
  }

  /** `bearer`; `genuine` says that the presented credential is well formed and matches the stored digest. */
  function BearerCheck(p: Partition, g: Id, genuine: bool): Option<Refusal> {
    if g !in p.gateways || p.gateways[g].revoked || !genuine then Some(Unauthorized)
    else OnReady(p, true)
  }

  function ConfigCheck(parser: Parser, p: Partition, g: Id, genuine: bool): Option<Refusal> {
    if BearerCheck(p, g, genuine).Some? then BearerCheck(p, g, genuine)
    else ServeCheck(parser, p, p.gateways[g].profile)
  }

  datatype Right = Send | Listen

  predicate Permits(c: Config, name: string, right: Right) {
    match right
    case Send => name in c.localNames
    case Listen => name in c.remoteNames
  }

  function TokenCheck(parser: Parser, p: Partition, g: Id, name: string, right: Right, wellFormed: bool, genuine: bool)
    : Option<Refusal>
  {
    if BearerCheck(p, g, genuine).Some? then BearerCheck(p, g, genuine)
    else if !wellFormed then Some(BadRequest)
    else if ServeCheck(parser, p, p.gateways[g].profile).Some? then ServeCheck(parser, p, p.gateways[g].profile)
    else if !Permits(Managed(parser, PublishedText(p, p.gateways[g].profile)).value, name, right) then Some(Forbidden)
    else None
  }

  function StatusCheck(parser: Parser, p: Partition, g: Id, applied: Number, wellFormed: bool, genuine: bool)
    : Option<Refusal>
  {
    if BearerCheck(p, g, genuine).Some? then BearerCheck(p, g, genuine)
    else if !wellFormed then Some(BadRequest)
    else if ServeCheck(parser, p, p.gateways[g].profile).Some? then ServeCheck(parser, p, p.gateways[g].profile)
    else if applied == 0 || applied > p.profiles[p.gateways[g].profile].current.value then Some(BadRequest)
    else None
  }

  /** The gateway's row reports `applied`, a number from 1 to the published one of its profile, and is otherwise as it was. */
  predicate ReportsApplied(p: Partition, q: Partition, g: Id, applied: Number) {
    && g in p.gateways && g in q.gateways && p.gateways[g].profile in p.profiles
    && p.profiles[p.gateways[g].profile].current.Some?
    && 1 <= applied <= p.profiles[p.gateways[g].profile].current.value
    && q.gateways[g].applied == Some(applied)
    && q.gateways[g].profile == p.gateways[g].profile && !q.gateways[g].revoked
  }

  /** `resolved`: the request names exactly one workspace and one profile, and the gateway name is valid. */
  function StartCheck(parser: Parser, p: Partition, profile: Id, resolved: bool): Option<Refusal> {
    if !resolved then Some(BadRequest) else ServeCheck(parser, p, profile)
  }

  /** A permitted relay name belongs to a Ready connection. */
  lemma PermittedIsReady(parser: Parser, p: Partition, profile: Id, name: string, right: Right)
    requires Servable(parser, p, profile)
    requires Permits(Managed(parser, PublishedText(p, profile)).value, name, right)
    ensures ServedByReady(p, name)
  {
    assert name in RelayNames(Managed(parser, PublishedText(p, profile)).value);
    assert name in ReadyNames(p);
  }

  /** In every run, a gateway that passes authentication is never refused its configuration. */
  lemma AuthenticatedGatewayIsServed(parser: Parser, trace: seq<Step>, k: nat, ws: Id, g: Id)
    requires Legal(parser, trace) && k <= |trace|
    requires BearerCheck(PartAt(trace, k, ws), g, true).None?
    ensures ConfigCheck(parser, PartAt(trace, k, ws), g, true).None?
  {
    UnrevokedGatewaysAreServable(parser, trace, k, ws, g);
    ServeCheckIsExact(parser, PartAt(trace, k, ws), PartAt(trace, k, ws).gateways[g].profile);
  }

  // ---------- Plans: the steps of an uninterrupted request ----------

  function RevisionPlan(p: Partition, id: Id, yaml: string): seq<Action> {
    if id !in p.profiles then []
    else
      var n := p.profiles[id].next;
      [PutProfile(id, p.profiles[id].(next := n + 1)), PutText(id, n, yaml), PutRevision(id, n)]
  }

  lemma RevisionPrefixes(p: Partition, id: Id, row: Profile, yaml: string, before: seq<Action>)
    requires id in p.profiles && p.profiles[id] == row && before == []
    ensures var first, plan := before + [PutProfile(id, row.(next := row.next + 1))], RevisionPlan(p, id, yaml);
            && before <= plan && first <= plan && first + [PutText(id, row.next, yaml)] <= plan
            && first + [PutText(id, row.next, yaml), PutRevision(id, row.next)] == plan
  {
  }

  function InitialPlan(creator: User): seq<Action> {
    [PutWorkspace(Workspace(creator, FRESH, false, {})), PutMember(creator, Admin), PutIndex(creator),
     PutWorkspace(Workspace(creator, FRESH, true, {}))]
  }

  function IndexPlan(p: Partition, u: User): seq<Action> {
    if u in p.index then [] else [PutIndex(u)]
  }

  function NewGateway(profile: Id): Gateway {
    Gateway(profile, false, None, None)
  }

  datatype PollReply = Pending(interval: nat) | SlowDown(interval: nat) | Authorized(gateway: Id) | Expired | Denied

  /** The answer leaves no enrollment: it expired, was denied, or was found missing. */
  ghost predicate Over(r: Reply<PollReply>) {
    r.Refused? || (r.Done? && (r.value.Expired? || r.value.Denied?))
  }

  /** The enrollment is consumed and its gateway is live and can be served. */
  ghost predicate GatewayFor(parser: Parser, p: Partition, e: Id, g: Id, profile: Id) {
    && e !in p.enrollments
    && g in p.gateways && !p.gateways[g].revoked && p.gateways[g].profile == profile
    && Servable(parser, p, profile)
  }

  /** The writes that settle the poll reserved at `at`, once the device endpoint answered `poll`. */
  function SettlePlan(e: Id, g: Id, row: Enrollment, at: nat, poll: DevicePoll): seq<Action> {
    match poll
    case Pending => []
    case SlowDown => [PutEnrollment(e, Slowed(row, at))]
    case Authorized => [DropEnrollment(e), PutGateway(g, NewGateway(row.profile))]
    case _ => [DropEnrollment(e)]
  }

  function SettleAnswer(g: Id, row: Enrollment, at: nat, poll: DevicePoll): PollReply {
    match poll
    case Pending => PollReply.Pending(row.interval)
    case SlowDown => PollReply.SlowDown(Slowed(row, at).interval)
    case Authorized => PollReply.Authorized(g)
    case Expired => PollReply.Expired
    case Denied => PollReply.Denied
  }

  /** The writes of a whole poll of `row` read at `now`. */
  function PollPlan(e: Id, g: Id, row: Enrollment, now: nat, poll: DevicePoll): seq<Action> {
    if row.expiresAt <= now then [DropEnrollment(e)]
    else
      [PutEnrollment(e, Reserve(row, now))]
      + (if Early(row, now) then [] else SettlePlan(e, g, Reserve(row, now), now, poll))
  }

  function PollAnswer(g: Id, row: Enrollment, now: nat, poll: DevicePoll): PollReply {
    if row.expiresAt <= now then PollReply.Expired
    else if Early(row, now) then PollReply.SlowDown(Reserve(row, now).interval)
    else SettleAnswer(g, Reserve(row, now), now, poll)
  }

  /**
    The writes follow the plan. An answer means that all of it was done and is the planned one, unless
    everything but the final gateway write was done and the enrollment had expired or the role was missing.
  */
  ghost predicate Concluded(before: seq<Action>, after: seq<Action>, plan: seq<Action>, answer: PollReply, role: bool,
                            r: Reply<PollReply>)
  {
    && before <= after && after[|before|..] <= plan
    && (r.Done? ==>
          || (after[|before|..] == plan && r.value == answer)
          || (answer.Authorized? && |after| == |before| + |plan| - 1
              && (r.value == PollReply.Expired || (r.value == PollReply.Denied && !role))))
  }

  lemma ConcludedAtOnce(journal: seq<Action>, plan: seq<Action>, answer: PollReply, role: bool, r: Reply<PollReply>)
    requires journal <= plan && (r.Done? ==> journal == plan && r.value == answer)
    ensures Concluded([], journal, plan, answer, role, r)
  {
    assert journal[0..] == journal;
  }

  lemma ConcludedAfter(journal: seq<Action>, first: Action, plan: seq<Action>, answer: PollReply, role: bool, r: Reply<PollReply>)
    requires Concluded([first], journal, plan, answer, role, r)
    ensures Concluded([], journal, [first] + plan, answer, role, r)
  {
    assert journal == [first] + journal[1..];
    assert journal[0..] == journal;
  }

  // ---------- Reads shared by the handlers ----------

  /** `active_workspace`. */
  method ActiveWorkspace(p: Partition) returns (r: Reply<Workspace>)
    ensures match OnActive(p, true)
            case None => p.workspace.Some? && r == Done(p.workspace.value)
            case Some(why) => r == Refused(why)
  {
    if p.workspace.None? {
      return Refused(NotFound);
    }
    if p.workspace.value.prov.state == Deleting {
      return Refused(Conflict);
    }
    return Done(p.workspace.value);
  }

  /** `workspace` with `ready`, and `ready_workspace`. */
  method ReadyWorkspace(p: Partition) returns (r: Reply<Workspace>)
    ensures match OnReady(p, true)
            case None => p.workspace.Some? && r == Done(p.workspace.value)
            case Some(why) => r == Refused(why)
  {
    if p.workspace.None? {
      return Refused(NotFound);
    }
    if p.workspace.value.prov.state != Ready {
      return Refused(Conflict);
    }
    return Done(p.workspace.value);
  }

  method FindProfile(p: Partition, id: Id) returns (r: Reply<Profile>)
    ensures r == if id in p.profiles then Done(p.profiles[id]) else Refused(NotFound)
  {
    if id !in p.profiles {
      return Refused(NotFound);
    }
    return Done(p.profiles[id]);
  }

  /** `revision`: the metadata row first, then the text. */
  method FindRevision(p: Partition, id: Id, number: Number) returns (r: Reply<string>)
    ensures r == if number == 0 then Refused(BadRequest)
                 else if (id, number) in p.revisions && (id, number) in p.texts then Done(p.texts[(id, number)])
                 else Refused(NotFound)
  {
    if number == 0 {
      return Refused(BadRequest);
    }
    if (id, number) !in p.revisions {
      return Refused(NotFound);
    }
    if (id, number) !in p.texts {
      return Refused(NotFound);
    }
    return Done(p.texts[(id, number)]);
  }

  /** The names of the Ready connections among the listed rows. */
  method CollectReady(p: Partition) returns (names: set<string>)
    ensures names == ReadyNames(p)
  {
    names := {};
    var todo := p.connections.Keys;
    while todo != {}
      invariant todo <= p.connections.Keys
      invariant names == ReadyAmong(p, p.connections.Keys - todo)
    {
      var c :| c in todo;
      assert p.connections.Keys - (todo - {c}) == (p.connections.Keys - todo) + {c};
      OneMoreReady(p, p.connections.Keys - todo, c);
      if p.connections[c].prov.state == Ready {
        names := names + {p.connections[c].name};
      }
      todo := todo - {c};
    }
    assert p.connections.Keys - {} == p.connections.Keys;
  }

  ghost function ReadyAmong(p: Partition, ids: set<Id>): set<string>
    requires ids <= p.connections.Keys
  {
    set c | c in ids && p.connections[c].prov.state == Ready :: p.connections[c].name
  }

  lemma OneMoreReady(p: Partition, ids: set<Id>, c: Id)
    requires ids <= p.connections.Keys && c in p.connections
    ensures ReadyAmong(p, ids + {c}) ==
            ReadyAmong(p, ids) + (if p.connections[c].prov.state == Ready then {p.connections[c].name} else {})
  {
  }

  /** One error for every relay name that is not Ready. */
  method UnknownRelays(c: Config, ready: set<string>) returns (errors: seq<string>)
    ensures errors == [] <==> RelayNames(c) <= ready
  {
    var names := c.localNames + c.remoteNames;
    errors := [];
    var i := 0;
    while i < |names|
      invariant 0 <= i <= |names|
      invariant errors == [] <==> forall j :: 0 <= j < i ==> names[j] in ready
    {
      if names[i] !in ready {
        errors := errors + [names[i]];
      }
      i := i + 1;
    }
    assert forall n :: n in RelayNames(c) <==> n in names;
  }

  /** `check_config`: the configuration, or none with a list of complaints. */
  method CheckConfig(parser: Parser, p: Partition, yaml: string) returns (r: Reply<Option<Config>>)
    ensures OnReady(p, true).Some? ==> r == Refused(OnReady(p, true).value)
    ensures OnReady(p, true).None? ==> r == Done(if Acceptable(parser, p, yaml) then Managed(parser, yaml) else None)
  {
    var w := ReadyWorkspace(p);
    if w.Refused? {
      return Refused(w.why);
    }
    var config := Managed(parser, yaml);
    if config.None? {
      return Done(None);
    }
    var ready := CollectReady(p);
    var errors := UnknownRelays(config.value, ready);
    return Done(if errors == [] then config else None);
  }

  /** `validate_config`. */
  method ValidateConfig(parser: Parser, p: Partition, yaml: string) returns (r: Reply<Config>)
    ensures OnReady(p, true).Some? ==> r == Refused(OnReady(p, true).value)
    ensures OnReady(p, true).None? ==>
              r == if Acceptable(parser, p, yaml) then Done(Managed(parser, yaml).value) else Refused(BadRequest)
  {
    var checked := CheckConfig(parser, p, yaml);
    if checked.Refused? {
      return Refused(checked.why);
    }
    if checked.value.None? {
      return Refused(BadRequest);
    }
    return Done(checked.value.value);
  }

  /** `published_config`: the number of the published revision and its configuration. */
  method PublishedConfig(parser: Parser, p: Partition, id: Id) returns (r: Reply<(Number, Config)>)
    ensures r.Done? <==> Servable(parser, p, id)
    ensures r.Done? ==> r.value == (p.profiles[id].current.value, Managed(parser, PublishedText(p, id)).value)
    ensures !r.Done? ==> ServeCheck(parser, p, id).Some? && r == Refused(ServeCheck(parser, p, id).value)
  {
    var w := ReadyWorkspace(p);
    if w.Refused? {
      return Refused(w.why);
    }
    var row := FindProfile(p, id);
    if row.Refused? {
      return Refused(row.why);
    }
    if row.value.current.None? {
      return Refused(Conflict);
    }
    var number := row.value.current.value;
    var text := FindRevision(p, id, number);
    if text.Refused? {
      return Refused(text.why);
    }
    var config := ValidateConfig(parser, p, text.value);
    if config.Refused? {
      return Refused(config.why);
    }
    return Done((number, config.value));
  }

  /** `bearer`: the row of the gateway that presented a credential. */
  method Bearer(p: Partition, g: Id, genuine: bool) returns (r: Reply<Gateway>)
    ensures match BearerCheck(p, g, genuine)
            case None => g in p.gateways && r == Done(p.gateways[g])
            case Some(why) => r == Refused(why)
  {
    if g !in p.gateways {
      return Refused(Unauthorized);
    }
    if p.gateways[g].revoked || !genuine {
      return Refused(Unauthorized);
    }
    var w := ReadyWorkspace(p);
    if w.Refused? {
      return Refused(w.why);
    }
    return Done(p.gateways[g]);
  }

  /** In a state that satisfies the invariant, authentication fails only for the credential's own reasons. */
  lemma BearerFailsOnlyUnauthorized(parser: Parser, p: Partition, g: Id, genuine: bool)
    requires PartInv(parser, p)
    ensures BearerCheck(p, g, genuine) ==
            if g in p.gateways && !p.gateways[g].revoked && genuine then None else Some(Unauthorized)
    ensures BearerCheck(p, g, genuine).None? ==>
              Servable(parser, p, p.gateways[g].profile) && ServeCheck(parser, p, p.gateways[g].profile).None?
  {
    if g in p.gateways && !p.gateways[g].revoked {
      PublishedIsServable(parser, p, p.gateways[g].profile);
      ServeCheckIsExact(parser, p, p.gateways[g].profile);
    }
  }

  // ---------- Admission: a handler's reads up to its first write ----------

  function Verdict<T>(why: Option<Refusal>, value: T): Reply<T> {
    match why
    case None => Done(value)
    case Some(w) => Refused(w)
  }

  method AdmitProfile(p: Partition, name: string, wellNamed: bool, authorized: bool) returns (r: Reply<()>)
    ensures r == Verdict(CreateProfileCheck(p, name, wellNamed, authorized), ())
  {
    if !authorized {
      return Refused(Forbidden);
    }
    var w := ReadyWorkspace(p);
    if w.Refused? {
      return Refused(w.why);
    }
    if !wellNamed {
      return Refused(BadRequest);
    }
    var taken := NameTaken(p.profiles, name);
    if taken {
      return Refused(Conflict);
    }
    return Done(());
  }

  method AdmitProfileDeletion(p: Partition, id: Id, authorized: bool) returns (r: Reply<()>)
    ensures r == Verdict(DeleteProfileCheck(p, id, authorized), ())
  {
    if !authorized {
      return Refused(Forbidden);
    }
    var w := ReadyWorkspace(p);
    if w.Refused? {
      return Refused(w.why);
    }
    var row := FindProfile(p, id);
    if row.Refused? {
      return Refused(row.why);
    }
    var used := ProfileUsed(p, id);
    if used {
      return Refused(ProfileInUse);
    }
    return Done(());
  }

  method AdmitRevision(parser: Parser, p: Partition, id: Id, yaml: string, authorized: bool) returns (r: Reply<Profile>)
    ensures match CreateRevisionCheck(parser, p, id, yaml, authorized)
            case None => id in p.profiles && r == Done(p.profiles[id])
            case Some(why) => r == Refused(why)
  {
    if !authorized {
      return Refused(Forbidden);
    }
    var w := ReadyWorkspace(p);
    if w.Refused? {
      return Refused(w.why);
    }
    var row := FindProfile(p, id);
    if row.Refused? {
      return Refused(row.why);
    }
    var valid := ValidateConfig(parser, p, yaml);
    if valid.Refused? {
      return Refused(valid.why);
    }
    var number := row.value.next;
    if number == 0 {
      return Refused(Conflict);
    }
    if number >= MAX_U64 {
      return Refused(Conflict);
    }
    return row;
  }

  method AdmitPublication(parser: Parser, p: Partition, id: Id, number: Number, expected: Option<Number>, authorized: bool)
    returns (r: Reply<Profile>)
    ensures match PublishCheck(parser, p, id, number, expected, authorized)
            case None => id in p.profiles && r == Done(p.profiles[id])
            case Some(why) => r == Refused(why)
  {
    if !authorized {
      return Refused(Forbidden);
    }
    var w := ReadyWorkspace(p);
    if w.Refused? {
      return Refused(w.why);
    }
    var row := FindProfile(p, id);
    if row.Refused? {
      return Refused(row.why);
    }
    if row.value.current != expected {
      return Refused(Conflict);
    }
    var text := FindRevision(p, id, number);
    if text.Refused? {
      return Refused(text.why);
    }
    var valid := ValidateConfig(parser, p, text.value);
    if valid.Refused? {
      return Refused(valid.why);
    }
    return row;
  }

  method AdmitMember(p: Partition, u: User, role: Role, authorized: bool) returns (r: Reply<bool>)
    ensures r == Verdict(CreateMemberCheck(p, u, role, authorized), u in p.members)
  {
    if !authorized {
      return Refused(Forbidden);
    }
    var w := ActiveWorkspace(p);
    if w.Refused? {
      return Refused(w.why);
    }
    if u in p.members {
      if p.members[u] != role {
        return Refused(Conflict);
      }
      return Done(true);
    }
    return Done(false);
  }

  method AdmitRoleChange(p: Partition, u: User, role: Role, authorized: bool) returns (r: Reply<()>)
    ensures r == Verdict(UpdateMemberCheck(p, u, role, authorized), ())
  {
    if !authorized {
      return Refused(Forbidden);
    }
    var w := ActiveWorkspace(p);
    if w.Refused? {
      return Refused(w.why);
    }
    if u !in p.members {
      return Refused(NotFound);
    }
    var safe := ProtectLastAdmin(p, u, Some(role));
    if !safe {
      return Refused(Conflict);
    }
    return Done(());
  }

  method AdmitRemoval(p: Partition, u: User, authorized: bool) returns (r: Reply<bool>)
    ensures r == Verdict(DeleteMemberCheck(p, u, authorized), u in p.members)
  {
    if !authorized {
      return Refused(Forbidden);
    }
    var w := ActiveWorkspace(p);
    if w.Refused? {
      return Refused(w.why);
    }
    if u !in p.members {
      return Done(false);
    }
    var safe := ProtectLastAdmin(p, u, None);
    if !safe {
      return Refused(Conflict);
    }
    return Done(true);
  }

  method AdmitGateway(parser: Parser, p: Partition, profile: Id, wellNamed: bool) returns (r: Reply<()>)
    ensures r == Verdict(MintCheck(parser, p, profile, wellNamed), ())
    ensures r.Done? ==> Servable(parser, p, profile)
  {
    if !wellNamed {
      return Refused(BadRequest);
    }
    var w := ReadyWorkspace(p);
    if w.Refused? {
      return Refused(w.why);
    }
    var config := PublishedConfig(parser, p, profile);
    if config.Refused? {
      return Refused(config.why);
    }
    return Done(());
  }

  method AdmitRevocation(p: Partition, g: Id, authorized: bool) returns (r: Reply<Gateway>)
    ensures match RevokeCheck(p, g, authorized)
            case None => g in p.gateways && r == Done(p.gateways[g])
            case Some(why) => r == Refused(why)
  {
    if !authorized {
      return Refused(Forbidden);
    }
    var w := ActiveWorkspace(p);
    if w.Refused? {
      return Refused(w.why);
    }
    if g !in p.gateways {
      return Refused(NotFound);
    }
    return Done(p.gateways[g]);
  }

  method ServeGateway(parser: Parser, p: Partition, g: Id, genuine: bool) returns (r: Reply<(Number, Config)>)
    ensures match ConfigCheck(parser, p, g, genuine)
            case None =>
              && g in p.gateways && Servable(parser, p, p.gateways[g].profile)
              && r == Done((p.profiles[p.gateways[g].profile].current.value,
                            Managed(parser, PublishedText(p, p.gateways[g].profile)).value))
            case Some(why) => r == Refused(why)
  {
    var row := Bearer(p, g, genuine);
    if row.Refused? {
      return Refused(row.why);
    }
    var config := PublishedConfig(parser, p, row.value.profile);
    if config.Refused? {
      return Refused(config.why);
    }
    return config;
  }

  method AdmitToken(parser: Parser, p: Partition, g: Id, name: string, right: Right, wellFormed: bool, genuine: bool)
    returns (r: Reply<Gateway>)
    ensures match TokenCheck(parser, p, g, name, right, wellFormed, genuine)
            case None => g in p.gateways && r == Done(p.gateways[g]) && ServedByReady(p, name)
            case Some(why) => r == Refused(why)
  {
    var row := Bearer(p, g, genuine);
    if row.Refused? {
      return Refused(row.why);
    }
    if !wellFormed {
      return Refused(BadRequest);
    }
    var config := PublishedConfig(parser, p, row.value.profile);
    if config.Refused? {
      return Refused(config.why);
    }
    if !Permits(config.value.1, name, right) {
      return Refused(Forbidden);
    }
    PermittedIsReady(parser, p, row.value.profile, name, right);
    return row;
  }

  method AdmitStatus(parser: Parser, p: Partition, g: Id, applied: Number, wellFormed: bool, genuine: bool)
    returns (r: Reply<Gateway>)
    ensures match StatusCheck(parser, p, g, applied, wellFormed, genuine)
            case None => g in p.gateways && r == Done(p.gateways[g])
            case Some(why) => r == Refused(why)
  {
    var row := Bearer(p, g, genuine);
    if row.Refused? {
      return Refused(row.why);
    }
    if !wellFormed {
      return Refused(BadRequest);
    }
    var config := PublishedConfig(parser, p, row.value.profile);
    if config.Refused? {
      return Refused(config.why);
    }
    if applied == 0 {
      return Refused(BadRequest);
    }
    if applied > config.value.0 {
      return Refused(BadRequest);
    }
    return row;
  }

  method AdmitConnection(p: Partition, name: string, wellNamed: bool, authorized: bool) returns (r: Reply<()>)
    ensures r == Verdict(CreateConnectionCheck(p, name, wellNamed, authorized), ())
  {
    if !authorized {
      return Refused(Forbidden);
    }
    var w := ReadyWorkspace(p);
    if w.Refused? {
      return Refused(w.why);
    }
    if !wellNamed {
      return Refused(BadRequest);
    }
    var taken := ConnectionNameTaken(p.connections, name);
    if taken {
      return Refused(Conflict);
    }
    return Done(());
  }

  method AdmitEnrollment(parser: Parser, p: Partition, profile: Id, resolved: bool) returns (r: Reply<()>)
    ensures r == Verdict(StartCheck(parser, p, profile, resolved), ())
    ensures r.Done? ==> Servable(parser, p, profile)
  {
    if !resolved {
      return Refused(BadRequest);
    }
    var config := PublishedConfig(parser, p, profile);
    if config.Refused? {
      return Refused(config.why);
    }
    return Done(());
  }

  // ---------- Questions answered by loops over listed rows ----------

  method ConnectionNameTaken(connections: map<Id, Connection>, name: string) returns (taken: bool)
    ensures taken == TakenConnectionName(connections, name)
  {
    var todo := connections.Keys;
    while todo != {}
      invariant todo <= connections.Keys
      invariant forall c :: c in connections.Keys - todo ==> Lower(connections[c].name) != Lower(name)
    {
      var c :| c in todo;
      if Lower(connections[c].name) == Lower(name) {
        return true;
      }
      todo := todo - {c};
    }
    return false;
  }

  /** `connection_in_use`: only published revisions protect a connection. */
  method IsInUse(parser: Parser, p: Partition, name: string) returns (r: Reply<bool>)
    ensures !r.Abandoned?
    ensures r.Done? ==> r.value == !Unused(parser, p, name)
    ensures r.Refused? ==> r.why == Conflict && exists id :: id in p.profiles && Unreadable(parser, p, id)
  {
    var todo := p.profiles.Keys;
    while todo != {}
      invariant todo <= p.profiles.Keys
      invariant forall id :: id in p.profiles.Keys - todo ==> !References(parser, p, id, name)
    {
      var id :| id in todo;
      todo := todo - {id};
      if p.profiles[id].current.Some? {
        var key := (id, p.profiles[id].current.value);
        if key !in p.texts || parser.raw(p.texts[key]).None? {
          assert Unreadable(parser, p, id);
          return Refused(Conflict);
        }
        if References(parser, p, id, name) {
          return Done(true);
        }
      }
    }
    return Done(false);
  }

  predicate UsedProfile(p: Partition, id: Id) {
    exists g :: g in p.gateways && Uses(p, g, id)
  }

  method ProfileUsed(p: Partition, id: Id) returns (used: bool)
    ensures used == UsedProfile(p, id)
  {
    var todo := p.gateways.Keys;
    while todo != {}
      invariant todo <= p.gateways.Keys
      invariant forall g :: g in p.gateways.Keys - todo ==> !Uses(p, g, id)
    {
      var g :| g in todo;
      if p.gateways[g].profile == id && !p.gateways[g].revoked {
        assert Uses(p, g, id);
        return true;
      }
      todo := todo - {g};
    }
    return false;
  }

  predicate Uses(p: Partition, g: Id, profile: Id) {
    g in p.gateways && p.gateways[g].profile == profile && !p.gateways[g].revoked
  }

  predicate TakenName(profiles: map<Id, Profile>, name: string) {
    exists id :: id in profiles && Lower(profiles[id].name) == Lower(name)
  }

  method NameTaken(profiles: map<Id, Profile>, name: string) returns (taken: bool)
    ensures taken == TakenName(profiles, name)
  {
    var todo := profiles.Keys;
    while todo != {}
      invariant todo <= profiles.Keys
      invariant forall id :: id in profiles.Keys - todo ==> Lower(profiles[id].name) != Lower(name)
    {
      var id :| id in todo;
      if Lower(profiles[id].name) == Lower(name) {
        return true;
      }
      todo := todo - {id};
    }
    return false;
  }

  function Admins(members: map<User, Role>): set<User> {
    set u | u in members && members[u] == Admin
  }

  method ProtectLastAdmin(p: Partition, u: User, role: Option<Role>) returns (safe: bool)
    requires u in p.members
    ensures safe == !LosesLastAdmin(p, u, role)
  {
    if p.members[u] != Admin || role == Some(Admin) {
      return true;
    }
    var admins := 0;
    var todo := p.members.Keys;
    while todo != {}
      invariant todo <= p.members.Keys
      invariant admins == |Admins(p.members) - todo|
    {
      var v :| v in todo;
      if p.members[v] == Admin {
        assert Admins(p.members) - (todo - {v}) == (Admins(p.members) - todo) + {v};
        admins := admins + 1;
      } else {
        assert Admins(p.members) - (todo - {v}) == Admins(p.members) - todo;
      }
      todo := todo - {v};
    }
    assert Admins(p.members) - todo == Admins(p.members);
    SecondAdmin(p, u);
    return admins > 1;
  }

  lemma SecondAdmin(p: Partition, u: User)
    requires u in p.members && p.members[u] == Admin
    ensures |Admins(p.members)| > 1 <==> OtherAdmin(p, u)
  {
    var others := Admins(p.members) - {u};
    assert Admins(p.members) == others + {u};
    if others != {} {
      var v :| v in others;
      assert v in p.members && v != u && p.members[v] == Admin;
    }
    if OtherAdmin(p, u) {
      var v :| v in p.members && v != u && p.members[v] == Admin;
      assert v in others;
    }
  }
}
