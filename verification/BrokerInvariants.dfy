/** What every enabled write keeps true of a partition. */
module BrokerInvariants {
  import opened Util
  import opened BrokerModel

  // ---------- The invariant, clause by clause ----------

  /** Which rows may exist in which life phase of the workspace. */
  ghost predicate LifecycleInv(p: Partition) {
    && (p.workspace.None? ==> SweptClean(p))
    && (p.workspace.Some? ==> p.born)
    && (p.workspace.Some? && !InState(p, Ready) && !InState(p, Deleting) ==> SweptClean(p.(members := map[])))
    && (InState(p, Deleting) ==> p.connections == map[])
    && (p.note == NamespaceGone ==> InState(p, Deleting) && SweptClean(p))
  }

  /** Rows and texts only ever carry ids that were handed out. */
  ghost predicate IdInv(p: Partition) {
    && p.profiles.Keys <= p.used
    && p.connections.Keys <= p.used
    && p.gateways.Keys <= p.used
    && p.enrollments.Keys <= p.used
    && (forall k :: k in p.texts ==> k.0 in p.used)
  }

  /** A listed revision is stored, and every stored number was handed out before. */
  ghost predicate RevisionInv(p: Partition) {
    && (forall id :: id in p.profiles ==> 1 <= p.profiles[id].next <= MAX_U64)
    && (forall k :: k in p.texts ==> k.1 != 0)
    && (forall k :: k in p.texts && k.0 in p.profiles ==> k.1 < p.profiles[k.0].next)
    && p.revisions <= p.texts.Keys
  }

  /** Published revisions are listed, stored, and mention only Ready connections. */
  ghost predicate PublishedInv(parser: Parser, p: Partition) {
    forall id :: id in p.profiles && p.profiles[id].current.Some? ==>
      HasPublishedText(p, id) && Acceptable(parser, p, PublishedText(p, id))
  }

  /** Unrevoked gateways belong to published profiles. */
  ghost predicate GatewayInv(p: Partition) {
    forall g :: g in p.gateways && !p.gateways[g].revoked ==>
      p.gateways[g].profile in p.profiles && p.profiles[p.gateways[g].profile].current.Some?
  }

  /** The failure count stays within bounds, and reaches the bound only in state Failed. */
  predicate CountInv(v: Provision) {
    && v.attempts <= MAX_ATTEMPTS
    && (v.attempts == MAX_ATTEMPTS ==> v.state == Failed)
    && (v.state in {Ready, Deleting} ==> v.attempts == 0)
  }

  ghost predicate CountsInv(p: Partition) {
    && (p.workspace.Some? ==> CountInv(p.workspace.value.prov))
    && (forall c :: c in p.connections ==> CountInv(p.connections[c].prov))
  }

  /** Every clause but the one about published texts. */
  ghost predicate RowsInv(p: Partition) {
    LifecycleInv(p) && IdInv(p) && RevisionInv(p) && GatewayInv(p) && CountsInv(p)
  }

  ghost predicate PartInv(parser: Parser, p: Partition) {
    RowsInv(p) && PublishedInv(parser, p)
  }

  ghost predicate DbInv(parser: Parser, db: Db) {
    forall ws :: ws in db.parts ==> PartInv(parser, db.parts[ws])
  }

  // ---------- Consequences ----------

  /** A published profile keeps a connection alive, hence the workspace Ready. */
  lemma PublishedNeedsReady(parser: Parser, p: Partition, id: Id)
    requires PartInv(parser, p)
    requires id in p.profiles && p.profiles[id].current.Some?
    ensures p.connections != map[]
    ensures InState(p, Ready)
  {
    var c := Managed(parser, PublishedText(p, id)).value;
    var names := c.localNames + c.remoteNames;
    assert names[0] in RelayNames(c);
    assert names[0] in ReadyNames(p);
  }

  /** Every published profile can be served. */
  lemma PublishedIsServable(parser: Parser, p: Partition, id: Id)
    requires PartInv(parser, p)
    requires id in p.profiles && p.profiles[id].current.Some?
    ensures Servable(parser, p, id)
  {
    PublishedNeedsReady(parser, p, id);
  }

  // ---------- Preservation ----------

  lemma WorkspacePutKeeps(parser: Parser, p: Partition, now: nat, a: Action)
    requires PartInv(parser, p) && Enabled(parser, p, now, a)
    requires a.PutWorkspace?
    ensures RowsInv(Apply(p, a))
  {
  }

  lemma WorkspaceDropKeeps(parser: Parser, p: Partition, now: nat, a: Action)
    requires PartInv(parser, p) && Enabled(parser, p, now, a)
    requires a.DropWorkspace?
    ensures RowsInv(Apply(p, a))
  {
  }

  lemma MemberWritesKeep(parser: Parser, p: Partition, now: nat, a: Action)
    requires PartInv(parser, p) && Enabled(parser, p, now, a)
    requires a.PutMember? || a.DropMember?
    ensures RowsInv(Apply(p, a))
  {
  }

  lemma IndexWritesKeep(parser: Parser, p: Partition, now: nat, a: Action)
    requires PartInv(parser, p) && Enabled(parser, p, now, a)
    requires a.PutIndex? || a.DropIndex?
    ensures RowsInv(Apply(p, a))
  {
  }

  lemma ConnectionPutKeeps(parser: Parser, p: Partition, now: nat, a: Action)
    requires PartInv(parser, p) && Enabled(parser, p, now, a)
    requires a.PutConnection?
    ensures RowsInv(Apply(p, a))
  {
  }

  lemma ConnectionDropKeeps(parser: Parser, p: Partition, now: nat, a: Action)
    requires PartInv(parser, p) && Enabled(parser, p, now, a)
    requires a.DropConnection?
    ensures RowsInv(Apply(p, a))
  {
  }

  lemma ProfilePutKeeps(parser: Parser, p: Partition, now: nat, a: Action)
    requires PartInv(parser, p) && Enabled(parser, p, now, a)
    requires a.PutProfile?
    ensures RowsInv(Apply(p, a))
  {
  }

  lemma ProfileDropKeeps(parser: Parser, p: Partition, now: nat, a: Action)
    requires PartInv(parser, p) && Enabled(parser, p, now, a)
    requires a.DropProfile?
    ensures RowsInv(Apply(p, a))
  {
  }

  lemma TextPutKeeps(parser: Parser, p: Partition, now: nat, a: Action)
    requires PartInv(parser, p) && Enabled(parser, p, now, a)
    requires a.PutText?
    ensures RowsInv(Apply(p, a))
  {
  }

  lemma RevisionWritesKeep(parser: Parser, p: Partition, now: nat, a: Action)
    requires PartInv(parser, p) && Enabled(parser, p, now, a)
    requires a.PutRevision? || a.DropRevision?
    ensures RowsInv(Apply(p, a))
  {
  }

  lemma GatewayPutKeeps(parser: Parser, p: Partition, now: nat, a: Action)
    requires PartInv(parser, p) && Enabled(parser, p, now, a)
    requires a.PutGateway?
    ensures RowsInv(Apply(p, a))
  {
  }

  lemma GatewayDropKeeps(parser: Parser, p: Partition, now: nat, a: Action)
    requires PartInv(parser, p) && Enabled(parser, p, now, a)
    requires a.DropGateway?
    ensures RowsInv(Apply(p, a))
  {
  }

  lemma EnrollmentPutKeeps(parser: Parser, p: Partition, now: nat, a: Action)
    requires PartInv(parser, p) && Enabled(parser, p, now, a)
    requires a.PutEnrollment?
    ensures RowsInv(Apply(p, a))
  {
  }

  lemma EnrollmentDropKeeps(parser: Parser, p: Partition, now: nat, a: Action)
    requires PartInv(parser, p) && Enabled(parser, p, now, a)
    requires a.DropEnrollment?
    ensures RowsInv(Apply(p, a))
  {
  }

  lemma ConfirmationsKeep(parser: Parser, p: Partition, now: nat, a: Action)
    requires PartInv(parser, p) && Enabled(parser, p, now, a)
    requires a.ConfirmNoConnection? || a.ConfirmNoNamespace?
    ensures RowsInv(Apply(p, a))
  {
  }

  lemma CloudCallsKeep(parser: Parser, p: Partition, now: nat, a: Action)
    requires PartInv(parser, p) && Enabled(parser, p, now, a)
    requires a.CallEnsureNamespace? || a.CallEnsureConnection? || a.CallDeleteConnection?
    ensures RowsInv(Apply(p, a))
  {
  }

  predicate OnServing(a: Action) {
    || a.PutProfile? || a.DropProfile? || a.PutText? || a.PutRevision? || a.DropRevision?
    || a.PutGateway? || a.DropGateway? || a.PutEnrollment? || a.DropEnrollment?
  }

  lemma ServingWritesKeep(parser: Parser, p: Partition, now: nat, a: Action)
    requires PartInv(parser, p) && Enabled(parser, p, now, a) && OnServing(a)
    ensures RowsInv(Apply(p, a))
  {
    match a {
      case PutProfile(_, _) => ProfilePutKeeps(parser, p, now, a);
      case DropProfile(_) => ProfileDropKeeps(parser, p, now, a);
      case PutText(_, _, _) => TextPutKeeps(parser, p, now, a);
      case PutRevision(_, _) => RevisionWritesKeep(parser, p, now, a);
      case DropRevision(_, _) => RevisionWritesKeep(parser, p, now, a);
      case PutGateway(_, _) => GatewayPutKeeps(parser, p, now, a);
      case DropGateway(_) => GatewayDropKeeps(parser, p, now, a);
      case PutEnrollment(_, _) => EnrollmentPutKeeps(parser, p, now, a);
      case DropEnrollment(_) => EnrollmentDropKeeps(parser, p, now, a);
      case _ =>
    }
  }

  lemma OtherActionsKeep(parser: Parser, p: Partition, now: nat, a: Action)
    requires PartInv(parser, p) && Enabled(parser, p, now, a) && !OnServing(a)
    ensures RowsInv(Apply(p, a))
  {
    match a {
      case PutWorkspace(_) => WorkspacePutKeeps(parser, p, now, a);
      case DropWorkspace => WorkspaceDropKeeps(parser, p, now, a);
      case PutMember(_, _) => MemberWritesKeep(parser, p, now, a);
      case DropMember(_) => MemberWritesKeep(parser, p, now, a);
      case PutIndex(_) => IndexWritesKeep(parser, p, now, a);
      case DropIndex(_) => IndexWritesKeep(parser, p, now, a);
      case PutConnection(_, _) => ConnectionPutKeeps(parser, p, now, a);
      case DropConnection(_) => ConnectionDropKeeps(parser, p, now, a);
      case ConfirmNoConnection(_) => ConfirmationsKeep(parser, p, now, a);
      case ConfirmNoNamespace => ConfirmationsKeep(parser, p, now, a);
      case _ => CloudCallsKeep(parser, p, now, a);
    }
  }

  lemma RowsKept(parser: Parser, p: Partition, now: nat, a: Action)
    requires PartInv(parser, p) && Enabled(parser, p, now, a)
    ensures RowsInv(Apply(p, a))
  {
    if OnServing(a) {
      ServingWritesKeep(parser, p, now, a);
    } else {
      OtherActionsKeep(parser, p, now, a);
    }
  }

  /** Connections that stay Ready keep every accepted text acceptable. */
  lemma AcceptableKept(parser: Parser, p: Partition, q: Partition, yaml: string)
    requires Acceptable(parser, p, yaml)
    requires forall c :: c in p.connections && p.connections[c].prov.state == Ready
                         && p.connections[c].name in RelayNames(Managed(parser, yaml).value) ==>
               c in q.connections && q.connections[c] == p.connections[c]
    ensures Acceptable(parser, q, yaml)
  {
    forall n | n in RelayNames(Managed(parser, yaml).value)
      ensures n in ReadyNames(q)
    {
      assert n in ReadyNames(p);
      var c :| c in p.connections && p.connections[c].prov.state == Ready && p.connections[c].name == n;
      assert q.connections[c].name == n;
    }
  }

  /** A write to a connection never takes a Ready connection away from a published text. */
  lemma ReferencedStaysReady(parser: Parser, p: Partition, now: nat, a: Action, id: Id, c: Id)
    requires PartInv(parser, p) && Enabled(parser, p, now, a)
    requires id in p.profiles && p.profiles[id].current.Some?
    requires c in p.connections && p.connections[c].prov.state == Ready
    requires p.connections[c].name in RelayNames(Managed(parser, PublishedText(p, id)).value)
    ensures c in Apply(p, a).connections && Apply(p, a).connections[c] == p.connections[c]
  {
    var name := p.connections[c].name;
    assert References(parser, p, id, name) by {
      assert Lower(name) == Lower(name);
    }
  }

  /** The text behind a publication that a write leaves alone stays in place. */
  lemma PublishedTextKept(parser: Parser, p: Partition, now: nat, a: Action, id: Id)
    requires PartInv(parser, p) && Enabled(parser, p, now, a)
    requires id in p.profiles && p.profiles[id].current.Some?
    requires id in Apply(p, a).profiles && Apply(p, a).profiles[id].current == p.profiles[id].current
    ensures HasPublishedText(Apply(p, a), id) && PublishedText(Apply(p, a), id) == PublishedText(p, id)
  {
    PublishedNeedsReady(parser, p, id);
  }

  lemma StandingPublicationKept(parser: Parser, p: Partition, now: nat, a: Action, id: Id)
    requires PartInv(parser, p) && Enabled(parser, p, now, a)
    requires id in p.profiles && p.profiles[id].current.Some?
    ensures Acceptable(parser, Apply(p, a), PublishedText(p, id))
  {
    var yaml := PublishedText(p, id);
    forall c | c in p.connections && p.connections[c].prov.state == Ready
               && p.connections[c].name in RelayNames(Managed(parser, yaml).value)
      ensures c in Apply(p, a).connections && Apply(p, a).connections[c] == p.connections[c]
    {
      ReferencedStaysReady(parser, p, now, a, id, c);
    }
    AcceptableKept(parser, p, Apply(p, a), yaml);
  }

  lemma NewPublicationAccepted(parser: Parser, p: Partition, id: Id, row: Profile)
    requires PartInv(parser, p) && ProfilePolicy(parser, p, id, row)
    requires row.current.Some? && (id !in p.profiles || p.profiles[id].current != row.current)
    ensures HasPublishedText(Apply(p, PutProfile(id, row)), id)
    ensures Acceptable(parser, Apply(p, PutProfile(id, row)), PublishedText(Apply(p, PutProfile(id, row)), id))
  {
    AcceptableKept(parser, p, Apply(p, PutProfile(id, row)), p.texts[(id, row.current.value)]);
  }

  lemma PublishedKept(parser: Parser, p: Partition, now: nat, a: Action)
    requires PartInv(parser, p) && Enabled(parser, p, now, a)
    ensures PublishedInv(parser, Apply(p, a))
  {
    var q := Apply(p, a);
    forall id | id in q.profiles && q.profiles[id].current.Some?
      ensures HasPublishedText(q, id) && Acceptable(parser, q, PublishedText(q, id))
    {
      if a.PutProfile? && a.id == id && (id !in p.profiles || p.profiles[id].current != a.profile.current) {
        NewPublicationAccepted(parser, p, id, a.profile);
      } else {
        PublishedTextKept(parser, p, now, a, id);
        StandingPublicationKept(parser, p, now, a, id);
      }
    }
  }

  lemma PartKept(parser: Parser, p: Partition, now: nat, a: Action)
    requires PartInv(parser, p) && Enabled(parser, p, now, a)
    ensures PartInv(parser, Apply(p, a))
  {
    RowsKept(parser, p, now, a);
    PublishedKept(parser, p, now, a);
  }

  lemma PartHolds(parser: Parser, db: Db, ws: Id)
    requires DbInv(parser, db)
    ensures PartInv(parser, Part(db, ws))
  {
  }

  /** The invariant holds after every legal run. */
  lemma {:induction false} RunInv(parser: Parser, trace: seq<Step>)
    requires Legal(parser, trace)
    ensures DbInv(parser, Exec(trace))
  {
    if trace != [] {
      var before := Exec(trace[..|trace| - 1]);
      RunInv(parser, trace[..|trace| - 1]);
      match trace[|trace| - 1] {
        case Tick(_) =>
        case On(ws, act) =>
          PartHolds(parser, before, ws);
          PartKept(parser, Part(before, ws), before.clock, act);
        case Cleaned(ws, e) =>
          PartHolds(parser, before, ws);
          PartKept(parser, Part(before, ws), before.clock, DropEnrollment(e));
      }
    }
  }
}
