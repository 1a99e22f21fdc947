/** What holds over every run of the control plane, whatever is abandoned along the way. */
module BrokerTheorems {
  import opened Util
  import opened BrokerModel
  import opened BrokerInvariants

  function PartAt(trace: seq<Step>, k: nat, ws: Id): Partition
    requires k <= |trace|
  {
    Part(Exec(trace[..k]), ws)
  }

  function ClockAt(trace: seq<Step>, k: nat): nat
    requires k <= |trace|
  {
    Exec(trace[..k]).clock
  }

  // ---------- Walking along a run ----------

  lemma {:induction false} PrefixLegal(parser: Parser, trace: seq<Step>, k: nat)
    requires Legal(parser, trace) && k <= |trace|
    ensures Legal(parser, trace[..k])
  {
    if k == |trace| {
      assert trace[..k] == trace;
    } else {
      PrefixLegal(parser, trace[..|trace| - 1], k);
      assert trace[..|trace| - 1][..k] == trace[..k];
    }
  }

  /** The step after a prefix was enabled there and made the longer prefix's state. */
  lemma StepTaken(parser: Parser, trace: seq<Step>, k: nat)
    requires Legal(parser, trace) && k < |trace|
    ensures Legal(parser, trace[..k]) && StepEnabled(parser, Exec(trace[..k]), trace[k])
    ensures Exec(trace[..k + 1]) == ApplyStep(Exec(trace[..k]), trace[k])
  {
    PrefixLegal(parser, trace, k);
    PrefixLegal(parser, trace, k + 1);
    var longer := trace[..k + 1];
    assert longer[..|longer| - 1] == trace[..k] && longer[|longer| - 1] == trace[k];
  }

  lemma StepOnPart(parser: Parser, db: Db, s: Step, ws: Id)
    requires StepEnabled(parser, db, s)
    ensures db.clock <= ApplyStep(db, s).clock
    ensures match ActionOn(s, ws)
            case Some(act) =>
              Enabled(parser, Part(db, ws), db.clock, act) && Part(ApplyStep(db, s), ws) == Apply(Part(db, ws), act)
            case None =>
              Part(ApplyStep(db, s), ws) == Part(db, ws)
  {
  }

  /** One step either leaves a partition alone or applies one enabled action to it. */
  lemma PartStep(parser: Parser, trace: seq<Step>, k: nat, ws: Id)
    requires Legal(parser, trace) && k < |trace|
    ensures PartInv(parser, PartAt(trace, k, ws))
    ensures ClockAt(trace, k) <= ClockAt(trace, k + 1)
    ensures match ActionOn(trace[k], ws)
            case Some(act) =>
              && Enabled(parser, PartAt(trace, k, ws), ClockAt(trace, k), act)
              && PartAt(trace, k + 1, ws) == Apply(PartAt(trace, k, ws), act)
            case None =>
              PartAt(trace, k + 1, ws) == PartAt(trace, k, ws)
  {
    StepTaken(parser, trace, k);
    StepOnPart(parser, Exec(trace[..k]), trace[k], ws);
    RunInv(parser, trace[..k]);
    PartHolds(parser, Exec(trace[..k]), ws);
  }

  lemma PartInvAt(parser: Parser, trace: seq<Step>, k: nat, ws: Id)
    requires Legal(parser, trace) && k <= |trace|
    ensures PartInv(parser, PartAt(trace, k, ws))
  {
    PrefixLegal(parser, trace, k);
    RunInv(parser, trace[..k]);
    PartHolds(parser, Exec(trace[..k]), ws);
  }

  // ---------- Referential integrity ----------

  ghost predicate ServedByReady(p: Partition, name: string) {
    exists c :: c in p.connections && p.connections[c].name == name && p.connections[c].prov.state == Ready
  }

  /** Every relay name of every published revision names a Ready connection of the same workspace. */
  lemma PublishedReferencesAreReady(parser: Parser, trace: seq<Step>, k: nat, ws: Id, id: Id)
    requires Legal(parser, trace) && k <= |trace|
    requires id in PartAt(trace, k, ws).profiles && PartAt(trace, k, ws).profiles[id].current.Some?
    ensures var p := PartAt(trace, k, ws);
            && HasPublishedText(p, id)
            && Managed(parser, PublishedText(p, id)).Some?
            && (forall name :: name in RelayNames(Managed(parser, PublishedText(p, id)).value) ==> ServedByReady(p, name))
  {
    PartInvAt(parser, trace, k, ws);
    var p := PartAt(trace, k, ws);
    forall name | name in RelayNames(Managed(parser, PublishedText(p, id)).value)
      ensures ServedByReady(p, name)
    {
      assert name in ReadyNames(p);
    }
  }

  /** A workspace being deleted has no published profile and no gateway that could still authenticate. */
  lemma DeletingServesNothing(parser: Parser, trace: seq<Step>, k: nat, ws: Id)
    requires Legal(parser, trace) && k <= |trace|
    requires InState(PartAt(trace, k, ws), Deleting)
    ensures forall id :: id in PartAt(trace, k, ws).profiles ==> PartAt(trace, k, ws).profiles[id].current.None?
    ensures forall g :: g in PartAt(trace, k, ws).gateways ==> PartAt(trace, k, ws).gateways[g].revoked
  {
    PartInvAt(parser, trace, k, ws);
    var p := PartAt(trace, k, ws);
    forall id | id in p.profiles
      ensures p.profiles[id].current.None?
    {
      if p.profiles[id].current.Some? {
        PublishedNeedsReady(parser, p, id);
      }
    }
  }

  /** An unrevoked gateway's profile exists, is published, and `published_config` succeeds for it. */
  lemma UnrevokedGatewaysAreServable(parser: Parser, trace: seq<Step>, k: nat, ws: Id, g: Id)
    requires Legal(parser, trace) && k <= |trace|
    requires g in PartAt(trace, k, ws).gateways && !PartAt(trace, k, ws).gateways[g].revoked
    ensures Servable(parser, PartAt(trace, k, ws), PartAt(trace, k, ws).gateways[g].profile)
  {
    PartInvAt(parser, trace, k, ws);
    PublishedIsServable(parser, PartAt(trace, k, ws), PartAt(trace, k, ws).gateways[g].profile);
  }

  /** No step moves a workspace to Deleting while a profile is published or a gateway unrevoked. */
  lemma ServingWorkspaceIsNotDeleted(parser: Parser, trace: seq<Step>, k: nat, ws: Id)
    requires Legal(parser, trace) && k < |trace|
    requires || (exists id :: id in PartAt(trace, k, ws).profiles && PartAt(trace, k, ws).profiles[id].current.Some?)
             || (exists g :: g in PartAt(trace, k, ws).gateways && !PartAt(trace, k, ws).gateways[g].revoked)
    ensures InState(PartAt(trace, k, ws), Ready) && InState(PartAt(trace, k + 1, ws), Ready)
  {
    PartStep(parser, trace, k, ws);
    ServingIsReady(parser, PartAt(trace, k, ws));
    if ActionOn(trace[k], ws).Some? {
      ReadyWithConnectionsStays(parser, PartAt(trace, k, ws), ClockAt(trace, k), ActionOn(trace[k], ws).value);
    }
  }

  lemma ServingIsReady(parser: Parser, p: Partition)
    requires PartInv(parser, p)
    requires || (exists id :: id in p.profiles && p.profiles[id].current.Some?)
             || (exists g :: g in p.gateways && !p.gateways[g].revoked)
    ensures p.connections != map[] && InState(p, Ready)
  {
    var id :| id in p.profiles && p.profiles[id].current.Some?;
    PublishedNeedsReady(parser, p, id);
  }

  lemma ReadyWithConnectionsStays(parser: Parser, p: Partition, now: nat, a: Action)
    requires Enabled(parser, p, now, a) && InState(p, Ready) && p.connections != map[]
    ensures InState(Apply(p, a), Ready)
  {
  }

  // ---------- Workspace deletion ----------

  ghost predicate Gone(p: Partition) {
    p.born && p.workspace.None? && SweptClean(p)
  }

  lemma {:induction false} GoneForever(parser: Parser, trace: seq<Step>, i: nat, j: nat, ws: Id)
    requires Legal(parser, trace) && i <= j <= |trace|
    requires Gone(PartAt(trace, i, ws))
    ensures Gone(PartAt(trace, j, ws))
  {
    if i < j {
      GoneForever(parser, trace, i, j - 1, ws);
      PartStep(parser, trace, j - 1, ws);
      PartInvAt(parser, trace, j, ws);
    }
  }

  ghost predicate ConfirmedAt(trace: seq<Step>, k: nat, i: nat, ws: Id)
    requires k < i <= |trace|
  {
    && trace[k] == On(ws, ConfirmNoNamespace)
    && forall m :: k < m < i && ActionOn(trace[m], ws).Some? ==> ActionOn(trace[m], ws).value.DropEnrollment?
  }

  lemma {:induction false} NoteMeansConfirmed(parser: Parser, trace: seq<Step>, i: nat, ws: Id) returns (k: nat)
    requires Legal(parser, trace) && i <= |trace|
    requires PartAt(trace, i, ws).note == NamespaceGone
    ensures k < i && ConfirmedAt(trace, k, i, ws)
  {
    if i == 0 {
      assert false;
    } else {
      PartStep(parser, trace, i - 1, ws);
      if trace[i - 1] == On(ws, ConfirmNoNamespace) {
        k := i - 1;
      } else {
        k := NoteMeansConfirmed(parser, trace, i - 1, ws);
      }
    }
  }

  /**
    Once a workspace row is dropped, no row of the workspace remains or ever reappears. The drop
    followed a cloud confirmation that the namespace is absent, given when everything else was
    already gone, with no other write to the workspace in between but enrollment removals.
  */
  lemma DeletedWorkspaceLeavesNothing(parser: Parser, trace: seq<Step>, i: nat, j: nat, ws: Id) returns (k: nat)
    requires Legal(parser, trace) && i < j <= |trace|
    requires trace[i] == On(ws, DropWorkspace)
    ensures var q := PartAt(trace, j, ws);
            && q.workspace.None? && q.members == map[] && q.connections == map[] && q.profiles == map[]
            && q.revisions == {} && q.gateways == map[] && q.enrollments == map[]
    ensures k < i && ConfirmedAt(trace, k, i, ws)
    ensures var p := PartAt(trace, k, ws);
            && p.workspace.Some? && p.workspace.value.prov.state == Deleting
            && p.members == map[] && p.connections == map[] && p.profiles == map[]
            && p.revisions == {} && p.gateways == map[] && p.enrollments == map[]
            && p.index !! p.workspace.value.journal
  {
    PartStep(parser, trace, i, ws);
    k := NoteMeansConfirmed(parser, trace, i, ws);
    PartStep(parser, trace, k, ws);
    GoneForever(parser, trace, i + 1, j, ws);
  }

  // ---------- Revisions ----------

  /** Step `k` hands out the profile's next revision number. */
  ghost predicate HandsOut(trace: seq<Step>, k: nat, ws: Id, id: Id)
    requires k < |trace|
  {
    && trace[k].On? && trace[k].ws == ws && trace[k].act.PutProfile? && trace[k].act.id == id
    && id in PartAt(trace, k, ws).profiles
    && trace[k].act.profile.next != PartAt(trace, k, ws).profiles[id].next
  }

  function HandedOut(trace: seq<Step>, k: nat, ws: Id, id: Id): Number
    requires k < |trace| && HandsOut(trace, k, ws, id)
  {
    PartAt(trace, k, ws).profiles[id].next
  }

  lemma {:induction false} NextNeverFalls(parser: Parser, trace: seq<Step>, i: nat, j: nat, ws: Id, id: Id)
    requires Legal(parser, trace) && i <= j <= |trace|
    requires id in PartAt(trace, i, ws).profiles && id in PartAt(trace, j, ws).profiles
    ensures PartAt(trace, i, ws).profiles[id].next <= PartAt(trace, j, ws).profiles[id].next
  {
    if i < j {
      ProfileIsUsed(parser, trace, i, ws, id);
      UsedGrows(parser, trace, i, j - 1, ws);
      NextOfUsedAt(parser, trace, j - 1, ws, id);
      NextNeverFalls(parser, trace, i, j - 1, ws, id);
    }
  }

  lemma ProfileIsUsed(parser: Parser, trace: seq<Step>, k: nat, ws: Id, id: Id)
    requires Legal(parser, trace) && k <= |trace| && id in PartAt(trace, k, ws).profiles
    ensures id in PartAt(trace, k, ws).used
  {
    PartInvAt(parser, trace, k, ws);
  }

  lemma NextOfUsedAt(parser: Parser, trace: seq<Step>, k: nat, ws: Id, id: Id)
    requires Legal(parser, trace) && k < |trace|
    requires id in PartAt(trace, k, ws).used && id in PartAt(trace, k + 1, ws).profiles
    ensures id in PartAt(trace, k, ws).profiles
    ensures PartAt(trace, k, ws).profiles[id].next <= PartAt(trace, k + 1, ws).profiles[id].next
  {
    PartStep(parser, trace, k, ws);
    if ActionOn(trace[k], ws).Some? {
      NextOfUsed(parser, PartAt(trace, k, ws), ClockAt(trace, k), ActionOn(trace[k], ws).value, id);
    }
  }

  /** A profile whose id was used before a write was there before it, with no higher next number. */
  lemma NextOfUsed(parser: Parser, p: Partition, now: nat, a: Action, id: Id)
    requires Enabled(parser, p, now, a) && id in p.used && id in Apply(p, a).profiles
    ensures id in p.profiles && p.profiles[id].next <= Apply(p, a).profiles[id].next
  {
    if !a.PutProfile? && !a.DropProfile? {
      ProfilesUntouched(p, a);
    }
  }

  lemma ProfilesUntouched(p: Partition, a: Action)
    requires !a.PutProfile? && !a.DropProfile?
    ensures Apply(p, a).profiles == p.profiles
  {
  }

  lemma {:induction false} UsedGrows(parser: Parser, trace: seq<Step>, i: nat, j: nat, ws: Id)
    requires Legal(parser, trace) && i <= j <= |trace|
    ensures PartAt(trace, i, ws).used <= PartAt(trace, j, ws).used
    ensures PartAt(trace, i, ws).born ==> PartAt(trace, j, ws).born
  {
    if i < j {
      UsedGrows(parser, trace, i, j - 1, ws);
      PartStep(parser, trace, j - 1, ws);
    }
  }

  /** Numbers are handed out strictly increasing, hence never twice. */
  lemma NumbersIncrease(parser: Parser, trace: seq<Step>, i: nat, j: nat, ws: Id, id: Id)
    requires Legal(parser, trace) && i < j < |trace|
    requires HandsOut(trace, i, ws, id) && HandsOut(trace, j, ws, id)
    ensures HandedOut(trace, i, ws, id) < HandedOut(trace, j, ws, id)
  {
    PartStep(parser, trace, i, ws);
    NextNeverFalls(parser, trace, i + 1, j, ws, id);
  }

  /** Stored text never changes and never disappears. */
  lemma {:induction false} TextsAreImmutable(parser: Parser, trace: seq<Step>, i: nat, j: nat, ws: Id, key: (Id, Number))
    requires Legal(parser, trace) && i <= j <= |trace|
    requires key in PartAt(trace, i, ws).texts
    ensures key in PartAt(trace, j, ws).texts && PartAt(trace, j, ws).texts[key] == PartAt(trace, i, ws).texts[key]
  {
    if i < j {
      TextsAreImmutable(parser, trace, i, j - 1, ws, key);
      PartStep(parser, trace, j - 1, ws);
      if ActionOn(trace[j - 1], ws).Some? {
        TextStays(parser, PartAt(trace, j - 1, ws), ClockAt(trace, j - 1), ActionOn(trace[j - 1], ws).value, key);
      }
    }
  }

  lemma TextStays(parser: Parser, p: Partition, now: nat, a: Action, key: (Id, Number))
    requires Enabled(parser, p, now, a) && key in p.texts
    ensures key in Apply(p, a).texts && Apply(p, a).texts[key] == p.texts[key]
  {
    if !a.PutText? {
      TextsUntouched(p, a);
    }
  }

  /** A text is stored under a number only after that number was handed out. */
  lemma {:induction false} StoredAfterHandingOut(parser: Parser, trace: seq<Step>, k: nat, ws: Id, id: Id, n: Number)
    returns (i: nat)
    requires Legal(parser, trace) && k <= |trace|
    requires (id, n) in PartAt(trace, k, ws).texts
    ensures i < k && HandsOut(trace, i, ws, id) && HandedOut(trace, i, ws, id) == n
  {
    if k == 0 {
      assert false;
    } else {
      if (id, n) in PartAt(trace, k - 1, ws).texts {
        i := StoredAfterHandingOut(parser, trace, k - 1, ws, id, n);
      } else {
        StoredIsLatest(parser, trace, k - 1, ws, id, n);
        i := LastHandOut(parser, trace, k - 1, ws, id);
      }
    }
  }

  lemma StoredIsLatest(parser: Parser, trace: seq<Step>, k: nat, ws: Id, id: Id, n: Number)
    requires Legal(parser, trace) && k < |trace|
    requires (id, n) in PartAt(trace, k + 1, ws).texts && (id, n) !in PartAt(trace, k, ws).texts
    ensures id in PartAt(trace, k, ws).profiles && 0 < n == PartAt(trace, k, ws).profiles[id].next - 1
  {
    PartStep(parser, trace, k, ws);
    NewTextIsLatest(parser, PartAt(trace, k, ws), ClockAt(trace, k), ActionOn(trace[k], ws).value, id, n);
  }

  lemma NewTextIsLatest(parser: Parser, p: Partition, now: nat, a: Action, id: Id, n: Number)
    requires Enabled(parser, p, now, a) && (id, n) in Apply(p, a).texts && (id, n) !in p.texts
    ensures id in p.profiles && 0 < n == p.profiles[id].next - 1
  {
    if !a.PutText? {
      TextsUntouched(p, a);
    }
  }

  lemma TextsUntouched(p: Partition, a: Action)
    requires !a.PutText?
    ensures Apply(p, a).texts == p.texts
  {
  }

  lemma {:induction false} LastHandOut(parser: Parser, trace: seq<Step>, k: nat, ws: Id, id: Id)
    returns (i: nat)
    requires Legal(parser, trace) && k <= |trace|
    requires id in PartAt(trace, k, ws).profiles && PartAt(trace, k, ws).profiles[id].next > 1
    ensures i < k && HandsOut(trace, i, ws, id) && HandedOut(trace, i, ws, id) == PartAt(trace, k, ws).profiles[id].next - 1
  {
    if k == 0 {
      assert false;
    } else {
      NextStepAt(parser, trace, k - 1, ws, id);
      if HandsOut(trace, k - 1, ws, id) {
        i := k - 1;
      } else {
        i := LastHandOut(parser, trace, k - 1, ws, id);
      }
    }
  }

  lemma NextStepAt(parser: Parser, trace: seq<Step>, k: nat, ws: Id, id: Id)
    requires Legal(parser, trace) && k < |trace|
    requires id in PartAt(trace, k + 1, ws).profiles && PartAt(trace, k + 1, ws).profiles[id].next > 1
    ensures id in PartAt(trace, k, ws).profiles
    ensures PartAt(trace, k + 1, ws).profiles[id].next ==
            PartAt(trace, k, ws).profiles[id].next + (if HandsOut(trace, k, ws, id) then 1 else 0)
  {
    PartStep(parser, trace, k, ws);
    if ActionOn(trace[k], ws).Some? {
      NextStep(parser, PartAt(trace, k, ws), ClockAt(trace, k), ActionOn(trace[k], ws).value, id);
    }
  }

  /** Only handing out a number changes `next_revision`, and by exactly one. */
  lemma NextStep(parser: Parser, p: Partition, now: nat, a: Action, id: Id)
    requires Enabled(parser, p, now, a)
    requires id in Apply(p, a).profiles && Apply(p, a).profiles[id].next > 1
    ensures id in p.profiles
    ensures || Apply(p, a).profiles[id].next == p.profiles[id].next
            || (a.PutProfile? && a.id == id && a.profile.next == p.profiles[id].next + 1)
  {
    if !a.PutProfile? && !a.DropProfile? {
      ProfilesUntouched(p, a);
    }
  }

  /** A revision is listed only while its text is stored, and `current_revision` names a listed one. */
  lemma ListedRevisionsAreStored(parser: Parser, trace: seq<Step>, k: nat, ws: Id, id: Id)
    requires Legal(parser, trace) && k <= |trace|
    ensures PartAt(trace, k, ws).revisions <= PartAt(trace, k, ws).texts.Keys
    ensures id in PartAt(trace, k, ws).profiles && PartAt(trace, k, ws).profiles[id].current.Some? ==>
              (id, PartAt(trace, k, ws).profiles[id].current.value) in PartAt(trace, k, ws).revisions
  {
    PartInvAt(parser, trace, k, ws);
  }

  // ---------- Provisioning failures and backoff ----------

  datatype Resource = Namespace | Relay(id: Id)

  function ProvisionOf(p: Partition, r: Resource): Option<Provision> {
    match r
    case Namespace => if p.workspace.Some? then Some(p.workspace.value.prov) else None
    case Relay(c) => if c in p.connections then Some(p.connections[c].prov) else None
  }

  predicate Known(p: Partition, r: Resource) {
    match r
    case Namespace => p.born
    case Relay(c) => c in p.used
  }

  /** The write `a` records one more failure of `r`. */
  predicate Records(p: Partition, a: Action, r: Resource) {
    && ProvisionOf(p, r).Some?
    && ProvisionOf(Apply(p, a), r).Some?
    && ProvisionOf(Apply(p, a), r).value.attempts > ProvisionOf(p, r).value.attempts
  }

  predicate CallsFor(a: Action, r: Resource) {
    match r
    case Namespace => a == CallEnsureNamespace
    case Relay(c) => a == CallEnsureConnection(c)
  }

  ghost predicate RecordsAt(trace: seq<Step>, k: nat, ws: Id, r: Resource)
    requires k < |trace|
  {
    ActionOn(trace[k], ws).Some? && Records(PartAt(trace, k, ws), ActionOn(trace[k], ws).value, r)
  }

  /** The ways one action may change a resource's bookkeeping from `v` to `w`. */
  ghost predicate Follows(v: Option<Provision>, w: Option<Provision>, known: bool, now: nat) {
    match (v, w)
    case (None, None) => true
    case (None, Some(y)) => !known && y == FRESH
    case (Some(x), None) => x.state == Deleting
    case (Some(x), Some(y)) => y == x || AttemptStep(x, y, now) || y == DOOMED
  }

  lemma NamespaceStep(parser: Parser, p: Partition, now: nat, a: Action)
    requires PartInv(parser, p) && Enabled(parser, p, now, a)
    ensures Follows(ProvisionOf(p, Namespace), ProvisionOf(Apply(p, a), Namespace), Known(p, Namespace), now)
    ensures Known(p, Namespace) || ProvisionOf(Apply(p, a), Namespace).Some? ==> Known(Apply(p, a), Namespace)
  {
    if a.PutWorkspace? {
      NamespacePut(p, now, a.workspace);
    } else if !a.DropWorkspace? {
      OtherNamespaceStep(p, a, now);
      assert p.workspace.Some? ==> p.born;
    }
  }

  lemma NamespacePut(p: Partition, now: nat, row: Workspace)
    requires WorkspacePolicy(p, row, now)
    ensures Follows(ProvisionOf(p, Namespace), Some(row.prov), Known(p, Namespace), now)
  {
  }

  /** An action on anything else leaves the workspace's bookkeeping alone. */
  lemma OtherNamespaceStep(p: Partition, a: Action, now: nat)
    requires !a.PutWorkspace? && !a.DropWorkspace?
    ensures Apply(p, a).workspace == p.workspace && Apply(p, a).born == p.born
    ensures Follows(ProvisionOf(p, Namespace), ProvisionOf(p, Namespace), Known(p, Namespace), now)
  {
  }

  lemma RelayStep(parser: Parser, p: Partition, now: nat, a: Action, c: Id)
    requires PartInv(parser, p) && Enabled(parser, p, now, a)
    ensures Follows(ProvisionOf(p, Relay(c)), ProvisionOf(Apply(p, a), Relay(c)), Known(p, Relay(c)), now)
    ensures Known(p, Relay(c)) || ProvisionOf(Apply(p, a), Relay(c)).Some? ==> Known(Apply(p, a), Relay(c))
  {
    if a.PutConnection? && a.id == c {
      RelayPut(parser, p, now, c, a.connection);
    } else if !(a.DropConnection? && a.id == c) {
      OtherRelayStep(p, a, c, now);
      assert c in p.connections ==> c in p.used;
    }
  }

  lemma RelayPut(parser: Parser, p: Partition, now: nat, c: Id, row: Connection)
    requires ConnectionPolicy(parser, p, c, row, now)
    ensures Follows(ProvisionOf(p, Relay(c)), Some(row.prov), Known(p, Relay(c)), now)
  {
  }

  /** An action on anything else leaves the connection's bookkeeping alone. */
  lemma OtherRelayStep(p: Partition, a: Action, c: Id, now: nat)
    requires !(a.PutConnection? && a.id == c) && !(a.DropConnection? && a.id == c)
    ensures ProvisionOf(Apply(p, a), Relay(c)) == ProvisionOf(p, Relay(c))
    ensures p.used <= Apply(p, a).used
    ensures Follows(ProvisionOf(p, Relay(c)), ProvisionOf(p, Relay(c)), Known(p, Relay(c)), now)
  {
  }

  lemma ProvisionStep(parser: Parser, p: Partition, now: nat, a: Action, r: Resource)
    requires PartInv(parser, p) && Enabled(parser, p, now, a)
    ensures Follows(ProvisionOf(p, r), ProvisionOf(Apply(p, a), r), Known(p, r), now)
    ensures Known(p, r) || ProvisionOf(Apply(p, a), r).Some? ==> Known(Apply(p, a), r)
  {
    match r {
      case Namespace => NamespaceStep(parser, p, now, a);
      case Relay(c) => RelayStep(parser, p, now, a, c);
    }
  }

  /** The number of failures recorded for `r` in the first `k` steps. */
  ghost function Failures(trace: seq<Step>, k: nat, ws: Id, r: Resource): nat
    requires k <= |trace|
  {
    if k == 0 then 0
    else Failures(trace, k - 1, ws, r) + (if RecordsAt(trace, k - 1, ws, r) then 1 else 0)
  }

  /** Where the count stands for a resource whose failures so far number `n`. */
  ghost predicate Counted(p: Partition, r: Resource, n: nat) {
    && (!Known(p, r) ==> n == 0)
    && n <= MAX_ATTEMPTS
    && match ProvisionOf(p, r)
       case None => true
       case Some(v) => v.state in {Ready, Deleting} || v.attempts == n
  }

  lemma CountedStep(parser: Parser, p: Partition, now: nat, a: Action, r: Resource, n: nat)
    requires PartInv(parser, p) && Enabled(parser, p, now, a) && Counted(p, r, n)
    ensures Counted(Apply(p, a), r, n + if Records(p, a, r) then 1 else 0)
  {
    ProvisionStep(parser, p, now, a, r);
    PartKept(parser, p, now, a);
  }

  lemma {:induction false} FailureCount(parser: Parser, trace: seq<Step>, k: nat, ws: Id, r: Resource)
    requires Legal(parser, trace) && k <= |trace|
    ensures Counted(PartAt(trace, k, ws), r, Failures(trace, k, ws, r))
  {
    if k > 0 {
      var n := Failures(trace, k - 1, ws, r);
      FailureCount(parser, trace, k - 1, ws, r);
      CountedAt(parser, trace, k - 1, ws, r, n);
      assert Failures(trace, k, ws, r) == n + if RecordsAt(trace, k - 1, ws, r) then 1 else 0;
    }
  }

  lemma CountedAt(parser: Parser, trace: seq<Step>, k: nat, ws: Id, r: Resource, n: nat)
    requires Legal(parser, trace) && k < |trace| && Counted(PartAt(trace, k, ws), r, n)
    ensures Counted(PartAt(trace, k + 1, ws), r, n + (if RecordsAt(trace, k, ws, r) then 1 else 0))
  {
    PartStep(parser, trace, k, ws);
    if ActionOn(trace[k], ws).Some? {
      CountedStep(parser, PartAt(trace, k, ws), ClockAt(trace, k), ActionOn(trace[k], ws).value, r, n);
    }
  }

  /** At most five failures are recorded, and a count of five occurs only in state Failed. */
  lemma AtMostFiveFailures(parser: Parser, trace: seq<Step>, k: nat, ws: Id, r: Resource)
    requires Legal(parser, trace) && k <= |trace|
    ensures Failures(trace, k, ws, r) <= 5
    ensures ProvisionOf(PartAt(trace, k, ws), r).Some? && ProvisionOf(PartAt(trace, k, ws), r).value.attempts == 5 ==>
              ProvisionOf(PartAt(trace, k, ws), r).value.state == Failed
  {
    FailureCount(parser, trace, k, ws, r);
    PartInvAt(parser, trace, k, ws);
  }

  /** No attempt can be under way for `r` before `bound`. */
  predicate HeldBack(p: Partition, now: nat, r: Resource, bound: nat) {
    Known(p, r) && Idle(ProvisionOf(p, r), now, bound)
  }

  lemma {:induction false} HeldBackUntil(parser: Parser, trace: seq<Step>, i: nat, j: nat, ws: Id, r: Resource, bound: nat)
    requires Legal(parser, trace) && i <= j <= |trace|
    requires HeldBack(PartAt(trace, i, ws), ClockAt(trace, i), r, bound)
    ensures HeldBack(PartAt(trace, j, ws), ClockAt(trace, j), r, bound)
  {
    if i < j {
      HeldBackUntil(parser, trace, i, j - 1, ws, r, bound);
      PartStep(parser, trace, j - 1, ws);
      if ActionOn(trace[j - 1], ws).Some? {
        var p, a, now := PartAt(trace, j - 1, ws), ActionOn(trace[j - 1], ws).value, ClockAt(trace, j - 1);
        ProvisionStep(parser, p, now, a, r);
        HeldBackStep(ProvisionOf(p, r), ProvisionOf(Apply(p, a), r), now, bound);
      }
    }
  }

  /** No attempt can be under way before `bound`, judging by the bookkeeping alone. */
  predicate Idle(v: Option<Provision>, now: nat, bound: nat) {
    || now >= bound
    || v.None?
    || v.value.state in {Ready, Deleting}
    || (v.value.state == Failed && v.value.retryAt >= bound)
  }

  lemma HeldBackStep(v: Option<Provision>, w: Option<Provision>, now: nat, bound: nat)
    requires Idle(v, now, bound) && Follows(v, w, true, now)
    ensures Idle(w, now, bound)
  {
  }

  lemma RecordingHoldsBack(parser: Parser, p: Partition, now: nat, a: Action, r: Resource, n: nat)
    requires PartInv(parser, p) && Enabled(parser, p, now, a)
    requires Records(p, a, r) && Counted(Apply(p, a), r, n)
    ensures 1 <= n <= 5 && HeldBack(Apply(p, a), now, r, Backoff(now, n))
  {
    ProvisionStep(parser, p, now, a, r);
  }

  lemma CallsOnlyDuringAttempts(parser: Parser, p: Partition, now: nat, a: Action, r: Resource)
    requires Enabled(parser, p, now, a) && CallsFor(a, r)
    ensures ProvisionOf(p, r).Some? && ProvisionOf(p, r).value.state == Provisioning
  {
  }

  /** After the `n`-th failure recorded at time `t`, no provisioning call is made before `t + 30 * 2^n`. */
  lemma CallsRespectBackoff(parser: Parser, trace: seq<Step>, i: nat, j: nat, ws: Id, r: Resource)
    requires Legal(parser, trace) && i < j < |trace|
    requires RecordsAt(trace, i, ws, r)
    requires trace[j].On? && trace[j].ws == ws && CallsFor(trace[j].act, r)
    ensures var n := Failures(trace, i + 1, ws, r);
            1 <= n <= 5 && ClockAt(trace, j) >= Sat(ClockAt(trace, i) + 30 * Power2(n))
  {
    var n := Failures(trace, i + 1, ws, r);
    var bound := Backoff(ClockAt(trace, i), n);
    RecordedHoldsBack(parser, trace, i, ws, r);
    HeldBackUntil(parser, trace, i + 1, j, ws, r, bound);
    CallIsProvisioning(parser, trace, j, ws, r);
    AttemptIsLate(PartAt(trace, j, ws), ClockAt(trace, j), r, bound);
  }

  lemma AttemptIsLate(p: Partition, now: nat, r: Resource, bound: nat)
    requires HeldBack(p, now, r, bound)
    requires ProvisionOf(p, r).Some? && ProvisionOf(p, r).value.state == Provisioning
    ensures now >= bound
  {
  }

  /** Right after the `n`-th failure is recorded, the resource is held back by its backoff. */
  lemma RecordedHoldsBack(parser: Parser, trace: seq<Step>, i: nat, ws: Id, r: Resource)
    requires Legal(parser, trace) && i < |trace| && RecordsAt(trace, i, ws, r)
    ensures var n := Failures(trace, i + 1, ws, r);
            1 <= n <= 5 && HeldBack(PartAt(trace, i + 1, ws), ClockAt(trace, i + 1), r, Backoff(ClockAt(trace, i), n))
  {
    var n := Failures(trace, i + 1, ws, r);
    PartStep(parser, trace, i, ws);
    FailureCount(parser, trace, i + 1, ws, r);
    RecordingHoldsBack(parser, PartAt(trace, i, ws), ClockAt(trace, i), ActionOn(trace[i], ws).value, r, n);
  }

  lemma CallIsProvisioning(parser: Parser, trace: seq<Step>, j: nat, ws: Id, r: Resource)
    requires Legal(parser, trace) && j < |trace|
    requires trace[j].On? && trace[j].ws == ws && CallsFor(trace[j].act, r)
    ensures ProvisionOf(PartAt(trace, j, ws), r).Some? && ProvisionOf(PartAt(trace, j, ws), r).value.state == Provisioning
  {
    PartStep(parser, trace, j, ws);
    CallsOnlyDuringAttempts(parser, PartAt(trace, j, ws), ClockAt(trace, j), trace[j].act, r);
  }
}
