/** Membership rows, the per-user index, and what a reconcile pass makes of them. */
module BrokerMembership {
  import opened Util
  import opened BrokerModel
  import opened BrokerInvariants
  import opened BrokerTheorems
  import opened BrokerChecks

  // ---------- Membership and the per-user index ----------

  /** `accessible_workspaces` for a user who is not a platform admin, read from one state. */
  function Listed(db: Db, u: User): set<Id> {
    set ws | ws in db.parts && u in db.parts[ws].index && u in db.parts[ws].members && db.parts[ws].workspace.Some?
  }

  function Belongs(db: Db, u: User): set<Id> {
    set ws | ws in db.parts && u in db.parts[ws].members && db.parts[ws].workspace.Some?
  }

  /** The list is complete exactly when no membership in a workspace lacks its index row. */
  lemma CompleteExactly(db: Db, u: User)
    ensures Listed(db, u) == Belongs(db, u) <==>
              forall ws :: ws in db.parts && u in db.parts[ws].members && db.parts[ws].workspace.Some? ==>
                             u in db.parts[ws].index
  {
    if Listed(db, u) == Belongs(db, u) {
      forall ws | ws in db.parts && u in db.parts[ws].members && db.parts[ws].workspace.Some?
        ensures u in db.parts[ws].index
      {
        assert ws in Belongs(db, u);
      }
    }
  }

  predicate Indexed(p: Partition) {
    p.members.Keys <= p.index
  }

  predicate AddsMember(p: Partition, s: Step, ws: Id) {
    s.On? && s.ws == ws && s.act.PutMember? && s.act.user !in p.members
  }

  /** An indexed workspace stays indexed until a new member row is written. */
  lemma {:induction false} IndexedUntilNewMember(parser: Parser, trace: seq<Step>, i: nat, j: nat, ws: Id)
    requires Legal(parser, trace) && i <= j <= |trace|
    requires Indexed(PartAt(trace, i, ws))
    requires forall k :: i <= k < j ==> !AddsMember(PartAt(trace, k, ws), trace[k], ws)
    ensures Indexed(PartAt(trace, j, ws))
  {
    if i < j {
      IndexedUntilNewMember(parser, trace, i, j - 1, ws);
      PartStep(parser, trace, j - 1, ws);
      assert !AddsMember(PartAt(trace, j - 1, ws), trace[j - 1], ws);
    }
  }

  predicate IndexedUser(p: Partition, u: User) {
    u in p.members ==> u in p.index
  }

  /**
    Step `k` made `u` a member without an index row, and by moment `j` neither was that row written
    nor the membership removed. A workspace ends only after its memberships were removed.
  */
  ghost predicate LeftOut(trace: seq<Step>, k: nat, j: nat, ws: Id, u: User) {
    && k < j <= |trace|
    && trace[k].On? && trace[k].ws == ws && trace[k].act.PutMember? && trace[k].act.user == u
    && u !in PartAt(trace, k, ws).members && u !in PartAt(trace, k, ws).index
    && forall m :: k < m < j ==> trace[m] != On(ws, PutIndex(u)) && trace[m] != On(ws, DropMember(u))
  }

  /** A member left out stays a member and stays unlisted. */
  lemma {:induction false} LeftOutStays(parser: Parser, trace: seq<Step>, k: nat, j: nat, ws: Id, u: User)
    requires Legal(parser, trace) && LeftOut(trace, k, j, ws, u)
    ensures u in PartAt(trace, j, ws).members && u !in PartAt(trace, j, ws).index
    decreases j
  {
    PartStep(parser, trace, j - 1, ws);
    if k < j - 1 {
      LeftOutStays(parser, trace, k, j - 1, ws, u);
      assert trace[j - 1] != On(ws, PutIndex(u)) && trace[j - 1] != On(ws, DropMember(u));
    }
  }

  /** A member without an index row was left out since the last moment without one. */
  lemma {:induction false} FindLeftOut(parser: Parser, trace: seq<Step>, i: nat, j: nat, ws: Id, u: User) returns (k: nat)
    requires Legal(parser, trace) && i <= j <= |trace|
    requires IndexedUser(PartAt(trace, i, ws), u) && !IndexedUser(PartAt(trace, j, ws), u)
    ensures i <= k < j && LeftOut(trace, k, j, ws, u)
    decreases j
  {
    StepTo(parser, trace, j - 1, ws, u);
    if IndexedUser(PartAt(trace, j - 1, ws), u) {
      k := j - 1;
    } else {
      k := FindLeftOut(parser, trace, i, j - 1, ws, u);
    }
  }

  /** How a step can end in a member without an index row. */
  lemma StepTo(parser: Parser, trace: seq<Step>, k: nat, ws: Id, u: User)
    requires Legal(parser, trace) && k < |trace| && !IndexedUser(PartAt(trace, k + 1, ws), u)
    ensures IndexedUser(PartAt(trace, k, ws), u) ==> LeftOut(trace, k, k + 1, ws, u)
    ensures !IndexedUser(PartAt(trace, k, ws), u) ==> trace[k] != On(ws, PutIndex(u)) && trace[k] != On(ws, DropMember(u))
  {
    PartStep(parser, trace, k, ws);
    if ActionOn(trace[k], ws).Some? {
      ActionTo(parser, PartAt(trace, k, ws), ClockAt(trace, k), ActionOn(trace[k], ws).value, u);
    }
  }

  predicate OnPeople(a: Action) {
    a.PutMember? || a.DropMember? || a.PutIndex? || a.DropIndex?
  }

  lemma PeopleUntouched(p: Partition, a: Action)
    requires !OnPeople(a)
    ensures Apply(p, a).members == p.members && Apply(p, a).index == p.index
  {
  }

  lemma ActionTo(parser: Parser, p: Partition, now: nat, a: Action, u: User)
    requires Enabled(parser, p, now, a) && !IndexedUser(Apply(p, a), u)
    ensures IndexedUser(p, u) ==> a.PutMember? && a.user == u && u !in p.members && u !in p.index
    ensures a != PutIndex(u) && a != DropMember(u)
  {
    if OnPeople(a) {
      PeopleAction(p, a, u);
    } else {
      PeopleUntouched(p, a);
    }
  }

  lemma PeopleAction(p: Partition, a: Action, u: User)
    requires OnPeople(a) && (a.DropIndex? ==> a.user !in p.members) && !IndexedUser(Apply(p, a), u)
    ensures IndexedUser(p, u) ==> a.PutMember? && a.user == u && u !in p.members && u !in p.index
    ensures a != PutIndex(u) && a != DropMember(u)
  {
  }

  // ---------- After a reconcile pass ----------

  /** When the pass that began at `start` was done with `ws`; workspaces it did not find are younger than it. */
  function Since(start: nat, passed: map<Id, nat>, ws: Id): nat {
    if ws in passed then passed[ws] else start
  }

  /** A pass found every workspace there was, and left each with all its members indexed. */
  ghost predicate CompletedPass(trace: seq<Step>, start: nat, passed: map<Id, nat>) {
    && start <= |trace|
    && (forall ws :: PartAt(trace, start, ws).workspace.Some? ==> ws in passed)
    && forall ws :: ws in passed ==>
         start <= passed[ws] <= |trace| && Indexed(PartAt(trace, passed[ws], ws))
  }

  /** By moment `j` somebody left `u` out of a workspace that the pass was already done with. */
  ghost predicate LeftOutSince(trace: seq<Step>, start: nat, passed: map<Id, nat>, j: nat, u: User) {
    exists ws, k :: Since(start, passed, ws) <= k < j && LeftOut(trace, k, j, ws, u)
  }

  /** The list equals the user's workspaces exactly when nobody left the user out since the pass. */
  lemma PassMakesListExact(parser: Parser, trace: seq<Step>, start: nat, passed: map<Id, nat>, j: nat, u: User)
    requires Legal(parser, trace) && CompletedPass(trace, start, passed) && start <= j <= |trace|
    requires forall ws :: ws in passed ==> passed[ws] <= j
    ensures Listed(Exec(trace[..j]), u) == Belongs(Exec(trace[..j]), u) <==> !LeftOutSince(trace, start, passed, j, u)
  {
    var db := Exec(trace[..j]);
    if LeftOutSince(trace, start, passed, j, u) {
      var ws, k :| Since(start, passed, ws) <= k < j && LeftOut(trace, k, j, ws, u);
      LeftOutStays(parser, trace, k, j, ws, u);
      MembersNeedWorkspace(parser, trace, j, ws);
      assert ws in Belongs(db, u) && ws !in Listed(db, u);
    } else {
      forall ws | ws in Belongs(db, u) ensures ws in Listed(db, u) {
        IndexedSince(parser, trace, start, passed, ws, u);
        if !IndexedUser(PartAt(trace, j, ws), u) {
          var k := FindLeftOut(parser, trace, Since(start, passed, ws), j, ws, u);
        }
      }
    }
  }

  lemma MembersNeedWorkspace(parser: Parser, trace: seq<Step>, j: nat, ws: Id)
    requires Legal(parser, trace) && j <= |trace|
    ensures PartAt(trace, j, ws).members != map[] ==> PartAt(trace, j, ws).workspace.Some? && ws in Exec(trace[..j]).parts
  {
    PartInvAt(parser, trace, j, ws);
  }

  lemma IndexedSince(parser: Parser, trace: seq<Step>, start: nat, passed: map<Id, nat>, ws: Id, u: User)
    requires Legal(parser, trace) && CompletedPass(trace, start, passed)
    ensures Since(start, passed, ws) <= |trace| && IndexedUser(PartAt(trace, Since(start, passed, ws), ws), u)
  {
    if ws !in passed {
      MembersNeedWorkspace(parser, trace, start, ws);
    }
  }

  lemma OneMoreStep(parser: Parser, trace: seq<Step>, s: Step)
    requires Legal(parser, trace) && StepEnabled(parser, Exec(trace), s)
    ensures Legal(parser, trace + [s]) && Exec(trace + [s]) == ApplyStep(Exec(trace), s)
  {
    var longer := trace + [s];
    assert longer[..|longer| - 1] == trace;
  }

  /** One more request step on workspace 1, the only one there is. */
  lemma OneMoreOn(parser: Parser, trace: seq<Step>, p: Partition, act: Action)
    requires Legal(parser, trace) && Exec(trace) == Db(map[1 := p], 0) && Enabled(parser, p, 0, act)
    ensures Legal(parser, trace + [On(1, act)]) && Exec(trace + [On(1, act)]) == Db(map[1 := Apply(p, act)], 0)
  {
    OneMoreStep(parser, trace, On(1, act));
  }

  /** The first request steps of workspace 1: user 1 creates it and is written as a member. */
  lemma Founded(parser: Parser, role: Role) returns (trace: seq<Step>)
    ensures trace == [On(1, PutWorkspace(Workspace(1, FRESH, false, {}))), On(1, PutMember(1, role)), On(1, PutIndex(1))]
    ensures Legal(parser, trace)
    ensures Exec(trace) == Db(map[1 := FoundedPart(role)], 0)
  {
    var row := PutWorkspace(Workspace(1, FRESH, false, {}));
    var p := FoundedPart(role);
    var p1, p2 := p.(members := map[], index := {}), p.(index := {});
    FirstWrite(parser);
    assert Apply(p1, PutMember(1, role)) == p2 && Apply(p2, PutIndex(1)) == p;
    OneMoreOn(parser, [On(1, row)], p1, PutMember(1, role));
    OneMoreOn(parser, [On(1, row), On(1, PutMember(1, role))], p2, PutIndex(1));
    trace := [On(1, row), On(1, PutMember(1, role)), On(1, PutIndex(1))];
    assert [On(1, row)] + [On(1, PutMember(1, role))] == [On(1, row), On(1, PutMember(1, role))];
    assert [On(1, row), On(1, PutMember(1, role))] + [On(1, PutIndex(1))] == trace;
  }

  lemma FirstWrite(parser: Parser)
    ensures var s := On(1, PutWorkspace(Workspace(1, FRESH, false, {})));
            Legal(parser, [s]) && Exec([s]) == Db(map[1 := FoundedPart(Admin).(members := map[], index := {})], 0)
  {
    var s := On(1, PutWorkspace(Workspace(1, FRESH, false, {})));
    OneMoreStep(parser, [], s);
    assert [] + [s] == [s];
  }

  function FoundedPart(role: Role): Partition {
    EMPTY.(workspace := Some(Workspace(1, FRESH, false, {})), born := true, members := map[1 := role], index := {1})
  }

  /** A run in which a membership written after a pass, and abandoned before its index row, is missing from the list. */
  lemma InterruptedAdditionIsMissed(parser: Parser) returns (trace: seq<Step>, passed: map<Id, nat>)
    ensures Legal(parser, trace) && |trace| == 4 && CompletedPass(trace, 3, passed) && passed == map[1 := 3]
    ensures LeftOutSince(trace, 3, passed, 4, 2)
    ensures Listed(Exec(trace), 2) != Belongs(Exec(trace), 2)
  {
    var before := Founded(parser, Admin);
    OneMoreOn(parser, before, FoundedPart(Admin), PutMember(2, Reader));
    trace, passed := before + [On(1, PutMember(2, Reader))], map[1 := 3];
    assert trace[..3] == before && trace[..4] == trace;
    assert PartAt(trace, 3, 1) == FoundedPart(Admin);
    assert LeftOut(trace, 3, 4, 1, 2);
    assert Since(3, passed, 1) == 3;
    PassMakesListExact(parser, trace, 3, passed, 4, 2);
  }

  /**
    A run that leaves an active, initialized workspace without an admin: the creation stopped after its
    first write, somebody else added the creator as a reader, and the repair found a member there, so
    that its only write is the completion flag.
  */
  lemma RepairMayLeaveNoAdmin(parser: Parser) returns (trace: seq<Step>)
    ensures Legal(parser, trace) && |trace| == 4
    ensures var p := PartAt(trace, 3, 1);
            && NeedsRepair(p) && p.workspace.value.createdBy in p.members && RepairedMembers(p) == p.members
            && trace[3] == On(1, PutWorkspace(p.workspace.value.(creatorReady := true)))
    ensures var p := Part(Exec(trace), 1);
            Active(p) && p.workspace.value.creatorReady && p.members == map[1 := Reader] && !AdminPresent(p)
  {
    var before := Founded(parser, Reader);
    var act := PutWorkspace(Workspace(1, FRESH, true, {}));
    OneMoreOn(parser, before, FoundedPart(Reader), act);
    trace := before + [On(1, act)];
    assert trace[..3] == before;
    assert PartAt(trace, 3, 1) == FoundedPart(Reader);
  }

  /** Step `k` writes somebody as an admin of the workspace. */
  predicate WritesAdmin(s: Step, ws: Id) {
    s.On? && s.ws == ws && s.act.PutMember? && s.act.role == Admin
  }

  /**
    In every run and at every moment: an active workspace has an admin exactly when one was ever
    written. Nothing takes the last one away.
  */
  lemma AdminPresentExactly(parser: Parser, trace: seq<Step>, j: nat, ws: Id)
    requires Legal(parser, trace) && j <= |trace| && Active(PartAt(trace, j, ws))
    ensures AdminPresent(PartAt(trace, j, ws)) <==> exists k :: 0 <= k < j && WritesAdmin(trace[k], ws)
  {
    if AdminPresent(PartAt(trace, j, ws)) {
      var k := FindAdminWrite(parser, trace, j, ws);
    }
    if k :| 0 <= k < j && WritesAdmin(trace[k], ws) {
      AdminOnceWritten(parser, trace, k, ws);
      LastAdminStays(parser, trace, k + 1, j, ws);
    }
  }

  lemma {:induction false} FindAdminWrite(parser: Parser, trace: seq<Step>, j: nat, ws: Id) returns (k: nat)
    requires Legal(parser, trace) && j <= |trace| && AdminPresent(PartAt(trace, j, ws))
    ensures k < j && WritesAdmin(trace[k], ws)
  {
    if j == 0 {
      assert false;
    } else if WritesAdmin(trace[j - 1], ws) {
      k := j - 1;
    } else {
      AdminFromBefore(parser, trace, j - 1, ws);
      k := FindAdminWrite(parser, trace, j - 1, ws);
    }
  }

  /** Without such a write, an admin was one before the step. */
  lemma AdminFromBefore(parser: Parser, trace: seq<Step>, k: nat, ws: Id)
    requires Legal(parser, trace) && k < |trace| && !WritesAdmin(trace[k], ws)
    requires AdminPresent(PartAt(trace, k + 1, ws))
    ensures AdminPresent(PartAt(trace, k, ws))
  {
    PartStep(parser, trace, k, ws);
    var v :| v in PartAt(trace, k + 1, ws).members && PartAt(trace, k + 1, ws).members[v] == Admin;
    if ActionOn(trace[k], ws).Some? {
      AdminKeptBy(PartAt(trace, k, ws), ActionOn(trace[k], ws).value, v);
    }
  }

  lemma AdminKeptBy(p: Partition, a: Action, v: User)
    requires v in Apply(p, a).members && Apply(p, a).members[v] == Admin && !(a.PutMember? && a.role == Admin)
    ensures v in p.members && p.members[v] == Admin
  {
    if !OnPeople(a) {
      PeopleUntouched(p, a);
    }
  }

  lemma AdminOnceWritten(parser: Parser, trace: seq<Step>, k: nat, ws: Id)
    requires Legal(parser, trace) && k < |trace| && WritesAdmin(trace[k], ws)
    ensures Active(PartAt(trace, k + 1, ws)) && AdminPresent(PartAt(trace, k + 1, ws))
  {
    PartStep(parser, trace, k, ws);
    assert PartAt(trace, k + 1, ws).members[trace[k].act.user] == Admin;
  }

  /** A workspace that has an admin keeps one until it is being deleted. */
  lemma {:induction false} LastAdminStays(parser: Parser, trace: seq<Step>, i: nat, j: nat, ws: Id)
    requires Legal(parser, trace) && i <= j <= |trace|
    requires Active(PartAt(trace, i, ws)) && AdminPresent(PartAt(trace, i, ws))
    ensures Active(PartAt(trace, j, ws)) ==> AdminPresent(PartAt(trace, j, ws))
  {
    if i < j {
      LastAdminStays(parser, trace, i, j - 1, ws);
      PartInvAt(parser, trace, i, ws);
      BornActive(parser, trace, i, j - 1, ws);
      if Active(PartAt(trace, j, ws)) {
        AdminAfterStep(parser, trace, j - 1, ws);
      }
    }
  }

  lemma AdminAfterStep(parser: Parser, trace: seq<Step>, k: nat, ws: Id)
    requires Legal(parser, trace) && k < |trace| && Active(PartAt(trace, k, ws)) && AdminPresent(PartAt(trace, k, ws))
    ensures AdminPresent(PartAt(trace, k + 1, ws))
  {
    PartStep(parser, trace, k, ws);
    if ActionOn(trace[k], ws).Some? {
      AdminStep(PartAt(trace, k, ws), ActionOn(trace[k], ws).value);
    }
  }

  /** A workspace that stopped being active never becomes active again. */
  lemma {:induction false} BornActive(parser: Parser, trace: seq<Step>, i: nat, j: nat, ws: Id)
    requires Legal(parser, trace) && i <= j <= |trace|
    requires PartAt(trace, i, ws).born
    ensures j < |trace| && Active(PartAt(trace, j + 1, ws)) ==> Active(PartAt(trace, j, ws))
  {
    if j < |trace| {
      UsedGrows(parser, trace, i, j, ws);
      PartStep(parser, trace, j, ws);
    }
  }

  lemma AdminStep(p: Partition, a: Action)
    requires AdminPresent(p) && Active(p)
    requires a.PutMember? && a.user in p.members && p.members[a.user] == Admin && a.role != Admin ==> OtherAdmin(p, a.user)
    requires a.DropMember? && a.user in p.members && p.members[a.user] == Admin ==> OtherAdmin(p, a.user)
    ensures AdminPresent(Apply(p, a))
  {
    var v :| v in p.members && p.members[v] == Admin;
    if (a.PutMember? || a.DropMember?) && a.user == v {
      if a.PutMember? && a.role == Admin {
        assert Apply(p, a).members[v] == Admin;
      } else {
        var o :| o in p.members && o != v && p.members[o] == Admin;
        assert Apply(p, a).members[o] == Admin;
      }
    } else {
      assert Apply(p, a).members[v] == Admin;
    }
  }

  // ---------- Other requests ----------

  /** A sequence of steps that is legitimate from this state on. */
  ghost predicate LegalFrom(parser: Parser, db: Db, steps: seq<Step>)
    decreases |steps|
  {
    steps == [] || (StepEnabled(parser, db, steps[0]) && LegalFrom(parser, ApplyStep(db, steps[0]), steps[1..]))
  }

  /** What other requests do whenever the lock is free, as a function of the state and of how often it was free before. */
  type Others = (Db, nat) -> seq<Step>

  ghost predicate Legitimate(parser: Parser, others: Others) {
    forall db, round :: LegalFrom(parser, db, others(db, round))
  }

  ghost predicate Silent(others: Others) {
    forall db, round :: others(db, round) == []
  }

  lemma PassedMomentsStay(trace: seq<Step>, longer: seq<Step>, k: nat, ws: Id)
    requires trace <= longer && k <= |trace|
    ensures PartAt(longer, k, ws) == PartAt(trace, k, ws)
  {
    assert longer[..k] == trace[..k];
  }

  /** A workspace that is gone or swept has no member to index. */
  lemma EmptyIsIndexed(parser: Parser, p: Partition)
    requires PartInv(parser, p) && (p.workspace.None? || p.members == map[])
    ensures Indexed(p)
  {
  }

  // ---------- Listing without the lock ----------

  /** A moment from `start` on at which the user was a member, and a later one at which the workspace was there. */
  ghost predicate Seen(trace: seq<Step>, start: nat, ws: Id, u: User) {
    exists k, m :: start <= k <= m <= |trace| && u in PartAt(trace, k, ws).members && PartAt(trace, m, ws).workspace.Some?
  }

  /** A moment from `start` on at which the user was no member or the workspace was not there. */
  ghost predicate Missed(trace: seq<Step>, start: nat, ws: Id, u: User) {
    exists k :: start <= k <= |trace| && !(u in PartAt(trace, k, ws).members && PartAt(trace, k, ws).workspace.Some?)
  }

  /** The listing so far: what is in it was seen, and what is not was missed. */
  ghost predicate ListingSoFar(trace: seq<Step>, start: nat, done: set<Id>, found: set<Id>, u: User) {
    && start <= |trace|
    && (forall ws :: ws in found ==> Seen(trace, start, ws, u))
    && (forall ws :: ws in done && ws !in found ==> Missed(trace, start, ws, u))
  }

  lemma ListingContinues(trace: seq<Step>, longer: seq<Step>, start: nat, done: set<Id>, found: set<Id>, u: User)
    requires ListingSoFar(trace, start, done, found, u) && trace <= longer
    ensures ListingSoFar(longer, start, done, found, u)
  {
    forall ws | ws in found ensures Seen(longer, start, ws, u) {
      var k, m :| start <= k <= m <= |trace| && u in PartAt(trace, k, ws).members && PartAt(trace, m, ws).workspace.Some?;
      PassedMomentsStay(trace, longer, k, ws);
      PassedMomentsStay(trace, longer, m, ws);
    }
    forall ws | ws in done && ws !in found ensures Missed(longer, start, ws, u) {
      var k :| start <= k <= |trace| && !(u in PartAt(trace, k, ws).members && PartAt(trace, k, ws).workspace.Some?);
      PassedMomentsStay(trace, longer, k, ws);
    }
  }

  lemma SeenNow(mid: seq<Step>, trace: seq<Step>, start: nat, ws: Id, u: User)
    requires start <= |mid| && mid <= trace
    requires u in Part(Exec(mid), ws).members && Part(Exec(trace), ws).workspace.Some?
    ensures Seen(trace, start, ws, u)
  {
    PassedMomentsStay(mid, trace, |mid|, ws);
    assert mid[..|mid|] == mid && trace[..|trace|] == trace;
    assert u in PartAt(trace, |mid|, ws).members && PartAt(trace, |trace|, ws).workspace.Some?;
  }

  lemma MissedNow(trace: seq<Step>, start: nat, ws: Id, u: User)
    requires start <= |trace|
    requires !(u in Part(Exec(trace), ws).members && Part(Exec(trace), ws).workspace.Some?)
    ensures Missed(trace, start, ws, u)
  {
    assert trace[..|trace|] == trace;
    assert !(u in PartAt(trace, |trace|, ws).members && PartAt(trace, |trace|, ws).workspace.Some?);
  }

  lemma ListingGrows(trace: seq<Step>, start: nat, done: set<Id>, found: set<Id>, ws: Id, u: User, listed: bool)
    requires ListingSoFar(trace, start, done, found, u)
    requires if listed then Seen(trace, start, ws, u) else Missed(trace, start, ws, u)
    ensures ListingSoFar(trace, start, done + {ws}, if listed then found + {ws} else found, u)
  {
  }

  /** The membership in `ws` was read when the run was `mid`, the workspace row, if need be, when it was `trace`. */
  lemma OneMoreListed(before: seq<Step>, mid: seq<Step>, trace: seq<Step>, start: nat, done: set<Id>, found: set<Id>,
                      ws: Id, u: User, listed: bool)
    requires ListingSoFar(before, start, done, found, u) && before <= mid <= trace
    requires u !in Part(Exec(mid), ws).members ==> mid == trace
    requires listed == (u in Part(Exec(mid), ws).members && Part(Exec(trace), ws).workspace.Some?)
    ensures ListingSoFar(trace, start, done + {ws}, if listed then found + {ws} else found, u)
  {
    ListingContinues(before, trace, start, done, found, u);
    if listed {
      SeenNow(mid, trace, start, ws, u);
    } else {
      MissedNow(trace, start, ws, u);
    }
    ListingGrows(trace, start, done, found, ws, u, listed);
  }

  /** Read from one state, the listing is what `Listed` says of the workspaces it has come to. */
  ghost predicate ListedBut(db: Db, u: User, todo: set<Id>, found: set<Id>) {
    found == Listed(db, u) - todo
  }

  lemma OneMoreFound(db: Db, u: User, todo: set<Id>, found: set<Id>, ws: Id)
    requires ListedBut(db, u, todo, found) && ws in todo && ws in db.parts && u in db.parts[ws].index
    ensures var listed := u in Part(db, ws).members && Part(db, ws).workspace.Some?;
            ListedBut(db, u, todo - {ws}, if listed then found + {ws} else found)
  {
  }

  // ---------- A pass, workspace by workspace ----------

  /** The workspaces that were there at `start` and have been seen by a pass are those not in `todo`. */
  ghost predicate PassUnderWay(trace: seq<Step>, start: nat, passed: map<Id, nat>, todo: set<Id>) {
    && start <= |trace|
    && (forall ws :: PartAt(trace, start, ws).workspace.Some? ==> ws in passed || ws in todo)
    && forall ws :: ws in passed ==> start <= passed[ws] <= |trace| && Indexed(PartAt(trace, passed[ws], ws))
  }

  lemma PassContinues(trace: seq<Step>, longer: seq<Step>, start: nat, passed: map<Id, nat>, todo: set<Id>)
    requires PassUnderWay(trace, start, passed, todo) && trace <= longer
    ensures PassUnderWay(longer, start, passed, todo)
  {
    forall ws ensures PartAt(longer, start, ws) == PartAt(trace, start, ws) {
      PassedMomentsStay(trace, longer, start, ws);
    }
    forall ws | ws in passed ensures PartAt(longer, passed[ws], ws) == PartAt(trace, passed[ws], ws) {
      PassedMomentsStay(trace, longer, passed[ws], ws);
    }
  }

  lemma PassAdvances(trace: seq<Step>, start: nat, passed: map<Id, nat>, todo: set<Id>, ws: Id)
    requires PassUnderWay(trace, start, passed, todo) && Indexed(Part(Exec(trace), ws))
    ensures PassUnderWay(trace, start, passed[ws := |trace|], todo - {ws})
  {
    assert trace[..|trace|] == trace;
  }

  /** No request step touched a workspace since the pass was done with it. */
  ghost predicate Undisturbed(trace: seq<Step>, start: nat, passed: map<Id, nat>) {
    forall k :: start <= k < |trace| && trace[k].On? ==> k < Since(start, passed, trace[k].ws)
  }

  lemma UndisturbedLeavesNobodyOut(trace: seq<Step>, start: nat, passed: map<Id, nat>, u: User)
    requires CompletedPass(trace, start, passed) && Undisturbed(trace, start, passed)
    ensures !LeftOutSince(trace, start, passed, |trace|, u)
  {
  }

  /** A pass with `todo` still to see; `silent` when nobody else acts. */
  ghost predicate PassSoFar(trace: seq<Step>, start: nat, passed: map<Id, nat>, todo: set<Id>, silent: bool) {
    PassUnderWay(trace, start, passed, todo) && (silent ==> Undisturbed(trace, start, passed))
  }

  lemma Extended(a: seq<Step>, b: seq<Step>, c: seq<Step>)
    requires a <= b <= c
    ensures a <= c
  {
  }

  /** A workspace's turn after the interference that turned `before` into `mid`. */
  lemma TurnTaken(before: seq<Step>, mid: seq<Step>, trace: seq<Step>, start: nat, passed: map<Id, nat>, todo: set<Id>,
                  silent: bool, ws: Id)
    requires PassSoFar(before, start, passed, todo, silent) && before <= mid <= trace && (silent ==> mid == before)
    requires forall k :: |mid| <= k < |trace| && trace[k].On? ==> trace[k].ws == ws
    requires Indexed(Part(Exec(trace), ws))
    ensures PassSoFar(trace, start, passed[ws := |trace|], todo - {ws}, silent)
  {
    PassContinues(before, trace, start, passed, todo);
    PassAdvances(trace, start, passed, todo, ws);
    if silent {
      TurnDisturbsNothing(before, trace, start, passed, ws);
    }
  }

  /** Steps of one workspace's turn, which was the last so far, disturb nothing that was passed before. */
  lemma TurnDisturbsNothing(before: seq<Step>, trace: seq<Step>, start: nat, passed: map<Id, nat>, ws: Id)
    requires before <= trace && start <= |before| && Undisturbed(before, start, passed)
    requires forall k :: |before| <= k < |trace| && trace[k].On? ==> trace[k].ws == ws
    ensures Undisturbed(trace, start, passed[ws := |trace|])
  {
    forall k | start <= k < |trace| && trace[k].On? ensures k < Since(start, passed[ws := |trace|], trace[k].ws) {
      if k < |before| {
        assert trace[k] == before[k];
      }
    }
  }

  lemma PassBegins(trace: seq<Step>, db: Db, todo: set<Id>)
    requires db == Exec(trace) && todo == set ws | ws in db.parts && db.parts[ws].workspace.Some?
    ensures PassSoFar(trace, |trace|, map[], todo, true)
  {
    assert trace[..|trace|] == trace;
  }
}
