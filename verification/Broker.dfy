/**
  The mutating handlers and the reconciler, each run under the process-wide lock.

  Every store write and cloud call is one `Do`. A `Do` that reports failure stands for an error of
  the dependency, a crash or a dropped request: the write may or may not have happened, and the
  handler stops. Between two steps the clock may advance and the lock-free cleaner may remove
  expired enrollments. Under the lock no other writer can touch a row between its read and its
  conditional write, so ETags are left to modules `Store`, `EnrollmentProtocol` and
  `GatewayProtocol`.
*/
module Broker {
  import opened Util
  import opened Enrollments
  import opened BrokerModel
  import opened BrokerInvariants
  import opened BrokerTheorems
  import opened BrokerChecks
  import opened BrokerMembership
  import opened BrokerVerdicts

  /** The requests among `steps` did exactly `acts`, all on workspace `ws`; clock readings and cleaning go uncounted. */
  ghost predicate Performed(steps: seq<Step>, ws: Id, acts: seq<Action>) {
    if steps == [] then acts == []
    else
      var n, m := |steps| - 1, |acts| - 1;
      if steps[n].On? then steps[n].ws == ws && acts != [] && steps[n].act == acts[m] && Performed(steps[..n], ws, acts[..m])
      else Performed(steps[..n], ws, acts)
  }

  lemma {:induction false} PerformedOnly(steps: seq<Step>, ws: Id, acts: seq<Action>)
    requires Performed(steps, ws, acts)
    ensures forall i :: 0 <= i < |steps| && steps[i].On? ==> steps[i].ws == ws
  {
    if steps != [] {
      var n := |steps| - 1;
      PerformedOnly(steps[..n], ws, if steps[n].On? then acts[..|acts| - 1] else acts);
    }
  }

  /** A request on one workspace, begun when the run so far was `start`. */
  datatype Request = Request(start: seq<Step>, ws: Id)

  class Broker {
    const parser: Parser
    var db: Db
    ghost var trace: seq<Step>
    ghost var request: Request
    ghost var journal: seq<Action>

    /** The state is the outcome of a legal run; `journal` lists what the latest request did in it, to its workspace only. */
    ghost predicate Valid()
      reads this
    {
      && Legal(parser, trace) && db == Exec(trace)
      && request.start <= trace && Performed(trace[|request.start|..], request.ws, journal)
    }

    constructor (parser: Parser)
      ensures Valid() && this.parser == parser && db == INITIAL && trace == [] && journal == []
    {
      this.parser := parser;
      db := INITIAL;
      trace := [];
      journal := [];
      request := Request([], 0);
    }

    /** A request on a workspace begins. */
    method Begin(ws: Id)
      requires Valid()
      modifies this`request, this`journal
      ensures Valid() && journal == [] && request == Request(trace, ws)
    {
      request, journal := Request(trace, ws), [];
    }

    /** One step takes effect. */
    method Take(s: Step)
      requires Valid() && StepEnabled(parser, db, s) && (s.On? ==> s.ws == request.ws)
      modifies this
      ensures Valid() && trace == old(trace) + [s] && db == ApplyStep(old(db), s)
      ensures journal == if s.On? then old(journal) + [s.act] else old(journal)
      ensures request == old(request)
    {
      ghost var since := trace[|request.start|..];
      trace := trace + [s];
      db := ApplyStep(db, s);
      journal := if s.On? then journal + [s.act] else journal;
      assert trace[..|trace| - 1] == old(trace);
      assert trace[|request.start|..] == since + [s];
      assert (since + [s])[..|since|] == since;
      assert s.On? ==> journal[..|journal| - 1] == old(journal);
    }

    /** The lock-free cleaner may remove some expired enrollment. */
    method Clean(ws: Id)
      requires Valid()
      modifies this
      ensures Valid() && request == old(request) && journal == old(journal) && old(db).clock == db.clock
      ensures Drifted(Part(old(db), ws), Part(db, ws))
    {
      var w: Id := *;
      var e: Id := *;
      if e in Part(db, w).enrollments && Part(db, w).enrollments[e].expiresAt <= db.clock {
        Take(Cleaned(w, e));
      }
    }

    /** Time passes and the lock-free cleaner may remove expired enrollments. */
    method Pause(ws: Id)
      requires Valid()
      modifies this
      ensures Valid() && request == old(request) && journal == old(journal) && old(db).clock <= db.clock
      ensures Drifted(Part(old(db), ws), Part(db, ws))
    {
      var later: nat := *;
      if db.clock <= later <= MAX_U64 {
        Take(Tick(later));
      }
      var rounds: nat := *;
      while rounds > 0
        invariant Valid() && request == old(request) && journal == old(journal) && old(db).clock <= db.clock
        invariant Drifted(Part(old(db), ws), Part(db, ws))
      {
        Clean(ws);
        rounds := rounds - 1;
      }
    }

    /** One store write or cloud call of a handler. */
    method Do(ws: Id, act: Action) returns (ok: bool)
      requires Valid() && request.ws == ws && Enabled(parser, Part(db, ws), db.clock, act)
      modifies this
      ensures Valid() && request == old(request) && old(db).clock <= db.clock
      ensures journal == old(journal) + [act] || (!ok && journal == old(journal))
      ensures ok ==> Drifted(Apply(Part(old(db), ws), act), Part(db, ws))
    {
      ok := *;
      if !ok {
        return;
      }
      Take(On(ws, act));
      Pause(ws);
      ok := *;
    }

    lemma Sound(ws: Id)
      requires Valid()
      ensures PartInv(parser, Part(db, ws))
    {
      RunInv(parser, trace);
      PartHolds(parser, db, ws);
    }

    /** Authentication fails only for the credential's own reasons, and what follows it can always be served. */
    lemma OnlyUnauthorized(ws: Id, g: Id, genuine: bool)
      requires Valid()
      ensures BearerCheck(Part(db, ws), g, genuine).Some? ==> BearerCheck(Part(db, ws), g, genuine) == Some(Unauthorized)
      ensures BearerCheck(Part(db, ws), g, genuine).None? ==> ServeCheck(parser, Part(db, ws), Part(db, ws).gateways[g].profile).None?
    {
      Sound(ws);
      BearerFailsOnlyUnauthorized(parser, Part(db, ws), g, genuine);
    }

    // ---------- Profiles ----------

    method CreateProfile(ws: Id, id: Id, name: string, wellNamed: bool, authorized: bool) returns (r: Reply<Profile>)
      requires Valid() && id !in Part(db, ws).used
      modifies this
      ensures Valid() && request == Request(old(trace), ws)
      ensures var p := Part(old(db), ws);
              var ready := p.workspace.Some? && p.workspace.value.prov.state == Ready;
              && (!r.Refused? ==>
                    && authorized && ready && wellNamed
                    && (forall i :: i in p.profiles ==> Lower(p.profiles[i].name) != Lower(name)))
              && (r.Refused? ==>
                    && journal == []
                    && match r.why
                       case Forbidden => !authorized
                       case NotFound => authorized && p.workspace.None?
                       case BadRequest => authorized && ready && !wellNamed
                       case Conflict =>
                         && authorized
                         && (|| (p.workspace.Some? && !ready)
                             || (&& ready && wellNamed
                                 && (exists i :: i in p.profiles && Lower(p.profiles[i].name) == Lower(name))))
                       case _ => false)
      ensures Followed(journal, [PutProfile(id, Profile(name, None, 1))], r)
      ensures r.Done? ==> var p, q := Part(old(db), ws), Part(db, ws);
                          && r.value == Profile(name, None, 1)
                          && Drifted(p.(profiles := p.profiles[id := r.value], used := p.used + {id}, note := NoNote), q)
      ensures Decided(r, CreateProfileCheck(Part(old(db), ws), name, wellNamed, authorized))
    {
      Begin(ws);
      var p := Part(db, ws);
      CreateProfileVerdicts(p, name, wellNamed, authorized);
      var admitted := AdmitProfile(p, name, wellNamed, authorized);
      if admitted.Refused? {
        return Refused(admitted.why);
      }
      Sound(ws);
      var row := Profile(name, None, 1);
      var ok := Do(ws, PutProfile(id, row));
      return if ok then Done(row) else Abandoned;
    }

    method DeleteProfile(ws: Id, id: Id, authorized: bool) returns (r: Reply<()>)
      requires Valid()
      modifies this
      ensures Valid() && request == Request(old(trace), ws)
      ensures var p := Part(old(db), ws);
              var ready := p.workspace.Some? && p.workspace.value.prov.state == Ready;
              && (!r.Refused? ==>
                    && authorized && ready && id in p.profiles
                    && (forall g :: g in p.gateways && p.gateways[g].profile == id ==> p.gateways[g].revoked))
              && (r.Refused? ==>
                    && journal == []
                    && match r.why
                       case Forbidden => !authorized
                       case NotFound => authorized && (p.workspace.None? || (ready && id !in p.profiles))
                       case Conflict => authorized && p.workspace.Some? && !ready
                       case ProfileInUse =>
                         && authorized && ready && id in p.profiles
                         && (exists g :: g in p.gateways && p.gateways[g].profile == id && !p.gateways[g].revoked)
                       case _ => false)
      ensures Followed(journal, [DropProfile(id)], r)
      ensures r.Done? ==> var p, q := Part(old(db), ws), Part(db, ws);
                          Drifted(p.(profiles := p.profiles - {id}, note := NoNote), q)
      ensures Decided(r, DeleteProfileCheck(Part(old(db), ws), id, authorized))
    {
      Begin(ws);
      var p := Part(db, ws);
      DeleteProfileVerdicts(p, id, authorized);
      var admitted := AdmitProfileDeletion(p, id, authorized);
      if admitted.Refused? {
        return Refused(admitted.why);
      }
      forall g | g in p.gateways && p.gateways[g].profile == id
        ensures p.gateways[g].revoked
      {
        assert !Uses(p, g, id);
      }
      var ok := Do(ws, DropProfile(id));
      return if ok then Done(()) else Abandoned;
    }

    /** Reserve the number, store the text, list the revision: in this order. */
    method CreateRevision(ws: Id, id: Id, yaml: string, authorized: bool) returns (r: Reply<Number>)
      requires Valid()
      modifies this
      ensures Valid() && request == Request(old(trace), ws)
      ensures var p := Part(old(db), ws);
              var ready := p.workspace.Some? && p.workspace.value.prov.state == Ready;
              && (!r.Refused? ==>
                    && authorized && ready && id in p.profiles && Acceptable(parser, p, yaml)
                    && 0 < p.profiles[id].next < MAX_U64)
              && (r.Refused? ==>
                    && journal == []
                    && match r.why
                       case Forbidden => !authorized
                       case NotFound => authorized && (p.workspace.None? || (ready && id !in p.profiles))
                       case BadRequest => authorized && ready && id in p.profiles && !Acceptable(parser, p, yaml)
                       case Conflict =>
                         && authorized
                         && (|| (p.workspace.Some? && !ready)
                             || (&& ready && id in p.profiles && Acceptable(parser, p, yaml)
                                 && !(0 < p.profiles[id].next < MAX_U64)))
                       case _ => false)
      ensures !r.Refused? ==>
                var row := Part(old(db), ws).profiles[id];
                var n := row.next;
                Followed(journal, [PutProfile(id, row.(next := n + 1)), PutText(id, n, yaml), PutRevision(id, n)], r)
      ensures r.Done? ==> var p, q := Part(old(db), ws), Part(db, ws);
                          var n := p.profiles[id].next;
                          && q.profiles == p.profiles[id := p.profiles[id].(next := n + 1)]
                          && q.texts == p.texts[(id, n) := yaml] && q.revisions == p.revisions + {(id, n)}
      ensures Decided(r, CreateRevisionCheck(parser, Part(old(db), ws), id, yaml, authorized))
      ensures r.Done? ==> r.value == Part(old(db), ws).profiles[id].next
    {
      Begin(ws);
      var p := Part(db, ws);
      CreateRevisionVerdicts(parser, p, id, yaml, authorized);
      var row := AdmitRevision(parser, p, id, yaml, authorized);
      if row.Refused? {
        return Refused(row.why);
      }
      var number := row.value.next;
      assert (id, number) !in p.texts && (id, number) !in p.revisions by {
        Sound(ws);
      }
      var ok := WriteRevision(ws, id, row.value, yaml);
      return if ok then Done(number) else Abandoned;
    }

    method WriteRevision(ws: Id, id: Id, row: Profile, yaml: string) returns (ok: bool)
      requires Valid() && request.ws == ws && journal == [] && InState(Part(db, ws), Ready)
      requires id in Part(db, ws).profiles && Part(db, ws).profiles[id] == row && 0 < row.next < MAX_U64
      requires (id, row.next) !in Part(db, ws).texts && (id, row.next) !in Part(db, ws).revisions
      modifies this
      ensures Valid() && request == old(request)
      ensures journal <= RevisionPlan(Part(old(db), ws), id, yaml)
      ensures ok ==> journal == RevisionPlan(Part(old(db), ws), id, yaml)
      ensures ok ==> var p, q := Part(old(db), ws), Part(db, ws);
                     && q.profiles == p.profiles[id := row.(next := row.next + 1)]
                     && q.texts == p.texts[(id, row.next) := yaml] && q.revisions == p.revisions + {(id, row.next)}
    {
      RevisionPrefixes(Part(db, ws), id, row, yaml, journal);
      ok := Do(ws, PutProfile(id, row.(next := row.next + 1)));
      if ok {
        ok := StoreRevision(ws, id, row.next, yaml);
      }
    }

    method StoreRevision(ws: Id, id: Id, number: Number, yaml: string) returns (ok: bool)
      requires Valid() && request.ws == ws
      requires InState(Part(db, ws), Ready) && id in Part(db, ws).profiles
      requires 0 < number == Part(db, ws).profiles[id].next - 1
      requires (id, number) !in Part(db, ws).texts && (id, number) !in Part(db, ws).revisions
      modifies this
      ensures Valid() && request == old(request)
      ensures || journal == old(journal) + [PutText(id, number, yaml), PutRevision(id, number)]
              || (!ok && journal == old(journal))
              || (!ok && journal == old(journal) + [PutText(id, number, yaml)])
      ensures ok ==> var p, q := Part(old(db), ws), Part(db, ws);
                     && q.profiles == p.profiles
                     && q.texts == p.texts[(id, number) := yaml] && q.revisions == p.revisions + {(id, number)}
    {
      ok := Do(ws, PutText(id, number, yaml));
      if ok {
        ok := Do(ws, PutRevision(id, number));
      }
    }

    method Publish(ws: Id, id: Id, number: Number, expected: Option<Number>, authorized: bool) returns (r: Reply<Profile>)
      requires Valid()
      modifies this
      ensures Valid() && request == Request(old(trace), ws)
      ensures var p := Part(old(db), ws);
              var ready := p.workspace.Some? && p.workspace.value.prov.state == Ready;
              var fits := id in p.profiles && p.profiles[id].current == expected;
              && (!r.Refused? ==>
                    && authorized && ready && fits && number != 0
                    && (id, number) in p.revisions
                    && (id, number) in p.texts && Acceptable(parser, p, p.texts[(id, number)]))
              && (r.Refused? ==>
                    && journal == []
                    && match r.why
                       case Forbidden => !authorized
                       case NotFound =>
                         && authorized
                         && (|| p.workspace.None?
                             || (&& ready
                                 && (|| id !in p.profiles
                                     || (&& fits && number != 0
                                         && ((id, number) !in p.revisions || (id, number) !in p.texts)))))
                       case Conflict =>
                         && authorized
                         && (|| (p.workspace.Some? && !ready)
                             || (ready && id in p.profiles && p.profiles[id].current != expected))
                       case BadRequest =>
                         && authorized && ready && fits
                         && (|| number == 0
                             || (&& (id, number) in p.revisions
                                 && (id, number) in p.texts && !Acceptable(parser, p, p.texts[(id, number)])))
                       case _ => false)
      ensures !r.Refused? ==>
                Followed(journal, [PutProfile(id, Part(old(db), ws).profiles[id].(current := Some(number)))], r)
      ensures r.Done? ==> var p, q := Part(old(db), ws), Part(db, ws);
                          && r.value == p.profiles[id].(current := Some(number))
                          && Drifted(p.(profiles := p.profiles[id := r.value], used := q.used, note := NoNote), q)
      ensures Decided(r, PublishCheck(parser, Part(old(db), ws), id, number, expected, authorized))
      ensures r.Done? ==> Servable(parser, Part(db, ws), id) && Part(db, ws).profiles[id] == r.value
    {
      Begin(ws);
      var p := Part(db, ws);
      PublishVerdicts(parser, p, id, number, expected, authorized);
      var row := AdmitPublication(parser, p, id, number, expected, authorized);
      if row.Refused? {
        return Refused(row.why);
      }
      var published := row.value.(current := Some(number));
      var ok := Do(ws, PutProfile(id, published));
      if !ok {
        return Abandoned;
      }
      Sound(ws);
      PublishedIsServable(parser, Part(db, ws), id);
      return Done(published);
    }

    // ---------- Members ----------

    method CreateMember(ws: Id, u: User, role: Role, authorized: bool) returns (r: Reply<Role>)
      requires Valid()
      modifies this
      ensures Valid() && request == Request(old(trace), ws)
      ensures var p := Part(old(db), ws);
              var active := p.workspace.Some? && p.workspace.value.prov.state != Deleting;
              && (!r.Refused? ==> authorized && active && (u in p.members ==> p.members[u] == role))
              && (r.Refused? ==>
                    && journal == []
                    && match r.why
                       case Forbidden => !authorized
                       case NotFound => authorized && p.workspace.None?
                       case Conflict =>
                         && authorized
                         && ((p.workspace.Some? && !active) || (active && u in p.members && p.members[u] != role))
                       case _ => false)
      ensures var p := Part(old(db), ws);
              var member := if u in p.members then [] else [PutMember(u, role)];
              Followed(journal, member + (if u in p.index then [] else [PutIndex(u)]), r)
      ensures Decided(r, CreateMemberCheck(Part(old(db), ws), u, role, authorized))
      ensures r.Done? ==> var p, q := Part(old(db), ws), Part(db, ws);
                          && r.value == role
                          && Drifted(p.(members := p.members[u := role], index := p.index + {u}, note := q.note), q)
    {
      Begin(ws);
      var p := Part(db, ws);
      CreateMemberVerdicts(p, u, role, authorized);
      var admitted := AdmitMember(p, u, role, authorized);
      if admitted.Refused? {
        return Refused(admitted.why);
      }
      var ok;
      if admitted.value {
        ok := EnsureIndex(ws, u);
      } else {
        ok := SaveMember(ws, u, role);
      }
      return if ok then Done(role) else Abandoned;
    }

    method UpdateMember(ws: Id, u: User, role: Role, authorized: bool) returns (r: Reply<Role>)
      requires Valid()
      modifies this
      ensures Valid() && request == Request(old(trace), ws)
      ensures var p := Part(old(db), ws);
              var active := p.workspace.Some? && p.workspace.value.prov.state != Deleting;
              var demoted := u in p.members && p.members[u] == Admin && role != Admin;
              && (!r.Refused? ==>
                    && authorized && active && u in p.members
                    && (!demoted || (exists v :: v in p.members && v != u && p.members[v] == Admin)))
              && (r.Refused? ==>
                    && journal == []
                    && match r.why
                       case Forbidden => !authorized
                       case NotFound => authorized && (p.workspace.None? || (active && u !in p.members))
                       case Conflict =>
                         && authorized
                         && (|| (p.workspace.Some? && !active)
                             || (&& active && demoted
                                 && (forall v :: v in p.members && p.members[v] == Admin ==> v == u)))
                       case _ => false)
      ensures var p := Part(old(db), ws);
              Followed(journal, [PutMember(u, role)] + (if u in p.index then [] else [PutIndex(u)]), r)
      ensures r.Done? ==> var p, q := Part(old(db), ws), Part(db, ws);
                          && r.value == role
                          && Drifted(p.(members := p.members[u := role], index := p.index + {u}, note := q.note), q)
      ensures Decided(r, UpdateMemberCheck(Part(old(db), ws), u, role, authorized))
    {
      Begin(ws);
      var p := Part(db, ws);
      UpdateMemberVerdicts(p, u, role, authorized);
      var admitted := AdmitRoleChange(p, u, role, authorized);
      if admitted.Refused? {
        return Refused(admitted.why);
      }
      var ok := SaveMember(ws, u, role);
      return if ok then Done(role) else Abandoned;
    }

    /** The membership goes first: an index row alone authorizes nothing. */
    method DeleteMember(ws: Id, u: User, authorized: bool) returns (r: Reply<()>)
      requires Valid()
      modifies this
      ensures Valid() && request == Request(old(trace), ws)
      ensures var p := Part(old(db), ws);
              var active := p.workspace.Some? && p.workspace.value.prov.state != Deleting;
              var demoted := u in p.members && p.members[u] == Admin;
              && (!r.Refused? ==>
                    && authorized && active
                    && (!demoted || (exists v :: v in p.members && v != u && p.members[v] == Admin)))
              && (r.Refused? ==>
                    && journal == []
                    && match r.why
                       case Forbidden => !authorized
                       case NotFound => authorized && p.workspace.None?
                       case Conflict =>
                         && authorized
                         && (|| (p.workspace.Some? && !active)
                             || (&& active && demoted
                                 && (forall v :: v in p.members && p.members[v] == Admin ==> v == u)))
                       case _ => false)
      ensures var p := Part(old(db), ws);
              var member := if u in p.members then [DropMember(u)] else [];
              Followed(journal, member + (if u in p.index then [DropIndex(u)] else []), r)
      ensures r.Done? ==> var p, q := Part(old(db), ws), Part(db, ws);
                          Drifted(p.(members := p.members - {u}, index := p.index - {u}, note := q.note), q)
      ensures Decided(r, DeleteMemberCheck(Part(old(db), ws), u, authorized))
    {
      Begin(ws);
      var p := Part(db, ws);
      DeleteMemberVerdicts(p, u, authorized);
      var admitted := AdmitRemoval(p, u, authorized);
      if admitted.Refused? {
        return Refused(admitted.why);
      }
      if admitted.value {
        var ok := Do(ws, DropMember(u));
        if !ok {
          return Abandoned;
        }
      }
      if u in Part(db, ws).index {
        var ok := Do(ws, DropIndex(u));
        if !ok {
          return Abandoned;
        }
      }
      assert u !in p.members ==> p.members - {u} == p.members;
      assert u !in p.index ==> p.index - {u} == p.index;
      return Done(());
    }

    /** `ensure_index`: the membership row exists already. */
    method EnsureIndex(ws: Id, u: User) returns (ok: bool)
      requires Valid() && request.ws == ws
      requires Active(Part(db, ws)) && u in Part(db, ws).members
      modifies this
      ensures Valid() && request == old(request) && old(db).clock <= db.clock
      ensures journal == old(journal) + IndexPlan(Part(old(db), ws), u) || (!ok && journal == old(journal))
      ensures ok ==> var p := Part(old(db), ws);
                     Drifted(p.(index := p.index + {u}, note := Part(db, ws).note), Part(db, ws))
    {
      if u !in Part(db, ws).index {
        ok := Do(ws, PutIndex(u));
      } else {
        ok := true;
        assert Part(db, ws).index + {u} == Part(db, ws).index;
      }
    }

    /** The membership first, then its index row. */
    method SaveMember(ws: Id, u: User, role: Role) returns (ok: bool)
      requires Valid() && request.ws == ws && Active(Part(db, ws))
      requires Enabled(parser, Part(db, ws), db.clock, PutMember(u, role))
      modifies this
      ensures Valid() && request == old(request)
      ensures || journal == old(journal) + ([PutMember(u, role)] + IndexPlan(Part(old(db), ws), u))
              || (!ok && (journal == old(journal) || journal == old(journal) + [PutMember(u, role)]))
      ensures ok ==> var p, q := Part(old(db), ws), Part(db, ws);
                     Drifted(p.(members := p.members[u := role], index := p.index + {u}, note := q.note), q)
    {
      ok := Do(ws, PutMember(u, role));
      if ok {
        ok := EnsureIndex(ws, u);
      }
    }

    // ---------- Gateways ----------

    /** `mint`: only a profile that can be served right now gets a gateway. */
    method Mint(ws: Id, g: Id, profile: Id, wellNamed: bool) returns (r: Reply<Gateway>)
      requires Valid() && request.ws == ws && g !in Part(db, ws).used
      modifies this
      ensures Valid() && request == old(request)
      ensures Decided(r, MintCheck(parser, Part(old(db), ws), profile, wellNamed))
      ensures journal == old(journal) + [PutGateway(g, NewGateway(profile))] || (!r.Done? && journal == old(journal))
      ensures r.Refused? ==> journal == old(journal) && db == old(db)
      ensures r.Done? ==> r.value == NewGateway(profile)
                          && Drifted(Apply(Part(old(db), ws), PutGateway(g, NewGateway(profile))), Part(db, ws))
    {
      var p := Part(db, ws);
      var admitted := AdmitGateway(parser, p, profile, wellNamed);
      if admitted.Refused? {
        return Refused(admitted.why);
      }
      assert g !in p.gateways by {
        Sound(ws);
      }
      var ok := Do(ws, PutGateway(g, NewGateway(profile)));
      return if ok then Done(NewGateway(profile)) else Abandoned;
    }

    method CreateGateway(ws: Id, g: Id, profile: Id, wellNamed: bool, authorized: bool) returns (r: Reply<Gateway>)
      requires Valid() && g !in Part(db, ws).used
      modifies this
      ensures Valid() && request == Request(old(trace), ws)
      ensures var p := Part(old(db), ws);
              var ready := p.workspace.Some? && p.workspace.value.prov.state == Ready;
              var published := profile in p.profiles && p.profiles[profile].current.Some?;
              && (!r.Refused? ==> authorized && wellNamed && ready && published)
              && (r.Refused? ==>
                    && journal == []
                    && match r.why
                       case Forbidden => !authorized
                       case BadRequest => authorized && !wellNamed
                       case NotFound =>
                         authorized && wellNamed && (p.workspace.None? || (ready && profile !in p.profiles))
                       case Conflict =>
                         && authorized && wellNamed
                         && ((p.workspace.Some? && !ready) || (ready && profile in p.profiles && !published))
                       case _ => false)
      ensures Followed(journal, [PutGateway(g, Gateway(profile, false, None, None))], r)
      ensures r.Done? ==> var p, q := Part(old(db), ws), Part(db, ws);
                          && r.value == Gateway(profile, false, None, None)
                          && Drifted(p.(gateways := p.gateways[g := r.value], used := p.used + {g}, note := NoNote), q)
      ensures Decided(r, if !authorized then Some(Forbidden) else MintCheck(parser, Part(old(db), ws), profile, wellNamed))
    {
      Begin(ws);
      var p := Part(db, ws);
      Sound(ws);
      CreateGatewayVerdicts(parser, p, profile, wellNamed);
      if !authorized {
        return Refused(Forbidden);
      }
      r := Mint(ws, g, profile, wellNamed);
    }

    method RevokeGateway(ws: Id, g: Id, authorized: bool) returns (r: Reply<()>)
      requires Valid()
      modifies this
      ensures Valid() && request == Request(old(trace), ws)
      ensures var p := Part(old(db), ws);
              var active := p.workspace.Some? && p.workspace.value.prov.state != Deleting;
              && (!r.Refused? ==> authorized && active && g in p.gateways)
              && (r.Refused? ==>
                    && journal == []
                    && match r.why
                       case Forbidden => !authorized
                       case NotFound => authorized && (p.workspace.None? || (active && g !in p.gateways))
                       case Conflict => authorized && p.workspace.Some? && !active
                       case _ => false)
      ensures !r.Refused? ==>
                var row := Part(old(db), ws).gateways[g];
                Followed(journal, [PutGateway(g, row.(revoked := true))], r)
      ensures r.Done? ==> var p, q := Part(old(db), ws), Part(db, ws);
                          Drifted(p.(gateways := p.gateways[g := p.gateways[g].(revoked := true)], used := q.used, note := NoNote), q)
      ensures Decided(r, RevokeCheck(Part(old(db), ws), g, authorized))
    {
      Begin(ws);
      var p := Part(db, ws);
      RevokeGatewayVerdicts(p, g, authorized);
      var row := AdmitRevocation(p, g, authorized);
      if row.Refused? {
        return Refused(row.why);
      }
      var ok := Do(ws, PutGateway(g, row.value.(revoked := true)));
      return if ok then Done(()) else Abandoned;
    }

    /** The published revision of the gateway's profile; only a bad or revoked credential is refused. */
    method GatewayConfig(ws: Id, g: Id, genuine: bool) returns (r: Reply<(Number, Config)>)
      requires Valid()
      modifies this
      ensures Valid() && request == Request(old(trace), ws)
      ensures var p := Part(old(db), ws);
              r.Refused? <==> g !in p.gateways || p.gateways[g].revoked || !genuine
      ensures r.Refused? ==> r.why == Unauthorized && journal == []
      ensures !r.Refused? ==>
                var row := Part(old(db), ws).gateways[g];
                Followed(journal, [PutGateway(g, row.(lastSeen := Some(old(db).clock)))], r)
      ensures r.Done? ==> var p, q := Part(old(db), ws), Part(db, ws);
                          var row := p.gateways[g].(lastSeen := Some(old(db).clock));
                          Drifted(p.(gateways := p.gateways[g := row], used := q.used, note := NoNote), q)
      ensures r.Done? ==> var p := Part(old(db), ws);
                          var profile := p.gateways[g].profile;
                          && profile in p.profiles && p.profiles[profile].current == Some(r.value.0)
                          && (profile, r.value.0) in p.texts
                          && parser.raw(p.texts[(profile, r.value.0)]) == Some(r.value.1)
      ensures Decided(r, ConfigCheck(parser, Part(old(db), ws), g, genuine))
    {
      Begin(ws);
      OnlyUnauthorized(ws, g, genuine);
      var p := Part(db, ws);
      Sound(ws);
      if g in p.gateways && !p.gateways[g].revoked {
        UnrevokedIsPublished(parser, p, g);
      }
      var config := ServeGateway(parser, p, g, genuine);
      if config.Refused? {
        return Refused(config.why);
      }
      var ok := Do(ws, PutGateway(g, p.gateways[g].(lastSeen := Some(db.clock))));
      return if ok then Done(config.value) else Abandoned;
    }

    /** A token is issued only for a rule of the published config, in that rule's direction. */
    method RelayToken(ws: Id, g: Id, name: string, right: Right, wellFormed: bool, genuine: bool, issued: bool)
      returns (r: Reply<()>)
      requires Valid()
      modifies this
      ensures Valid() && request == Request(old(trace), ws)
      ensures var p := Part(old(db), ws);
              if g !in p.gateways || p.gateways[g].revoked || !genuine then
                r == Refused(Unauthorized)
              else
                var profile := p.gateways[g].profile;
                && profile in p.profiles && p.profiles[profile].current.Some?
                && var key := (profile, p.profiles[profile].current.value);
                   && key in p.texts && parser.raw(p.texts[key]).Some?
                   && var c := parser.raw(p.texts[key]).value;
                      && (r.Done? && right.Send? ==> name in c.localNames)
                      && (r.Done? && right.Listen? ==> name in c.remoteNames)
                      && (!r.Refused? ==> wellFormed && name in (if right.Send? then c.localNames else c.remoteNames))
                      && (r == Refused(Forbidden) ==> wellFormed && (right.Send? ==> name !in c.localNames))
                      && (r == Refused(Forbidden) ==> wellFormed && (right.Listen? ==> name !in c.remoteNames))
                      && (r.Refused? ==> r.why == Forbidden || (r.why == BadRequest && !wellFormed))
      ensures r.Refused? ==> journal == []
      ensures !r.Refused? ==>
                var row := Part(old(db), ws).gateways[g];
                Followed(journal, [PutGateway(g, row.(lastSeen := Some(old(db).clock)))], r)
      ensures r.Done? ==> var p, q := Part(old(db), ws), Part(db, ws);
                          var row := p.gateways[g].(lastSeen := Some(old(db).clock));
                          Drifted(p.(gateways := p.gateways[g := row], used := q.used, note := NoNote), q)
      ensures Decided(r, TokenCheck(parser, Part(old(db), ws), g, name, right, wellFormed, genuine))
      ensures r.Done? ==> issued && ServedByReady(Part(old(db), ws), name)
    {
      Begin(ws);
      Sound(ws);
      var p := Part(db, ws);
      TokenVerdicts(parser, p, g, name, right, wellFormed, genuine);
      var row := AdmitToken(parser, p, g, name, right, wellFormed, genuine);
      if row.Refused? {
        return Refused(row.why);
      }
      if !issued {
        return Abandoned;
      }
      var ok := Do(ws, PutGateway(g, row.value.(lastSeen := Some(db.clock))));
      return if ok then Done(()) else Abandoned;
    }

    /** A gateway reports a revision it applied: one that was handed out for its profile, at most the published one. */
    method Status(ws: Id, g: Id, applied: Number, wellFormed: bool, genuine: bool) returns (r: Reply<()>)
      requires Valid()
      modifies this
      ensures Valid() && request == Request(old(trace), ws)
      ensures var p := Part(old(db), ws);
              if g !in p.gateways || p.gateways[g].revoked || !genuine then
                r == Refused(Unauthorized)
              else
                var profile := p.gateways[g].profile;
                && profile in p.profiles && p.profiles[profile].current.Some?
                && var published := p.profiles[profile].current.value;
                   && (!r.Refused? ==> wellFormed && 1 <= applied <= published)
                   && (r.Refused? ==> r.why == BadRequest && (!wellFormed || applied == 0 || applied > published))
      ensures r.Refused? ==> journal == []
      ensures !r.Refused? ==>
                var row := Part(old(db), ws).gateways[g];
                Followed(journal, [PutGateway(g, row.(lastSeen := Some(old(db).clock), applied := Some(applied)))], r)
      ensures r.Done? ==> var p, q := Part(old(db), ws), Part(db, ws);
                          var row := p.gateways[g].(lastSeen := Some(old(db).clock), applied := Some(applied));
                          Drifted(p.(gateways := p.gateways[g := row], used := q.used, note := NoNote), q)
      ensures Decided(r, StatusCheck(parser, Part(old(db), ws), g, applied, wellFormed, genuine))
      ensures r.Done? ==> ReportsApplied(Part(old(db), ws), Part(db, ws), g, applied)
    {
      Begin(ws);
      Sound(ws);
      var p := Part(db, ws);
      StatusVerdicts(parser, p, g, applied, wellFormed, genuine);
      var row := AdmitStatus(parser, p, g, applied, wellFormed, genuine);
      if row.Refused? {
        return Refused(row.why);
      }
      var ok := Do(ws, PutGateway(g, row.value.(lastSeen := Some(db.clock), applied := Some(applied))));
      return if ok then Done(()) else Abandoned;
    }

    method Logout(ws: Id, g: Id, genuine: bool) returns (r: Reply<()>)
      requires Valid()
      modifies this
      ensures Valid() && request == Request(old(trace), ws)
      ensures var p := Part(old(db), ws);
              r.Refused? <==> g !in p.gateways || p.gateways[g].revoked || !genuine
      ensures r.Refused? ==> r.why == Unauthorized && journal == []
      ensures !r.Refused? ==>
                var row := Part(old(db), ws).gateways[g];
                Followed(journal, [PutGateway(g, row.(revoked := true, lastSeen := Some(old(db).clock)))], r)
      ensures r.Done? ==> var p, q := Part(old(db), ws), Part(db, ws);
                          var row := p.gateways[g].(revoked := true, lastSeen := Some(old(db).clock));
                          Drifted(p.(gateways := p.gateways[g := row], used := q.used, note := NoNote), q)
      ensures Decided(r, BearerCheck(Part(old(db), ws), g, genuine))
    {
      Begin(ws);
      OnlyUnauthorized(ws, g, genuine);
      var p := Part(db, ws);
      var row := Bearer(p, g, genuine);
      if row.Refused? {
        return Refused(row.why);
      }
      var ok := Do(ws, PutGateway(g, row.value.(revoked := true, lastSeen := Some(db.clock))));
      return if ok then Done(()) else Abandoned;
    }

    // ---------- Enrollments ----------

    /** `device` is the answer of the device endpoint: lifetime and interval in seconds. */
    method StartEnrollment(ws: Id, e: Id, profile: Id, resolved: bool, device: Option<(nat, nat)>) returns (r: Reply<()>)
      requires Valid() && e !in Part(db, ws).used
      requires device.Some? ==> db.clock + device.value.0 <= MAX_U64 && db.clock + device.value.1 <= MAX_U64
      modifies this
      ensures Valid() && request == Request(old(trace), ws)
      ensures var p := Part(old(db), ws);
              var ready := p.workspace.Some? && p.workspace.value.prov.state == Ready;
              var published := profile in p.profiles && p.profiles[profile].current.Some?;
              && (!r.Refused? ==> resolved && ready && published)
              && (r.Refused? ==>
                    && journal == []
                    && match r.why
                       case BadRequest => !resolved
                       case NotFound => resolved && (p.workspace.None? || (ready && profile !in p.profiles))
                       case Conflict =>
                         && resolved
                         && ((p.workspace.Some? && !ready) || (ready && profile in p.profiles && !published))
                       case _ => false)
      ensures device.Some? ==>
                var (expiresIn, interval), now := device.value, old(db).clock;
                var row := Enrollment(profile, now + expiresIn, now + interval, interval);
                && Followed(journal, [PutEnrollment(e, row)], r)
                && (r.Done? ==>
                      var p, q := Part(old(db), ws), Part(db, ws);
                      Drifted(p.(enrollments := p.enrollments[e := row], used := p.used + {e}, note := NoNote), q))
      ensures device.None? ==> !r.Done? && journal == []
      ensures Decided(r, StartCheck(parser, Part(old(db), ws), profile, resolved))
      ensures r.Done? ==> Servable(parser, Part(old(db), ws), profile)
    {
      Begin(ws);
      var p := Part(db, ws);
      Sound(ws);
      StartEnrollmentVerdicts(parser, p, profile, resolved);
      var admitted := AdmitEnrollment(parser, p, profile, resolved);
      if admitted.Refused? {
        return Refused(admitted.why);
      }
      if device.None? {
        return Abandoned;
      }
      assert e !in p.enrollments by {
        Sound(ws);
      }
      var (expiresIn, interval) := device.value;
      var ok := Do(ws, PutEnrollment(e, Enrollment(profile, db.clock + expiresIn, db.clock + interval, interval)));
      return if ok then Done(()) else Abandoned;
    }

    /**
      One poll: reserve it, ask the device endpoint, and on authorization consume the enrollment
      before minting. `poll` is the endpoint's answer and `role` the outcome of the role check.
    */
    method PollEnrollment(ws: Id, e: Id, g: Id, poll: DevicePoll, role: bool, wellNamed: bool) returns (r: Reply<PollReply>)
      requires Valid() && g !in Part(db, ws).used
      modifies this
      ensures Valid() && request == Request(old(trace), ws)
      ensures e !in Part(old(db), ws).enrollments ==> r == Done(PollReply.Expired) && journal == []
      ensures e in Part(old(db), ws).enrollments ==>
                var row, now := Part(old(db), ws).enrollments[e], old(db).clock;
                var longer := Sat(row.interval + 5);
                var slowed := PutEnrollment(e, row.(interval := longer, nextPollAt := Sat(now + longer)));
                var reserved := PutEnrollment(e, row.(nextPollAt := Sat(now + row.interval)));
                var gone := DropEnrollment(e);
                if row.expiresAt <= now then
                  journal <= [gone] && (r.Done? ==> r.value == PollReply.Expired && journal == [gone])
                else if now < row.nextPollAt then
                  journal <= [slowed] && (r.Done? ==> r.value == PollReply.SlowDown(longer) && journal == [slowed])
                else
                  match poll
                  case Pending =>
                    journal <= [reserved] && (r.Done? ==> r.value == PollReply.Pending(row.interval) && journal == [reserved])
                  case SlowDown =>
                    && journal <= [reserved, slowed]
                    && (r.Done? ==> r.value == PollReply.SlowDown(longer) && journal == [reserved, slowed])
                  case Expired =>
                    && journal <= [reserved, gone]
                    && (r.Done? ==> r.value == PollReply.Expired && journal == [reserved, gone])
                  case Denied =>
                    && journal <= [reserved, gone]
                    && (r.Done? ==> r.value == PollReply.Denied && journal == [reserved, gone])
                  case Authorized =>
                    var minted := PutGateway(g, Gateway(row.profile, false, None, None));
                    && journal <= [reserved, gone, minted]
                    && (r.Done? ==>
                          || (r.value == PollReply.Authorized(g) && journal == [reserved, gone, minted])
                          || (r.value == PollReply.Expired && journal == [reserved, gone])
                          || (r.value == PollReply.Denied && !role && journal == [reserved, gone]))
      ensures r.Done? && (r.value.Expired? || r.value.Denied?) ==> e !in Part(db, ws).enrollments
      ensures r.Refused? ==>
                && e in Part(old(db), ws).enrollments && e !in Part(db, ws).enrollments
                && (r.why == NotFound || (poll.Authorized? && role))
      ensures r.Done? && r.value.Authorized? ==>
                role && GatewayFor(parser, Part(db, ws), e, g, Part(old(db), ws).enrollments[e].profile)
      ensures r == Done(PollReply.Expired) && e in Part(old(db), ws).enrollments && poll.Authorized? ==>
                Part(old(db), ws).enrollments[e].expiresAt <= db.clock
    {
      Begin(ws);
      if e !in Part(db, ws).enrollments {
        return Done(PollReply.Expired);
      }
      var row := Part(db, ws).enrollments[e];
      var now := db.clock;
      r := PollFound(ws, e, g, row, now, poll, role, wellNamed);
      PollMeans(e, g, row, now, poll, role, journal, r);
    }

    /** The poll of an enrollment that was found when it was read at `now`. */
    method PollFound(ws: Id, e: Id, g: Id, row: Enrollment, now: nat, poll: DevicePoll, role: bool, wellNamed: bool)
      returns (r: Reply<PollReply>)
      requires Valid() && request.ws == ws && g !in Part(db, ws).used && journal == []
      requires e in Part(db, ws).enrollments && Part(db, ws).enrollments[e] == row && now <= db.clock
      modifies this
      ensures Valid() && request == old(request)
      ensures Concluded([], journal, PollPlan(e, g, row, now, poll), PollAnswer(g, row, now, poll), role, r)
      ensures r.Done? && r.value.Authorized? ==> role && GatewayFor(parser, Part(db, ws), e, g, row.profile)
      ensures r == Done(PollReply.Expired) && poll.Authorized? ==> row.expiresAt <= db.clock
      ensures Over(r) ==> e !in Part(db, ws).enrollments
      ensures r.Refused? ==> r.why == NotFound || (poll.Authorized? && role)
    {
      Pause(ws);
      if e !in Part(db, ws).enrollments {
        return Refused(NotFound);
      }
      if row.expiresAt <= now {
        r := Conclude(ws, e, PollReply.Expired);
        ConcludedAtOnce(journal, PollPlan(e, g, row, now, poll), PollAnswer(g, row, now, poll), role, r);
        return;
      }
      r := PollRow(ws, e, g, row, now, poll, role, wellNamed);
    }

    /** The poll of an enrollment that had not expired when it was read at `now`. */
    method PollRow(ws: Id, e: Id, g: Id, row: Enrollment, now: nat, poll: DevicePoll, role: bool, wellNamed: bool)
      returns (r: Reply<PollReply>)
      requires Valid() && request.ws == ws && g !in Part(db, ws).used && journal == []
      requires e in Part(db, ws).enrollments && Part(db, ws).enrollments[e] == row && now < row.expiresAt
      modifies this
      ensures Valid() && request == old(request)
      ensures Concluded([], journal, PollPlan(e, g, row, now, poll), PollAnswer(g, row, now, poll), role, r)
      ensures r.Done? && r.value.Authorized? ==> role && GatewayFor(parser, Part(db, ws), e, g, row.profile)
      ensures r == Done(PollReply.Expired) && poll.Authorized? ==> row.expiresAt <= db.clock
      ensures Over(r) ==> e !in Part(db, ws).enrollments
      ensures r.Refused? ==> r.why == NotFound || (poll.Authorized? && role)
    {
      var reserved := Reserve(row, now);
      var ok := ReservePoll(ws, e, g, reserved);
      if !ok || Early(row, now) {
        r := if ok then Done(PollReply.SlowDown(reserved.interval)) else Abandoned;
        ConcludedAtOnce(journal, PollPlan(e, g, row, now, poll), PollAnswer(g, row, now, poll), role, r);
        return;
      }
      r := Settle(ws, e, g, reserved, now, poll, role, wellNamed);
      ConcludedAfter(journal, PutEnrollment(e, reserved), SettlePlan(e, g, reserved, now, poll),
                     SettleAnswer(g, reserved, now, poll), role, r);
    }

    method ReservePoll(ws: Id, e: Id, g: Id, reserved: Enrollment) returns (ok: bool)
      requires Valid() && request.ws == ws && g !in Part(db, ws).used && journal == []
      requires e in Part(db, ws).enrollments && reserved.profile == Part(db, ws).enrollments[e].profile
      modifies this
      ensures Valid() && request == old(request)
      ensures journal == [PutEnrollment(e, reserved)] || (!ok && journal == [])
      ensures ok ==> g !in Part(db, ws).used && (e in Part(db, ws).enrollments ==> Part(db, ws).enrollments[e] == reserved)
    {
      assert g != e by {
        Sound(ws);
      }
      ok := Do(ws, PutEnrollment(e, reserved));
    }

    /** What follows the reservation, once the device endpoint has answered. */
    method Settle(ws: Id, e: Id, g: Id, row: Enrollment, at: nat, poll: DevicePoll, role: bool, wellNamed: bool)
      returns (r: Reply<PollReply>)
      requires Valid() && request.ws == ws && g !in Part(db, ws).used
      requires e in Part(db, ws).enrollments ==> Part(db, ws).enrollments[e] == row
      modifies this
      ensures Valid() && request == old(request)
      ensures Concluded(old(journal), journal, SettlePlan(e, g, row, at, poll), SettleAnswer(g, row, at, poll), role, r)
      ensures r.Done? && r.value.Authorized? ==> role && GatewayFor(parser, Part(db, ws), e, g, row.profile)
      ensures r == Done(PollReply.Expired) && poll.Authorized? ==> row.expiresAt <= db.clock
      ensures Over(r) ==> e !in Part(db, ws).enrollments
      ensures r.Refused? ==> r.why == NotFound || (poll.Authorized? && role)
    {
      match poll {
        case Pending => r := Done(PollReply.Pending(row.interval));
        case SlowDown => r := SlowDown(ws, e, Slowed(row, at));
        case Authorized => r := Consume(ws, e, g, row, role, wellNamed);
        case Expired => r := Conclude(ws, e, PollReply.Expired);
        case Denied => r := Conclude(ws, e, PollReply.Denied);
      }
    }

    /** The device endpoint asks for a longer interval. */
    method SlowDown(ws: Id, e: Id, slowed: Enrollment) returns (r: Reply<PollReply>)
      requires Valid() && request.ws == ws
      requires e in Part(db, ws).enrollments ==>
                 slowed == Part(db, ws).enrollments[e].(interval := slowed.interval, nextPollAt := slowed.nextPollAt)
      modifies this
      ensures Valid() && request == old(request)
      ensures journal == old(journal) + [PutEnrollment(e, slowed)] || (!r.Done? && journal == old(journal))
      ensures r.Done? ==> r.value == PollReply.SlowDown(slowed.interval)
      ensures r.Refused? ==> r.why == NotFound && e !in Part(db, ws).enrollments
    {
      if e !in Part(db, ws).enrollments {
        return Refused(NotFound);
      }
      var ok := Do(ws, PutEnrollment(e, slowed));
      return if ok then Done(PollReply.SlowDown(slowed.interval)) else Abandoned;
    }

    /** The device endpoint is done with the enrollment, without an authorization. */
    method Conclude(ws: Id, e: Id, answer: PollReply) returns (r: Reply<PollReply>)
      requires Valid() && request.ws == ws
      modifies this
      ensures Valid() && request == old(request) && old(db).clock <= db.clock
      ensures journal == old(journal) + [DropEnrollment(e)] || (!r.Done? && journal == old(journal))
      ensures r.Done? ==> r.value == answer && e !in Part(db, ws).enrollments
      ensures r.Refused? ==> r.why == NotFound && e !in Part(db, ws).enrollments
    {
      if e !in Part(db, ws).enrollments {
        return Refused(NotFound);
      }
      var ok := Do(ws, DropEnrollment(e));
      return if ok then Done(answer) else Abandoned;
    }

    /** The device endpoint has authorized: the enrollment is consumed first. */
    method Consume(ws: Id, e: Id, g: Id, row: Enrollment, role: bool, wellNamed: bool) returns (r: Reply<PollReply>)
      requires Valid() && request.ws == ws && g !in Part(db, ws).used
      requires e in Part(db, ws).enrollments ==> Part(db, ws).enrollments[e] == row
      modifies this
      ensures Valid() && request == old(request)
      ensures Concluded(old(journal), journal, [DropEnrollment(e), PutGateway(g, NewGateway(row.profile))],
                        PollReply.Authorized(g), role, r)
      ensures r.Done? && r.value.Authorized? ==> role && GatewayFor(parser, Part(db, ws), e, g, row.profile)
      ensures r == Done(PollReply.Expired) ==> row.expiresAt <= db.clock
      ensures Over(r) ==> e !in Part(db, ws).enrollments
      ensures r.Refused? ==> r.why == NotFound || role
    {
      if e !in Part(db, ws).enrollments {
        return Refused(NotFound);
      }
      var ok := Do(ws, DropEnrollment(e));
      if !ok {
        return Abandoned;
      }
      ghost var mid := journal;
      r := Redeem(ws, e, g, row, role, wellNamed);
      assert journal == mid || journal == mid + [PutGateway(g, NewGateway(row.profile))];
    }

    /** The enrollment has been consumed; a gateway is minted at most once for it. */
    method Redeem(ws: Id, e: Id, g: Id, row: Enrollment, role: bool, wellNamed: bool) returns (r: Reply<PollReply>)
      requires Valid() && request.ws == ws && g !in Part(db, ws).used && e !in Part(db, ws).enrollments
      modifies this
      ensures Valid() && request == old(request)
      ensures r.Done? && r.value.Authorized? ==> role && GatewayFor(parser, Part(db, ws), e, g, row.profile)
      ensures Over(r) ==> e !in Part(db, ws).enrollments
      ensures r.Refused? ==> r.why == NotFound || role
      ensures || journal == old(journal) + [PutGateway(g, NewGateway(row.profile))]
              || (journal == old(journal) && !(r.Done? && r.value.Authorized?))
      ensures r.Done? ==> r.value == PollReply.Authorized(g)
                          || (journal == old(journal) && r.value == PollReply.Expired && row.expiresAt <= db.clock)
                          || (journal == old(journal) && r.value == PollReply.Denied && !role)
    {
      if row.expiresAt <= db.clock {
        return Done(PollReply.Expired);
      }
      if !role {
        return Done(PollReply.Denied);
      }
      r := MintFor(ws, e, g, row.profile, wellNamed);
    }

    /** The gateway of a consumed enrollment. */
    method MintFor(ws: Id, e: Id, g: Id, profile: Id, wellNamed: bool) returns (r: Reply<PollReply>)
      requires Valid() && request.ws == ws && g !in Part(db, ws).used && e !in Part(db, ws).enrollments
      modifies this
      ensures Valid() && request == old(request)
      ensures r.Done? ==> r.value == PollReply.Authorized(g) && GatewayFor(parser, Part(db, ws), e, g, profile)
      ensures r.Refused? ==> e !in Part(db, ws).enrollments
      ensures journal == old(journal) + [PutGateway(g, NewGateway(profile))] || (!r.Done? && journal == old(journal))
    {
      var minted := Mint(ws, g, profile, wellNamed);
      match minted {
        case Done(_) =>
          assert Servable(parser, Part(db, ws), profile) by {
            Sound(ws);
            PublishedIsServable(parser, Part(db, ws), profile);
          }
          return Done(PollReply.Authorized(g));
        case Refused(why) => return Refused(why);
        case Abandoned => return Abandoned;
      }
    }

    // ---------- Connections ----------

    method CreateConnection(ws: Id, c: Id, name: string, wellNamed: bool, authorized: bool, cloud: Cloud)
      returns (r: Reply<Connection>)
      requires Valid() && c !in Part(db, ws).used
      modifies this
      ensures Valid() && request == Request(old(trace), ws)
      ensures var p := Part(old(db), ws);
              var ready := p.workspace.Some? && p.workspace.value.prov.state == Ready;
              && (!r.Refused? ==>
                    && authorized && ready && wellNamed
                    && (forall d :: d in p.connections ==> Lower(p.connections[d].name) != Lower(name)))
              && (r.Refused? ==>
                    && journal == []
                    && match r.why
                       case Forbidden => !authorized
                       case NotFound => authorized && p.workspace.None?
                       case BadRequest => authorized && ready && !wellNamed
                       case Conflict =>
                         && authorized
                         && (|| (p.workspace.Some? && !ready)
                             || (&& ready && wellNamed
                                 && (exists d :: d in p.connections && Lower(p.connections[d].name) == Lower(name))))
                       case _ => false)
      ensures Decided(r, CreateConnectionCheck(Part(old(db), ws), name, wellNamed, authorized))
      ensures r.Refused? ==> journal == []
      ensures journal != [] ==> journal[0] == PutConnection(c, Connection(name, Provision(State.Pending, 0, false, MAX_U64)))
      ensures r.Done? ==> c in Part(db, ws).connections && Part(db, ws).connections[c] == r.value && r.value.name == name
      ensures r.Done? ==>
                var w := r.value.prov;
                match cloud.connection(c)
                case Reported(Ready) => w == Provision(Ready, 0, false, MAX_U64)
                case Reported(Provisioning) => w == Provision(Provisioning, 0, false, MAX_U64)
                case Reported(Pending) => w == Provision(State.Pending, 0, false, MAX_U64)
                case Reported(_) => w == Provision(Failed, 0, false, MAX_U64)
                case Errored(transient) =>
                  && w == Provision(Failed, 1, transient, w.retryAt)
                  && Sat(old(db).clock + 60) <= w.retryAt <= Sat(db.clock + 60)
    {
      Begin(ws);
      var p := Part(db, ws);
      CreateConnectionVerdicts(p, name, wellNamed, authorized);
      var admitted := AdmitConnection(p, name, wellNamed, authorized);
      if admitted.Refused? {
        return Refused(admitted.why);
      }
      assert c !in p.connections by {
        Sound(ws);
      }
      var ok := SaveConnection(ws, c, Connection(name, FRESH));
      if !ok {
        return Abandoned;
      }
      ghost var begun := db.clock;
      r := FirstPass(ws, c, cloud);
      if r.Done? {
        FirstAttempt(cloud.connection(c), begun, db.clock, r.value.prov);
      }
    }

    /** A pass right after a connection was inserted. */
    method FirstPass(ws: Id, c: Id, cloud: Cloud) returns (r: Reply<Connection>)
      requires Valid() && request.ws == ws && InState(Part(db, ws), Ready)
      requires c in Part(db, ws).connections && Part(db, ws).connections[c].prov == FRESH
      modifies this
      ensures Valid() && request == old(request) && old(journal) <= journal && old(db).clock <= db.clock && !r.Refused?
      ensures r.Done? ==> && c in Part(db, ws).connections && Part(db, ws).connections[c] == r.value
                          && r.value.name == Part(old(db), ws).connections[c].name
                          && Attained(FRESH, cloud.connection(c), old(db).clock, db.clock, r.value.prov)
    {
      var ok := ReconcileConnections(ws, cloud);
      if !ok {
        return Abandoned;
      }
      assert Processed(parser, Part(old(db), ws), c, cloud, old(db).clock, db.clock, Part(db, ws));
      return Done(Part(db, ws).connections[c]);
    }

    /** Answers whether the connection is already gone. */
    method DeleteConnection(ws: Id, c: Id, authorized: bool, cloud: Cloud) returns (r: Reply<bool>)
      requires Valid()
      modifies this
      ensures Valid() && request == Request(old(trace), ws)
      ensures var p := Part(old(db), ws);
              var active := p.workspace.Some? && p.workspace.value.prov.state != Deleting;
              && (!r.Refused? ==>
                    authorized && active && c in p.connections && Unused(parser, p, p.connections[c].name))
              && (r.Refused? ==>
                    && journal == []
                    && match r.why
                       case Forbidden => !authorized
                       case NotFound => authorized && (p.workspace.None? || (active && c !in p.connections))
                       case Conflict => authorized && p.workspace.Some? && !active
                       case ConnectionInUse =>
                         authorized && active && c in p.connections && !Unused(parser, p, p.connections[c].name)
                       case _ => false)
      ensures Decided(r, DeleteConnectionCheck(parser, Part(old(db), ws), c, authorized))
      ensures r.Refused? ==> journal == []
      ensures r.Done? ==> r.value == (c !in Part(db, ws).connections) == cloud.deletion(c).Absent?
      ensures !r.Refused? ==>
                var row := Part(old(db), ws).connections[c];
                journal != [] && row.prov.state != Deleting ==>
                  journal[0] == PutConnection(c, Connection(row.name, Provision(Deleting, 0, false, MAX_U64)))
      ensures r.Done? && c in Part(db, ws).connections ==>
                var row, left := Part(old(db), ws).connections[c], Part(db, ws).connections[c];
                left == if row.prov.state == Deleting then row else Connection(row.name, Provision(Deleting, 0, false, MAX_U64))
    {
      Begin(ws);
      var p := Part(db, ws);
      DeleteConnectionVerdicts(parser, p, c, authorized);
      if !authorized {
        return Refused(Forbidden);
      }
      var w := ActiveWorkspace(p);
      if w.Refused? {
        return Refused(w.why);
      }
      if c !in p.connections {
        return Refused(NotFound);
      }
      var used := IsInUse(parser, p, p.connections[c].name);
      if used.Refused? {
        r := Refused(used.why);
      } else if used.value {
        r := Refused(ConnectionInUse);
      } else {
        r := RetireConnection(ws, c, cloud);
      }
      assert trace[..|old(trace)|] == old(trace);
      PublishedTextsAreReadable(parser, trace, |old(trace)|, ws);
    }

    /** Mark an unreferenced connection Deleting and run a pass at once. */
    method RetireConnection(ws: Id, c: Id, cloud: Cloud) returns (r: Reply<bool>)
      requires Valid() && request.ws == ws && journal == [] && Active(Part(db, ws)) && c in Part(db, ws).connections
      requires Unused(parser, Part(db, ws), Part(db, ws).connections[c].name)
      modifies this
      ensures Valid() && request == old(request) && !r.Refused?
      ensures var row := Part(old(db), ws).connections[c];
              journal != [] && row.prov.state != Deleting ==> journal[0] == PutConnection(c, row.(prov := DOOMED))
      ensures r.Done? ==> r.value == (c !in Part(db, ws).connections) == cloud.deletion(c).Absent?
      ensures r.Done? && c in Part(db, ws).connections ==>
                var row := Part(old(db), ws).connections[c];
                Part(db, ws).connections[c] == if row.prov.state == Deleting then row else row.(prov := DOOMED)
    {
      var p := Part(db, ws);
      assert InState(p, Ready) by {
        Sound(ws);
      }
      var ok := true;
      if p.connections[c].prov.state != Deleting {
        ok := SaveConnection(ws, c, p.connections[c].(prov := DOOMED));
      }
      if !ok {
        return Abandoned;
      }
      ghost var mid := db;
      SameReferences(parser, p, Part(mid, ws), p.connections[c].name);
      ok := ReconcileConnections(ws, cloud);
      if !ok {
        return Abandoned;
      }
      DeletionProcessed(parser, Part(mid, ws), c, cloud, mid.clock, db.clock, Part(db, ws));
      return Done(c !in Part(db, ws).connections);
    }

    /** `reconcile_connections_locked`: one pass over the listed connections. */
    method ReconcileConnections(ws: Id, cloud: Cloud) returns (ok: bool)
      requires Valid() && request.ws == ws && InState(Part(db, ws), Ready)
      modifies this
      ensures Valid() && request == old(request) && old(journal) <= journal && old(db).clock <= db.clock
      ensures ok ==> OnlyConnections(Part(old(db), ws), Part(db, ws))
      ensures ok ==> Passed(parser, Part(old(db), ws), cloud, old(db).clock, db.clock, Part(db, ws))
      ensures ok ==>
                var p, q, t0, t1 := Part(old(db), ws), Part(db, ws), old(db).clock, db.clock;
                forall c :: c in p.connections ==>
                  var row := p.connections[c];
                  var v := row.prov;
                  var gone := v.state == Deleting && Unused(parser, p, row.name) && cloud.deletion(c).Absent?;
                  && (c in q.connections <==> !gone)
                  && (v.state in {Ready, Deleting} && !gone ==> q.connections[c] == row)
                  && (v.state !in {Ready, Deleting} ==>
                        var w := q.connections[c].prov;
                        var idleBefore := v.state == Failed && !(v.retryable && v.attempts < 5 && v.retryAt <= t0);
                        var idleAfter := v.state == Failed && !(v.retryable && v.attempts < 5 && v.retryAt <= t1);
                        var wait := [60, 120, 240, 480, 960, 1920][if v.attempts < 5 then v.attempts else 5];
                        && q.connections[c].name == row.name
                        && (|| (idleBefore && w == v)
                            || (!idleAfter &&
                                match cloud.connection(c)
                                case Reported(Ready) => w == v.(state := Ready, attempts := 0, retryable := false)
                                case Reported(Provisioning) => w == v.(state := Provisioning, retryable := false)
                                case Reported(Pending) => w == v.(state := State.Pending, retryable := false)
                                case Reported(_) => w == v.(state := Failed, retryable := false)
                                case Errored(transient) =>
                                  && w == Provision(Failed, v.attempts + 1, transient, w.retryAt)
                                  && Sat(t0 + wait) <= w.retryAt <= Sat(t1 + wait))))
    {
      ok := PassOver(ws, cloud);
      if ok {
        ghost var p, q, t0, t1 := Part(old(db), ws), Part(db, ws), old(db).clock, db.clock;
        forall c | c in p.connections {
          ProcessedMeans(parser, p, c, cloud, t0, t1, q);
        }
      }
    }

    method PassOver(ws: Id, cloud: Cloud) returns (ok: bool)
      requires Valid() && request.ws == ws && InState(Part(db, ws), Ready)
      modifies this
      ensures Valid() && request == old(request) && old(journal) <= journal && old(db).clock <= db.clock
      ensures ok ==> OnlyConnections(Part(old(db), ws), Part(db, ws))
      ensures ok ==> Passed(parser, Part(old(db), ws), cloud, old(db).clock, db.clock, Part(db, ws))
    {
      ok := true;
      var todo := Part(db, ws).connections.Keys;
      while todo != {} && ok
        invariant Valid() && request == old(request) && old(journal) <= journal && old(db).clock <= db.clock
        invariant ok ==> PassedBut(parser, Part(old(db), ws), todo, cloud, old(db).clock, db.clock, Part(db, ws))
        decreases todo, ok
      {
        var c :| c in todo;
        ghost var mid, before := db, todo;
        todo := todo - {c};
        ok := ReconcileConnection(ws, c, cloud);
        if ok {
          OneMorePassed(parser, Part(old(db), ws), Part(mid, ws), Part(db, ws), c, before, cloud, old(db).clock, mid.clock, db.clock);
        }
      }
    }

    /** One connection of the pass. */
    method ReconcileConnection(ws: Id, c: Id, cloud: Cloud) returns (ok: bool)
      requires Valid() && request.ws == ws && InState(Part(db, ws), Ready) && c in Part(db, ws).connections
      modifies this
      ensures Valid() && request == old(request) && old(journal) <= journal && old(db).clock <= db.clock
      ensures ok ==> OnlyConnections(Part(old(db), ws), Part(db, ws))
      ensures ok ==> Part(db, ws).connections - {c} == Part(old(db), ws).connections - {c}
      ensures ok ==> Processed(parser, Part(old(db), ws), c, cloud, old(db).clock, db.clock, Part(db, ws))
    {
      var row := Part(db, ws).connections[c];
      if row.prov.state == Ready {
        return true;
      }
      if row.prov.state == Deleting {
        ok := FinishConnection(ws, c, cloud);
        return;
      }
      ghost var begun := db.clock;
      if !ShouldRetry(row.prov, db.clock) {
        assert Attempted(row.prov, cloud.connection(c), begun, begun) == row.prov;
        return true;
      }
      ghost var recorded;
      ok, recorded := AttemptConnection(ws, c, row, cloud.connection(c));
      assert ok ==> Part(db, ws).connections[c].prov == Attempted(row.prov, cloud.connection(c), begun, recorded);
    }

    /** The two saves of an attempt and the cloud call between them. */
    method AttemptConnection(ws: Id, c: Id, row: Connection, reply: CloudReply) returns (ok: bool, ghost recorded: nat)
      requires Valid() && request.ws == ws && InState(Part(db, ws), Ready) && c in Part(db, ws).connections
      requires Part(db, ws).connections[c] == row && row.prov.state !in {Ready, Deleting} && ShouldRetry(row.prov, db.clock)
      modifies this
      ensures Valid() && request == old(request) && old(journal) <= journal && old(db).clock <= recorded <= db.clock
      ensures ok ==> OnlyConnections(Part(old(db), ws), Part(db, ws))
      ensures ok ==> Part(db, ws).connections ==
                       Part(old(db), ws).connections[c := row.(prov := Attempted(row.prov, reply, old(db).clock, recorded))]
    {
      var trying := row.(prov := row.prov.(state := Provisioning));
      recorded := db.clock;
      ok := SaveConnection(ws, c, trying);
      if ok {
        ok, recorded := FinishAttempt(ws, c, trying, reply);
      } else {
        recorded := db.clock;
      }
    }

    method FinishAttempt(ws: Id, c: Id, row: Connection, reply: CloudReply) returns (ok: bool, ghost recorded: nat)
      requires Valid() && request.ws == ws && InState(Part(db, ws), Ready) && c in Part(db, ws).connections
      requires Part(db, ws).connections[c] == row && row.prov.state == Provisioning
      modifies this
      ensures Valid() && request == old(request) && old(journal) <= journal && old(db).clock <= recorded <= db.clock
      ensures ok ==> OnlyConnections(Part(old(db), ws), Part(db, ws))
      ensures ok ==> Part(db, ws).connections == Part(old(db), ws).connections[c := row.(prov := Outcome(row.prov, reply, recorded))]
    {
      ok := Ask(ws, CallEnsureConnection(c));
      recorded := db.clock;
      if ok {
        ok := SaveConnection(ws, c, row.(prov := Outcome(row.prov, reply, db.clock)));
      }
    }

    /** A connection marked Deleting: re-check references, ask the cloud, drop the row once absent. */
    method FinishConnection(ws: Id, c: Id, cloud: Cloud) returns (ok: bool)
      requires Valid() && request.ws == ws && InState(Part(db, ws), Ready)
      requires c in Part(db, ws).connections && Part(db, ws).connections[c].prov.state == Deleting
      modifies this
      ensures Valid() && request == old(request) && old(journal) <= journal && old(db).clock <= db.clock
      ensures ok ==> OnlyConnections(Part(old(db), ws), Part(db, ws))
      ensures ok ==> Part(db, ws).connections ==
                       if Unused(parser, Part(old(db), ws), Part(old(db), ws).connections[c].name) && cloud.deletion(c).Absent?
                       then Part(old(db), ws).connections - {c} else Part(old(db), ws).connections
    {
      var row := Part(db, ws).connections[c];
      var used := IsInUse(parser, Part(db, ws), row.name);
      if !used.Done? {
        return false;
      }
      if used.value {
        return true;
      }
      ok := EraseConnection(ws, c, cloud.deletion(c));
    }

    /** The destructive cloud call and what its answer leads to. */
    method EraseConnection(ws: Id, c: Id, answer: Deletion) returns (ok: bool)
      requires Valid() && request.ws == ws && c in Part(db, ws).connections && Part(db, ws).connections[c].prov.state == Deleting
      requires Unused(parser, Part(db, ws), Part(db, ws).connections[c].name)
      modifies this
      ensures Valid() && request == old(request) && old(journal) <= journal && old(db).clock <= db.clock
      ensures ok ==> OnlyConnections(Part(old(db), ws), Part(db, ws))
      ensures ok ==> Part(db, ws).connections ==
                       if answer.Absent? then Part(old(db), ws).connections - {c} else Part(old(db), ws).connections
    {
      var row := Part(db, ws).connections[c];
      ok := Ask(ws, CallDeleteConnection(c));
      if ok && answer.Absent? {
        ok := ForgetConnection(ws, c);
      } else if ok && answer.Failing? {
        ok := SaveConnection(ws, c, row);
      }
    }

    /** The cloud confirmed the absence; the row goes. */
    method ForgetConnection(ws: Id, c: Id) returns (ok: bool)
      requires Valid() && request.ws == ws
      requires c in Part(db, ws).connections && Part(db, ws).connections[c].prov.state == Deleting
      modifies this
      ensures Valid() && request == old(request) && old(journal) <= journal && old(db).clock <= db.clock
      ensures ok ==> OnlyConnections(Part(old(db), ws), Part(db, ws))
      ensures ok ==> Part(db, ws).connections == Part(old(db), ws).connections - {c}
    {
      ok := Do(ws, ConfirmNoConnection(c));
      if ok {
        ok := Do(ws, DropConnection(c));
      }
    }

    method SaveConnection(ws: Id, c: Id, row: Connection) returns (ok: bool)
      requires Valid() && request.ws == ws && ConnectionPolicy(parser, Part(db, ws), c, row, db.clock)
      modifies this
      ensures Valid() && request == old(request) && old(db).clock <= db.clock
      ensures journal == old(journal) + [PutConnection(c, row)] || (!ok && journal == old(journal))
      ensures ok ==> OnlyConnections(Part(old(db), ws), Part(db, ws))
      ensures ok ==> Part(db, ws).connections == Part(old(db), ws).connections[c := row]
    {
      ok := Do(ws, PutConnection(c, row));
    }

    /** A cloud call changes no row. */
    method Ask(ws: Id, call: Action) returns (ok: bool)
      requires Valid() && request.ws == ws && Enabled(parser, Part(db, ws), db.clock, call)
      requires call.CallEnsureNamespace? || call.CallEnsureConnection? || call.CallDeleteConnection?
      modifies this
      ensures Valid() && request == old(request) && old(journal) <= journal && old(db).clock <= db.clock
      ensures ok ==> Drifted(Part(old(db), ws).(note := NoNote), Part(db, ws))
    {
      ok := Do(ws, call);
    }

    // ---------- Workspaces ----------

    method CreateWorkspace(ws: Id, creator: User, wellFormed: bool, authorized: bool, cloud: Cloud) returns (r: Reply<State>)
      requires Valid() && Part(db, ws) == EMPTY
      modifies this
      ensures Valid() && request == Request(old(trace), ws)
      ensures !r.Refused? ==> authorized && wellFormed
      ensures r.Refused? ==> journal == [] && r.why == if authorized then BadRequest else Forbidden
      ensures var row := Workspace(creator, Provision(State.Pending, 0, false, MAX_U64), false, {});
              var writes := [PutWorkspace(row), PutMember(creator, Admin), PutIndex(creator),
                             PutWorkspace(row.(creatorReady := true))];
              journal <= writes || writes <= journal
      ensures r.Done? ==> InState(Part(db, ws), r.value) && Part(db, ws).members == map[creator := Admin] && Indexed(Part(db, ws))
      ensures r.Done? ==> Part(db, ws).workspace.value.createdBy == creator && Part(db, ws).workspace.value.creatorReady
      ensures r.Done? ==>
                var w := Part(db, ws).workspace.value.prov;
                match cloud.namespace
                case Reported(Ready) => w == Provision(Ready, 0, false, MAX_U64)
                case Reported(Provisioning) => w == Provision(Provisioning, 0, false, MAX_U64)
                case Reported(Pending) => w == Provision(State.Pending, 0, false, MAX_U64)
                case Reported(_) => w == Provision(Failed, 0, false, MAX_U64)
                case Errored(transient) =>
                  && w == Provision(Failed, 1, transient, w.retryAt)
                  && Sat(old(db).clock + 60) <= w.retryAt <= Sat(db.clock + 60)
    {
      Begin(ws);
      if !authorized {
        return Refused(Forbidden);
      }
      if !wellFormed {
        return Refused(BadRequest);
      }
      var ok := InitializeWorkspace(ws, creator);
      if ok {
        ok := ReconcileWorkspace(ws, cloud);
      }
      return if ok then Done(Part(db, ws).workspace.value.prov.state) else Abandoned;
    }

    /** The four writes of a creation, in order. */
    method InitializeWorkspace(ws: Id, creator: User) returns (ok: bool)
      requires Valid() && request.ws == ws && Part(db, ws) == EMPTY && journal == []
      modifies this
      ensures Valid() && request == old(request) && old(db).clock <= db.clock
      ensures journal <= InitialPlan(creator) && (ok ==> journal == InitialPlan(creator))
      ensures ok ==> var q := Part(db, ws);
                     && q.workspace == Some(Workspace(creator, FRESH, true, {}))
                     && q.members == map[creator := Admin] && creator in q.index
    {
      ok := SaveWorkspace(ws, Workspace(creator, FRESH, false, {}));
      if ok {
        ok := Do(ws, PutMember(creator, Admin));
      }
      if ok {
        ok := EnsureIndex(ws, creator);
      }
      if ok {
        ok := SaveWorkspace(ws, Workspace(creator, FRESH, true, {}));
      }
    }

    /** Answers whether the workspace is already gone. */
    method DeleteWorkspace(ws: Id, authorized: bool, cloud: Cloud) returns (r: Reply<bool>)
      requires Valid()
      modifies this
      ensures Valid() && request == Request(old(trace), ws)
      ensures var p := Part(old(db), ws);
              && (!r.Refused? ==> authorized && p.workspace.Some? && p.connections == map[])
              && (r.Refused? ==>
                    && journal == []
                    && match r.why
                       case Forbidden => !authorized
                       case NotFound => authorized && p.workspace.None?
                       case WorkspaceNotEmpty => authorized && p.workspace.Some? && p.connections != map[]
                       case _ => false)
      ensures Decided(r, DeleteWorkspaceCheck(Part(old(db), ws), authorized))
      ensures r.Refused? ==> journal == []
      ensures r.Done? ==> r.value == Part(db, ws).workspace.None? == cloud.namespaceDeletion.Absent?
      ensures var p := Part(old(db), ws);
              var doomed := Provision(Deleting, 0, false, MAX_U64);
              journal != [] && p.workspace.value.prov.state != Deleting ==>
                journal[0] == PutWorkspace(Workspace(p.workspace.value.createdBy, doomed, false, p.members.Keys))
      ensures r.Done? ==>
                var p, q := Part(old(db), ws), Part(db, ws);
                && (q.workspace.Some? ==> q.workspace.value.prov.state == Deleting)
                && q.gateways == map[] && q.profiles == map[] && q.revisions == {} && q.enrollments == map[]
                && q.members == map[] && q.connections == map[]
                && (p.workspace.value.prov.state != Deleting ==> q.index !! p.members.Keys)
    {
      Begin(ws);
      var p := Part(db, ws);
      DeleteWorkspaceVerdicts(p, authorized);
      if !authorized {
        return Refused(Forbidden);
      }
      if p.workspace.None? {
        return Refused(NotFound);
      }
      if p.connections != map[] {
        return Refused(WorkspaceNotEmpty);
      }
      var ok := true;
      if p.workspace.value.prov.state != Deleting {
        ok := SaveWorkspace(ws, Workspace(p.workspace.value.createdBy, DOOMED, false, p.members.Keys));
      }
      if !ok {
        return Abandoned;
      }
      ok := FinishWorkspace(ws, cloud.namespaceDeletion);
      return if ok then Done(Part(db, ws).workspace.None?) else Abandoned;
    }

    /** The pass over a workspace that is not being deleted. */
    method ReconcileActive(ws: Id, cloud: Cloud) returns (ok: bool)
      requires Valid() && request.ws == ws && Active(Part(db, ws))
      modifies this
      ensures Valid() && request == old(request) && old(journal) <= journal && old(db).clock <= db.clock
      ensures ok ==> Repaired(Part(old(db), ws), Part(db, ws))
      ensures ok ==> NamespaceProcessed(Part(old(db), ws), cloud.namespace, old(db).clock, db.clock, Part(db, ws))
      ensures ok ==> if InState(Part(db, ws), Ready)
                     then Passed(parser, Part(old(db), ws), cloud, old(db).clock, db.clock, Part(db, ws))
                     else Part(db, ws).connections == Part(old(db), ws).connections
    {
      ok := RepairMembers(ws);
      if ok {
        ok := ProvisionNamespace(ws, cloud.namespace);
      }
      ghost var mid := db;
      if ok && InState(Part(db, ws), Ready) {
        ok := ReconcileConnections(ws, cloud);
        if ok {
          PassedLater(parser, Part(old(db), ws), Part(mid, ws), cloud, old(db).clock, mid.clock, db.clock, Part(db, ws));
        }
      }
    }

    /** The creator's rows if they are still missing, then every member's index row. */
    method RepairMembers(ws: Id) returns (ok: bool)
      requires Valid() && request.ws == ws && Active(Part(db, ws))
      modifies this
      ensures Valid() && request == old(request) && old(journal) <= journal && old(db).clock <= db.clock
      ensures ok ==> Repaired(Part(old(db), ws), Part(db, ws)) && SameServing(Part(old(db), ws), Part(db, ws))
      ensures ok ==> Part(db, ws).workspace.value.prov == Part(old(db), ws).workspace.value.prov
    {
      ok := RepairCreator(ws);
      if ok {
        ok := IndexMembers(ws);
      }
    }

    /** `reconcile_workspace_locked`. */
    method ReconcileWorkspace(ws: Id, cloud: Cloud) returns (ok: bool)
      requires Valid() && request.ws == ws
      modifies this
      ensures Valid() && request == old(request) && old(journal) <= journal
      ensures ok && Part(old(db), ws).workspace.None? ==> db == old(db)
      ensures ok && InState(Part(old(db), ws), Deleting) ==>
                var p, q := Part(old(db), ws), Part(db, ws);
                && q.workspace == (if cloud.namespaceDeletion.Absent? then None else p.workspace)
                && q.gateways == map[] && q.profiles == map[] && q.revisions == {} && q.enrollments == map[]
                && q.members == map[] && q.connections == map[] && q.index !! p.workspace.value.journal
      ensures ok && Active(Part(old(db), ws)) ==>
                var p, q := Part(old(db), ws), Part(db, ws);
                var v, w := p.workspace.value, q.workspace;
                var repair := !v.creatorReady && v.prov.state in {State.Pending, Provisioning};
                && q.members == (if repair && v.createdBy !in p.members then p.members[v.createdBy := Admin] else p.members)
                && (forall u :: u in q.members ==> u in q.index)
                && w.Some? && w.value == v.(creatorReady := repair || v.creatorReady, prov := w.value.prov)
      ensures ok && Active(Part(old(db), ws)) ==>
                var v, w := Part(old(db), ws).workspace.value.prov, Part(db, ws).workspace.value.prov;
                var t0, t1 := old(db).clock, db.clock;
                var idleBefore := v.state == Failed && !(v.retryable && v.attempts < 5 && v.retryAt <= t0);
                var idleAfter := v.state == Failed && !(v.retryable && v.attempts < 5 && v.retryAt <= t1);
                var wait := [60, 120, 240, 480, 960, 1920][if v.attempts < 5 then v.attempts else 5];
                || ((v.state == Ready || idleBefore) && w == v)
                || (v.state != Ready && !idleAfter &&
                    match cloud.namespace
                    case Reported(Ready) => w == v.(state := Ready, attempts := 0, retryable := false)
                    case Reported(Provisioning) => w == v.(state := Provisioning, retryable := false)
                    case Reported(Pending) => w == v.(state := State.Pending, retryable := false)
                    case Reported(_) => w == v.(state := Failed, retryable := false)
                    case Errored(transient) =>
                      && w == Provision(Failed, v.attempts + 1, transient, w.retryAt)
                      && Sat(t0 + wait) <= w.retryAt <= Sat(t1 + wait))
      ensures ok && Active(Part(old(db), ws)) ==>
                if InState(Part(db, ws), Ready)
                then Passed(parser, Part(old(db), ws), cloud, old(db).clock, db.clock, Part(db, ws))
                else Part(db, ws).connections == Part(old(db), ws).connections
    {
      ok := true;
      if Part(db, ws).workspace.None? {
        return;
      }
      if Part(db, ws).workspace.value.prov.state == Deleting {
        ok := FinishWorkspace(ws, cloud.namespaceDeletion);
        return;
      }
      ok := ReconcileActive(ws, cloud);
      if ok && !InState(Part(old(db), ws), Ready) {
        AttainedMeans(Part(old(db), ws).workspace.value.prov, cloud.namespace, old(db).clock, db.clock,
                      Part(db, ws).workspace.value.prov);
      }
    }

    /** The lock is free, and other requests go on. */
    method Interfere(steps: seq<Step>)
      requires Valid() && LegalFrom(parser, db, steps)
      modifies this
      ensures Valid() && trace == old(trace) + steps && journal == [] && request.start == trace
    {
      var i := 0;
      while i < |steps|
        invariant 0 <= i <= |steps| && trace == old(trace) + steps[..i]
        invariant Legal(parser, trace) && db == Exec(trace) && LegalFrom(parser, db, steps[i..])
      {
        assert steps[i..][0] == steps[i] && steps[i..][1..] == steps[i + 1..];
        OneMoreStep(parser, trace, steps[i]);
        trace := trace + [steps[i]];
        db := ApplyStep(db, steps[i]);
        i := i + 1;
      }
      assert steps[..|steps|] == steps;
      journal := [];
      request := Request(trace, 0);
    }

    /**
      `accessible_workspaces` for a user who is not a platform admin. It takes no lock: the index rows,
      each membership and each workspace are read one after the other while other requests go on.
    */
    method AccessibleWorkspaces(u: User, others: Others) returns (found: set<Id>)
      requires Valid() && Legitimate(parser, others)
      modifies this
      ensures Valid() && old(trace) <= trace
      ensures forall ws :: ws in found ==> Seen(trace, |old(trace)|, ws, u)
      ensures forall ws :: u in Part(old(db), ws).index && ws !in found ==> Missed(trace, |old(trace)|, ws, u)
      ensures Silent(others) ==>
                && db == old(db)
                && forall ws :: ws in found <==>
                     ws in db.parts && u in db.parts[ws].index && u in db.parts[ws].members && db.parts[ws].workspace.Some?
    {
      ghost var start, done := |trace|, {};
      var index := set ws | ws in db.parts && u in db.parts[ws].index;
      var todo := index;
      var round := 0;
      found := {};
      while todo != {}
        invariant Valid() && old(trace) <= trace && todo <= index <= done + todo
        invariant ListingSoFar(trace, start, done, found, u)
        invariant Silent(others) ==> trace == old(trace) && ListedBut(old(db), u, todo, found)
        decreases todo
      {
        var ws :| ws in todo;
        ghost var before := trace;
        var listed, mid := ReadAccess(ws, u, others, round);
        round := round + 2;
        OneMoreListed(before, mid, trace, start, done, found, ws, u, listed);
        if Silent(others) {
          OneMoreFound(old(db), u, todo, found, ws);
        }
        found := if listed then found + {ws} else found;
        todo, done := todo - {ws}, done + {ws};
      }
    }

    /** The authoritative membership is re-checked, then the workspace is read. */
    method ReadAccess(ws: Id, u: User, others: Others, round: nat) returns (listed: bool, ghost mid: seq<Step>)
      requires Valid() && Legitimate(parser, others)
      modifies this
      ensures Valid() && old(trace) <= mid <= trace
      ensures listed == (u in Part(Exec(mid), ws).members && Part(Exec(trace), ws).workspace.Some?)
      ensures u !in Part(Exec(mid), ws).members ==> mid == trace
      ensures Silent(others) ==> mid == trace == old(trace)
      ensures Silent(others) ==> listed == (u in Part(old(db), ws).members && Part(old(db), ws).workspace.Some?)
    {
      Interfere(others(db, round));
      mid := trace;
      if u !in Part(db, ws).members {
        return false, mid;
      }
      Interfere(others(db, round + 1));
      listed := Part(db, ws).workspace.Some?;
    }

    /**
      `reconcile_once`: list the workspaces, then take the lock for one after the other. In between,
      other requests do whatever is legitimate. A failure does not stop the pass but makes it fail.
    */
    method ReconcileOnce(clouds: Id -> Cloud, others: Others) returns (ok: bool, ghost passed: map<Id, nat>)
      requires Valid() && Legitimate(parser, others)
      modifies this
      ensures Valid() && old(trace) <= trace
      ensures ok ==> CompletedPass(trace, |old(trace)|, passed)
      ensures ok ==> forall u :: Listed(db, u) == Belongs(db, u) <==> !LeftOutSince(trace, |old(trace)|, passed, |trace|, u)
      ensures ok && Silent(others) ==> forall u :: Listed(db, u) == Belongs(db, u)
    {
      ghost var start := |trace|;
      var todo := set ws | ws in db.parts && db.parts[ws].workspace.Some?;
      ok, passed := true, map[];
      var round := 0;
      PassBegins(trace, db, todo);
      while todo != {}
        invariant Valid() && old(trace) <= trace && start == |old(trace)|
        invariant ok ==> PassSoFar(trace, start, passed, todo, Silent(others))
        decreases todo
      {
        var ws :| ws in todo;
        ghost var before := trace;
        var fine := Visit(ws, clouds(ws), others(db, round), start, passed, todo, Silent(others), ok);
        Extended(old(trace), before, trace);
        round := round + 1;
        ok := ok && fine;
        passed := passed[ws := |trace|];
        todo := todo - {ws};
      }
      if ok {
        PassEnds(start, passed, Silent(others));
      }
    }

    /** Other requests act while the lock is free; then the workspace has its turn. */
    method Visit(ws: Id, cloud: Cloud, steps: seq<Step>, ghost start: nat, ghost passed: map<Id, nat>, ghost todo: set<Id>,
                 ghost silent: bool, ghost soFar: bool) returns (fine: bool)
      requires Valid() && LegalFrom(parser, db, steps) && (silent ==> steps == [])
      requires soFar ==> PassSoFar(trace, start, passed, todo, silent)
      modifies this
      ensures Valid() && old(trace) <= trace
      ensures fine && soFar ==> PassSoFar(trace, start, passed[ws := |trace|], todo - {ws}, silent)
    {
      Interfere(steps);
      ghost var mid := trace;
      fine := TakeTurn(ws, cloud);
      Extended(old(trace), mid, trace);
      if fine && soFar {
        TurnTaken(old(trace), mid, trace, start, passed, todo, silent, ws);
      }
    }

    lemma PassEnds(start: nat, passed: map<Id, nat>, undisturbed: bool)
      requires Valid() && PassSoFar(trace, start, passed, {}, undisturbed)
      ensures CompletedPass(trace, start, passed)
      ensures forall u :: Listed(db, u) == Belongs(db, u) <==> !LeftOutSince(trace, start, passed, |trace|, u)
      ensures undisturbed ==> forall u :: Listed(db, u) == Belongs(db, u)
    {
      assert trace[..|trace|] == trace;
      forall u
        ensures Listed(db, u) == Belongs(db, u) <==> !LeftOutSince(trace, start, passed, |trace|, u)
        ensures undisturbed ==> !LeftOutSince(trace, start, passed, |trace|, u)
      {
        PassMakesListExact(parser, trace, start, passed, |trace|, u);
        if undisturbed {
          UndisturbedLeavesNobodyOut(trace, start, passed, u);
        }
      }
    }

    /** One workspace's turn under the lock; all its steps are on that workspace. */
    method TakeTurn(ws: Id, cloud: Cloud) returns (fine: bool)
      requires Valid()
      modifies this
      ensures Valid() && old(trace) <= trace
      ensures forall k :: |old(trace)| <= k < |trace| && trace[k].On? ==> trace[k].ws == ws
      ensures fine ==> Indexed(Part(db, ws))
    {
      Begin(ws);
      ghost var p := Part(db, ws);
      Sound(ws);
      fine := ReconcileWorkspace(ws, cloud);
      PerformedOnly(trace[|old(trace)|..], ws, journal);
      assert forall k :: |old(trace)| <= k < |trace| ==> trace[k] == trace[|old(trace)|..][k - |old(trace)|];
      Sound(ws);
    }

    /** `repair_creator`: finish an interrupted workspace creation. */
    method RepairCreator(ws: Id) returns (ok: bool)
      requires Valid() && request.ws == ws && Active(Part(db, ws))
      modifies this
      ensures Valid() && request == old(request) && old(journal) <= journal && old(db).clock <= db.clock
      ensures ok ==> var p, q := Part(old(db), ws), Part(db, ws);
                     var v := p.workspace.value;
                     var repair := !v.creatorReady && v.prov.state in {State.Pending, Provisioning};
                     var missing := repair && v.createdBy !in p.members;
                     && q.workspace == Some(v.(creatorReady := repair || v.creatorReady))
                     && q.members == (if missing then p.members[v.createdBy := Admin] else p.members)
                     && (repair ==> v.createdBy in q.index)
                     && (AdminPresent(q) <==> AdminPresent(p) || missing)
                     && SameServing(p, q)
    {
      ghost var p := Part(db, ws);
      ok := true;
      if NeedsRepair(Part(db, ws)) {
        var row := Part(db, ws).workspace.value;
        ok := AddCreator(ws, row.createdBy);
        if ok {
          ok := SaveWorkspace(ws, row.(creatorReady := true));
        }
      }
      if ok {
        RepairGivesAdminExactly(p, Part(db, ws));
      }
    }

    method AddCreator(ws: Id, u: User) returns (ok: bool)
      requires Valid() && request.ws == ws && Active(Part(db, ws))
      modifies this
      ensures Valid() && request == old(request) && old(journal) <= journal && old(db).clock <= db.clock
      ensures ok ==> var p, q := Part(old(db), ws), Part(db, ws);
                     && q.workspace == p.workspace
                     && SameServing(p, q)
                     && q.members == (if u in p.members then p.members else p.members[u := Admin])
                     && u in q.index
    {
      ok := true;
      if u !in Part(db, ws).members {
        ok := Do(ws, PutMember(u, Admin));
      }
      if ok {
        ok := EnsureIndex(ws, u);
      }
    }

    /** Every listed member gets its index row. */
    method IndexMembers(ws: Id) returns (ok: bool)
      requires Valid() && request.ws == ws && Active(Part(db, ws))
      modifies this
      ensures Valid() && request == old(request) && old(journal) <= journal && old(db).clock <= db.clock
      ensures ok ==> Indexed(Part(db, ws))
      ensures ok ==> OnlyIndex(Part(old(db), ws), Part(db, ws))
    {
      ok := true;
      var todo := Part(db, ws).members.Keys;
      while todo != {} && ok
        invariant Valid() && request == old(request) && old(journal) <= journal && old(db).clock <= db.clock
        invariant ok ==> IndexedBut(Part(old(db), ws), Part(db, ws), todo)
        decreases todo
      {
        var u :| u in todo;
        ghost var mid := Part(db, ws);
        ok := EnsureIndex(ws, u);
        if ok {
          OneMoreIndexed(Part(old(db), ws), mid, Part(db, ws), todo, u);
        }
        todo := todo - {u};
      }
    }

    /** One provisioning attempt of the namespace, when it is due. */
    method ProvisionNamespace(ws: Id, reply: CloudReply) returns (ok: bool)
      requires Valid() && request.ws == ws && Active(Part(db, ws))
      modifies this
      ensures Valid() && request == old(request) && old(journal) <= journal && old(db).clock <= db.clock
      ensures ok ==> OnlyWorkspace(Part(old(db), ws), Part(db, ws)) && Active(Part(db, ws))
      ensures ok ==> var v, w := Part(old(db), ws).workspace.value, Part(db, ws).workspace.value;
                     w == v.(prov := w.prov)
      ensures ok ==> NamespaceProcessed(Part(old(db), ws), reply, old(db).clock, db.clock, Part(db, ws))
    {
      var row := Part(db, ws).workspace.value;
      if row.prov.state == Ready {
        return true;
      }
      ghost var begun := db.clock;
      if !ShouldRetry(row.prov, db.clock) {
        assert Attempted(row.prov, reply, begun, begun) == row.prov;
        return true;
      }
      ghost var recorded;
      ok, recorded := AttemptNamespace(ws, row, reply);
      assert ok ==> Part(db, ws).workspace.value.prov == Attempted(row.prov, reply, begun, recorded);
    }

    method AttemptNamespace(ws: Id, row: Workspace, reply: CloudReply) returns (ok: bool, ghost recorded: nat)
      requires Valid() && request.ws == ws && Part(db, ws).workspace == Some(row)
      requires row.prov.state !in {Ready, Deleting} && ShouldRetry(row.prov, db.clock)
      modifies this
      ensures Valid() && request == old(request) && old(journal) <= journal && old(db).clock <= recorded <= db.clock
      ensures ok ==> OnlyWorkspace(Part(old(db), ws), Part(db, ws))
      ensures ok ==> Part(db, ws).workspace == Some(row.(prov := Attempted(row.prov, reply, old(db).clock, recorded)))
    {
      var trying := row.(prov := row.prov.(state := Provisioning));
      ok := SaveWorkspace(ws, trying);
      if ok {
        ok, recorded := FinishNamespaceAttempt(ws, trying, reply);
      } else {
        recorded := db.clock;
      }
    }

    method FinishNamespaceAttempt(ws: Id, row: Workspace, reply: CloudReply) returns (ok: bool, ghost recorded: nat)
      requires Valid() && request.ws == ws && Part(db, ws).workspace == Some(row) && row.prov.state == Provisioning
      modifies this
      ensures Valid() && request == old(request) && old(journal) <= journal && old(db).clock <= recorded <= db.clock
      ensures ok ==> OnlyWorkspace(Part(old(db), ws), Part(db, ws))
      ensures ok ==> Part(db, ws).workspace == Some(row.(prov := Outcome(row.prov, reply, recorded)))
    {
      ok := Ask(ws, CallEnsureNamespace);
      recorded := db.clock;
      if ok {
        ok := SaveWorkspace(ws, row.(prov := Outcome(row.prov, reply, db.clock)));
      }
    }

    method SaveWorkspace(ws: Id, row: Workspace) returns (ok: bool)
      requires Valid() && request.ws == ws && WorkspacePolicy(Part(db, ws), row, db.clock)
      modifies this
      ensures Valid() && request == old(request) && old(db).clock <= db.clock
      ensures journal == old(journal) + [PutWorkspace(row)] || (!ok && journal == old(journal))
      ensures ok ==> OnlyWorkspace(Part(old(db), ws), Part(db, ws)) && Part(db, ws).workspace == Some(row)
    {
      ok := Do(ws, PutWorkspace(row));
    }

    // ---------- Workspace deletion ----------

    /**
      `delete_workspace_locked`: credentials first, then profiles, revision listings and members,
      then the journaled index rows, then the namespace, and the workspace row last.
    */
    method FinishWorkspace(ws: Id, answer: Deletion) returns (ok: bool)
      requires Valid() && request.ws == ws && InState(Part(db, ws), Deleting)
      modifies this
      ensures Valid() && request == old(request) && old(journal) <= journal
      ensures ok ==> var p, q := Part(old(db), ws), Part(db, ws);
                     && q.workspace == (if answer.Absent? then None else p.workspace)
                     && q.gateways == map[] && q.profiles == map[] && q.revisions == {} && q.enrollments == map[]
                     && q.members == map[] && q.connections == map[] && q.index !! p.workspace.value.journal
    {
      if Part(db, ws).connections != map[] {
        return false;
      }
      ok := SweepServing(ws);
      if ok {
        ok := SweepPeople(ws);
      }
      if ok {
        ok := FinishNamespace(ws, answer);
      }
    }

    method SweepServing(ws: Id) returns (ok: bool)
      requires Valid() && request.ws == ws && InState(Part(db, ws), Deleting)
      modifies this
      ensures Valid() && request == old(request) && old(journal) <= journal
      ensures ok ==> SweptBut(Part(old(db), ws).(gateways := map[], profiles := map[], revisions := {}), Part(db, ws))
    {
      ok := SweepGateways(ws);
      if ok {
        ok := SweepProfiles(ws);
      }
      if ok {
        ok := SweepRevisions(ws);
      }
    }

    method SweepPeople(ws: Id) returns (ok: bool)
      requires Valid() && request.ws == ws && InState(Part(db, ws), Deleting)
      modifies this
      ensures Valid() && request == old(request) && old(journal) <= journal
      ensures ok ==> SweptBut(Part(old(db), ws).(members := map[], index := Part(db, ws).index), Part(db, ws))
      ensures ok ==> Part(db, ws).enrollments == map[]
      ensures ok ==> Part(db, ws).index !! Part(old(db), ws).workspace.value.journal
    {
      ok := SweepEnrollments(ws);
      if ok {
        ok := SweepMembers(ws);
      }
      if ok {
        ok := SweepIndex(ws);
      }
    }

    method FinishNamespace(ws: Id, answer: Deletion) returns (ok: bool)
      requires Valid() && request.ws == ws && InState(Part(db, ws), Deleting) && SweptClean(Part(db, ws))
      requires Part(db, ws).index !! Part(db, ws).workspace.value.journal
      modifies this
      ensures Valid() && request == old(request) && old(journal) <= journal
      ensures ok ==> var p, q := Part(old(db), ws), Part(db, ws);
                     && q.workspace == (if answer.Absent? then None else p.workspace)
                     && SweptClean(q) && q.index !! p.workspace.value.journal
    {
      match answer {
        case Absent =>
          ok := Do(ws, ConfirmNoNamespace);
          if ok {
            ok := Do(ws, DropWorkspace);
          }
        case StillThere => ok := true;
        case Failing => ok := SaveWorkspace(ws, Part(db, ws).workspace.value);
      }
    }

    method SweepGateways(ws: Id) returns (ok: bool)
      requires Valid() && request.ws == ws && InState(Part(db, ws), Deleting)
      modifies this
      ensures Valid() && request == old(request) && old(journal) <= journal
      ensures ok ==> SweptBut(Part(old(db), ws).(gateways := map[]), Part(db, ws))
    {
      ok := true;
      while Part(db, ws).gateways != map[] && ok
        invariant Valid() && request == old(request) && old(journal) <= journal
        invariant ok ==> SweptBut(Part(old(db), ws).(gateways := Part(db, ws).gateways), Part(db, ws))
        decreases Part(db, ws).gateways.Keys, ok
      {
        var g :| g in Part(db, ws).gateways;
        ok := Do(ws, DropGateway(g));
        if !ok {
          return;
        }
      }
    }

    method SweepProfiles(ws: Id) returns (ok: bool)
      requires Valid() && request.ws == ws && InState(Part(db, ws), Deleting) && Part(db, ws).gateways == map[]
      modifies this
      ensures Valid() && request == old(request) && old(journal) <= journal
      ensures ok ==> SweptBut(Part(old(db), ws).(profiles := map[]), Part(db, ws))
    {
      ok := true;
      while Part(db, ws).profiles != map[] && ok
        invariant Valid() && request == old(request) && old(journal) <= journal
        invariant ok ==> SweptBut(Part(old(db), ws).(profiles := Part(db, ws).profiles), Part(db, ws))
        decreases ok, Part(db, ws).profiles.Keys
      {
        var id :| id in Part(db, ws).profiles;
        ghost var mid := Part(db, ws);
        ok := SweepProfile(ws, id);
        if ok {
          OneMoreSwept(Part(old(db), ws), mid, Part(db, ws), id);
        }
      }
    }

    method SweepProfile(ws: Id, id: Id) returns (ok: bool)
      requires Valid() && request.ws == ws && InState(Part(db, ws), Deleting)
      requires Part(db, ws).gateways == map[] && id in Part(db, ws).profiles
      modifies this
      ensures Valid() && request == old(request) && old(journal) <= journal
      ensures ok ==> SweptBut(Part(old(db), ws).(profiles := Part(old(db), ws).profiles - {id}), Part(db, ws))
    {
      ok := Do(ws, DropProfile(id));
    }

    method SweepRevisions(ws: Id) returns (ok: bool)
      requires Valid() && request.ws == ws && InState(Part(db, ws), Deleting) && Part(db, ws).profiles == map[]
      modifies this
      ensures Valid() && request == old(request) && old(journal) <= journal
      ensures ok ==> SweptBut(Part(old(db), ws).(revisions := {}), Part(db, ws))
    {
      ok := true;
      while Part(db, ws).revisions != {} && ok
        invariant Valid() && request == old(request) && old(journal) <= journal
        invariant ok ==> SweptBut(Part(old(db), ws).(revisions := Part(db, ws).revisions), Part(db, ws))
        decreases ok, Part(db, ws).revisions
      {
        var key :| key in Part(db, ws).revisions;
        ghost var mid := Part(db, ws);
        ok := SweepRevision(ws, key.0, key.1);
        if ok {
          RevisionSwept(Part(old(db), ws), mid, Part(db, ws), key);
        }
      }
    }

    method SweepRevision(ws: Id, id: Id, n: Number) returns (ok: bool)
      requires Valid() && request.ws == ws && InState(Part(db, ws), Deleting) && Part(db, ws).profiles == map[]
      modifies this
      ensures Valid() && request == old(request) && old(journal) <= journal
      ensures ok ==> SweptBut(Part(old(db), ws).(revisions := Part(old(db), ws).revisions - {(id, n)}), Part(db, ws))
    {
      ok := Do(ws, DropRevision(id, n));
    }

    /** The listed enrollments are removed one by one; one the cleaner took first is an error. */
    method SweepEnrollments(ws: Id) returns (ok: bool)
      requires Valid() && request.ws == ws && InState(Part(db, ws), Deleting)
      modifies this
      ensures Valid() && request == old(request) && old(journal) <= journal
      ensures ok ==> SweptBut(Part(old(db), ws), Part(db, ws)) && Part(db, ws).enrollments == map[]
    {
      ok := true;
      var todo := Part(db, ws).enrollments.Keys;
      while todo != {} && ok
        invariant Valid() && request == old(request) && old(journal) <= journal
        invariant ok ==> SweptBut(Part(old(db), ws), Part(db, ws))
        invariant ok ==> Part(db, ws).enrollments.Keys <= todo
        decreases todo
      {
        var e :| e in todo;
        ghost var mid := Part(db, ws);
        ok := SweepEnrollment(ws, e);
        if ok {
          EnrollmentSwept(Part(old(db), ws), mid, Part(db, ws), e);
        }
        todo := todo - {e};
      }
    }

    method SweepEnrollment(ws: Id, e: Id) returns (ok: bool)
      requires Valid() && request.ws == ws && InState(Part(db, ws), Deleting)
      modifies this
      ensures Valid() && request == old(request) && old(journal) <= journal
      ensures ok ==> SweptBut(Part(old(db), ws), Part(db, ws)) && e !in Part(db, ws).enrollments
    {
      if e !in Part(db, ws).enrollments {
        return false;
      }
      ok := Do(ws, DropEnrollment(e));
    }

    method SweepMembers(ws: Id) returns (ok: bool)
      requires Valid() && request.ws == ws && InState(Part(db, ws), Deleting)
      modifies this
      ensures Valid() && request == old(request) && old(journal) <= journal
      ensures ok ==> SweptBut(Part(old(db), ws).(members := map[]), Part(db, ws))
    {
      ok := true;
      while Part(db, ws).members != map[] && ok
        invariant Valid() && request == old(request) && old(journal) <= journal
        invariant ok ==> SweptBut(Part(old(db), ws).(members := Part(db, ws).members), Part(db, ws))
        decreases Part(db, ws).members.Keys, ok
      {
        var u :| u in Part(db, ws).members;
        ok := Do(ws, DropMember(u));
        if !ok {
          return;
        }
      }
    }

    /** The index rows of the users in the cleanup journal. */
    method SweepIndex(ws: Id) returns (ok: bool)
      requires Valid() && request.ws == ws && InState(Part(db, ws), Deleting) && Part(db, ws).members == map[]
      modifies this
      ensures Valid() && request == old(request) && old(journal) <= journal
      ensures ok ==> SweptBut(Part(old(db), ws).(index := Part(db, ws).index), Part(db, ws))
      ensures ok ==> Part(db, ws).index !! Part(old(db), ws).workspace.value.journal
    {
      ok := true;
      var todo := Part(db, ws).workspace.value.journal;
      while todo != {} && ok
        invariant Valid() && request == old(request) && old(journal) <= journal
        invariant ok ==> SweptBut(Part(old(db), ws).(index := Part(db, ws).index), Part(db, ws))
        invariant ok ==> Part(db, ws).index !! (Part(old(db), ws).workspace.value.journal - todo)
        decreases todo, ok
      {
        var u :| u in todo;
        todo := todo - {u};
        ghost var mid := Part(db, ws);
        ok := SweepIndexRow(ws, u);
        if ok {
          IndexRowSwept(Part(old(db), ws), mid, Part(db, ws), u);
        }
      }
    }

    method SweepIndexRow(ws: Id, u: User) returns (ok: bool)
      requires Valid() && request.ws == ws && InState(Part(db, ws), Deleting) && Part(db, ws).members == map[]
      modifies this
      ensures Valid() && request == old(request) && old(journal) <= journal
      ensures ok ==> SweptBut(Part(old(db), ws).(index := Part(old(db), ws).index - {u}), Part(db, ws))
    {
      ok := true;
      if u in Part(db, ws).index {
        ok := Do(ws, DropIndex(u));
      } else {
        assert Part(db, ws).index - {u} == Part(db, ws).index;
      }
    }
  }
}
