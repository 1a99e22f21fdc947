/**
  What each check and each poll means in terms of the stored rows alone. The handlers' contracts are
  stated in these terms; the check functions only say in which order the reads are made.
*/
module BrokerVerdicts {
  import opened Util
  import opened Enrollments
  import opened BrokerModel
  import opened BrokerInvariants
  import opened BrokerTheorems
  import opened BrokerChecks

  // ---------- Questions about texts and names ----------

  /** Text is accepted exactly when it reads, passes the screen, has a rule, and names Ready connections only. */
  lemma AcceptableExactly(parser: Parser, p: Partition, yaml: string)
    ensures Acceptable(parser, p, yaml) <==>
              match parser.raw(yaml)
              case None => false
              case Some(c) =>
                && parser.screen(yaml) && (c.localNames != [] || c.remoteNames != [])
                && forall n :: n in c.localNames || n in c.remoteNames ==>
                     exists k :: k in p.connections && p.connections[k].name == n && p.connections[k].prov.state == Ready
  {
    if parser.raw(yaml).Some? {
      var c := parser.raw(yaml).value;
      assert c.localNames + c.remoteNames != [] <==> c.localNames != [] || c.remoteNames != [];
      assert forall n :: n in RelayNames(c) <==> n in c.localNames || n in c.remoteNames;
      assert forall n :: n in ReadyNames(p) <==>
        exists k :: k in p.connections && p.connections[k].name == n && p.connections[k].prov.state == Ready;
    }
  }

  /** A profile can be served exactly when the workspace is Ready and its published revision is listed, stored and accepted. */
  lemma ServableExactly(parser: Parser, p: Partition, id: Id)
    ensures Servable(parser, p, id) <==>
              && p.workspace.Some? && p.workspace.value.prov.state == Ready && id in p.profiles
              && match p.profiles[id].current
                 case None => false
                 case Some(n) =>
                   && n != 0 && (id, n) in p.revisions && (id, n) in p.texts
                   && Acceptable(parser, p, p.texts[(id, n)])
  {
  }

  /** A connection is unused exactly when no published text that can be read names it, ignoring ASCII case. */
  lemma UnusedExactly(parser: Parser, p: Partition, name: string)
    ensures Unused(parser, p, name) <==>
              forall id, n, relay ::
                && id in p.profiles && p.profiles[id].current == Some(n) && (id, n) in p.texts
                && parser.raw(p.texts[(id, n)]).Some?
                && (relay in parser.raw(p.texts[(id, n)]).value.localNames
                    || relay in parser.raw(p.texts[(id, n)]).value.remoteNames) ==>
                Lower(relay) != Lower(name)
  {
    forall id | id in p.profiles
      ensures References(parser, p, id, name) <==>
                exists n, relay ::
                  && p.profiles[id].current == Some(n) && (id, n) in p.texts && parser.raw(p.texts[(id, n)]).Some?
                  && (relay in parser.raw(p.texts[(id, n)]).value.localNames
                      || relay in parser.raw(p.texts[(id, n)]).value.remoteNames)
                  && Lower(relay) == Lower(name)
    {
    }
  }

  // ---------- Refusals ----------

  lemma CreateProfileVerdicts(p: Partition, name: string, wellNamed: bool, authorized: bool)
    ensures var ready := p.workspace.Some? && p.workspace.value.prov.state == Ready;
            match CreateProfileCheck(p, name, wellNamed, authorized)
            case None =>
              && authorized && ready && wellNamed
              && (forall i :: i in p.profiles ==> Lower(p.profiles[i].name) != Lower(name))
            case Some(Forbidden) => !authorized
            case Some(NotFound) => authorized && p.workspace.None?
            case Some(BadRequest) => authorized && ready && !wellNamed
            case Some(Conflict) =>
              && authorized
              && (|| (p.workspace.Some? && !ready)
                  || (&& ready && wellNamed
                      && (exists i :: i in p.profiles && Lower(p.profiles[i].name) == Lower(name))))
            case Some(_) => false
  {
  }

  lemma DeleteProfileVerdicts(p: Partition, id: Id, authorized: bool)
    ensures var ready := p.workspace.Some? && p.workspace.value.prov.state == Ready;
            match DeleteProfileCheck(p, id, authorized)
            case None =>
              && authorized && ready && id in p.profiles
              && (forall g :: g in p.gateways && p.gateways[g].profile == id ==> p.gateways[g].revoked)
            case Some(Forbidden) => !authorized
            case Some(NotFound) => authorized && (p.workspace.None? || (ready && id !in p.profiles))
            case Some(Conflict) => authorized && p.workspace.Some? && !ready
            case Some(ProfileInUse) =>
              && authorized && ready && id in p.profiles
              && (exists g :: g in p.gateways && p.gateways[g].profile == id && !p.gateways[g].revoked)
            case Some(_) => false
  {
  }

  lemma CreateRevisionVerdicts(parser: Parser, p: Partition, id: Id, yaml: string, authorized: bool)
    ensures var ready := p.workspace.Some? && p.workspace.value.prov.state == Ready;
            match CreateRevisionCheck(parser, p, id, yaml, authorized)
            case None =>
              && authorized && ready && id in p.profiles && Acceptable(parser, p, yaml)
              && 0 < p.profiles[id].next < MAX_U64
            case Some(Forbidden) => !authorized
            case Some(NotFound) => authorized && (p.workspace.None? || (ready && id !in p.profiles))
            case Some(BadRequest) => authorized && ready && id in p.profiles && !Acceptable(parser, p, yaml)
            case Some(Conflict) =>
              && authorized
              && (|| (p.workspace.Some? && !ready)
                  || (&& ready && id in p.profiles && Acceptable(parser, p, yaml)
                      && !(0 < p.profiles[id].next < MAX_U64)))
            case Some(_) => false
  {
  }

  lemma PublishVerdicts(parser: Parser, p: Partition, id: Id, number: Number, expected: Option<Number>, authorized: bool)
    ensures var ready := p.workspace.Some? && p.workspace.value.prov.state == Ready;
            var fits := id in p.profiles && p.profiles[id].current == expected;
            match PublishCheck(parser, p, id, number, expected, authorized)
            case None =>
              && authorized && ready && fits && number != 0
              && (id, number) in p.revisions
              && (id, number) in p.texts && Acceptable(parser, p, p.texts[(id, number)])
            case Some(Forbidden) => !authorized
            case Some(NotFound) =>
              && authorized
              && (|| p.workspace.None?
                  || (&& ready
                      && (|| id !in p.profiles
                          || (fits && number != 0 && ((id, number) !in p.revisions || (id, number) !in p.texts)))))
            case Some(Conflict) =>
              && authorized
              && ((p.workspace.Some? && !ready) || (ready && id in p.profiles && p.profiles[id].current != expected))
            case Some(BadRequest) =>
              && authorized && ready && fits
              && (|| number == 0
                  || (&& (id, number) in p.revisions
                      && (id, number) in p.texts && !Acceptable(parser, p, p.texts[(id, number)])))
            case Some(_) => false
  {
  }

  lemma CreateMemberVerdicts(p: Partition, u: User, role: Role, authorized: bool)
    ensures var active := p.workspace.Some? && p.workspace.value.prov.state != Deleting;
            match CreateMemberCheck(p, u, role, authorized)
            case None => authorized && active && (u in p.members ==> p.members[u] == role)
            case Some(Forbidden) => !authorized
            case Some(NotFound) => authorized && p.workspace.None?
            case Some(Conflict) =>
              authorized && ((p.workspace.Some? && !active) || (active && u in p.members && p.members[u] != role))
            case Some(_) => false
  {
  }

  lemma UpdateMemberVerdicts(p: Partition, u: User, role: Role, authorized: bool)
    ensures var active := p.workspace.Some? && p.workspace.value.prov.state != Deleting;
            var demoted := u in p.members && p.members[u] == Admin && role != Admin;
            match UpdateMemberCheck(p, u, role, authorized)
            case None =>
              && authorized && active && u in p.members
              && (!demoted || (exists v :: v in p.members && v != u && p.members[v] == Admin))
            case Some(Forbidden) => !authorized
            case Some(NotFound) => authorized && (p.workspace.None? || (active && u !in p.members))
            case Some(Conflict) =>
              && authorized
              && (|| (p.workspace.Some? && !active)
                  || (active && demoted && (forall v :: v in p.members && p.members[v] == Admin ==> v == u)))
            case Some(_) => false
  {
  }

  lemma DeleteMemberVerdicts(p: Partition, u: User, authorized: bool)
    ensures var active := p.workspace.Some? && p.workspace.value.prov.state != Deleting;
            var demoted := u in p.members && p.members[u] == Admin;
            match DeleteMemberCheck(p, u, authorized)
            case None =>
              authorized && active && (!demoted || (exists v :: v in p.members && v != u && p.members[v] == Admin))
            case Some(Forbidden) => !authorized
            case Some(NotFound) => authorized && p.workspace.None?
            case Some(Conflict) =>
              && authorized
              && (|| (p.workspace.Some? && !active)
                  || (active && demoted && (forall v :: v in p.members && p.members[v] == Admin ==> v == u)))
            case Some(_) => false
  {
  }

  lemma RevokeGatewayVerdicts(p: Partition, g: Id, authorized: bool)
    ensures var active := p.workspace.Some? && p.workspace.value.prov.state != Deleting;
            match RevokeCheck(p, g, authorized)
            case None => authorized && active && g in p.gateways
            case Some(Forbidden) => !authorized
            case Some(NotFound) => authorized && (p.workspace.None? || (active && g !in p.gateways))
            case Some(Conflict) => authorized && p.workspace.Some? && !active
            case Some(_) => false
  {
  }

  lemma CreateConnectionVerdicts(p: Partition, name: string, wellNamed: bool, authorized: bool)
    ensures var ready := p.workspace.Some? && p.workspace.value.prov.state == Ready;
            match CreateConnectionCheck(p, name, wellNamed, authorized)
            case None =>
              && authorized && ready && wellNamed
              && (forall d :: d in p.connections ==> Lower(p.connections[d].name) != Lower(name))
            case Some(Forbidden) => !authorized
            case Some(NotFound) => authorized && p.workspace.None?
            case Some(BadRequest) => authorized && ready && !wellNamed
            case Some(Conflict) =>
              && authorized
              && (|| (p.workspace.Some? && !ready)
                  || (&& ready && wellNamed
                      && (exists d :: d in p.connections && Lower(p.connections[d].name) == Lower(name))))
            case Some(_) => false
  {
  }

  lemma DeleteConnectionVerdicts(parser: Parser, p: Partition, c: Id, authorized: bool)
    ensures var active := p.workspace.Some? && p.workspace.value.prov.state != Deleting;
            match DeleteConnectionCheck(parser, p, c, authorized)
            case None => authorized && active && c in p.connections && Unused(parser, p, p.connections[c].name)
            case Some(Forbidden) => !authorized
            case Some(NotFound) => authorized && (p.workspace.None? || (active && c !in p.connections))
            case Some(Conflict) => authorized && p.workspace.Some? && !active
            case Some(ConnectionInUse) =>
              authorized && active && c in p.connections && !Unused(parser, p, p.connections[c].name)
            case Some(_) => false
  {
  }

  lemma DeleteWorkspaceVerdicts(p: Partition, authorized: bool)
    ensures match DeleteWorkspaceCheck(p, authorized)
            case None => authorized && p.workspace.Some? && p.connections == map[]
            case Some(Forbidden) => !authorized
            case Some(NotFound) => authorized && p.workspace.None?
            case Some(WorkspaceNotEmpty) => authorized && p.workspace.Some? && p.connections != map[]
            case Some(_) => false
  {
  }

  lemma CreateGatewayVerdicts(parser: Parser, p: Partition, profile: Id, wellNamed: bool)
    requires PartInv(parser, p)
    ensures var ready := p.workspace.Some? && p.workspace.value.prov.state == Ready;
            var published := profile in p.profiles && p.profiles[profile].current.Some?;
            match MintCheck(parser, p, profile, wellNamed)
            case None => wellNamed && ready && published
            case Some(BadRequest) => !wellNamed
            case Some(NotFound) => wellNamed && (p.workspace.None? || (ready && profile !in p.profiles))
            case Some(Conflict) =>
              wellNamed && ((p.workspace.Some? && !ready) || (ready && profile in p.profiles && !published))
            case Some(_) => false
  {
    if profile in p.profiles && p.profiles[profile].current.Some? {
      PublishedIsServable(parser, p, profile);
    }
  }

  lemma StartEnrollmentVerdicts(parser: Parser, p: Partition, profile: Id, resolved: bool)
    requires PartInv(parser, p)
    ensures var ready := p.workspace.Some? && p.workspace.value.prov.state == Ready;
            var published := profile in p.profiles && p.profiles[profile].current.Some?;
            match StartCheck(parser, p, profile, resolved)
            case None => resolved && ready && published
            case Some(BadRequest) => !resolved
            case Some(NotFound) => resolved && (p.workspace.None? || (ready && profile !in p.profiles))
            case Some(Conflict) =>
              resolved && ((p.workspace.Some? && !ready) || (ready && profile in p.profiles && !published))
            case Some(_) => false
  {
    if profile in p.profiles && p.profiles[profile].current.Some? {
      PublishedIsServable(parser, p, profile);
    }
  }

  // ---------- Requests of gateways, in reached states ----------

  /** A gateway that is not revoked has a profile whose published revision is there, and its text reads as the config served. */
  lemma UnrevokedIsPublished(parser: Parser, p: Partition, g: Id)
    requires PartInv(parser, p) && g in p.gateways && !p.gateways[g].revoked
    ensures var profile := p.gateways[g].profile;
            && profile in p.profiles && p.profiles[profile].current.Some?
            && var key := (profile, p.profiles[profile].current.value);
               && key in p.texts && parser.raw(p.texts[key]).Some?
               && HasPublishedText(p, profile) && PublishedText(p, profile) == p.texts[key]
               && Managed(parser, p.texts[key]) == parser.raw(p.texts[key])
    ensures ServeCheck(parser, p, p.gateways[g].profile).None? && OnReady(p, true).None?
  {
    PublishedIsServable(parser, p, p.gateways[g].profile);
  }

  lemma TokenVerdicts(parser: Parser, p: Partition, g: Id, name: string, right: Right, wellFormed: bool, genuine: bool)
    requires PartInv(parser, p)
    ensures if g !in p.gateways || p.gateways[g].revoked || !genuine then
              TokenCheck(parser, p, g, name, right, wellFormed, genuine) == Some(Unauthorized)
            else
              var profile := p.gateways[g].profile;
              && profile in p.profiles && p.profiles[profile].current.Some?
              && var key := (profile, p.profiles[profile].current.value);
                 && key in p.texts && parser.raw(p.texts[key]).Some?
                 && var c := parser.raw(p.texts[key]).value;
                    match TokenCheck(parser, p, g, name, right, wellFormed, genuine)
                    case None => wellFormed && name in (if right.Send? then c.localNames else c.remoteNames)
                    case Some(BadRequest) => !wellFormed
                    case Some(Forbidden) => wellFormed && name !in (if right.Send? then c.localNames else c.remoteNames)
                    case Some(_) => false
  {
    if g in p.gateways && !p.gateways[g].revoked {
      UnrevokedIsPublished(parser, p, g);
    }
  }

  lemma StatusVerdicts(parser: Parser, p: Partition, g: Id, applied: Number, wellFormed: bool, genuine: bool)
    requires PartInv(parser, p)
    ensures if g !in p.gateways || p.gateways[g].revoked || !genuine then
              StatusCheck(parser, p, g, applied, wellFormed, genuine) == Some(Unauthorized)
            else
              var profile := p.gateways[g].profile;
              && profile in p.profiles && p.profiles[profile].current.Some?
              && var published := p.profiles[profile].current.value;
                 match StatusCheck(parser, p, g, applied, wellFormed, genuine)
                 case None => wellFormed && 1 <= applied <= published
                 case Some(BadRequest) => !wellFormed || applied == 0 || applied > published
                 case Some(_) => false
  {
    if g in p.gateways && !p.gateways[g].revoked {
      UnrevokedIsPublished(parser, p, g);
    }
  }

  // ---------- Polls ----------

  /** What a concluded poll wrote and answered, in terms of the stored row, the clock and the device's reply. */
  lemma PollMeans(e: Id, g: Id, row: Enrollment, now: nat, poll: DevicePoll, role: bool, journal: seq<Action>, r: Reply<PollReply>)
    requires Concluded([], journal, PollPlan(e, g, row, now, poll), PollAnswer(g, row, now, poll), role, r)
    ensures var longer := Sat(row.interval + 5);
            var slowed := PutEnrollment(e, row.(interval := longer, nextPollAt := Sat(now + longer)));
            var reserved := PutEnrollment(e, row.(nextPollAt := Sat(now + row.interval)));
            var gone := DropEnrollment(e);
            if row.expiresAt <= now then
              journal <= [gone] && (r.Done? ==> r.value == PollReply.Expired && journal == [gone])
            else if now < row.nextPollAt then
              journal <= [slowed] && (r.Done? ==> r.value == PollReply.SlowDown(longer) && journal == [slowed])
            else
              match poll
              case Pending =>
                journal <= [reserved] && (r.Done? ==> r.value == PollReply.Pending(row.interval) && journal == [reserved])
              case SlowDown =>
                && journal <= [reserved, slowed]
                && (r.Done? ==> r.value == PollReply.SlowDown(longer) && journal == [reserved, slowed])
              case Expired =>
                journal <= [reserved, gone] && (r.Done? ==> r.value == PollReply.Expired && journal == [reserved, gone])
              case Denied =>
                journal <= [reserved, gone] && (r.Done? ==> r.value == PollReply.Denied && journal == [reserved, gone])
              case Authorized =>
                var minted := PutGateway(g, Gateway(row.profile, false, None, None));
                && journal <= [reserved, gone, minted]
                && (r.Done? ==>
                      || (r.value == PollReply.Authorized(g) && journal == [reserved, gone, minted])
                      || (r.value == PollReply.Expired && journal == [reserved, gone])
                      || (r.value == PollReply.Denied && !role && journal == [reserved, gone]))
  {
    assert journal[0..] == journal;
    if now < row.expiresAt && row.nextPollAt <= now {
      assert Reserve(row, now) == row.(nextPollAt := Sat(now + row.interval));
      assert [PutEnrollment(e, Reserve(row, now))] + [] == [PutEnrollment(e, Reserve(row, now))];
    }
  }

  // ---------- Provisioning attempts ----------

  /**
    What one attempt decided and recorded between `t0` and `t1` leaves in the row. In Failed an attempt is
    due when the failure was retryable, fewer than five are recorded and `retryAt` has come; otherwise the
    row stays. The waiting time in seconds doubles with each recorded failure up to the sixth.
  */
  lemma AttainedMeans(v: Provision, reply: CloudReply, t0: nat, t1: nat, w: Provision)
    requires v.state !in {Ready, Deleting} && Attained(v, reply, t0, t1, w)
    ensures var idleBefore := v.state == Failed && !(v.retryable && v.attempts < 5 && v.retryAt <= t0);
            var idleAfter := v.state == Failed && !(v.retryable && v.attempts < 5 && v.retryAt <= t1);
            var wait := [60, 120, 240, 480, 960, 1920][if v.attempts < 5 then v.attempts else 5];
            || (idleBefore && w == v)
            || (!idleAfter &&
                match reply
                case Reported(Ready) => w == v.(state := Ready, attempts := 0, retryable := false)
                case Reported(Provisioning) => w == v.(state := Provisioning, retryable := false)
                case Reported(Pending) => w == v.(state := State.Pending, retryable := false)
                case Reported(_) => w == v.(state := Failed, retryable := false)
                case Errored(transient) =>
                  && w == Provision(Failed, v.attempts + 1, transient, w.retryAt)
                  && Sat(t0 + wait) <= w.retryAt <= Sat(t1 + wait))
  {
    var a, b :| t0 <= a <= b <= t1 && w == Attempted(v, reply, a, b);
    PowersOfTwo();
    assert v.attempts >= 5 ==> Backoff(b, v.attempts + 1) == Sat(b + 30 * Power2(6));
  }

  lemma PowersOfTwo()
    ensures Power2(0) == 1 && Power2(1) == 2 && Power2(2) == 4 && Power2(3) == 8
    ensures Power2(4) == 16 && Power2(5) == 32 && Power2(6) == 64
  {
    assert Power2(3) == 2 * Power2(2);
    assert Power2(5) == 2 * Power2(4);
  }

  /** The first attempt of a new row is due at once. */
  lemma FirstAttempt(reply: CloudReply, t0: nat, t1: nat, w: Provision)
    requires Attained(FRESH, reply, t0, t1, w)
    ensures match reply
            case Reported(Ready) => w == Provision(Ready, 0, false, MAX_U64)
            case Reported(Provisioning) => w == Provision(Provisioning, 0, false, MAX_U64)
            case Reported(Pending) => w == Provision(State.Pending, 0, false, MAX_U64)
            case Reported(_) => w == Provision(Failed, 0, false, MAX_U64)
            case Errored(transient) =>
              w == Provision(Failed, 1, transient, w.retryAt) && Sat(t0 + 60) <= w.retryAt <= Sat(t1 + 60)
  {
    AttainedMeans(FRESH, reply, t0, t1, w);
  }

  /** What a completed pass leaves of a connection. */
  lemma ProcessedMeans(parser: Parser, p: Partition, c: Id, cloud: Cloud, t0: nat, t1: nat, q: Partition)
    requires c in p.connections && Processed(parser, p, c, cloud, t0, t1, q)
    ensures var row := p.connections[c];
            var v := row.prov;
            var gone := v.state == Deleting && Unused(parser, p, row.name) && cloud.deletion(c).Absent?;
            && (c in q.connections <==> !gone)
            && (v.state in {Ready, Deleting} && !gone ==> q.connections[c] == row)
            && (v.state !in {Ready, Deleting} ==>
                  var w := q.connections[c].prov;
                  var idleBefore := v.state == Failed && !(v.retryable && v.attempts < 5 && v.retryAt <= t0);
                  var idleAfter := v.state == Failed && !(v.retryable && v.attempts < 5 && v.retryAt <= t1);
                  var wait := [60, 120, 240, 480, 960, 1920][if v.attempts < 5 then v.attempts else 5];
                  && q.connections[c].name == row.name
                  && (|| (idleBefore && w == v)
                      || (!idleAfter &&
                          match cloud.connection(c)
                          case Reported(Ready) => w == v.(state := Ready, attempts := 0, retryable := false)
                          case Reported(Provisioning) => w == v.(state := Provisioning, retryable := false)
                          case Reported(Pending) => w == v.(state := State.Pending, retryable := false)
                          case Reported(_) => w == v.(state := Failed, retryable := false)
                          case Errored(transient) =>
                            && w == Provision(Failed, v.attempts + 1, transient, w.retryAt)
                            && Sat(t0 + wait) <= w.retryAt <= Sat(t1 + wait))))
  {
    if p.connections[c].prov.state !in {Ready, Deleting} {
      AttainedMeans(p.connections[c].prov, cloud.connection(c), t0, t1, q.connections[c].prov);
    }
  }
}
