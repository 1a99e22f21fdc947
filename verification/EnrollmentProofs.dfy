/** Every step of the enrollment protocol keeps its invariant. */
module EnrollmentProofs {
  import opened Util
  import opened Store
  import opened Enrollments
  import opened EnrollmentProtocol

  /** Nothing is forgotten, and ids handed out earlier are never inserted again. */
  ghost predicate Grows(w: World, v: World) {
    && Follows(w.store, v.store) && WellTagged(v.store)
    && w.used <= v.used && w.clock <= v.clock && w.log <= v.log
    && forall id :: id in w.used && id !in w.store.entities ==> id !in v.store.entities
  }

  lemma SameStoreGrows(w: World, v: World)
    requires StoreInv(w) && v.store == w.store && w.used <= v.used && w.clock <= v.clock && w.log <= v.log
    ensures Grows(w, v)
  {
  }

  lemma CallGrows(w: World, v: World, c: Call<Id, Enrollment>)
    requires StoreInv(w) && v.store == After(w.store, c) && w.used <= v.used && w.clock <= v.clock && w.log <= v.log
    requires c.Inserting? ==> c.k !in w.used
    ensures Grows(w, v)
  {
    CallKeeps(w.store, c);
  }

  lemma SettleGrows(w: World, t: TaskId, task: Task)
    requires StoreInv(w) && task.Answered?
    ensures Grows(w, SettleAt(w, t, task))
  {
    var v := SettleAt(w, t, task);
    match task.poll {
      case Pending => SameStoreGrows(w, v);
      case SlowDown => CallGrows(w, v, Replacing(task.id, Slowed(task.row, task.at), task.etag));
      case _ => CallGrows(w, v, Deleting(task.id, task.etag));
    }
  }

  lemma StepGrows(w: World, s: Step)
    requires StoreInv(w) && Enabled(w, s)
    ensures Grows(w, Apply(w, s))
  {
    match s {
      case Start(id, row) => CallGrows(w, Apply(w, s), Inserting(id, row));
      case ReserveRow(t) =>
        var c := w.tasks[t];
        CallGrows(w, Apply(w, s), Replacing(c.id, Reserve(c.entity.data, c.at), c.entity.etag));
      case Settle(t) => SettleGrows(w, t, w.tasks[t]);
      case SweepRow(t, id) => CallGrows(w, Apply(w, s), Deleting(id, w.tasks[t].batch[id]));
      case _ => SameStoreGrows(w, Apply(w, s));
    }
  }

  lemma KnownKept(w: World, v: World, id: Id, e: Entity<Enrollment>)
    requires Known(w, id, e) && Grows(w, v)
    ensures Known(v, id, e)
  {
  }

  lemma EarnedKept(log: seq<Event>, more: seq<Event>, n: nat, m: nat, t: TaskId, id: Id, row: Enrollment, etag: nat)
    requires Earned(log, n, t, id, row, etag) && log <= more && n <= m <= |more|
    ensures Earned(more, m, t, id, row, etag)
  {
    var h, k :| 0 <= h < k < n
      && log[h].Reservation? && log[h].t == t && log[h].id == id && log[h].row == row && log[h].etag == etag
      && log[k] == Consumption(t, id, row, etag);
    assert more[h] == log[h] && more[k] == log[k];
  }

  /** What a step adds to the log, if anything, comes from the task it moves. */
  ghost predicate Adds(w: World, v: World, t: TaskId) {
    && (forall u :: u != t ==> (u in v.tasks <==> u in w.tasks) && (u in w.tasks ==> v.tasks[u] == w.tasks[u]))
    && |v.log| <= |w.log| + 1
    && (|v.log| == |w.log| + 1 ==> t in w.tasks && Caused(w.tasks[t], v.log[|w.log|]))
  }

  predicate Caused(task: Task, e: Event) {
    match e
    case Mint(_, id, _, _, _) => task.Cleared? && task.id == id
    case Upstream(id, etag, _, _, _) => task.Reserved? && task.id == id && task.etag == etag
    case _ => true
  }

  function Mover(s: Step): Option<TaskId> {
    match s
    case Tick(_) => None
    case Start(_, _) => None
    case Fetch(t, _) => Some(t)
    case ReadClock(t) => Some(t)
    case ReserveRow(t) => Some(t)
    case AskDevice(t, _) => Some(t)
    case Settle(t) => Some(t)
    case CheckExpiry(t) => Some(t)
    case MintGateway(t) => Some(t)
    case ListRows(t, _) => Some(t)
    case SweepRow(t, _) => Some(t)
    case Abandon(t) => Some(t)
  }

  lemma StepAdds(w: World, s: Step)
    requires Enabled(w, s)
    ensures match Mover(s)
            case None => Apply(w, s).tasks == w.tasks && Apply(w, s).log == w.log
            case Some(t) => Adds(w, Apply(w, s), t)
  {
  }

  /** At most one entry is new, and it is of this kind. */
  ghost predicate Extends(log: seq<Event>, more: seq<Event>, task: Option<Task>) {
    && log <= more && |more| <= |log| + 1
    && (|more| == |log| + 1 ==> task.Some? && Caused(task.value, more[|log|]))
  }

  lemma TicketKept(w: World, v: World, id: Id, mover: Option<Task>)
    requires Ticket(w, id) && Grows(w, v) && Extends(w.log, v.log, mover)
    requires mover.Some? && mover.value.Cleared? ==> mover.value.id != id
    ensures Ticket(v, id)
  {
    forall i | 0 <= i < |v.log| && v.log[i].Mint? ensures v.log[i].id != id {
      if i < |w.log| {
        assert v.log[i] == w.log[i];
      }
    }
  }

  lemma UnsentKept(log: seq<Event>, more: seq<Event>, id: Id, etag: nat, mover: Option<Task>)
    requires Unsent(log, id, etag) && Extends(log, more, mover)
    requires mover.Some? && mover.value.Reserved? ==> mover.value.etag != etag
    ensures Unsent(more, id, etag)
  {
    forall i | 0 <= i < |more| && more[i].Upstream? ensures !(more[i].id == id && more[i].etag == etag) {
      if i < |log| {
        assert more[i] == log[i];
      }
    }
  }

  /** A task that is not moved keeps its invariant. */
  lemma BystanderKept(w: World, v: World, t: TaskId, u: TaskId)
    requires TasksInv(w) && Exclusive(w) && Grows(w, v) && Adds(w, v, t)
    requires u in w.tasks && u != t
    ensures TaskInv(v, u, w.tasks[u])
  {
    UnmovedKept(w, v, u, w.tasks[u], if t in w.tasks then Some(w.tasks[t]) else None);
  }

  lemma UnmovedKept(w: World, v: World, u: TaskId, task: Task, mover: Option<Task>)
    requires TaskInv(w, u, task) && Grows(w, v) && Extends(w.log, v.log, mover)
    requires mover.Some? ==> !(Holds(mover.value) && Holds(task) && mover.value.id == task.id)
    requires mover.Some? ==> !(mover.value.Reserved? && task.Reserved? && mover.value.etag == task.etag)
    ensures TaskInv(v, u, task)
  {
    match task {
      case Fetched(id, e) => KnownKept(w, v, id, e);
      case Timed(id, e, _) => KnownKept(w, v, id, e);
      case Reserved(id, row, etag, at) =>
        KnownKept(w, v, id, Entity(row, etag));
        UnsentKept(w.log, v.log, id, etag, mover);
        LoggedKept(w.log, v.log, Reservation(u, id, row, etag, at));
      case Answered(id, row, etag, at, _) =>
        KnownKept(w, v, id, Entity(row, etag));
        LoggedKept(w.log, v.log, Reservation(u, id, row, etag, at));
      case Consumed(id, row, etag) =>
        TicketKept(w, v, id, mover);
        EarnedKept(w.log, v.log, |w.log|, |v.log|, u, id, row, etag);
      case Cleared(id, row, etag, _) =>
        TicketKept(w, v, id, mover);
        EarnedKept(w.log, v.log, |w.log|, |v.log|, u, id, row, etag);
      case Sweeping(_) =>
    }
  }

  lemma LoggedKept(log: seq<Event>, more: seq<Event>, e: Event)
    requires e in log && log <= more
    ensures e in more
  {
    var i :| 0 <= i < |log| && log[i] == e;
    assert more[i] == e;
  }

  // ---------- Rows ----------

  /** Intervals and poll times of a stored row never fall, and an interval grows by 5 or not at all. */
  ghost predicate RowsEvolve(w: World, v: World) {
    forall id :: id in v.store.entities ==>
      var row := v.store.entities[id].data;
      && id in v.used && row.interval <= MAX_U64 && row.nextPollAt <= Sat(v.clock + row.interval)
      && (if id in w.store.entities then
            var was := w.store.entities[id].data;
            && was.nextPollAt <= row.nextPollAt
            && (row.interval == was.interval || row.interval == Sat(was.interval + 5))
          else id !in w.used)
  }

  lemma SameRowsEvolve(w: World, v: World)
    requires StoreInv(w) && v.store == w.store && w.used <= v.used && w.clock <= v.clock
    ensures RowsEvolve(w, v)
  {
  }

  lemma ReserveEvolves(w: World, t: TaskId)
    requires Inv(w) && t in w.tasks && w.tasks[t].Timed?
    ensures RowsEvolve(w, ReserveAt(w, t, w.tasks[t]))
  {
    assert TaskInv(w, t, w.tasks[t]);
  }

  lemma FewerRowsEvolve(w: World, v: World)
    requires StoreInv(w) && w.used <= v.used && w.clock <= v.clock
    requires forall id :: id in v.store.entities ==> id in w.store.entities && v.store.entities[id] == w.store.entities[id]
    ensures RowsEvolve(w, v)
  {
  }

  lemma ReplacedRowEvolves(w: World, v: World, id: Id, row: Enrollment)
    requires StoreInv(w) && id in w.store.entities && w.used <= v.used && w.clock <= v.clock
    requires v.store.entities.Keys == w.store.entities.Keys && v.store.entities[id].data == row
    requires forall i :: i in w.store.entities && i != id ==> v.store.entities[i] == w.store.entities[i]
    requires row.interval <= MAX_U64 && row.nextPollAt <= Sat(v.clock + row.interval)
    requires w.store.entities[id].data.nextPollAt <= row.nextPollAt
    requires row.interval == w.store.entities[id].data.interval || row.interval == Sat(w.store.entities[id].data.interval + 5)
    ensures RowsEvolve(w, v)
  {
  }

  lemma SettleEvolves(w: World, t: TaskId)
    requires TasksInv(w) && StoreInv(w) && t in w.tasks && w.tasks[t].Answered?
    ensures RowsEvolve(w, SettleAt(w, t, w.tasks[t]))
  {
    var task := w.tasks[t];
    var v := SettleAt(w, t, task);
    assert TaskInv(w, t, task);
    if task.poll.SlowDown? && ReplaceRow(w.store, task.id, Slowed(task.row, task.at), task.etag).Ok? {
      assert w.store.entities[task.id] == Entity(task.row, task.etag);
      ReplacedRowEvolves(w, v, task.id, Slowed(task.row, task.at));
    } else {
      FewerRowsEvolve(w, v);
    }
  }

  lemma StepEvolves(w: World, s: Step)
    requires Inv(w) && Enabled(w, s)
    ensures RowsEvolve(w, Apply(w, s))
  {
    match s {
      case Start(id, row) =>
      case ReserveRow(t) => ReserveEvolves(w, t);
      case Settle(t) => SettleEvolves(w, t);
      case SweepRow(t, id) =>
      case _ => SameRowsEvolve(w, Apply(w, s));
    }
  }

  lemma StoreKept(w: World, s: Step)
    requires Inv(w) && Enabled(w, s)
    ensures StoreInv(Apply(w, s))
  {
    StepGrows(w, s);
    StepEvolves(w, s);
  }

  /** Changing one task's state keeps exclusiveness when it clashes with no other task. */
  lemma ExclusiveWith(w: World, v: World, t: TaskId)
    requires Exclusive(w)
    requires forall u :: u != t ==> (u in v.tasks <==> u in w.tasks) && (u in w.tasks ==> v.tasks[u] == w.tasks[u])
    requires t in v.tasks ==> forall u :: u in w.tasks && u != t ==>
               && !(Holds(v.tasks[t]) && Holds(w.tasks[u]) && v.tasks[t].id == w.tasks[u].id)
               && !(v.tasks[t].Reserved? && w.tasks[u].Reserved? && v.tasks[t].etag == w.tasks[u].etag)
    ensures Exclusive(v)
  {
  }

  lemma ReserverExclusive(w: World, t: TaskId)
    requires TasksInv(w) && Exclusive(w) && t in w.tasks && w.tasks[t].Timed?
    ensures Exclusive(ReserveAt(w, t, w.tasks[t]))
  {
    forall u | u in w.tasks && w.tasks[u].Reserved?
      ensures w.tasks[u].etag <= w.store.version
    {
      assert TaskInv(w, u, w.tasks[u]);
    }
    ExclusiveWith(w, ReserveAt(w, t, w.tasks[t]), t);
  }

  lemma SettlerExclusive(w: World, t: TaskId)
    requires TasksInv(w) && Exclusive(w) && t in w.tasks && w.tasks[t].Answered?
    ensures Exclusive(SettleAt(w, t, w.tasks[t]))
  {
    forall u | u in w.tasks && Holds(w.tasks[u])
      ensures w.tasks[u].id !in w.store.entities
    {
      assert TaskInv(w, u, w.tasks[u]);
    }
    ExclusiveWith(w, SettleAt(w, t, w.tasks[t]), t);
  }

  lemma ExclusiveKept(w: World, s: Step)
    requires TasksInv(w) && Exclusive(w) && Enabled(w, s)
    ensures Exclusive(Apply(w, s))
  {
    match s {
      case Tick(_) =>
      case Start(_, _) =>
      case ReserveRow(t) => ReserverExclusive(w, t);
      case Settle(t) => SettlerExclusive(w, t);
      case _ => ExclusiveWith(w, Apply(w, s), Mover(s).value);
    }
  }

  // ---------- The log ----------

  lemma SpendsKept(log: seq<Event>, more: seq<Event>, i: nat)
    requires log <= more && i < |log| && log[i].Upstream? && Spends(log, i)
    ensures more[i] == log[i] && Spends(more, i)
  {
    var h :| 0 <= h < i && log[h].Reservation? && log[h].id == log[i].id && log[h].etag == log[i].etag
             && log[h].at == log[i].at && log[h].row.interval == log[i].interval;
    assert more[h] == log[h];
  }

  /** What the old entries say stays true. */
  lemma OldMintsKept(w: World, v: World)
    requires MintInv(w) && Grows(w, v)
    requires forall i :: |w.log| <= i < |v.log| ==> !v.log[i].Mint?
    ensures MintInv(v)
  {
    forall i | 0 <= i < |v.log| && v.log[i].Mint?
      ensures v.log[i] == w.log[i] && Earned(v.log, i, v.log[i].t, v.log[i].id, v.log[i].row, v.log[i].etag)
    {
      EarnedKept(w.log, v.log, i, i, w.log[i].t, w.log[i].id, w.log[i].row, w.log[i].etag);
    }
  }

  lemma OldPollsKept(w: World, v: World)
    requires UpstreamInv(w) && Grows(w, v)
    requires forall i :: |w.log| <= i < |v.log| ==> !v.log[i].Upstream?
    ensures UpstreamInv(v)
  {
    forall i | 0 <= i < |v.log| && v.log[i].Upstream?
      ensures v.log[i] == w.log[i] && Spends(v.log, i)
    {
      SpendsKept(w.log, v.log, i);
    }
  }

  lemma OldReservationsKept(w: World, v: World)
    requires StoreInv(w) && BoundsInv(w) && SpacingInv(w) && Grows(w, v) && RowsEvolve(w, v)
    requires forall i :: |w.log| <= i < |v.log| ==> !v.log[i].Reservation?
    ensures BoundsInv(v) && SpacingInv(v)
  {
    OldBoundsKept(w, v);
    OldSpacingKept(w, v);
  }

  lemma OldBoundsKept(w: World, v: World)
    requires StoreInv(w) && BoundsInv(w) && Grows(w, v) && RowsEvolve(w, v)
    requires forall i :: |w.log| <= i < |v.log| ==> !v.log[i].Reservation?
    ensures BoundsInv(v)
  {
    assert forall i :: 0 <= i < |v.log| && v.log[i].Reservation? ==> i < |w.log| && v.log[i] == w.log[i];
  }

  lemma OldSpacingKept(w: World, v: World)
    requires SpacingInv(w) && w.log <= v.log
    requires forall i :: |w.log| <= i < |v.log| ==> !v.log[i].Reservation?
    ensures SpacingInv(v)
  {
    assert forall i :: 0 <= i < |v.log| && v.log[i].Reservation? ==> i < |w.log| && v.log[i] == w.log[i];
  }

  ghost predicate LogInv(w: World) {
    MintInv(w) && BoundsInv(w) && SpacingInv(w) && UpstreamInv(w)
  }

  /** What a successful, timely reservation does. */
  lemma ReservationMade(w: World, t: TaskId)
    requires Inv(w) && t in w.tasks && w.tasks[t].Timed?
    requires |ReserveAt(w, t, w.tasks[t]).log| > |w.log|
    ensures var task, v := w.tasks[t], ReserveAt(w, t, w.tasks[t]);
            var row := Reserve(task.entity.data, task.at);
            && task.id in w.store.entities && w.store.entities[task.id] == task.entity
            && task.entity.data.nextPollAt <= task.at <= w.clock
            && row.interval == task.entity.data.interval && row.nextPollAt == Sat(task.at + row.interval)
            && v.store == Rows(w.store.entities[task.id := Entity(row, w.store.version + 1)], w.store.version + 1)
            && v.log == w.log + [Reservation(t, task.id, row, w.store.version + 1, task.at)]
            && v.used == w.used && v.clock == w.clock
  {
    assert TaskInv(w, t, w.tasks[t]);
  }

  lemma NewBounds(w: World, v: World, id: Id, row: Enrollment, e: Event)
    requires StoreInv(w) && BoundsInv(w) && id in w.store.entities
    requires e.Reservation? && e.id == id && e.row == row && e.etag == w.store.version + 1
    requires w.store.entities[id].data.nextPollAt <= e.at <= w.clock
    requires row.interval == w.store.entities[id].data.interval && row.nextPollAt == Sat(e.at + row.interval)
    requires v.store == Rows(w.store.entities[id := Entity(row, w.store.version + 1)], w.store.version + 1)
    requires v.log == w.log + [e] && v.used == w.used && v.clock == w.clock
    ensures BoundsInv(v)
  {
    forall i | 0 <= i < |w.log|
      ensures v.log[i] == w.log[i]
    {
    }
  }

  lemma NewSpacing(w: World, v: World, e: Event)
    requires StoreInv(w) && BoundsInv(w) && SpacingInv(w) && e.Reservation? && e.id in w.store.entities
    requires e.etag == w.store.version + 1 && e.row.interval == w.store.entities[e.id].data.interval
    requires w.store.entities[e.id].data.nextPollAt <= e.at
    requires v.log == w.log + [e]
    ensures SpacingInv(v)
  {
    forall i | 0 <= i < |w.log|
      ensures v.log[i] == w.log[i]
    {
    }
  }

  /** A reservation comes after every earlier one of its enrollment has run its interval. */
  lemma ReservationLogged(w: World, t: TaskId)
    requires Inv(w) && t in w.tasks && w.tasks[t].Timed?
    requires |ReserveAt(w, t, w.tasks[t]).log| > |w.log|
    ensures BoundsInv(ReserveAt(w, t, w.tasks[t])) && SpacingInv(ReserveAt(w, t, w.tasks[t]))
  {
    ReservationMade(w, t);
    var task, v := w.tasks[t], ReserveAt(w, t, w.tasks[t]);
    var row := Reserve(task.entity.data, task.at);
    var e := Reservation(t, task.id, row, w.store.version + 1, task.at);
    NewBounds(w, v, task.id, row, e);
    NewSpacing(w, v, e);
  }

  lemma PollLogged(w: World, t: TaskId, poll: DevicePoll)
    requires TasksInv(w) && UpstreamInv(w) && t in w.tasks && w.tasks[t].Reserved?
    ensures UpstreamInv(Ask(w, t, w.tasks[t], poll))
  {
    var task := w.tasks[t];
    assert TaskInv(w, t, task);
    PollAppended(w, Ask(w, t, task, poll), t, task);
  }

  lemma PollAppended(w: World, v: World, t: TaskId, task: Task)
    requires UpstreamInv(w) && task.Reserved? && Unsent(w.log, task.id, task.etag) && task.at <= w.clock
    requires Reservation(t, task.id, task.row, task.etag, task.at) in w.log
    requires v.log == w.log + [Upstream(task.id, task.etag, task.at, task.row.interval, w.clock)] && v.clock == w.clock
    ensures UpstreamInv(v)
  {
    var n := |w.log|;
    var h :| 0 <= h < n && w.log[h] == Reservation(t, task.id, task.row, task.etag, task.at);
    assert v.log[h] == w.log[h];
    assert Spends(v.log, n);
    forall i | 0 <= i < n && v.log[i].Upstream?
      ensures v.log[i] == w.log[i] && Spends(v.log, i)
      ensures v.log[i].id == task.id ==> v.log[i].etag != task.etag
    {
      SpendsKept(w.log, v.log, i);
    }
  }

  lemma MintLogged(w: World, t: TaskId)
    requires TasksInv(w) && MintInv(w) && t in w.tasks && w.tasks[t].Cleared?
    ensures MintInv(Apply(w, MintGateway(t)))
  {
    var task := w.tasks[t];
    assert TaskInv(w, t, task);
    MintAppended(w, Apply(w, MintGateway(t)), t, task);
  }

  lemma MintAppended(w: World, v: World, t: TaskId, task: Task)
    requires MintInv(w) && task.Cleared? && Ticket(w, task.id) && task.checkedAt < task.row.expiresAt
    requires Earned(w.log, |w.log|, t, task.id, task.row, task.etag)
    requires v.log == w.log + [Mint(t, task.id, task.row, task.etag, task.checkedAt)] && v.store == w.store && v.used == w.used
    ensures MintInv(v)
  {
    var n := |w.log|;
    forall i | 0 <= i < |v.log| && v.log[i].Mint?
      ensures v.log[i].id in v.used && v.log[i].id !in v.store.entities
      ensures Earned(v.log, i, v.log[i].t, v.log[i].id, v.log[i].row, v.log[i].etag)
      ensures v.log[i].checkedAt < v.log[i].row.expiresAt
    {
      if i == n {
        EarnedKept(w.log, v.log, n, n, t, task.id, task.row, task.etag);
      } else {
        assert v.log[i] == w.log[i];
        EarnedKept(w.log, v.log, i, i, w.log[i].t, w.log[i].id, w.log[i].row, w.log[i].etag);
      }
    }
    forall i, j | 0 <= i < j < |v.log| && v.log[i].Mint? && v.log[j].Mint?
      ensures v.log[i].id != v.log[j].id
    {
      assert v.log[i] == w.log[i];
      if j < n {
        assert v.log[j] == w.log[j];
      }
    }
  }

  lemma LogKept(w: World, s: Step)
    requires Inv(w) && Enabled(w, s)
    ensures LogInv(Apply(w, s))
  {
    var v := Apply(w, s);
    StepGrows(w, s);
    StepEvolves(w, s);
    StepLogs(w, s);
    if s.MintGateway? {
      MintLogged(w, s.t);
    } else {
      OldMintsKept(w, v);
    }
    if s.AskDevice? {
      PollLogged(w, s.t, s.poll);
    } else {
      OldPollsKept(w, v);
    }
    if s.ReserveRow? && |v.log| > |w.log| {
      ReservationLogged(w, s.t);
    } else {
      OldReservationsKept(w, v);
    }
  }

  /** Which step adds which kind of entry. */
  lemma StepLogs(w: World, s: Step)
    requires Enabled(w, s)
    ensures forall i :: |w.log| <= i < |Apply(w, s).log| ==>
              match Apply(w, s).log[i]
              case Mint(_, _, _, _, _) => s.MintGateway?
              case Upstream(_, _, _, _, _) => s.AskDevice?
              case Reservation(_, _, _, _, _) => s.ReserveRow?
              case Consumption(_, _, _, _) => s.Settle?
  {
  }

  // ---------- Tasks ----------

  lemma ReserverKept(w: World, t: TaskId)
    requires Inv(w) && t in w.tasks && w.tasks[t].Timed?
    requires t in ReserveAt(w, t, w.tasks[t]).tasks
    ensures TaskInv(ReserveAt(w, t, w.tasks[t]), t, ReserveAt(w, t, w.tasks[t]).tasks[t])
  {
    var task, v := w.tasks[t], ReserveAt(w, t, w.tasks[t]);
    assert TaskInv(w, t, task);
    assert v.log[|w.log|] == Reservation(t, task.id, Reserve(task.entity.data, task.at), w.store.version + 1, task.at);
    forall i | 0 <= i < |v.log| && v.log[i].Upstream?
      ensures v.log[i].etag <= w.store.version
    {
      assert v.log[i] == w.log[i];
      var h :| 0 <= h < i && w.log[h].Reservation? && w.log[h].id == w.log[i].id && w.log[h].etag == w.log[i].etag
               && w.log[h].at == w.log[i].at && w.log[h].row.interval == w.log[i].interval;
    }
  }

  lemma AskerKept(w: World, t: TaskId, poll: DevicePoll)
    requires Inv(w) && t in w.tasks && w.tasks[t].Reserved?
    ensures TaskInv(Ask(w, t, w.tasks[t], poll), t, Ask(w, t, w.tasks[t], poll).tasks[t])
  {
    assert TaskInv(w, t, w.tasks[t]);
  }

  lemma SettlerKept(w: World, t: TaskId)
    requires Inv(w) && t in w.tasks && w.tasks[t].Answered?
    requires t in SettleAt(w, t, w.tasks[t]).tasks
    ensures TaskInv(SettleAt(w, t, w.tasks[t]), t, SettleAt(w, t, w.tasks[t]).tasks[t])
  {
    var task, v := w.tasks[t], SettleAt(w, t, w.tasks[t]);
    assert TaskInv(w, t, task);
    var n := |w.log|;
    assert v.log[..n] == w.log && v.log[n] == Consumption(t, task.id, task.row, task.etag);
    var h :| 0 <= h < n && w.log[h] == Reservation(t, task.id, task.row, task.etag, task.at);
    assert v.log[h] == w.log[h];
    assert Earned(v.log, |v.log|, t, task.id, task.row, task.etag);
    forall i | 0 <= i < |v.log| && v.log[i].Mint?
      ensures v.log[i].id != task.id
    {
      assert v.log[i] == w.log[i];
    }
  }

  lemma MoverKept(w: World, s: Step, t: TaskId)
    requires Inv(w) && Enabled(w, s) && Mover(s) == Some(t) && t in Apply(w, s).tasks
    ensures TaskInv(Apply(w, s), t, Apply(w, s).tasks[t])
  {
    if t in w.tasks {
      assert TaskInv(w, t, w.tasks[t]);
    }
    match s {
      case ReserveRow(_) => ReserverKept(w, t);
      case AskDevice(_, poll) => AskerKept(w, t, poll);
      case Settle(_) => SettlerKept(w, t);
      case _ =>
    }
  }

  lemma IdleKept(w: World, v: World, u: TaskId)
    requires Inv(w) && Grows(w, v) && v.log == w.log && u in w.tasks
    ensures TaskInv(v, u, w.tasks[u])
  {
    var task := w.tasks[u];
    assert TaskInv(w, u, task);
    match task {
      case Fetched(id, e) => KnownKept(w, v, id, e);
      case Timed(id, e, _) => KnownKept(w, v, id, e);
      case Reserved(id, row, etag, _) => KnownKept(w, v, id, Entity(row, etag));
      case Answered(id, row, etag, _, _) => KnownKept(w, v, id, Entity(row, etag));
      case _ =>
    }
  }

  lemma TasksKept(w: World, s: Step)
    requires Inv(w) && Enabled(w, s)
    ensures TasksInv(Apply(w, s))
  {
    var v := Apply(w, s);
    StepGrows(w, s);
    StepAdds(w, s);
    forall u | u in v.tasks
      ensures TaskInv(v, u, v.tasks[u])
    {
      if Mover(s) == Some(u) {
        MoverKept(w, s, u);
      } else if Mover(s).None? {
        IdleKept(w, v, u);
      } else {
        BystanderKept(w, v, Mover(s).value, u);
      }
    }
  }

  // ---------- Whole runs ----------

  lemma InvKept(w: World, s: Step)
    requires Inv(w) && Enabled(w, s)
    ensures Inv(Apply(w, s))
  {
    TasksKept(w, s);
    ExclusiveKept(w, s);
    StoreKept(w, s);
    LogKept(w, s);
  }

  lemma {:induction false} RunKeeps(run: seq<Step>)
    requires Exec(run).Some?
    ensures Inv(Exec(run).value)
  {
    if run != [] {
      var before := run[..|run| - 1];
      RunKeeps(before);
      var w, s := Exec(before).value, run[|run| - 1];
      InvKept(w, s);
    }
  }

  /** One enrollment yields at most one gateway, in every interleaving. */
  lemma AtMostOneMint(run: seq<Step>, i: nat, j: nat)
    requires Exec(run).Some? && i < j < |Exec(run).value.log|
    requires Exec(run).value.log[i].Mint? && Exec(run).value.log[j].Mint?
    ensures Exec(run).value.log[i].id != Exec(run).value.log[j].id
  {
    RunKeeps(run);
  }

  /**
    Every mint was earned: the same task reserved a row, then consumed exactly that row by a
    conditional delete, then found it unexpired.
  */
  lemma MintsAreEarned(run: seq<Step>, i: nat)
    requires Exec(run).Some? && i < |Exec(run).value.log| && Exec(run).value.log[i].Mint?
    ensures var log := Exec(run).value.log;
            var e := log[i];
            Earned(log, i, e.t, e.id, e.row, e.etag) && e.checkedAt < e.row.expiresAt
  {
    RunKeeps(run);
  }
}
