/**
  Device enrollment among any number of broker processes that share nothing but the store.

  A task is one poll in flight, cut at every `await`: the store may change and the clock may advance
  between any two of its steps, and it may be abandoned at any point. The cleaner of expired rows and
  the sweep of a deleted workspace list rows first and delete them conditionally later.
*/
module EnrollmentProtocol {
  import opened Util
  import opened Store
  import opened Enrollments

  type Id = nat
  type TaskId = nat

  datatype Task =
    | Fetched(id: Id, entity: Entity<Enrollment>)
    | Timed(id: Id, entity: Entity<Enrollment>, at: nat)
    | Reserved(id: Id, row: Enrollment, etag: nat, at: nat)
    | Answered(id: Id, row: Enrollment, etag: nat, at: nat, poll: DevicePoll)
    | Consumed(id: Id, row: Enrollment, etag: nat)
    | Cleared(id: Id, row: Enrollment, etag: nat, checkedAt: nat)
    | Sweeping(batch: map<Id, nat>)

  /** What a run leaves on record. */
  datatype Event =
    | Reservation(t: TaskId, id: Id, row: Enrollment, etag: nat, at: nat)
    | Upstream(id: Id, etag: nat, at: nat, interval: nat, calledAt: nat)
    | Consumption(t: TaskId, id: Id, row: Enrollment, etag: nat)
    | Mint(t: TaskId, id: Id, row: Enrollment, etag: nat, checkedAt: nat)

  datatype World = World(
    store: Rows<Id, Enrollment>,
    clock: nat,
    tasks: map<TaskId, Task>,
    used: set<Id>,
    log: seq<Event>)

  const INITIAL := World(Rows(map[], 0), 0, map[], {}, [])

  datatype Step =
    | Tick(to: nat)
    | Start(id: Id, row: Enrollment)
    | Fetch(t: TaskId, id: Id)
    | ReadClock(t: TaskId)
    | ReserveRow(t: TaskId)
    | AskDevice(t: TaskId, poll: DevicePoll)
    | Settle(t: TaskId)
    | CheckExpiry(t: TaskId)
    | MintGateway(t: TaskId)
    | ListRows(t: TaskId, ids: set<Id>)
    | SweepRow(t: TaskId, id: Id)
    | Abandon(t: TaskId)

  // ---------- The steps ----------

  predicate Enabled(w: World, s: Step) {
    match s
    case Tick(to) => w.clock <= to <= MAX_U64
    case Start(id, row) =>
      id !in w.used && row.nextPollAt <= w.clock + row.interval && row.interval <= MAX_U64 && row.nextPollAt <= MAX_U64
    case Fetch(t, _) => t !in w.tasks
    case ReadClock(t) => t in w.tasks && w.tasks[t].Fetched?
    case ReserveRow(t) => t in w.tasks && w.tasks[t].Timed?
    case AskDevice(t, _) => t in w.tasks && w.tasks[t].Reserved?
    case Settle(t) => t in w.tasks && w.tasks[t].Answered?
    case CheckExpiry(t) => t in w.tasks && w.tasks[t].Consumed?
    case MintGateway(t) => t in w.tasks && w.tasks[t].Cleared?
    case ListRows(t, ids) => t !in w.tasks && ids <= w.store.entities.Keys
    case SweepRow(t, id) => t in w.tasks && w.tasks[t].Sweeping? && id in w.tasks[t].batch
    case Abandon(t) => t in w.tasks
  }

  function End(w: World, t: TaskId): World {
    w.(tasks := w.tasks - {t})
  }

  function Become(w: World, t: TaskId, task: Task): World {
    w.(tasks := w.tasks[t := task])
  }

  function StartAt(w: World, id: Id, row: Enrollment): World {
    match InsertRow(w.store, id, row)
    case Ok(s) => w.(store := s, used := w.used + {id})
    case Err(_) => w
  }

  /** An expired row is deleted, conditionally, instead of being polled. */
  function Time(w: World, t: TaskId, task: Task): World
    requires task.Fetched?
  {
    if task.entity.data.expiresAt <= w.clock
    then Become(w, t, Sweeping(map[task.id := task.entity.etag]))
    else Become(w, t, Timed(task.id, task.entity, w.clock))
  }

  /** The compare-and-swap that reserves the poll; an early poll stops there. */
  function ReserveAt(w: World, t: TaskId, task: Task): World
    requires task.Timed?
  {
    var row := Reserve(task.entity.data, task.at);
    match ReplaceRow(w.store, task.id, row, task.entity.etag)
    case Err(_) => End(w, t)
    case Ok(s) =>
      if Early(task.entity.data, task.at) then End(w.(store := s), t)
      else
        var etag := s.version;
        Become(w.(store := s, log := w.log + [Reservation(t, task.id, row, etag, task.at)]), t,
               Reserved(task.id, row, etag, task.at))
  }

  function Ask(w: World, t: TaskId, task: Task, poll: DevicePoll): World
    requires task.Reserved?
  {
    Become(w.(log := w.log + [Upstream(task.id, task.etag, task.at, task.row.interval, w.clock)]), t,
           Answered(task.id, task.row, task.etag, task.at, poll))
  }

  /** Every terminal reply must first consume the exact row this task reserved. */
  function SettleAt(w: World, t: TaskId, task: Task): World
    requires task.Answered?
  {
    match task.poll
    case Pending => End(w, t)
    case SlowDown =>
      (match ReplaceRow(w.store, task.id, Slowed(task.row, task.at), task.etag)
       case Ok(s) => End(w.(store := s), t)
       case Err(_) => End(w, t))
    case Authorized =>
      (match DeleteRow(w.store, task.id, task.etag)
       case Ok(s) =>
         Become(w.(store := s, log := w.log + [Consumption(t, task.id, task.row, task.etag)]), t,
                Consumed(task.id, task.row, task.etag))
       case Err(_) => End(w, t))
    case _ =>
      (match DeleteRow(w.store, task.id, task.etag)
       case Ok(s) => End(w.(store := s), t)
       case Err(_) => End(w, t))
  }

  function Clear(w: World, t: TaskId, task: Task): World
    requires task.Consumed?
  {
    if task.row.expiresAt <= w.clock then End(w, t)
    else Become(w, t, Cleared(task.id, task.row, task.etag, w.clock))
  }

  function Sweep(w: World, t: TaskId, task: Task, id: Id): World
    requires task.Sweeping? && id in task.batch
  {
    var left := Become(w, t, Sweeping(task.batch - {id}));
    match DeleteRow(w.store, id, task.batch[id])
    case Ok(s) => left.(store := s)
    case Err(_) => left
  }

  function Apply(w: World, s: Step): World
    requires Enabled(w, s)
  {
    match s
    case Tick(to) => w.(clock := to)
    case Start(id, row) => StartAt(w, id, row)
    case Fetch(t, id) =>
      if id in w.store.entities then Become(w, t, Fetched(id, w.store.entities[id])) else w
    case ReadClock(t) => Time(w, t, w.tasks[t])
    case ReserveRow(t) => ReserveAt(w, t, w.tasks[t])
    case AskDevice(t, poll) => Ask(w, t, w.tasks[t], poll)
    case Settle(t) => SettleAt(w, t, w.tasks[t])
    case CheckExpiry(t) => Clear(w, t, w.tasks[t])
    case MintGateway(t) =>
      var c := w.tasks[t];
      End(w.(log := w.log + [Mint(t, c.id, c.row, c.etag, c.checkedAt)]), t)
    case ListRows(t, ids) => Become(w, t, Sweeping(map id | id in ids :: w.store.entities[id].etag))
    case SweepRow(t, id) => Sweep(w, t, w.tasks[t], id)
    case Abandon(t) => End(w, t)
  }

  /** The world after a run, when every step of it was enabled. */
  function Exec(run: seq<Step>): Option<World> {
    if run == [] then Some(INITIAL)
    else
      match Exec(run[..|run| - 1])
      case None => None
      case Some(w) => if Enabled(w, run[|run| - 1]) then Some(Apply(w, run[|run| - 1])) else None
  }

  // ---------- The invariant ----------

  /** If the stored row still carries this ETag, it is exactly this row. */
  ghost predicate Known(w: World, id: Id, e: Entity<Enrollment>) {
    && id in w.used && e.etag <= w.store.version
    && (id in w.store.entities && w.store.entities[id].etag == e.etag ==> w.store.entities[id] == e)
  }

  /** The id's row is gone for good, consumed by the holder, and nothing was minted for it yet. */
  ghost predicate Ticket(w: World, id: Id) {
    && id in w.used && id !in w.store.entities
    && forall i :: 0 <= i < |w.log| && w.log[i].Mint? ==> w.log[i].id != id
  }

  predicate Holds(task: Task) {
    task.Consumed? || task.Cleared?
  }

  /** Task `t` reserved exactly this row, then consumed exactly it, before position `n` of the log. */
  ghost predicate Earned(log: seq<Event>, n: nat, t: TaskId, id: Id, row: Enrollment, etag: nat) {
    n <= |log| &&
    exists h, k :: 0 <= h < k < n
      && log[h].Reservation? && log[h].t == t && log[h].id == id && log[h].row == row && log[h].etag == etag
      && log[k] == Consumption(t, id, row, etag)
  }

  ghost predicate ReservationOf(w: World, t: TaskId, id: Id, row: Enrollment, etag: nat, at: nat) {
    && Known(w, id, Entity(row, etag))
    && at <= w.clock && row.nextPollAt == Sat(at + row.interval)
    && Reservation(t, id, row, etag, at) in w.log
  }

  /** Not yet sent upstream. */
  ghost predicate Unsent(log: seq<Event>, id: Id, etag: nat) {
    forall i :: 0 <= i < |log| && log[i].Upstream? ==> !(log[i].id == id && log[i].etag == etag)
  }

  ghost predicate TaskInv(w: World, t: TaskId, task: Task) {
    match task
    case Fetched(id, e) => Known(w, id, e) && e.data.nextPollAt <= Sat(w.clock + e.data.interval)
    case Timed(id, e, at) => Known(w, id, e) && at <= w.clock && e.data.nextPollAt <= Sat(at + e.data.interval)
    case Reserved(id, row, etag, at) => ReservationOf(w, t, id, row, etag, at) && Unsent(w.log, id, etag)
    case Answered(id, row, etag, at, _) => ReservationOf(w, t, id, row, etag, at)
    case Consumed(id, row, etag) => Ticket(w, id) && Earned(w.log, |w.log|, t, id, row, etag)
    case Cleared(id, row, etag, checkedAt) =>
      Ticket(w, id) && Earned(w.log, |w.log|, t, id, row, etag) && checkedAt < row.expiresAt
    case Sweeping(_) => true
  }

  ghost predicate TasksInv(w: World) {
    forall t :: t in w.tasks ==> TaskInv(w, t, w.tasks[t])
  }

  /** No two tasks hold the same consumed enrollment, and no two the same reservation. */
  ghost predicate Exclusive(w: World) {
    forall t, u :: t in w.tasks && u in w.tasks && t != u ==>
      && !(Holds(w.tasks[t]) && Holds(w.tasks[u]) && w.tasks[t].id == w.tasks[u].id)
      && !(w.tasks[t].Reserved? && w.tasks[u].Reserved? && w.tasks[t].etag == w.tasks[u].etag)
  }

  ghost predicate StoreInv(w: World) {
    && w.clock <= MAX_U64
    && WellTagged(w.store) && w.store.entities.Keys <= w.used
    && forall id :: id in w.store.entities ==>
         var row := w.store.entities[id].data;
         row.interval <= MAX_U64 && row.nextPollAt <= Sat(w.clock + row.interval)
  }

  /** A minted enrollment is gone, was minted once, and was earned by the task that minted it. */
  ghost predicate MintInv(w: World) {
    && (forall i :: 0 <= i < |w.log| && w.log[i].Mint? ==>
          && w.log[i].id in w.used && w.log[i].id !in w.store.entities
          && Earned(w.log, i, w.log[i].t, w.log[i].id, w.log[i].row, w.log[i].etag)
          && w.log[i].checkedAt < w.log[i].row.expiresAt)
    && (forall i, j :: 0 <= i < j < |w.log| && w.log[i].Mint? && w.log[j].Mint? ==> w.log[i].id != w.log[j].id)
  }

  /** Earlier reservations bound the stored row. */
  ghost predicate BoundsInv(w: World) {
    forall i :: 0 <= i < |w.log| && w.log[i].Reservation? ==>
      && w.log[i].id in w.used && w.log[i].etag <= w.store.version && w.log[i].at <= w.clock
      && (w.log[i].id in w.store.entities ==>
            && Sat(w.log[i].at + w.log[i].row.interval) <= w.store.entities[w.log[i].id].data.nextPollAt
            && w.log[i].row.interval <= w.store.entities[w.log[i].id].data.interval)
  }

  /** Earlier reservations bound later ones. */
  ghost predicate SpacingInv(w: World) {
    forall i, j :: 0 <= i < j < |w.log| && w.log[i].Reservation? && w.log[j].Reservation? ==>
      && w.log[i].etag < w.log[j].etag
      && (w.log[i].id == w.log[j].id ==>
            && Sat(w.log[i].at + w.log[i].row.interval) <= w.log[j].at
            && w.log[i].row.interval <= w.log[j].row.interval)
  }

  /** Every upstream poll spends one reservation, once, and never before it was made. */
  ghost predicate UpstreamInv(w: World) {
    && (forall i :: 0 <= i < |w.log| && w.log[i].Upstream? ==>
          w.log[i].at <= w.log[i].calledAt <= w.clock && Spends(w.log, i))
    && (forall i, j :: 0 <= i < j < |w.log| && w.log[i].Upstream? && w.log[j].Upstream? && w.log[i].id == w.log[j].id ==>
          w.log[i].etag != w.log[j].etag)
  }

  ghost predicate Spends(log: seq<Event>, i: nat)
    requires i < |log| && log[i].Upstream?
  {
    exists h :: 0 <= h < i && log[h].Reservation? && log[h].id == log[i].id && log[h].etag == log[i].etag
                && log[h].at == log[i].at && log[h].row.interval == log[i].interval
  }

  ghost predicate Inv(w: World) {
    TasksInv(w) && Exclusive(w) && StoreInv(w) && MintInv(w) && BoundsInv(w) && SpacingInv(w) && UpstreamInv(w)
  }
}
