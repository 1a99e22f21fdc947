/**
  Gateway rows under any number of broker processes that share nothing but the store: every
  gateway request authenticates against a row and later saves it conditionally.
*/
module GatewayProtocol {
  import opened Util
  import opened Store
  import BrokerModel

  type Id = nat
  type TaskId = nat
  type Gateway = BrokerModel.Gateway

  datatype Kind = Config | Token | Status(applied: nat) | Logout | Revoke

  /** A request between its read of the row (the `since`-th step of the run) and its conditional save. */
  datatype Task =
    | Holding(kind: Kind, id: Id, entity: Entity<Gateway>, since: nat)
    | Sweeping(batch: map<Id, nat>)

  datatype World = World(store: Rows<Id, Gateway>, tasks: map<TaskId, Task>, used: set<Id>, time: nat)

  const INITIAL := World(Rows(map[], 0), map[], {}, 0)

  datatype Step =
    | Create(id: Id, row: Gateway)
    | Authenticate(t: TaskId, kind: Kind, id: Id)
    | Save(t: TaskId, now: nat)
    | ListRows(t: TaskId, ids: set<Id>)
    | SweepRow(t: TaskId, id: Id)
    | Abandon(t: TaskId)

  predicate Enabled(w: World, s: Step) {
    match s
    case Create(id, row) => id !in w.used && !row.revoked
    case Authenticate(t, _, _) => t !in w.tasks
    case Save(t, _) => t in w.tasks && w.tasks[t].Holding?
    case ListRows(t, ids) => t !in w.tasks && ids <= w.store.entities.Keys
    case SweepRow(t, id) => t in w.tasks && w.tasks[t].Sweeping? && id in w.tasks[t].batch
    case Abandon(t) => t in w.tasks
  }

  /** A gateway's own requests need an unrevoked row; a browser may revoke any. */
  predicate Admits(kind: Kind, row: Gateway) {
    kind.Revoke? || !row.revoked
  }

  function Update(kind: Kind, row: Gateway, now: nat): Gateway {
    match kind
    case Config => row.(lastSeen := Some(now))
    case Token => row.(lastSeen := Some(now))
    case Status(n) => row.(lastSeen := Some(now), applied := Some(n))
    case Logout => row.(revoked := true, lastSeen := Some(now))
    case Revoke => row.(revoked := true)
  }

  /** The conditional save that every successful answer waits for. */
  function SaveResult(w: World, t: TaskId, now: nat): Outcome<Rows<Id, Gateway>>
    requires t in w.tasks && w.tasks[t].Holding?
  {
    var c := w.tasks[t];
    ReplaceRow(w.store, c.id, Update(c.kind, c.entity.data, now), c.entity.etag)
  }

  function OrSame(s: Rows<Id, Gateway>, r: Outcome<Rows<Id, Gateway>>): Rows<Id, Gateway> {
    if r.Ok? then r.value else s
  }

  function StoreAfter(w: World, s: Step): Rows<Id, Gateway>
    requires Enabled(w, s)
  {
    match s
    case Create(id, row) => OrSame(w.store, InsertRow(w.store, id, row))
    case Save(t, now) => OrSame(w.store, SaveResult(w, t, now))
    case SweepRow(t, id) => OrSame(w.store, DeleteRow(w.store, id, w.tasks[t].batch[id]))
    case _ => w.store
  }

  function TasksAfter(w: World, s: Step): map<TaskId, Task>
    requires Enabled(w, s)
  {
    match s
    case Create(_, _) => w.tasks
    case Authenticate(t, kind, id) =>
      if id in w.store.entities && Admits(kind, w.store.entities[id].data)
      then w.tasks[t := Holding(kind, id, w.store.entities[id], w.time)]
      else w.tasks
    case Save(t, _) => w.tasks - {t}
    case ListRows(t, ids) => w.tasks[t := Sweeping(map id | id in ids :: w.store.entities[id].etag)]
    case SweepRow(t, id) => w.tasks[t := Sweeping(w.tasks[t].batch - {id})]
    case Abandon(t) => w.tasks - {t}
  }

  function Apply(w: World, s: Step): World
    requires Enabled(w, s)
  {
    World(StoreAfter(w, s), TasksAfter(w, s), if s.Create? then w.used + {s.id} else w.used, w.time + 1)
  }

  /** The world after the first `k` steps, as long as every step was enabled. */
  function At(run: seq<Step>, k: nat): Option<World>
    requires k <= |run|
  {
    if k == 0 then Some(INITIAL)
    else
      match At(run, k - 1)
      case None => None
      case Some(w) => if Enabled(w, run[k - 1]) then Some(Apply(w, run[k - 1])) else None
  }

  /** A request that nothing disturbs does to its row what the handler does under the lock. */
  lemma LoneRequest(w: World, t: TaskId, kind: Kind, id: Id, now: nat)
    requires t !in w.tasks && id in w.store.entities && w.store.version < MAX_U64
    ensures var row, next := w.store.entities[id].data, w.store.version + 1;
            var read := Apply(w, Authenticate(t, kind, id));
            if row.revoked && !kind.Revoke? then
              t !in read.tasks && read.store == w.store
            else
              && Enabled(read, Save(t, now))
              && var v := Apply(read, Save(t, now));
                 && t !in v.tasks && v.store.version == next
                 && v.store.entities == w.store.entities[id := Entity(match kind
                      case Config => row.(lastSeen := Some(now))
                      case Token => row.(lastSeen := Some(now))
                      case Status(n) => row.(lastSeen := Some(now), applied := Some(n))
                      case Logout => row.(revoked := true, lastSeen := Some(now))
                      case Revoke => row.(revoked := true), next)]
  {
  }

  // ---------- The invariant ----------

  /** What a task read is what is stored, as long as the stored row carries the same ETag. */
  ghost predicate TaskInv(w: World, task: Task) {
    task.Holding? ==>
      && task.since < w.time && task.entity.etag <= w.store.version && task.id in w.used
      && Admits(task.kind, task.entity.data)
      && (task.id in w.store.entities && w.store.entities[task.id].etag == task.entity.etag ==>
            w.store.entities[task.id] == task.entity)
  }

  ghost predicate Inv(w: World) {
    && WellTagged(w.store) && w.store.entities.Keys <= w.used
    && forall t :: t in w.tasks ==> TaskInv(w, w.tasks[t])
  }

  /** Later rows are old rows or newly written ones, ids are not reused, and revocation is kept. */
  ghost predicate Grows(w: World, v: World) {
    && Follows(w.store, v.store) && w.used <= v.used && w.time <= v.time
    && forall id :: id in w.used && id in v.store.entities ==>
         id in w.store.entities
         && (w.store.entities[id].data.revoked ==> v.store.entities[id].data.revoked)
         && w.store.entities[id].data.profile == v.store.entities[id].data.profile
  }

  function CallOf(w: World, s: Step): Call<Id, Gateway>
    requires Enabled(w, s)
  {
    match s
    case Create(id, row) => Inserting(id, row)
    case Save(t, now) =>
      var c := w.tasks[t];
      Replacing(c.id, Update(c.kind, c.entity.data, now), c.entity.etag)
    case SweepRow(t, id) => Deleting(id, w.tasks[t].batch[id])
    case Authenticate(_, _, id) => Get(id)
    case ListRows(_, _) => Get(0)
    case Abandon(_) => Get(0)
  }

  lemma StepGrows(w: World, s: Step)
    requires Inv(w) && Enabled(w, s)
    ensures WellTagged(Apply(w, s).store) && Grows(w, Apply(w, s))
  {
    var v := Apply(w, s);
    CallKeeps(w.store, CallOf(w, s));
    assert StoreAfter(w, s) == After(w.store, CallOf(w, s));
    match s {
      case Create(id, row) =>
      case Save(t, now) =>
        assert TaskInv(w, w.tasks[t]);
        SaveGrows(w, v, t, now);
      case SweepRow(t, id) =>
      case _ => assert v.store == w.store;
    }
  }

  lemma SaveGrows(w: World, v: World, t: TaskId, now: nat)
    requires Inv(w) && Enabled(w, Save(t, now)) && v == Apply(w, Save(t, now)) && TaskInv(w, w.tasks[t])
    requires Follows(w.store, v.store)
    ensures Grows(w, v)
  {
  }

  lemma StepKeeps(w: World, s: Step)
    requires Inv(w) && Enabled(w, s)
    ensures Inv(Apply(w, s))
  {
    StepGrows(w, s);
    var v := Apply(w, s);
    forall t | t in v.tasks
      ensures TaskInv(v, v.tasks[t])
    {
      if t in w.tasks {
        assert TaskInv(w, w.tasks[t]);
      }
    }
  }

  lemma {:induction false} RunKeeps(run: seq<Step>, k: nat)
    requires k <= |run| && At(run, k).Some?
    ensures Inv(At(run, k).value) && At(run, k).value.time == k
  {
    if k > 0 {
      RunKeeps(run, k - 1);
      StepKeeps(At(run, k - 1).value, run[k - 1]);
    }
  }

  lemma {:induction false} RunGrows(run: seq<Step>, i: nat, j: nat)
    requires i <= j <= |run| && At(run, j).Some?
    ensures At(run, i).Some? && Grows(At(run, i).value, At(run, j).value)
  {
    RunKeeps(run, j);
    if i < j {
      RunGrows(run, i, j - 1);
      RunKeeps(run, j - 1);
      StepGrows(At(run, j - 1).value, run[j - 1]);
    }
  }

  // ---------- The guarantees ----------

  /** A revoked gateway row never becomes unrevoked again. */
  lemma RevokedForever(run: seq<Step>, i: nat, j: nat, id: Id)
    requires i <= j <= |run| && At(run, i).Some? && At(run, j).Some?
    requires id in At(run, i).value.store.entities && At(run, i).value.store.entities[id].data.revoked
    requires id in At(run, j).value.store.entities
    ensures At(run, j).value.store.entities[id].data.revoked
  {
    RunKeeps(run, i);
    RunGrows(run, i, j);
  }

  /** A task still holds, at step `j`, the row it read at step `since`. */
  lemma {:induction false} ReadWhenAuthenticated(run: seq<Step>, j: nat, t: TaskId)
    requires j <= |run| && At(run, j).Some? && t in At(run, j).value.tasks && At(run, j).value.tasks[t].Holding?
    ensures var c := At(run, j).value.tasks[t];
            && c.since < j && At(run, c.since).Some?
            && run[c.since] == Authenticate(t, c.kind, c.id)
            && c.id in At(run, c.since).value.store.entities
            && At(run, c.since).value.store.entities[c.id] == c.entity
            && Admits(c.kind, c.entity.data)
  {
    if j > 0 {
      RunKeeps(run, j - 1);
      var w, c := At(run, j - 1).value, At(run, j).value.tasks[t];
      if t in w.tasks && w.tasks[t] == c {
        ReadWhenAuthenticated(run, j - 1, t);
      }
    }
  }

  /**
    A successful answer means that the row did not change, and was not revoked, at any moment from
    authentication up to the request's own save.
  */
  lemma AnswerMeansUnchanged(run: seq<Step>, j: nat, t: TaskId, now: nat, m: nat)
    requires j < |run| && At(run, j).Some? && run[j] == Save(t, now) && Enabled(At(run, j).value, run[j])
    requires SaveResult(At(run, j).value, t, now).Ok?
    requires At(run, j).value.tasks[t].since <= m <= j
    ensures var c := At(run, j).value.tasks[t];
            && run[c.since] == Authenticate(t, c.kind, c.id)
            && At(run, m).Some? && c.id in At(run, m).value.store.entities
            && At(run, m).value.store.entities[c.id] == c.entity
            && (!c.kind.Revoke? ==> !At(run, m).value.store.entities[c.id].data.revoked)
  {
    var c := At(run, j).value.tasks[t];
    ReadWhenAuthenticated(run, j, t);
    RunKeeps(run, j);
    assert TaskInv(At(run, j).value, c);
    RunGrows(run, m, j);
    RunGrows(run, c.since, m);
    RunKeeps(run, c.since);
  }

  /** Once a gateway is revoked, none of its own later requests is answered. */
  lemma RevokedGetsNoAnswer(run: seq<Step>, i: nat, j: nat, t: TaskId, now: nat, id: Id)
    requires i <= j < |run| && At(run, i).Some? && At(run, j).Some?
    requires id in At(run, i).value.store.entities && At(run, i).value.store.entities[id].data.revoked
    requires run[j] == Save(t, now) && Enabled(At(run, j).value, run[j])
    requires At(run, j).value.tasks[t].id == id && !At(run, j).value.tasks[t].kind.Revoke?
    ensures SaveResult(At(run, j).value, t, now).Err?
  {
    if SaveResult(At(run, j).value, t, now).Ok? {
      ReadWhenAuthenticated(run, j, t);
      AnswerMeansUnchanged(run, j, t, now, j);
      RevokedForever(run, i, j, id);
    }
  }
}
