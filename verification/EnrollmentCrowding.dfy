/** How soon a device poll can be followed by another one, counted from the call itself. */
module EnrollmentCrowding {
  import opened Util
  import opened Store
  import opened Enrollments
  import opened EnrollmentProtocol
  import opened EnrollmentProofs
  import opened EnrollmentTheorems

  // ---------- Calls that leave late ----------

  /** A second process polls the enrollment and waits for nothing. */
  function SecondPoll(u: TaskId, id: Id, to: nat): seq<Step> {
    [Tick(to), Fetch(u, id), ReadClock(u), ReserveRow(u), AskDevice(u, Pending)]
  }

  function AfterAll(w: World, steps: seq<Step>): Option<World>
    decreases |steps|
  {
    if steps == [] then Some(w)
    else if !Enabled(w, steps[0]) then None
    else AfterAll(Apply(w, steps[0]), steps[1..])
  }

  /** The last two entries are calls for the same enrollment less than the first one's interval apart. */
  predicate Crowded(log: seq<Event>) {
    |log| >= 3 && var p, q := log[|log| - 3], log[|log| - 1];
    && p.Upstream? && q.Upstream? && p.id == q.id
    && q.calledAt < p.calledAt + p.interval
  }

  /** An undisturbed second poll goes upstream at `to`. */
  lemma SecondPollCalls(w: World, u: TaskId, id: Id, to: nat)
    requires u !in w.tasks && id in w.store.entities && w.store.version < MAX_U64
    requires w.clock <= to <= MAX_U64 && w.store.entities[id].data.nextPollAt <= to < w.store.entities[id].data.expiresAt
    ensures var row := Reserve(w.store.entities[id].data, to);
            var after := AfterAll(w, SecondPoll(u, id, to));
            after.Some? && after.value.log == w.log + [
              Reservation(u, id, row, w.store.version + 1, to), Upstream(id, w.store.version + 1, to, row.interval, to)]
  {
    var e := w.store.entities[id];
    var steps := SecondPoll(u, id, to);
    var w2 := w.(clock := to);
    var w3 := Become(w2, u, Fetched(id, e));
    var w4 := Become(w2, u, Timed(id, e, to));
    assert Apply(w2, steps[1]) == w3;
    assert Apply(w3, steps[2]) == w4 by {
      assert w3.tasks[u := Timed(id, e, to)] == w4.tasks;
    }
    var w5 := ReserveAt(w4, u, w4.tasks[u]);
    assert Apply(w4, steps[3]) == w5 && w5.tasks[u].Reserved?;
    var w6 := Ask(w5, u, w5.tasks[u], Pending);
    assert Apply(w5, steps[4]) == w6;
    FiveSteps(w, steps, w2, w3, w4, w5, w6);
  }

  lemma FiveSteps(w1: World, s: seq<Step>, w2: World, w3: World, w4: World, w5: World, w6: World)
    requires |s| == 5
    requires Enabled(w1, s[0]) && w2 == Apply(w1, s[0])
    requires Enabled(w2, s[1]) && w3 == Apply(w2, s[1])
    requires Enabled(w3, s[2]) && w4 == Apply(w3, s[2])
    requires Enabled(w4, s[3]) && w5 == Apply(w4, s[3])
    requires Enabled(w5, s[4]) && w6 == Apply(w5, s[4])
    ensures AfterAll(w1, s) == Some(w6)
  {
    assert s[4..][1..] == [] && s[3..][1..] == s[4..] && s[2..][1..] == s[3..] && s[1..][1..] == s[2..];
    assert AfterAll(w5, s[4..]) == Some(w6);
    assert AfterAll(w4, s[3..]) == Some(w6);
    assert AfterAll(w3, s[2..]) == Some(w6);
    assert AfterAll(w2, s[1..]) == Some(w6);
  }

  lemma CrowdedByTwo(log: seq<Event>, mid: seq<Event>, log': seq<Event>, id: Id, etag: nat, at: nat, interval: nat, now: nat, to: nat)
    requires mid == log + [Upstream(id, etag, at, interval, now)]
    requires |log'| == |mid| + 2 && mid <= log'
    requires log'[|mid| + 1].Upstream? && log'[|mid| + 1].id == id && log'[|mid| + 1].calledAt == to
    ensures Crowded(log') <==> to < now + interval
  {
    assert log'[|mid| - 1] == mid[|mid| - 1];
  }

  lemma {:induction false} AfterConcat(w: World, a: seq<Step>, b: seq<Step>)
    requires AfterAll(w, a).Some?
    ensures AfterAll(w, a + b) == AfterAll(AfterAll(w, a).value, b)
    decreases |a|
  {
    if a == [] {
      assert a + b == b;
    } else {
      assert (a + b)[1..] == a[1..] + b;
      AfterConcat(Apply(w, a[0]), a[1..], b);
    }
  }

  lemma {:induction false} ExecIsAfterAll(run: seq<Step>)
    requires AfterAll(INITIAL, run).Some?
    ensures Exec(run) == AfterAll(INITIAL, run)
  {
    if run != [] {
      var n := |run| - 1;
      assert run == run[..n] + [run[n]];
      PrefixAfter(INITIAL, run[..n], [run[n]]);
      AfterConcat(INITIAL, run[..n], [run[n]]);
      ExecIsAfterAll(run[..n]);
      assert [run[n]][1..] == [];
    }
  }

  lemma {:induction false} PrefixAfter(w: World, a: seq<Step>, b: seq<Step>)
    requires AfterAll(w, a + b).Some?
    ensures AfterAll(w, a).Some?
    decreases |a|
  {
    if a != [] {
      assert (a + b)[1..] == a[1..] + b;
      PrefixAfter(Apply(w, a[0]), a[1..], b);
    }
  }

  /** An enrollment with an interval of 5 is started and, at time 5, reserved by task 1. */
  function FirstPoll(): seq<Step> {
    [Start(1, Enrollment(0, 900, 5, 5)), Tick(5), Fetch(1, 1), ReadClock(1), ReserveRow(1)]
  }

  lemma FirstPollReserves() returns (w: World)
    ensures AfterAll(INITIAL, FirstPoll()) == Some(w) && w.clock == 5
    ensures w.tasks == map[1 := Reserved(1, Enrollment(0, 900, 10, 5), 2, 5)]
    ensures w.store == Rows(map[1 := Entity(Enrollment(0, 900, 10, 5), 2)], 2)
  {
    var row := Enrollment(0, 900, 5, 5);
    var steps := FirstPoll();
    var w2 := INITIAL.(store := Rows(map[1 := Entity(row, 1)], 1), used := {1});
    assert Apply(INITIAL, steps[0]) == w2;
    var w3 := w2.(clock := 5);
    var w4 := Become(w3, 1, Fetched(1, Entity(row, 1)));
    assert Apply(w3, steps[2]) == w4;
    var w5 := Time(w4, 1, w4.tasks[1]);
    assert w5.tasks[1] == Timed(1, Entity(row, 1), 5);
    w := ReserveAt(w5, 1, w5.tasks[1]);
    FiveSteps(INITIAL, steps, w2, w3, w4, w5, w);
  }

  /** A run, with nothing concurrent in it, whose two calls are 3 seconds apart at an interval of 5. */
  lemma CrowdedRunExists() returns (run: seq<Step>)
    ensures Exec(run).Some? && Crowded(Exec(run).value.log)
  {
    var w := FirstPollReserves();
    var late := [Tick(7), AskDevice(1, Pending)];
    var w7 := w.(clock := 7);
    var w8 := Ask(w7, 1, w7.tasks[1], Pending);
    assert AfterAll(w, late) == Some(w8) by {
      assert late[1..][1..] == [];
      assert AfterAll(w7, late[1..]) == Some(w8);
    }
    AfterConcat(INITIAL, FirstPoll(), late);
    SecondPollCalls(w8, 2, 1, 10);
    AfterConcat(INITIAL, FirstPoll() + late, SecondPoll(2, 1, 10));
    run := FirstPoll() + late + SecondPoll(2, 1, 10);
    ExecIsAfterAll(run);
    CrowdedByTwo(w7.log, w8.log, Exec(run).value.log, 1, 2, 5, 5, 7, 10);
  }

  // ---------- When a call can be followed too soon ----------

  function Max(a: nat, b: nat): nat {
    if a < b then b else a
  }

  predicate Calling(w: World, t: TaskId) {
    t in w.tasks && w.tasks[t].Reserved?
  }

  /** Another poll of the enrollment has its own reservation and may call at any moment. */
  ghost predicate OtherReserved(w: World, t: TaskId, id: Id) {
    exists u :: u in w.tasks && u != t && w.tasks[u].Reserved? && w.tasks[u].id == id
  }

  /** A poll that read the stored row, and the clock, in time for a reservation. */
  predicate ReadInTime(w: World, u: TaskId, id: Id) {
    && u in w.tasks && w.tasks[u].Timed? && w.tasks[u].id == id && id in w.store.entities
    && w.tasks[u].entity == w.store.entities[id]
    && w.store.entities[id].data.nextPollAt <= w.tasks[u].at
  }

  /** The store still takes a reservation of the enrollment before `deadline`, and some poll is in time for it. */
  ghost predicate NewReservation(w: World, id: Id, deadline: nat) {
    && id in w.store.entities && w.store.version < MAX_U64
    && var row := w.store.entities[id].data;
       && Max(w.clock, row.nextPollAt) < deadline
       && (Max(w.clock, row.nextPollAt) < row.expiresAt || exists u :: ReadInTime(w, u, id))
  }

  /** What decides whether the call about to leave can be followed too soon. */
  ghost predicate CanCrowd(w: World, t: TaskId)
    requires Calling(w, t)
  {
    var c := w.tasks[t];
    && c.row.interval > 0
    && (OtherReserved(w, t, c.id) || NewReservation(w, c.id, w.clock + c.row.interval))
  }

  /** After these steps some later entry is a call for the enrollment before `deadline`. */
  ghost predicate TooSoon(v: World, steps: seq<Step>, j: nat, id: Id, deadline: nat) {
    && AfterAll(v, steps).Some?
    && var log := AfterAll(v, steps).value.log;
       |v.log| <= j < |log| && log[j].Upstream? && log[j].id == id && log[j].calledAt < deadline
  }

  /** Some continuation, of any length and by any processes, has another call before `deadline`. */
  ghost predicate FollowedTooSoon(v: World, id: Id, deadline: nat) {
    exists steps, j :: TooSoon(v, steps, j, id, deadline)
  }

  // ---------- It can: three continuations ----------

  lemma FreshTask(tasks: map<TaskId, Task>) returns (u: TaskId)
    ensures u !in tasks
  {
    u := FreshAbove(tasks.Keys);
  }

  lemma {:induction false} FreshAbove(ids: set<TaskId>) returns (u: TaskId)
    ensures forall i :: i in ids ==> i < u
  {
    if ids == {} {
      u := 0;
    } else {
      var i :| i in ids;
      var rest := FreshAbove(ids - {i});
      u := Max(i + 1, rest);
      assert forall k :: k in ids ==> k == i || k in ids - {i};
    }
  }

  lemma OtherCalls(v: World, u: TaskId, id: Id, deadline: nat)
    requires u in v.tasks && v.tasks[u].Reserved? && v.tasks[u].id == id && v.clock < deadline
    ensures TooSoon(v, [AskDevice(u, Pending)], |v.log|, id, deadline)
  {
    var steps := [AskDevice(u, Pending)];
    assert steps[1..] == [];
    assert AfterAll(v, steps) == AfterAll(Apply(v, steps[0]), []);
  }

  lemma LateReader(v: World, u: TaskId, id: Id, deadline: nat)
    requires ReadInTime(v, u, id) && v.store.version < MAX_U64 && v.clock < deadline
    ensures TooSoon(v, [ReserveRow(u), AskDevice(u, Pending)], |v.log| + 1, id, deadline)
  {
    var steps := [ReserveRow(u), AskDevice(u, Pending)];
    var w2 := ReserveAt(v, u, v.tasks[u]);
    assert w2.tasks[u].Reserved? && w2.tasks[u].id == id && w2.clock == v.clock;
    OtherCalls(w2, u, id, deadline);
    assert steps[1..] == [AskDevice(u, Pending)];
    assert AfterAll(v, steps) == AfterAll(w2, [AskDevice(u, Pending)]);
  }

  lemma FreshPoll(v: World, id: Id, deadline: nat) returns (u: TaskId)
    requires StoreInv(v) && id in v.store.entities && v.store.version < MAX_U64
    requires Max(v.clock, v.store.entities[id].data.nextPollAt) < deadline
    requires Max(v.clock, v.store.entities[id].data.nextPollAt) < v.store.entities[id].data.expiresAt
    ensures TooSoon(v, SecondPoll(u, id, Max(v.clock, v.store.entities[id].data.nextPollAt)), |v.log| + 1, id, deadline)
  {
    u := FreshTask(v.tasks);
    SecondPollCalls(v, u, id, Max(v.clock, v.store.entities[id].data.nextPollAt));
  }

  lemma CrowdingHappens(w: World, t: TaskId, poll: DevicePoll) returns (steps: seq<Step>, j: nat)
    requires Inv(w) && Calling(w, t) && CanCrowd(w, t)
    ensures TooSoon(Ask(w, t, w.tasks[t], poll), steps, j, w.tasks[t].id, w.clock + w.tasks[t].row.interval)
  {
    var c := w.tasks[t];
    var v, deadline := Ask(w, t, c, poll), w.clock + c.row.interval;
    if OtherReserved(w, t, c.id) {
      var u :| u in w.tasks && u != t && w.tasks[u].Reserved? && w.tasks[u].id == c.id;
      OtherCalls(v, u, c.id, deadline);
      steps, j := [AskDevice(u, Pending)], |v.log|;
    } else {
      var row := w.store.entities[c.id].data;
      if Max(w.clock, row.nextPollAt) < row.expiresAt {
        var u := FreshPoll(v, c.id, deadline);
        steps, j := SecondPoll(u, c.id, Max(v.clock, row.nextPollAt)), |v.log| + 1;
      } else {
        var u :| ReadInTime(w, u, c.id);
        assert ReadInTime(v, u, c.id);
        LateReader(v, u, c.id, deadline);
        steps, j := [ReserveRow(u), AskDevice(u, Pending)], |v.log| + 1;
      }
    }
  }

  // ---------- Only then ----------

  /** A reservation made at `at`, after `w`, is one the condition foresees. */
  ghost predicate Foreseen(w: World, id: Id, at: nat) {
    && id in w.store.entities && w.store.version < MAX_U64 && w.store.entities[id].data.nextPollAt <= at
    && (w.clock <= at < w.store.entities[id].data.expiresAt || exists u :: ReadInTime(w, u, id) && w.tasks[u].at == at)
  }

  /** How a task of a later world `z` that may still call for the enrollment came to be. */
  ghost predicate Descends(w: World, t: TaskId, id: Id, u: TaskId, task: Task) {
    match task
    case Timed(i, e, at) => i == id ==> (u in w.tasks && w.tasks[u] == task) || w.clock <= at < e.data.expiresAt
    case Reserved(i, _, _, at) => i == id ==> (u != t && u in w.tasks && w.tasks[u] == task) || Foreseen(w, id, at)
    case _ => true
  }

  /** A call for the enrollment at `calledAt`, after `w`. */
  ghost predicate Accounted(w: World, t: TaskId, id: Id, calledAt: nat) {
    w.clock <= calledAt && (OtherReserved(w, t, id) || exists at: nat :: Foreseen(w, id, at) && at <= calledAt)
  }

  /** What the later world `z` owes to `w`, from which `n` log entries stem. */
  ghost predicate Traced(w: World, t: TaskId, id: Id, n: nat, z: World) {
    && Grows(w, z) && n <= |z.log|
    && (id in z.store.entities ==>
          && id in w.store.entities
          && z.store.entities[id].data.expiresAt == w.store.entities[id].data.expiresAt
          && w.store.entities[id].data.nextPollAt <= z.store.entities[id].data.nextPollAt)
    && (forall u :: u in z.tasks ==> Descends(w, t, id, u, z.tasks[u]))
    && (forall j :: n <= j < |z.log| && z.log[j].Upstream? && z.log[j].id == id ==> Accounted(w, t, id, z.log[j].calledAt))
  }

  lemma CallIsTraced(w: World, t: TaskId, poll: DevicePoll)
    requires Inv(w) && Calling(w, t)
    ensures Traced(w, t, w.tasks[t].id, |w.log| + 1, Ask(w, t, w.tasks[t], poll))
  {
    StepGrows(w, AskDevice(t, poll));
  }

  /** An enrollment's expiry never changes. */
  lemma ExpiryStays(z: World, s: Step, id: Id)
    requires Inv(z) && Enabled(z, s) && id in z.store.entities && id in Apply(z, s).store.entities
    ensures Apply(z, s).store.entities[id].data.expiresAt == z.store.entities[id].data.expiresAt
  {
    if Mover(s).Some? && Mover(s).value in z.tasks {
      assert TaskInv(z, Mover(s).value, z.tasks[Mover(s).value]);
    }
  }

  lemma RowTraced(w: World, t: TaskId, id: Id, n: nat, z: World, s: Step)
    requires StoreInv(w) && Inv(z) && Enabled(z, s) && Traced(w, t, id, n, z) && id in w.used
    ensures var v := Apply(z, s);
            && Grows(w, v)
            && (id in v.store.entities ==>
                  && id in z.store.entities && id in w.store.entities
                  && v.store.entities[id].data.expiresAt == w.store.entities[id].data.expiresAt
                  && w.store.entities[id].data.nextPollAt <= v.store.entities[id].data.nextPollAt)
  {
    var v := Apply(z, s);
    StepGrows(z, s);
    StepEvolves(z, s);
    GrowsOn(w, z, v);
    if id in v.store.entities && id in z.store.entities {
      ExpiryStays(z, s, id);
    }
  }

  lemma GrowsOn(w: World, z: World, v: World)
    requires Grows(w, z) && Grows(z, v)
    ensures Grows(w, v)
  {
  }

  /** A successful reservation after `w` is foreseen. */
  lemma ReservationForeseen(w: World, t: TaskId, id: Id, n: nat, z: World, u: TaskId)
    requires Inv(w) && Inv(z) && Traced(w, t, id, n, z)
    requires u in z.tasks && z.tasks[u].Timed? && z.tasks[u].id == id
    requires u in ReserveAt(z, u, z.tasks[u]).tasks
    ensures Foreseen(w, id, z.tasks[u].at)
  {
    var c := z.tasks[u];
    assert TaskInv(z, u, c);
    assert id in z.store.entities && z.store.entities[id] == c.entity && z.store.version < MAX_U64;
    assert Descends(w, t, id, u, c);
    if u in w.tasks && w.tasks[u] == c {
      assert TaskInv(w, u, c);
      assert w.store.entities[id] == c.entity;
      assert ReadInTime(w, u, id);
    }
  }

  lemma MoverTraced(w: World, t: TaskId, id: Id, n: nat, z: World, s: Step, u: TaskId)
    requires Inv(w) && Inv(z) && Enabled(z, s) && Traced(w, t, id, n, z) && Mover(s) == Some(u)
    requires u in Apply(z, s).tasks
    ensures Descends(w, t, id, u, Apply(z, s).tasks[u])
  {
    match s {
      case ReserveRow(_) =>
        if z.tasks[u].id == id {
          ReservationForeseen(w, t, id, n, z, u);
        }
      case _ =>
    }
  }

  /** The entry a step adds, if it is a call for the enrollment, is accounted for. */
  lemma CallAccounted(w: World, t: TaskId, id: Id, n: nat, z: World, u: TaskId, poll: DevicePoll)
    requires Inv(z) && Traced(w, t, id, n, z) && u in z.tasks && z.tasks[u].Reserved? && z.tasks[u].id == id
    ensures Accounted(w, t, id, z.clock)
  {
    assert TaskInv(z, u, z.tasks[u]);
    assert Descends(w, t, id, u, z.tasks[u]);
  }

  lemma TasksTraced(w: World, t: TaskId, id: Id, n: nat, z: World, s: Step)
    requires Inv(w) && Inv(z) && Enabled(z, s) && Traced(w, t, id, n, z)
    ensures forall u :: u in Apply(z, s).tasks ==> Descends(w, t, id, u, Apply(z, s).tasks[u])
  {
    var v := Apply(z, s);
    StepAdds(z, s);
    forall u | u in v.tasks ensures Descends(w, t, id, u, v.tasks[u]) {
      if Mover(s) == Some(u) {
        MoverTraced(w, t, id, n, z, s, u);
      } else {
        assert Descends(w, t, id, u, z.tasks[u]);
      }
    }
  }

  lemma CallsTraced(w: World, t: TaskId, id: Id, n: nat, z: World, s: Step, j: nat)
    requires Inv(z) && Enabled(z, s) && Traced(w, t, id, n, z)
    requires n <= j < |Apply(z, s).log| && Apply(z, s).log[j].Upstream? && Apply(z, s).log[j].id == id
    ensures Accounted(w, t, id, Apply(z, s).log[j].calledAt)
  {
    StepLogs(z, s);
    StepGrows(z, s);
    if j < |z.log| {
      assert Apply(z, s).log[j] == z.log[j];
    } else {
      CallAccounted(w, t, id, n, z, s.t, s.poll);
    }
  }

  lemma StepTraced(w: World, t: TaskId, id: Id, n: nat, z: World, s: Step)
    requires Inv(w) && Inv(z) && Enabled(z, s) && Traced(w, t, id, n, z) && id in w.used
    ensures Traced(w, t, id, n, Apply(z, s))
  {
    RowTraced(w, t, id, n, z, s);
    TasksTraced(w, t, id, n, z, s);
    var v := Apply(z, s);
    StepGrows(z, s);
    forall j | n <= j < |v.log| && v.log[j].Upstream? && v.log[j].id == id
      ensures Accounted(w, t, id, v.log[j].calledAt)
    {
      CallsTraced(w, t, id, n, z, s, j);
    }
  }

  lemma {:induction false} StepsTraced(w: World, t: TaskId, id: Id, n: nat, z: World, steps: seq<Step>)
    requires Inv(w) && Inv(z) && Traced(w, t, id, n, z) && id in w.used && AfterAll(z, steps).Some?
    ensures Traced(w, t, id, n, AfterAll(z, steps).value)
    decreases |steps|
  {
    if steps != [] {
      StepTraced(w, t, id, n, z, steps[0]);
      InvKept(z, steps[0]);
      StepsTraced(w, t, id, n, Apply(z, steps[0]), steps[1..]);
    }
  }

  lemma CrowdingIsForeseen(w: World, t: TaskId, poll: DevicePoll, steps: seq<Step>, j: nat)
    requires Inv(w) && Calling(w, t)
    requires TooSoon(Ask(w, t, w.tasks[t], poll), steps, j, w.tasks[t].id, w.clock + w.tasks[t].row.interval)
    ensures CanCrowd(w, t)
  {
    var c := w.tasks[t];
    assert TaskInv(w, t, c);
    CallIsTraced(w, t, poll);
    InvKept(w, AskDevice(t, poll));
    StepsTraced(w, t, c.id, |w.log| + 1, Ask(w, t, c, poll), steps);
  }

  /**
    The exact condition, over every continuation by any number of processes: the call about to leave
    can be followed by another call for its enrollment in less than its own interval if and only if
    another poll holds a reservation already, or the store still takes one in time.
  */
  lemma CallCanBeCrowdedExactly(w: World, t: TaskId, poll: DevicePoll)
    requires Inv(w) && Calling(w, t)
    ensures var c := w.tasks[t];
            CanCrowd(w, t) <==> FollowedTooSoon(Ask(w, t, c, poll), c.id, w.clock + c.row.interval)
  {
    var c := w.tasks[t];
    var v, deadline := Ask(w, t, c, poll), w.clock + c.row.interval;
    if CanCrowd(w, t) {
      var steps, j := CrowdingHappens(w, t, poll);
      assert TooSoon(v, steps, j, c.id, deadline);
    }
    if FollowedTooSoon(v, c.id, deadline) {
      var steps, j :| TooSoon(v, steps, j, c.id, deadline);
      CrowdingIsForeseen(w, t, poll, steps, j);
    }
  }

  /** When the reservation is the stored row and no other poll holds one, being late is what decides. */
  lemma LateCallsCanBeCrowded(w: World, t: TaskId)
    requires Inv(w) && Calling(w, t) && w.tasks[t].row.interval > 0 && !OtherReserved(w, t, w.tasks[t].id)
    requires w.tasks[t].id in w.store.entities && w.store.version < MAX_U64
    requires w.store.entities[w.tasks[t].id] == Entity(w.tasks[t].row, w.tasks[t].etag)
    requires Max(w.clock, w.tasks[t].row.nextPollAt) < w.tasks[t].row.expiresAt
    requires w.tasks[t].at + w.tasks[t].row.interval <= MAX_U64
    ensures CanCrowd(w, t) <==> w.clock > w.tasks[t].at
  {
    assert TaskInv(w, t, w.tasks[t]);
  }
}
