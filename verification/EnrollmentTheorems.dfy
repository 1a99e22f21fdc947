/** What enrollment guarantees over every interleaving of any number of broker processes. */
module EnrollmentTheorems {
  import opened Util
  import opened Store
  import opened Enrollments
  import opened EnrollmentProtocol
  import opened EnrollmentProofs

  // ---------- Walking along a run ----------

  lemma {:induction false} PrefixRuns(run: seq<Step>, k: nat)
    requires Exec(run).Some? && k <= |run|
    ensures Exec(run[..k]).Some?
  {
    if k == |run| {
      assert run[..k] == run;
    } else {
      PrefixRuns(run[..|run| - 1], k);
      assert run[..|run| - 1][..k] == run[..k];
    }
  }

  function WorldAt(run: seq<Step>, k: nat): World
    requires k <= |run| && Exec(run[..k]).Some?
  {
    Exec(run[..k]).value
  }

  ghost predicate Runs(run: seq<Step>) {
    forall k :: 0 <= k <= |run| ==> Exec(run[..k]).Some?
  }

  lemma EveryPrefixRuns(run: seq<Step>)
    requires Exec(run).Some?
    ensures Runs(run)
  {
    forall k | 0 <= k <= |run|
      ensures Exec(run[..k]).Some?
    {
      PrefixRuns(run, k);
    }
  }

  lemma StepAt(run: seq<Step>, k: nat)
    requires Runs(run) && k < |run|
    ensures Inv(WorldAt(run, k)) && Enabled(WorldAt(run, k), run[k])
    ensures WorldAt(run, k + 1) == Apply(WorldAt(run, k), run[k])
  {
    RunKeeps(run[..k]);
    assert run[..k + 1][..k] == run[..k];
  }

  lemma {:induction false} RunGrows(run: seq<Step>, i: nat, j: nat)
    requires Runs(run) && i <= j <= |run|
    ensures Grows(WorldAt(run, i), WorldAt(run, j))
  {
    if i == j {
      RunKeeps(run[..i]);
    } else {
      RunGrows(run, i, j - 1);
      StepAt(run, j - 1);
      StepGrows(WorldAt(run, j - 1), run[j - 1]);
    }
  }

  // ---------- One-time consumption ----------

  /** A row with the same ETag at two moments of a run was the same row all along. */
  lemma RowPinned(run: seq<Step>, i: nat, m: nat, j: nat, id: Id)
    requires Runs(run) && i <= m <= j <= |run|
    requires id in WorldAt(run, i).store.entities && id in WorldAt(run, j).store.entities
    requires WorldAt(run, i).store.entities[id].etag == WorldAt(run, j).store.entities[id].etag
    ensures id in WorldAt(run, m).store.entities
    ensures WorldAt(run, m).store.entities[id] == WorldAt(run, i).store.entities[id] == WorldAt(run, j).store.entities[id]
  {
    RunKeeps(run[..i]);
    RunGrows(run, i, m);
    RunGrows(run, m, j);
    RunGrows(run, i, j);
  }

  /** Step `j` consumes the enrollment that task `t` holds a reservation of. */
  predicate ConsumesAt(run: seq<Step>, j: nat, t: TaskId)
    requires j < |run| && Exec(run[..j]).Some?
  {
    var w := WorldAt(run, j);
    && run[j] == Settle(t) && Enabled(w, run[j]) && w.tasks[t].poll.Authorized?
    && DeleteRow(w.store, w.tasks[t].id, w.tasks[t].etag).Ok?
  }

  /**
    What is consumed is exactly what was reserved: from the reservation on, the stored row was
    the reserved one at every moment, so any other poll, slow-down, sweep or cleaning in between
    would have made the consumption fail.
  */
  lemma ConsumedRowWasReserved(run: seq<Step>, i: nat, m: nat, j: nat, t: TaskId)
    requires Runs(run) && i < m <= j < |run|
    requires run[i] == ReserveRow(t) && ConsumesAt(run, j, t)
    requires t in WorldAt(run, i + 1).tasks && WorldAt(run, i + 1).tasks[t].Reserved?
    requires var c, d := WorldAt(run, i + 1).tasks[t], WorldAt(run, j).tasks[t]; c.id == d.id && c.etag == d.etag
    ensures var d := WorldAt(run, j).tasks[t];
            d.id in WorldAt(run, m).store.entities && WorldAt(run, m).store.entities[d.id] == Entity(d.row, d.etag)
  {
    StepAt(run, i);
    StepAt(run, j);
    var w := WorldAt(run, j);
    assert TaskInv(w, t, w.tasks[t]);
    RowPinned(run, i + 1, m, j, w.tasks[t].id);
  }

  // ---------- Poll intervals ----------

  /** A step leaves a stored interval alone or adds exactly 5 seconds, up to saturation. */
  lemma IntervalStep(run: seq<Step>, k: nat, id: Id)
    requires Runs(run) && k < |run|
    requires id in WorldAt(run, k).store.entities && id in WorldAt(run, k + 1).store.entities
    ensures var was, row := WorldAt(run, k).store.entities[id].data, WorldAt(run, k + 1).store.entities[id].data;
            && (row.interval == was.interval || row.interval == Sat(was.interval + 5))
            && was.nextPollAt <= row.nextPollAt
  {
    StepAt(run, k);
    StepEvolves(WorldAt(run, k), run[k]);
  }

  /** Ids are not reused: a row seen at two moments was there in between. */
  lemma StaysStored(run: seq<Step>, i: nat, m: nat, j: nat, id: Id)
    requires Runs(run) && i <= m <= j <= |run|
    requires id in WorldAt(run, i).store.entities && id in WorldAt(run, j).store.entities
    ensures id in WorldAt(run, m).store.entities
  {
    RunKeeps(run[..i]);
    RunGrows(run, i, m);
    RunGrows(run, m, j);
  }

  lemma {:induction false} IntervalNeverFalls(run: seq<Step>, i: nat, j: nat, id: Id)
    requires Runs(run) && i <= j <= |run|
    requires id in WorldAt(run, i).store.entities && id in WorldAt(run, j).store.entities
    ensures WorldAt(run, i).store.entities[id].data.interval <= WorldAt(run, j).store.entities[id].data.interval
  {
    if i < j {
      StaysStored(run, i, j - 1, j, id);
      IntervalStep(run, j - 1, id);
      IntervalNeverFalls(run, i, j - 1, id);
      assert WorldAt(run, j - 1).store.entities[id].data.interval <= MAX_U64 by {
        RunKeeps(run[..j - 1]);
      }
    }
  }

  /** The reservation that an upstream poll spends. */
  lemma SpentReservation(log: seq<Event>, i: nat) returns (h: nat)
    requires i < |log| && log[i].Upstream? && Spends(log, i)
    ensures h < i && log[h].Reservation? && log[h].id == log[i].id && log[h].etag == log[i].etag
    ensures log[h].at == log[i].at && log[h].row.interval == log[i].interval
  {
    h :| 0 <= h < i && log[h].Reservation? && log[h].id == log[i].id && log[h].etag == log[i].etag
         && log[h].at == log[i].at && log[h].row.interval == log[i].interval;
  }

  lemma SpendingsAreSpaced(w: World, i: nat, j: nat)
    requires SpacingInv(w) && UpstreamInv(w) && i < |w.log| && j < |w.log|
    requires w.log[i].Upstream? && w.log[j].Upstream? && w.log[i].id == w.log[j].id && w.log[i].etag < w.log[j].etag
    ensures Sat(w.log[i].at + w.log[i].interval) <= w.log[j].at && w.log[i].interval <= w.log[j].interval
  {
    var h := SpentReservation(w.log, i);
    var g := SpentReservation(w.log, j);
  }

  /**
    Two upstream polls of one enrollment spend different reservations, and the later reservation
    was made no sooner than the earlier one plus the interval stored with it.
  */
  lemma PollsAreSpaced(run: seq<Step>, i: nat, j: nat)
    requires Exec(run).Some?
    requires i < |Exec(run).value.log| && j < |Exec(run).value.log| && i != j
    requires Exec(run).value.log[i].Upstream? && Exec(run).value.log[j].Upstream?
    requires Exec(run).value.log[i].id == Exec(run).value.log[j].id
    ensures var log := Exec(run).value.log;
            var p, q := log[i], log[j];
            && p.etag != q.etag && p.at <= p.calledAt && q.at <= q.calledAt
            && (p.etag < q.etag ==> Sat(p.at + p.interval) <= q.at && p.interval <= q.interval)
  {
    RunKeeps(run);
    var w := Exec(run).value;
    if w.log[i].etag < w.log[j].etag {
      SpendingsAreSpaced(w, i, j);
    }
  }

  /** Measured by the instants of the calls, spacing holds after a call made in its reservation's own second. */
  lemma PromptCallsAreSpaced(run: seq<Step>, i: nat, j: nat)
    requires Exec(run).Some?
    requires i < |Exec(run).value.log| && j < |Exec(run).value.log|
    requires Exec(run).value.log[i].Upstream? && Exec(run).value.log[j].Upstream?
    requires Exec(run).value.log[i].id == Exec(run).value.log[j].id
    requires Exec(run).value.log[i].etag < Exec(run).value.log[j].etag
    requires Exec(run).value.log[i].calledAt == Exec(run).value.log[i].at
    ensures Sat(Exec(run).value.log[i].calledAt + Exec(run).value.log[i].interval) <= Exec(run).value.log[j].calledAt
  {
    PollsAreSpaced(run, i, j);
  }
}
