/**
  The sliding-window rate limiter: a deque of recent acceptances per bucket, against the limiter
  that remembers every acceptance for ever.
*/
module RateLimiter {
  import opened Util

  /** Clock readings, in the order in which the lock is taken. */
  predicate Nondecreasing(times: seq<nat>) {
    forall i, j :: 0 <= i < j < |times| ==> times[i] <= times[j]
  }

  // ---------- The limiter with a full history ----------

  /** Acceptances within the window that ends at `now`. */
  function Recent(accepted: seq<nat>, now: nat, window: nat): seq<nat> {
    if accepted == [] then []
    else
      var rest := Recent(accepted[..|accepted| - 1], now, window);
      var at := accepted[|accepted| - 1];
      if now < at + window then rest + [at] else rest
  }

  predicate Admits(accepted: seq<nat>, now: nat, capacity: nat, window: nat) {
    |Recent(accepted, now, window)| < capacity
  }

  /** All acceptances among `calls`, by the limiter with a full history. */
  function Accepted(calls: seq<nat>, capacity: nat, window: nat): seq<nat> {
    if calls == [] then []
    else
      var before := Accepted(calls[..|calls| - 1], capacity, window);
      var now := calls[|calls| - 1];
      if Admits(before, now, capacity, window) then before + [now] else before
  }

  /** The recent acceptances are as many as the positions at which less than a window has passed since. */
  lemma {:induction false} RecentCount(accepted: seq<nat>, now: nat, window: nat)
    ensures |Recent(accepted, now, window)| == |set i | 0 <= i < |accepted| && now < accepted[i] + window|
  {
    var counting := set i | 0 <= i < |accepted| && now < accepted[i] + window;
    if accepted == [] {
      assert counting == {};
    } else {
      var n := |accepted| - 1;
      var before := accepted[..n];
      RecentCount(before, now, window);
      var earlier := set i | 0 <= i < |before| && now < before[i] + window;
      assert counting == earlier + (if now < accepted[n] + window then {n} else {});
    }
  }

  /** A call is accepted exactly when fewer than `capacity` acceptances are less than a window ago. */
  lemma AcceptedExactly(calls: seq<nat>, now: nat, capacity: nat, window: nat)
    ensures var before := Accepted(calls, capacity, window);
            Accepted(calls + [now], capacity, window) ==
            if |set i | 0 <= i < |before| && now < before[i] + window| < capacity then before + [now] else before
  {
    var before := Accepted(calls, capacity, window);
    RecentCount(before, now, window);
    assert (calls + [now])[..|calls|] == calls && (calls + [now])[|calls|] == now;
  }

  // ---------- The deque ----------

  /** Pop expired entries from the front only. */
  function Trim(entries: seq<nat>, now: nat, window: nat): seq<nat> {
    if entries != [] && entries[0] + window <= now then Trim(entries[1..], now, window) else entries
  }

  // ---------- The deque holds exactly what matters ----------

  /** `entries` is what is left of `accepted` after dropping a prefix that had expired by `seen`. */
  ghost predicate Tracks(entries: seq<nat>, accepted: seq<nat>, seen: nat, window: nat) {
    && |entries| <= |accepted| && entries == accepted[|accepted| - |entries|..]
    && (forall i :: 0 <= i < |accepted| - |entries| ==> accepted[i] + window <= seen)
  }

  lemma {:induction false} RecentOfSplit(a: seq<nat>, b: seq<nat>, now: nat, window: nat)
    ensures Recent(a + b, now, window) == Recent(a, now, window) + Recent(b, now, window)
  {
    if b == [] {
      assert a + b == a;
    } else {
      assert (a + b)[..|a + b| - 1] == a + b[..|b| - 1];
      RecentOfSplit(a, b[..|b| - 1], now, window);
    }
  }

  lemma {:induction false} RecentOfExpired(a: seq<nat>, now: nat, window: nat)
    requires forall i :: 0 <= i < |a| ==> a[i] + window <= now
    ensures Recent(a, now, window) == []
  {
    if a != [] {
      RecentOfExpired(a[..|a| - 1], now, window);
    }
  }

  lemma {:induction false} RecentOfLive(a: seq<nat>, now: nat, window: nat)
    requires forall i :: 0 <= i < |a| ==> now < a[i] + window
    ensures Recent(a, now, window) == a
  {
    if a != [] {
      RecentOfLive(a[..|a| - 1], now, window);
    }
  }

  lemma ExpiredFirst(entries: seq<nat>, now: nat, window: nat)
    requires entries != [] && entries[0] + window <= now
    ensures Recent(entries, now, window) == Recent(entries[1..], now, window)
  {
    RecentOfSplit([entries[0]], entries[1..], now, window);
    RecentOfExpired([entries[0]], now, window);
    assert [entries[0]] + entries[1..] == entries;
  }

  lemma RestIsSorted(entries: seq<nat>)
    requires Nondecreasing(entries) && entries != []
    ensures Nondecreasing(entries[1..])
  {
  }

  lemma LiveFirst(entries: seq<nat>, now: nat, window: nat)
    requires Nondecreasing(entries) && entries != [] && now < entries[0] + window
    ensures Recent(entries, now, window) == entries
  {
    forall i | 0 <= i < |entries| ensures now < entries[i] + window {
      assert entries[0] <= entries[i];
    }
    RecentOfLive(entries, now, window);
  }

  /** Trimming a sorted deque leaves exactly its recent entries. */
  lemma {:induction false} TrimIsRecent(entries: seq<nat>, now: nat, window: nat)
    requires Nondecreasing(entries)
    ensures Trim(entries, now, window) == Recent(entries, now, window)
    decreases |entries|
  {
    if entries != [] {
      if entries[0] + window <= now {
        RestIsSorted(entries);
        ExpiredFirst(entries, now, window);
        TrimIsRecent(entries[1..], now, window);
      } else {
        LiveFirst(entries, now, window);
      }
    }
  }

  /** What the deque dropped does not count. */
  lemma TrackedIsRecent(entries: seq<nat>, accepted: seq<nat>, seen: nat, now: nat, window: nat)
    requires Tracks(entries, accepted, seen, window) && seen <= now
    ensures Recent(accepted, now, window) == Recent(entries, now, window)
  {
    var dropped := accepted[..|accepted| - |entries|];
    assert accepted == dropped + entries;
    RecentOfSplit(dropped, entries, now, window);
    RecentOfExpired(dropped, now, window);
  }

  /** Dropping a longer prefix, all of it expired. */
  lemma TracksLess(entries: seq<nat>, trimmed: seq<nat>, accepted: seq<nat>, seen: nat, now: nat, window: nat)
    requires Tracks(entries, accepted, seen, window) && seen <= now && |trimmed| <= |entries|
    requires trimmed == entries[|entries| - |trimmed|..]
    requires forall i :: 0 <= i < |entries| - |trimmed| ==> entries[i] + window <= now
    ensures Tracks(trimmed, accepted, now, window)
  {
    var n := |accepted| - |entries|;
    forall i | 0 <= i < |accepted| - |trimmed|
      ensures accepted[i] + window <= now
    {
      if i >= n {
        assert accepted[i] == entries[i - n];
      }
    }
  }

  lemma TailIsSorted(accepted: seq<nat>, n: nat)
    requires Nondecreasing(accepted) && n <= |accepted|
    ensures Nondecreasing(accepted[n..])
  {
  }

  /** The deque decides as the full history does, and keeps tracking it. */
  lemma TrimTracks(entries: seq<nat>, accepted: seq<nat>, seen: nat, now: nat, window: nat)
    requires Tracks(entries, accepted, seen, window) && Nondecreasing(accepted) && seen <= now
    ensures Trim(entries, now, window) == Recent(accepted, now, window)
    ensures Tracks(Trim(entries, now, window), accepted, now, window)
  {
    TailIsSorted(accepted, |accepted| - |entries|);
    TrackedIsRecent(entries, accepted, seen, now, window);
    TrimIsRecent(entries, now, window);
    TrimIsSuffix(entries, now, window);
    TracksLess(entries, Trim(entries, now, window), accepted, seen, now, window);
  }

  lemma {:induction false} TrimIsSuffix(entries: seq<nat>, now: nat, window: nat)
    ensures |Trim(entries, now, window)| <= |entries|
    ensures Trim(entries, now, window) == entries[|entries| - |Trim(entries, now, window)|..]
    ensures forall i :: 0 <= i < |entries| - |Trim(entries, now, window)| ==> entries[i] + window <= now
    decreases |entries|
  {
    if entries != [] && entries[0] + window <= now {
      TrimIsSuffix(entries[1..], now, window);
      var rest := Trim(entries[1..], now, window);
      forall i | 0 <= i < |entries| - |rest|
        ensures entries[i] + window <= now
      {
        if i > 0 {
          assert entries[i] == entries[1..][i - 1];
        }
      }
    }
  }

  // ---------- What the full history guarantees ----------

  lemma {:induction false} AcceptedAreCalls(calls: seq<nat>, capacity: nat, window: nat)
    requires Nondecreasing(calls)
    ensures Nondecreasing(Accepted(calls, capacity, window))
    ensures forall at :: at in Accepted(calls, capacity, window) ==> calls != [] && at <= calls[|calls| - 1]
  {
    if calls != [] {
      var n := |calls| - 1;
      AcceptedAreCalls(calls[..n], capacity, window);
      var before := Accepted(calls[..n], capacity, window);
      forall i | 0 <= i < |before|
        ensures before[i] <= calls[n]
      {
        assert before[i] in before && calls[..n][n - 1] <= calls[n];
      }
    }
  }

  /** Acceptances that span less than one window number at most the capacity. */
  lemma {:induction false} BurstsAreBounded(calls: seq<nat>, capacity: nat, window: nat, i: nat, j: nat)
    requires Nondecreasing(calls) && i <= j < |Accepted(calls, capacity, window)|
    requires Accepted(calls, capacity, window)[j] < Accepted(calls, capacity, window)[i] + window
    ensures j - i + 1 <= capacity
  {
    var n := |calls| - 1;
    var before, now := Accepted(calls[..n], capacity, window), calls[n];
    if j < |before| {
      BurstsAreBounded(calls[..n], capacity, window, i, j);
    } else {
      AcceptedAreCalls(calls, capacity, window);
      var all := Accepted(calls, capacity, window);
      assert all == before + [now];
      assert forall k :: i <= k < j ==> all[k] == before[k];
      assert before == before[..i] + before[i..];
      RecentOfSplit(before[..i], before[i..], now, window);
      forall k | 0 <= k < |before[i..]|
        ensures now < before[i..][k] + window
      {
        assert before[i..][k] == all[i + k];
      }
      RecentOfLive(before[i..], now, window);
    }
  }

  /** The deque of a bucket whose calls so far were `past`. */
  ghost predicate Tracked(entries: seq<nat>, past: seq<nat>, capacity: nat, window: nat) {
    if past == [] then entries == []
    else Tracks(entries, Accepted(past, capacity, window), past[|past| - 1], window)
  }

  function DequeOf(buckets: map<string, seq<nat>>, bucket: string): seq<nat> {
    if bucket in buckets then buckets[bucket] else []
  }

  /** Every deque tracks the full history of its bucket. */
  ghost predicate AllTracked(buckets: map<string, seq<nat>>, calls: map<string, seq<nat>>,
                             capacity: string -> nat, window: string -> nat)
  {
    forall b :: BucketTracked(DequeOf(buckets, b), DequeOf(calls, b), capacity(b), window(b))
  }

  ghost predicate BucketTracked(entries: seq<nat>, past: seq<nat>, capacity: nat, window: nat) {
    Nondecreasing(past) && Tracked(entries, past, capacity, window)
  }

  /** A call on one bucket leaves the others as they are. */
  lemma OneMoreTracked(buckets: map<string, seq<nat>>, calls: map<string, seq<nat>>, capacity: string -> nat, window: string -> nat,
                       bucket: string, entries: seq<nat>, past: seq<nat>)
    requires AllTracked(buckets, calls, capacity, window)
    requires BucketTracked(entries, past, capacity(bucket), window(bucket))
    ensures AllTracked(buckets[bucket := entries], calls[bucket := past], capacity, window)
  {
    var buckets', calls' := buckets[bucket := entries], calls[bucket := past];
    forall b ensures BucketTracked(DequeOf(buckets', b), DequeOf(calls', b), capacity(b), window(b)) {
      if b != bucket {
        assert DequeOf(buckets', b) == DequeOf(buckets, b) && DequeOf(calls', b) == DequeOf(calls, b);
      }
    }
  }

  class RateLimits {
    var buckets: map<string, seq<nat>>
    ghost var calls: map<string, seq<nat>>
    const capacity: string -> nat
    const window: string -> nat

    ghost predicate Valid()
      reads this
    {
      AllTracked(buckets, calls, capacity, window)
    }

    /** The times of all calls on a bucket so far. */
    ghost function History(bucket: string): seq<nat>
      reads this
    {
      DequeOf(calls, bucket)
    }

    constructor (capacity: string -> nat, window: string -> nat)
      ensures Valid() && this.capacity == capacity && this.window == window && calls == map[]
    {
      this.capacity, this.window := capacity, window;
      buckets, calls := map[], map[];
    }

    /** Accepts exactly when the limiter with a full history would. */
    method RateLimit(bucket: string, now: nat) returns (ok: bool)
      requires Valid()
      requires Nondecreasing(History(bucket) + [now])
      modifies this
      ensures Valid()
      ensures calls == old(calls)[bucket := old(History(bucket)) + [now]]
      ensures ok <==> Admits(Accepted(old(History(bucket)), capacity(bucket), window(bucket)), now, capacity(bucket), window(bucket))
      ensures var accepted := Accepted(old(History(bucket)), capacity(bucket), window(bucket));
              ok <==> |set i | 0 <= i < |accepted| && now < accepted[i] + window(bucket)| < capacity(bucket)
    {
      ghost var past := History(bucket);
      var given := DequeOf(buckets, bucket);
      assert BucketTracked(given, past, capacity(bucket), window(bucket));
      RecentCount(Accepted(past, capacity(bucket), window(bucket)), now, window(bucket));
      var entries;
      ok, entries := Decide(given, now, capacity(bucket), window(bucket));
      StaysTracked(given, past, now, capacity(bucket), window(bucket));
      OneMoreTracked(buckets, calls, capacity, window, bucket, entries, past + [now]);
      buckets := buckets[bucket := entries];
      calls := calls[bucket := past + [now]];
    }
  }

  /** Pop what expired at the front, then accept if there is room. */
  method Decide(given: seq<nat>, now: nat, capacity: nat, window: nat) returns (ok: bool, entries: seq<nat>)
    ensures ok <==> |Trim(given, now, window)| < capacity
    ensures entries == Trim(given, now, window) + (if ok then [now] else [])
  {
    entries := given;
    while entries != [] && entries[0] + window <= now
      invariant Trim(entries, now, window) == Trim(given, now, window)
      decreases |entries|
    {
      entries := entries[1..];
    }
    ok := |entries| < capacity;
    if ok {
      entries := entries + [now];
    }
  }

  /** One call keeps the deque tracking the full history, and both decide alike. */
  lemma StaysTracked(given: seq<nat>, past: seq<nat>, now: nat, capacity: nat, window: nat)
    requires Nondecreasing(past + [now])
    requires Tracked(given, past, capacity, window)
    ensures |Trim(given, now, window)| < capacity <==> Admits(Accepted(past, capacity, window), now, capacity, window)
    ensures var trimmed := Trim(given, now, window);
            Tracked(trimmed + (if |trimmed| < capacity then [now] else []), past + [now], capacity, window)
  {
    assert forall i :: 0 <= i < |past| ==> past[i] == (past + [now])[i] <= (past + [now])[|past|];
    AcceptedAreCalls(past, capacity, window);
    var seen := if past == [] then 0 else past[|past| - 1];
    TrimTracks(given, Accepted(past, capacity, window), seen, now, window);
    assert (past + [now])[..|past|] == past && (past + [now])[|past|] == now;
    assert Accepted(past + [now], capacity, window) ==
      Accepted(past, capacity, window) + (if Admits(Accepted(past, capacity, window), now, capacity, window) then [now] else []);
    TracksBoth(Trim(given, now, window), Accepted(past, capacity, window), now, window);
  }

  lemma TracksBoth(entries: seq<nat>, accepted: seq<nat>, now: nat, window: nat)
    requires Tracks(entries, accepted, now, window)
    ensures Tracks(entries + [now], accepted + [now], now, window)
    ensures Tracks(entries + [], accepted + [], now, window)
  {
    assert entries + [] == entries && accepted + [] == accepted;
    assert (accepted + [now])[|accepted| - |entries|..] == accepted[|accepted| - |entries|..] + [now];
  }
}
