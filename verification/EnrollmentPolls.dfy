/** A poll that nothing disturbs: the protocol's steps in a row do what the handler does under the lock. */
module EnrollmentPolls {
  import opened Util
  import opened Store
  import opened Enrollments
  import opened EnrollmentProtocol

  function Then(w: World, s: Step): World {
    if Enabled(w, s) then Apply(w, s) else w
  }

  /** The row is read, and then the clock. */
  function Read(w: World, t: TaskId, id: Id): World {
    Then(Then(w, Fetch(t, id)), ReadClock(t))
  }

  /** The device endpoint answers and the reply is settled. */
  function Asked(w: World, t: TaskId, poll: DevicePoll): World {
    Then(Then(w, AskDevice(t, poll)), Settle(t))
  }

  /** An expired enrollment is deleted without a call. */
  lemma LoneExpiry(w: World, t: TaskId, id: Id)
    requires t !in w.tasks && id in w.store.entities && w.store.entities[id].data.expiresAt <= w.clock
    ensures var v := Then(Read(w, t, id), SweepRow(t, id));
            v.store == Rows(w.store.entities - {id}, w.store.version) && v.log == w.log
  {
  }

  /** An early poll raises the interval and ends without a call. */
  lemma LoneEarlyPoll(w: World, t: TaskId, id: Id)
    requires t !in w.tasks && id in w.store.entities && w.store.version < MAX_U64
    requires w.clock < w.store.entities[id].data.expiresAt && w.clock < w.store.entities[id].data.nextPollAt
    ensures var row, next := w.store.entities[id].data, w.store.version + 1;
            var longer := Sat(row.interval + 5);
            var v := Then(Read(w, t, id), ReserveRow(t));
            && t !in v.tasks && v.log == w.log && v.store.version == next
            && v.store.entities ==
                 w.store.entities[id := Entity(row.(interval := longer, nextPollAt := Sat(w.clock + longer)), next)]
  {
  }

  /** A prompt poll reserves the row. */
  lemma LoneReservation(w: World, t: TaskId, id: Id)
    requires t !in w.tasks && id in w.store.entities && w.store.version < MAX_U64
    requires w.clock < w.store.entities[id].data.expiresAt && w.store.entities[id].data.nextPollAt <= w.clock
    ensures var row, next, now := w.store.entities[id].data, w.store.version + 1, w.clock;
            var kept := row.(nextPollAt := Sat(now + row.interval));
            var v := Then(Read(w, t, id), ReserveRow(t));
            && v.clock == now && t in v.tasks && v.tasks[t] == Reserved(id, kept, next, now)
            && v.store == Rows(w.store.entities[id := Entity(kept, next)], next)
            && v.log == w.log + [Reservation(t, id, kept, next, now)]
  {
  }

  /** What each reply does to a reservation that is still the stored row. */
  lemma LoneSettlement(w: World, t: TaskId, poll: DevicePoll)
    requires t in w.tasks && w.tasks[t].Reserved? && w.store.version < MAX_U64
    requires var c := w.tasks[t]; c.id in w.store.entities && w.store.entities[c.id] == Entity(c.row, c.etag)
    ensures var c, v := w.tasks[t], Asked(w, t, poll);
            var longer := Sat(c.row.interval + 5);
            var slowed := c.row.(interval := longer, nextPollAt := Sat(c.at + longer));
            var asked := w.log + [Upstream(c.id, c.etag, c.at, c.row.interval, w.clock)];
            && v.clock == w.clock
            && match poll
               case Pending => t !in v.tasks && v.store == w.store && v.log == asked
               case SlowDown =>
                 && t !in v.tasks && v.log == asked
                 && v.store.entities == w.store.entities[c.id := Entity(slowed, w.store.version + 1)]
               case Expired => t !in v.tasks && v.log == asked && v.store.entities == w.store.entities - {c.id}
               case Denied => t !in v.tasks && v.log == asked && v.store.entities == w.store.entities - {c.id}
               case Authorized =>
                 && t in v.tasks && v.tasks[t] == Consumed(c.id, c.row, c.etag)
                 && v.store.entities == w.store.entities - {c.id}
                 && v.log == asked + [Consumption(t, c.id, c.row, c.etag)]
  {
  }

  /** A consumed enrollment is redeemed unless it expired meanwhile. */
  lemma LoneMint(w: World, t: TaskId, later: nat)
    requires t in w.tasks && w.tasks[t].Consumed? && w.clock <= later <= MAX_U64
    ensures var c, v := w.tasks[t], Then(Then(Then(w, Tick(later)), CheckExpiry(t)), MintGateway(t));
            && t !in v.tasks && v.store == w.store
            && v.log == w.log + (if c.row.expiresAt <= later then [] else [Mint(t, c.id, c.row, c.etag, later)])
  {
  }
}
