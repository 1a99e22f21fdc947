/** Enrollment rows and the poll times written into them. */
module Enrollments {
  import opened Util

  datatype Enrollment = Enrollment(profile: nat, expiresAt: nat, nextPollAt: nat, interval: nat)

  /** What the device endpoint answers to a poll. */
  datatype DevicePoll = Pending | SlowDown | Authorized | Expired | Denied

  predicate Early(row: Enrollment, now: nat) {
    now < row.nextPollAt
  }

  /** The row that reserves a poll at `now`; an early poll also slows the client down. */
  function Reserve(row: Enrollment, now: nat): Enrollment {
    var interval := if Early(row, now) then Sat(row.interval + 5) else row.interval;
    row.(interval := interval, nextPollAt := Sat(now + interval))
  }

  /** The row after the device endpoint asked to slow down the poll reserved at `at`. */
  function Slowed(row: Enrollment, at: nat): Enrollment {
    var interval := Sat(row.interval + 5);
    row.(interval := interval, nextPollAt := Sat(at + interval))
  }
}
