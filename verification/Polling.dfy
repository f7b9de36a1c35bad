/** When a catalog is polled again, in the int64 nanoseconds of Go's time.Duration. */
module Polling {
  import opened Prelude

  const MINUTE: int := 60 * SECOND
  const MIN_INT64: int := -0x8000_0000_0000_0000
  const MAX_INT64: int := 0x7FFF_FFFF_FFFF_FFFF

  /** The longest interval, in minutes, whose jittered duration always fits. */
  const LONGEST_INTERVAL: int := 152_200_858

  /** int64 arithmetic wraps around. */
  function Wrap(x: int): (r: int)
    ensures MIN_INT64 <= r <= MAX_INT64
    ensures MIN_INT64 <= x <= MAX_INT64 ==> r == x
    ensures (r - x) % 0x1_0000_0000_0000_0000 == 0
  {
    (x - MIN_INT64) % 0x1_0000_0000_0000_0000 + MIN_INT64
  }

  /** The nearest int64, as time.Time.Sub gives it. */
  function Saturate(x: int): (r: int)
    ensures MIN_INT64 <= r <= MAX_INT64
    ensures forall y :: MIN_INT64 <= y <= MAX_INT64 ==> Distance(x, r) <= Distance(x, y)
  {
    if x < MIN_INT64 then MIN_INT64 else if x > MAX_INT64 then MAX_INT64 else x
  }

  function Distance(x: int, y: int): nat { if x <= y then y - x else x - y }

  /** time.Duration(minutes) * time.Minute */
  function PollDuration(minutes: int): int { Wrap(minutes * MINUTE) }

  /** needsPoll for a catalog that is polled every `minutes` minutes. */
  predicate NeedsPoll(lastPoll: Time, minutes: int, now: Time) {
    lastPoll + PollDuration(minutes) < now
  }

  /** wait.Jitter adds a random share of at most one percent of the duration. */
  ghost predicate IsJitter(minutes: int, extra: int) {
    0 <= extra && 100 * extra <= PollDuration(minutes)
  }

  /** An interval that cannot overflow, with a jitter for it. */
  ghost predicate IsSafe(minutes: int, extra: int) {
    1 <= minutes <= LONGEST_INTERVAL && IsJitter(minutes, extra)
  }

  /** nextPollResult: the delay until the next reconcile; zero or less means there is none. */
  function RequeueAfter(lastPoll: Time, interval: Option<int>, extra: int, now: Time): int {
    match interval
    case None => 0
    case Some(minutes) => Saturate(lastPoll + Wrap(PollDuration(minutes) + extra) - now)
  }

  /**
   For every interval up to the longest, nothing overflows: a poll is due exactly when the
   interval has passed.
   */
  lemma NoOverflow(minutes: int, extra: int)
    requires 1 <= minutes <= LONGEST_INTERVAL && IsJitter(minutes, extra)
    ensures PollDuration(minutes) == minutes * MINUTE
    ensures Wrap(PollDuration(minutes) + extra) == minutes * MINUTE + extra
    ensures forall lastPoll, now :: NeedsPoll(lastPoll, minutes, now) <==> now - lastPoll > minutes * 60_000_000_000
  {
    assert minutes * MINUTE <= LONGEST_INTERVAL * MINUTE;
  }

  /** The duration and its sum with the jitter are what they would be without wrap-around. */
  ghost predicate Unwrapped(minutes: int, extra: int) {
    PollDuration(minutes) == minutes * MINUTE && Wrap(PollDuration(minutes) + extra) == minutes * MINUTE + extra
  }

  /** Of all intervals, exactly those up to the longest are safe from overflow whatever the jitter. */
  lemma LongestIntervalIsExact(minutes: int)
    requires 1 <= minutes <= MAX_INT64
    ensures minutes <= LONGEST_INTERVAL <==>
            forall extra :: 0 <= extra && 100 * extra <= minutes * MINUTE ==> Unwrapped(minutes, extra)
  {
    var largest := minutes * MINUTE / 100;
    assert Unwrapped(minutes, largest) ==> minutes * MINUTE + largest <= MAX_INT64;
    if minutes > LONGEST_INTERVAL {
      assert minutes * MINUTE >= (LONGEST_INTERVAL + 1) * MINUTE;
      assert !Unwrapped(minutes, largest);
    } else {
      assert minutes * MINUTE <= LONGEST_INTERVAL * MINUTE;
    }
  }

  /**
   A reconcile that asks for the next poll in time is called back after a positive delay of at
   most the interval and one percent, and any reconcile after that delay polls. Asked at or
   after the jittered deadline, there is no call back.
   */
  lemma PollingKeepsGoing(lastPoll: Time, minutes: int, extra: int, now: Time, later: Time)
    requires 1 <= minutes <= LONGEST_INTERVAL && IsJitter(minutes, extra) && lastPoll <= now
    ensures var delay := RequeueAfter(lastPoll, Some(minutes), extra, now);
      && (delay > 0 <==> now < lastPoll + minutes * MINUTE + extra)
      && 100 * delay <= 101 * minutes * MINUTE
      && (delay > 0 && later > now + delay ==> NeedsPoll(lastPoll, minutes, later))
  {
    NoOverflow(minutes, extra);
  }
}
