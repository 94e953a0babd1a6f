/** Durations in milliseconds, and the host timer that wakes the guest. Instants are whole nanoseconds. */
module Time {
  import opened Wrappers
  import opened Words

  const NANOS_PER_MILLI: nat := 1_000_000
  const NANOS_PER_SEC: nat := 1_000_000_000
  const MILLIS_PER_SEC: nat := 1_000
  const U64_MAX: nat := U64_LIMIT - 1

  datatype Round = Up | Down

  function Saturating(x: nat): nat
  {
    if x > U64_MAX then U64_MAX else x
  }

  /** Milliseconds of a duration given in nanoseconds, rounded and saturating. */
  function Ms(duration: nat, round: Round): nat
  {
    var subsecNanos := duration % NANOS_PER_SEC;
    var millis := match round
      case Up => (subsecNanos + NANOS_PER_MILLI - 1) / NANOS_PER_MILLI
      case Down => subsecNanos / NANOS_PER_MILLI;
    Saturating(Saturating(duration / NANOS_PER_SEC * MILLIS_PER_SEC) + millis)
  }

  /** Rounding up gives the least number of milliseconds that covers the duration, if 64 bits can hold it. */
  lemma MsUp(duration: nat)
    ensures var m := Ms(duration, Up);
      && m <= 0xFFFF_FFFF_FFFF_FFFF
      && (duration <= 0xFFFF_FFFF_FFFF_FFFF * 1_000_000 ==> duration <= m * 1_000_000 < duration + 1_000_000)
      && (duration > 0xFFFF_FFFF_FFFF_FFFF * 1_000_000 ==> m == 0xFFFF_FFFF_FFFF_FFFF)
  {
    var s, n := duration / NANOS_PER_SEC, duration % NANOS_PER_SEC;
    assert duration == s * NANOS_PER_SEC + n;
  }

  /** Rounding down gives the greatest number of whole milliseconds in the duration, if 64 bits can hold it. */
  lemma MsDown(duration: nat)
    ensures var m := Ms(duration, Down);
      && m <= 0xFFFF_FFFF_FFFF_FFFF
      && (duration < 0x1_0000_0000_0000_0000 * 1_000_000 ==> m * 1_000_000 <= duration < (m + 1) * 1_000_000)
      && (duration >= 0x1_0000_0000_0000_0000 * 1_000_000 ==> m == 0xFFFF_FFFF_FFFF_FFFF)
  {
    var s, n := duration / NANOS_PER_SEC, duration % NANOS_PER_SEC;
    assert duration == s * NANOS_PER_SEC + n;
  }

  /** Whole milliseconds survive both roundings. */
  lemma MsExact(m: nat)
    requires m <= U64_MAX
    ensures Ms(m * NANOS_PER_MILLI, Up) == m == Ms(m * NANOS_PER_MILLI, Down)
  {
    MsUp(m * NANOS_PER_MILLI);
    MsDown(m * NANOS_PER_MILLI);
  }

  /**
    A pending sleep: its deadline, when it was registered, the milliseconds the host was asked to wait then, if it was
    asked at all, and the id of the host's timer.
   */
  datatype Sleep = Sleep(deadline: int, registered: int, millis: Option<nat>, id: nat)

  /** The whole milliseconds up to a deadline, truncated and cast to 64 bits; none when it has passed. */
  function MillisUntil(registered: int, deadline: int): Option<nat>
  {
    if registered <= deadline then Some((deadline - registered) / NANOS_PER_MILLI % U64_LIMIT) else None
  }

  /** The host is asked exactly when the deadline has not passed, and to wait less than a millisecond short of it. */
  ghost predicate Timed(s: Sleep)
  {
    && (s.millis.Some? <==> s.registered <= s.deadline)
    && (s.millis.Some? ==> s.deadline - 1_000_000 < Alarm(s) <= s.deadline)
  }

  /** The instant the host was asked to wait for. */
  function Alarm(s: Sleep): int
    requires s.millis.Some?
  {
    s.registered + s.millis.value * NANOS_PER_MILLI
  }

  lemma MillisUntilBounds(registered: int, deadline: int)
    ensures var millis := MillisUntil(registered, deadline);
      && (millis.Some? <==> registered <= deadline)
      && (millis.Some? && deadline - registered < 0x1_0000_0000_0000_0000 * 1_000_000 ==>
        registered + millis.value * 1_000_000 <= deadline < registered + (millis.value + 1) * 1_000_000)
  {}

  /** What the sleep's future being ready says about the time: the host waits at least as long as it was asked to. */
  ghost predicate FutureReady(s: Sleep, now: int)
  {
    if s.millis.Some? then Alarm(s) <= now else s.registered <= now
  }

  /** `is_elapsed`. */
  predicate IsElapsed(s: Sleep, now: int)
  {
    s.deadline < now
  }

  /** A sleep that has elapsed, or whose future is ready, is over less than a millisecond early. */
  lemma SleepIsNearlyOver(s: Sleep, now: int)
    requires Timed(s) && (IsElapsed(s, now) || FutureReady(s, now))
    ensures s.deadline < now + 1_000_000
  {}

  /** The timers may all be over by the instant. */
  predicate MayFire(sleeps: set<Sleep>, now: int, nextId: nat)
  {
    forall s :: s in sleeps ==> s.millis.Some? && Alarm(s) <= now && s.id < nextId
  }

  lemma StillMayFire(a: set<Sleep>, b: set<Sleep>, before: int, now: int, nextId: nat)
    requires before <= now && MayFire(a, before, nextId) && MayFire(b, now, nextId)
    ensures MayFire(a + b, now, nextId)
  {}

  /** The clock and the host's timers, as the guest meets them: time only moves forward. */
  class Clock {
    var now: int
    // the sleeps whose timers the host has said are over, and the next timer's id
    var fired: set<Sleep>
    var nextId: nat

    /** The host waits at least as long as it was asked to. */
    ghost predicate Valid()
      reads this
    {
      MayFire(fired, now, nextId)
    }

    constructor (now: int)
      ensures Valid() && this.now == now && fired == {}
    {
      this.now, fired, nextId := now, {}, 0;
    }

    /** `Instant::now`. In the meantime timers may have fired. */
    method Read() returns (t: int)
      requires Valid()
      modifies this`now, this`fired
      ensures Valid() && old(now) <= now == t && old(fired) <= fired
    {
      t :| now <= t;
      now := t;
      assert MayFire({}, t, nextId);
      var over :| MayFire(over, t, nextId);
      StillMayFire(fired, over, old(now), t, nextId);
      fired := fired + over;
    }

    /** `sleep_until`: registers a timer with the host, unless the deadline has passed. */
    method SleepUntil(deadline: int) returns (s: Sleep)
      requires Valid()
      modifies this
      ensures Valid() && old(now) <= now && s.deadline == deadline && s.registered == now
      ensures old(fired) <= fired && s !in fired
      ensures s.millis.Some? <==> now <= deadline
      ensures s.millis.Some? && deadline - now < 0x1_0000_0000_0000_0000 * 1_000_000 ==>
        now + s.millis.value * 1_000_000 <= deadline < now + (s.millis.value + 1) * 1_000_000
    {
      var t := Read();
      MillisUntilBounds(t, deadline);
      s := Sleep(deadline, t, MillisUntil(t, deadline), nextId);
      nextId := nextId + 1;
    }

    /** Polls the sleep's future: ready when nothing was asked of the host, or its timer has fired. */
    method PollSleep(s: Sleep) returns (ready: bool)
      requires Valid() && s.registered <= now
      modifies this
      ensures Valid() && old(now) <= now && old(fired) <= fired
      ensures ready <==> s.millis == None || s in fired
      ensures ready ==> FutureReady(s, now)
    {
      var t := Read();
      ready := s.millis == None || s in fired;
    }
  }
}
