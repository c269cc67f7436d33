/**
 * The time, true-time and random services a node program sees
 * (matrix/server/runtime/time.hpp, true_time.hpp, random.hpp). Clock readings
 * come from the server's clocks; timers become tasks on the server's
 * scheduler, due at a global time.
 */
module TimeServices {
  import opened Randomness
  import opened TimeModels
  import opened Clocks
  import opened Scheduling

  /** Rounding down in `Elapsed` loses no more over a sum than over its
      parts. */
  lemma ElapsedSuperadditive(drift: Drift, a: nat, b: nat)
    requires drift.Valid()
    ensures drift.Elapsed(a) + drift.Elapsed(b) <= drift.Elapsed(a + b)
  {
    var k := drift.Rate();
    var x := a * k;
    var y := b * k;
    assert (a + b) * k == x + y;
    assert (x / 100) * 100 + (y / 100) * 100 <= x + y;
    assert (x / 100 + y / 100) * 100 <= x + y;
    DivLowerBound(x / 100 + y / 100, x + y);
  }

  lemma DivLowerBound(q: nat, n: nat)
    requires q * 100 <= n
    ensures q <= n / 100
  {
  }

  class TimeService {
    const wall: WallClock
    const monotonic: MonotonicClock
    const scheduler: Scheduler

    constructor (wall: WallClock, monotonic: MonotonicClock, scheduler: Scheduler)
      ensures this.wall == wall && this.monotonic == monotonic && this.scheduler == scheduler
    {
      this.wall := wall;
      this.monotonic := monotonic;
      this.scheduler := scheduler;
    }

    /** The wall clock's reading at global time `now`. */
    function WallTimeNow(now: nat): (t: nat)
      reads this, wall
      ensures t == now + wall.offset
    {
      wall.Now(now)
    }

    /** The monotonic clock's reading at global time `now`. */
    function MonotonicNow(now: nat): (t: nat)
      reads this, monotonic
      requires monotonic.Valid() && now >= monotonic.lastReset
      ensures t == monotonic.drift.Elapsed(now - monotonic.lastReset) + monotonic.init
    {
      monotonic.Now(now)
    }

    /** The global duration that a `delay` on this server's clock takes. */
    function ToRealTimeDelay(delay: nat): (span: nat)
      reads this, monotonic
      requires monotonic.Valid()
      ensures span == 0 <==> delay == 0
    {
      monotonic.SleepOrTimeout(delay)
    }

    /** The global time at which a `delay` started at `now` is over: now for
        no delay, strictly later for any positive delay. */
    function AfterRealTime(now: nat, delay: nat): (at: nat)
      reads this, monotonic
      requires monotonic.Valid()
      ensures delay == 0 ==> at == now
      ensures delay > 0 ==> at >= now + 1
    {
      now + ToRealTimeDelay(delay)
    }

    /** Starts timer `timer` for `delay` jiffies: one task, due when the
        delay is over. */
    method AfterJiffies(now: nat, delay: nat, timer: nat)
      requires monotonic.Valid()
      modifies scheduler
      ensures scheduler.queue == old(scheduler.queue) + [Timed(AfterRealTime(now, delay), TimerTask(timer))]
      ensures scheduler.resumedAt == old(scheduler.resumedAt)
    {
      scheduler.Schedule(AfterRealTime(now, delay), TimerTask(timer));
    }
  }

  /** A timer for `delay` jiffies set at `now` fires (at the latest one jiffy
      after its due time) once the server's monotonic clock has advanced by at
      least `delay`. */
  lemma TimerNeverFiresEarly(ts: TimeService, now: nat, delay: nat)
    requires ts.monotonic.Valid() && now >= ts.monotonic.lastReset
    ensures ts.MonotonicNow(ts.AfterRealTime(now, delay) + 1) >= ts.MonotonicNow(now) + delay
  {
    var c := ts.monotonic;
    var span := ts.ToRealTimeDelay(delay);
    var before := now - c.lastReset;
    ElapsedSuperadditive(c.drift, before, span + 1);
    assert ts.AfterRealTime(now, delay) + 1 - c.lastReset == before + (span + 1);
    if delay > 0 {
      SleepInvertsElapsed(c.drift, delay);
    }
  }

  /** A TrueTime interval: the true global time lies within it. */
  datatype Interval = Interval(earliest: nat, latest: nat)

  /** `TrueTimeService::Now`: global time widened by one uncertainty draw on
      each side, the lower end saturating at zero. */
  function TrueTimeNow(m: ServerTimeModel, now: nat, s: Stream): (r: Drawn<Interval>)
    ensures var u := TrueTimeUncertainty(m, s);
      r.rest == u.rest &&
      r.value.earliest <= now <= r.value.latest &&
      r.value.latest == now + u.value &&
      (now >= u.value ==> r.value.latest - r.value.earliest == 2 * u.value) &&
      (now < u.value ==> r.value.earliest == 0)
  {
    var u := TrueTimeUncertainty(m, s);
    var earliest := if now > u.value then now - u.value else 0;
    Drawn(Interval(earliest, now + u.value), u.rest)
  }

  /** `RandomGenerator::GenerateNumber`: one global draw reduced modulo
      `bound`, which must be positive. */
  function GenerateNumber(s: Stream, bound: nat): (d: Drawn<nat>)
    requires bound > 0
    ensures d.value < bound
    ensures d.rest == s.(pos := s.pos + 1)
    ensures d == Below(s, bound)
  {
    Drawn(Draw(s).value % bound, Draw(s).rest)
  }
}
