/**
 * Per-server clocks (matrix/clocks): a drift that scales elapsed time, a
 * monotonic clock that reads drifted time since its last reset, and a wall
 * clock that reads global time plus an offset.
 *
 * Jiffy counts are unsigned 64-bit in the simulator; the model uses unbounded
 * naturals and does not model overflow of `real.Count() * (100 + drift)`.
 */
module Clocks {
  import opened Randomness
  import opened TimeModels

  /** A clock drift in percent. Values below -99 would make the clock stop or
      run backwards and are outside the documented range [-99, +inf). */
  datatype Drift = Drift(value: int)
  {
    predicate Valid()
    {
      value >= -99
    }

    /** The clock's rate as a whole percentage of global time. */
    function Rate(): (k: nat)
      requires Valid()
      ensures k >= 1
    {
      100 + value
    }

    /** Global duration -> duration the drifting clock observes,
        rounded down: a slow clock never observes more than the global
        duration, a fast one never less. */
    function Elapsed(span: nat): (observed: nat)
      requires Valid()
      ensures Rate() <= 100 ==> observed <= span
      ensures Rate() >= 100 ==> observed >= span
    {
      ScaleBounds(span, Rate());
      (span * Rate()) / 100
    }

    /** Duration the user asks to sleep -> global duration to wait, rounded
        down but never below one jiffy for a positive request. */
    function SleepOrTimeout(user: nat): (span: nat)
      requires Valid()
      ensures user == 0 <==> span == 0
    {
      if user == 0 then 0
      else
        var r := (user * 100) / Rate();
        if r < 1 then 1 else r
    }
  }

  /** Scaling by a percentage `k` shrinks for `k <= 100` and grows for
      `k >= 100`. */
  lemma ScaleBounds(span: nat, k: nat)
    ensures k <= 100 ==> (span * k) / 100 <= span
    ensures k >= 100 ==> (span * k) / 100 >= span
  {
    MulDivCancel(span);
    if k <= 100 {
      assert span * k <= span * 100;
      DivMonotone(span * k, span * 100);
    }
    if k >= 100 {
      assert span * 100 <= span * k;
      DivMonotone(span * 100, span * k);
    }
  }

  lemma DivMonotone(a: nat, b: nat)
    requires a <= b
    ensures a / 100 <= b / 100
  {
  }

  lemma MulDivCancel(x: nat)
    ensures (x * 100) / 100 == x
  {
  }

  /** Without drift the clock keeps global time. */
  lemma ElapsedWithoutDrift(span: nat)
    ensures Drift(0).Elapsed(span) == span
  {
    MulDivCancel(span);
  }

  /** The rates the drift's documentation names: -75 is a quarter of global
      speed, -50 half, +100 twice and +200 three times. */
  lemma DocumentedRates(span: nat)
    ensures Drift(-75).Elapsed(span) == span / 4
    ensures Drift(-50).Elapsed(span) == span / 2
    ensures Drift(100).Elapsed(span) == 2 * span
    ensures Drift(200).Elapsed(span) == 3 * span
  {
    assert span * 25 == (span / 4) * 100 + (span % 4) * 25;
    assert span * 50 == (span / 2) * 100 + (span % 2) * 50;
    MulDivCancel(2 * span);
    assert span * 200 == (2 * span) * 100;
    MulDivCancel(3 * span);
    assert span * 300 == (3 * span) * 100;
  }

  /** A drifting clock never runs backwards: more global time means at least
      as much observed time. */
  lemma ElapsedMonotone(d: Drift, r1: nat, r2: nat)
    requires d.Valid() && r1 <= r2
    ensures d.Elapsed(r1) <= d.Elapsed(r2)
  {
    assert r1 * d.Rate() <= r2 * d.Rate();
    DivMonotone(r1 * d.Rate(), r2 * d.Rate());
  }

  /** `SleepOrTimeout` inverts `Elapsed`: the global wait it picks is the
      longest one the clock observes as at most the requested duration
      (unless that longest wait is zero, which is raised to one jiffy). */
  lemma SleepInvertsElapsed(d: Drift, user: nat)
    requires d.Valid() && user > 0
    ensures var span := d.SleepOrTimeout(user);
      (user * 100 >= d.Rate() ==> d.Elapsed(span) <= user) &&
      d.Elapsed(span + 1) >= user
  {
    var k := d.Rate();
    var q := (user * 100) / k;
    assert user * 100 == q * k + (user * 100) % k;
    if user * 100 >= k {
      assert q >= 1;
      assert q * k <= user * 100;
      DivMonotone(q * k, user * 100);
      MulDivCancel(user);
    }
    var span := d.SleepOrTimeout(user);
    assert span >= q;
    assert (q + 1) * k > user * 100;
    assert (span + 1) * k >= (q + 1) * k;
    DivMonotone(user * 100, (span + 1) * k);
    MulDivCancel(user);
  }

  /** matrix/clocks/monotonic.hpp */
  class MonotonicClock {
    var drift: Drift
    var lastReset: nat
    var init: nat

    constructor ()
      ensures drift == Drift(0) && lastReset == 0 && init == 0
    {
      drift := Drift(0);
      lastReset := 0;
      init := 0;
    }

    predicate Valid()
      reads this
    {
      drift.Valid()
    }

    /** Draws the drift, then resets. `m` is the running server's time model
        and `now` the global time. */
    method Init(m: ServerTimeModel, now: nat, s: Stream) returns (rest: Stream)
      modifies this
      ensures drift == Drift(InitClockDrift(m, s).value)
      ensures Valid()
      ensures lastReset == now
      ensures init == ResetMonotonicClock(m, InitClockDrift(m, s).rest).value
      ensures rest == ResetMonotonicClock(m, InitClockDrift(m, s).rest).rest
    {
      var d := InitClockDrift(m, s);
      drift := Drift(d.value);
      rest := Reset(m, now, d.rest);
    }

    /** Restarts the clock at a freshly drawn reading; the drift is kept. */
    method Reset(m: ServerTimeModel, now: nat, s: Stream) returns (rest: Stream)
      modifies this
      ensures drift == old(drift)
      ensures init == ResetMonotonicClock(m, s).value && lastReset == now
      ensures rest == ResetMonotonicClock(m, s).rest
      ensures Valid() ==> Now(now) == init
    {
      var r := ResetMonotonicClock(m, s);
      init := r.value;
      lastReset := now;
      rest := r.rest;
    }

    /** Drifted global time since the last reset, plus the initial reading. */
    function Now(globalNow: nat): (t: nat)
      reads this
      requires Valid() && globalNow >= lastReset
      ensures t >= init
    {
      drift.Elapsed(ElapsedSinceLastReset(globalNow)) + init
    }

    function ElapsedSinceLastReset(globalNow: nat): nat
      reads this
      requires globalNow >= lastReset
    {
      globalNow - lastReset
    }

    /** Global duration to wait for a user-level sleep or timeout. */
    /** The global wait for a sleep of `d` on this clock: none for no sleep,
        and one the clock observes as reaching `d`. */
    function SleepOrTimeout(d: nat): (span: nat)
      reads this
      requires Valid()
      ensures span == 0 <==> d == 0
      ensures drift.Elapsed(span + 1) >= d
    {
      if d == 0 then 0
      else
        SleepInvertsElapsed(drift, d);
        drift.SleepOrTimeout(d)
    }
  }

  /** Between resets, the monotonic clock's reading never decreases as global
      time advances. */
  lemma MonotonicNowNeverDecreases(c: MonotonicClock, t1: nat, t2: nat)
    requires c.Valid() && c.lastReset <= t1 <= t2
    ensures c.Now(t1) <= c.Now(t2)
  {
    ElapsedMonotone(c.drift, t1 - c.lastReset, t2 - c.lastReset);
  }

  /** matrix/clocks/wall.hpp */
  class WallClock {
    var offset: nat

    constructor ()
      ensures offset == 0
    {
      offset := 0;
    }

    /** Draws the offset from global time. */
    method Init(m: ServerTimeModel, s: Stream) returns (rest: Stream)
      modifies this
      ensures offset == InitWallClockOffset(m, s).value
      ensures rest == InitWallClockOffset(m, s).rest
    {
      var d := InitWallClockOffset(m, s);
      offset := d.value;
      rest := d.rest;
    }

    /** Redraws the offset; timers are unaffected because they run on the
        monotonic clock. */
    method AdjustOffset(m: ServerTimeModel, s: Stream) returns (rest: Stream)
      modifies this
      ensures offset == InitWallClockOffset(m, s).value
      ensures rest == InitWallClockOffset(m, s).rest
    {
      rest := Init(m, s);
    }

    /** Global time shifted by the offset. */
    function Now(globalNow: nat): (t: nat)
      reads this
      ensures t - globalNow == offset
    {
      globalNow + offset
    }
  }
}
