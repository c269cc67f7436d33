/**
 * Time models: the pluggable policy that turns the global random stream into
 * clock drifts, latencies and cache misses.
 *
 * matrix/time_model/catalog/crazy.cpp holds the default world model and its
 * per-server model; matrix/time_model/catalog/adversary.cpp holds the
 * per-server model of adversary hosts. Every random choice is a pure function
 * of the stream it is given, and returns the stream that is left.
 */
module TimeModels {
  import opened Randomness
  import opened Packets

  /** A per-server time model (`IServerTimeModel`). */
  datatype ServerTimeModel = CrazyServer | AdversaryServer

  /** The world time model (`ITimeModel`); the crazy model is the catalog's. */
  datatype TimeModel = CrazyTimeModel

  /** Retry backoff parameters handed to the RPC layer. */
  datatype Backoff = Backoff(init: nat, max: nat, factor: nat)

  // ---------------------------------------------------------------------
  // Per-server model

  /** Drift of a server's monotonic clock, in percent. The crazy model picks
      one of three bands with the first draw and a value inside the band with
      a later one. */
  function InitClockDrift(m: ServerTimeModel, s: Stream): (d: Drawn<int>)
    ensures m.AdversaryServer? ==> d.value == 0 && d.rest == s
    ensures m.CrazyServer? ==>
      (200 <= d.value <= 299 || 75 <= d.value <= 99 || -75 <= d.value <= -50)
    ensures d.rest.engine == s.engine && d.rest.seed == s.seed && d.rest.pos >= s.pos
  {
    match m
    case AdversaryServer => Drawn(0, s)
    case CrazyServer =>
      var first := Draw(s);
      if first.value % 3 == 0 then
        var v := Below(first.rest, 100);
        Drawn(200 + v.value, v.rest)
      else
        var second := Draw(first.rest);
        if second.value % 2 == 0 then
          var v := Below(second.rest, 25);
          Drawn(75 + v.value, v.rest)
        else
          var v := Below(second.rest, 25 + 1);
          Drawn(-75 + v.value, v.rest)
  }

  /** Initial reading of the monotonic clock after a reset. */
  function ResetMonotonicClock(m: ServerTimeModel, s: Stream): (d: Drawn<nat>)
    ensures m.AdversaryServer? ==> d.value == 0 && d.rest == s
    ensures m.CrazyServer? ==> 1 <= d.value <= 100 && d.rest == s.(pos := s.pos + 1)
  {
    match m
    case AdversaryServer => Drawn(0, s)
    case CrazyServer => Between(s, 1, 100)
  }

  /** Offset of a server's wall clock from global time. */
  function InitWallClockOffset(m: ServerTimeModel, s: Stream): (d: Drawn<nat>)
    ensures m.AdversaryServer? ==> d.value == 0 && d.rest == s
    ensures m.CrazyServer? ==> d.value < 1000 && d.rest == s.(pos := s.pos + 1)
  {
    match m
    case AdversaryServer => Drawn(0, s)
    case CrazyServer => Below(s, 1000)
  }

  /** TrueTime uncertainty: usually small, one time in seven (by the first
      draw) large. */
  function TrueTimeUncertainty(m: ServerTimeModel, s: Stream): (d: Drawn<nat>)
    ensures m.AdversaryServer? ==> d.value == 1 && d.rest == s
    ensures m.CrazyServer? ==>
      var big := Draw(s).value % 7 == 0;
      (if big then 300 <= d.value <= 1000 else 5 <= d.value <= 50) &&
      d.rest == s.(pos := s.pos + 2)
  {
    match m
    case AdversaryServer => Drawn(1, s)
    case CrazyServer =>
      var first := Draw(s);
      if first.value % 7 == 0 then Between(first.rest, 300, 1000) else Between(first.rest, 5, 50)
  }

  /** Latency of a disk write; the size is not consulted. */
  function DiskWrite(m: ServerTimeModel, bytes: nat, s: Stream): (d: Drawn<nat>)
    ensures m.AdversaryServer? ==> d.value == 1 && d.rest == s
    ensures m.CrazyServer? ==> 10 <= d.value <= 250 && d.rest == s.(pos := s.pos + 1)
  {
    match m
    case AdversaryServer => Drawn(1, s)
    case CrazyServer => Between(s, 10, 250)
  }

  /** Latency of a disk read; the size is not consulted. */
  function DiskRead(m: ServerTimeModel, bytes: nat, s: Stream): (d: Drawn<nat>)
    ensures m.AdversaryServer? ==> d.value == 1 && d.rest == s
    ensures m.CrazyServer? ==> 10 <= d.value <= 50 && d.rest == s.(pos := s.pos + 1)
  {
    match m
    case AdversaryServer => Drawn(1, s)
    case CrazyServer => Between(s, 10, 50)
  }

  /** Whether a point lookup misses the memory cache: one draw in eleven. */
  function GetCacheMiss(m: ServerTimeModel, s: Stream): (d: Drawn<bool>)
    ensures m.AdversaryServer? ==> !d.value && d.rest == s
    ensures m.CrazyServer? ==> d.value == (s.engine(s.seed, s.pos) % 11 == 0) && d.rest == s.(pos := s.pos + 1)
  {
    match m
    case AdversaryServer => Drawn(false, s)
    case CrazyServer =>
      var v := Below(s, 11);
      Drawn(v.value == 0, v.rest)
  }

  /** Whether an iterator step misses the memory cache: one draw in seventeen. */
  function IteratorCacheMiss(m: ServerTimeModel, s: Stream): (d: Drawn<bool>)
    ensures m.AdversaryServer? ==> !d.value && d.rest == s
    ensures m.CrazyServer? ==> d.value == (s.engine(s.seed, s.pos) % 17 == 0) && d.rest == s.(pos := s.pos + 1)
  {
    match m
    case AdversaryServer => Drawn(false, s)
    case CrazyServer =>
      var v := Below(s, 17);
      Drawn(v.value == 0, v.rest)
  }

  /** Length of an injected thread pause. */
  function ThreadPause(m: ServerTimeModel, s: Stream): (d: Drawn<nat>)
    ensures m.AdversaryServer? ==> d.value == 1 && d.rest == s
    ensures m.CrazyServer? ==> 5 <= d.value <= 50 && d.rest == s.(pos := s.pos + 1)
  {
    match m
    case AdversaryServer => Drawn(1, s)
    case CrazyServer => Between(s, 5, 50)
  }

  /** The per-server methods that catalog/adversary.cpp actually defines.
      `GetCacheMiss` and `IteratorCacheMiss` are absent there, so as written
      the adversary model leaves two pure virtual methods unimplemented. */
  function AdversaryAsWrittenOverrides(): set<string>
  {
    {"InitClockDrift", "ResetMonotonicClock", "InitWallClockOffset", "TrueTimeUncertainty",
     "DiskWrite", "DiskRead", "ThreadPause"}
  }

  /** The pure virtual methods of `IServerTimeModel`. */
  function ServerModelInterface(): set<string>
  {
    AdversaryAsWrittenOverrides() + {"GetCacheMiss", "IteratorCacheMiss"}
  }

  /** As written the adversary model is abstract: two interface methods have
      no definition, so `MakeAdversaryTimeModel` cannot instantiate it. */
  lemma AdversaryAsWrittenIsAbstract()
    ensures ServerModelInterface() - AdversaryAsWrittenOverrides() == {"GetCacheMiss", "IteratorCacheMiss"}
    ensures ServerModelInterface() - AdversaryAsWrittenOverrides() != {}
  {
    assert "GetCacheMiss" !in AdversaryAsWrittenOverrides();
    assert "IteratorCacheMiss" !in AdversaryAsWrittenOverrides();
    assert "GetCacheMiss" in ServerModelInterface() - AdversaryAsWrittenOverrides();
  }

  /** Every drift the models produce is at least -75, inside the range
      [-99, +inf) the drifting clock accepts. */
  lemma DriftAboveMinimum(m: ServerTimeModel, s: Stream)
    ensures InitClockDrift(m, s).value >= -75
  {
  }

  /** A drift far outside the "[-75, +75]" noted beside the crazy model's
      drift: a stream whose next draw is 0 yields +200. */
  lemma CrazyDriftCanExceedSeventyFive(s: Stream)
    requires s.engine(s.seed, s.pos) == 0
    ensures InitClockDrift(CrazyServer, s).value >= 200
  {
  }

  // ---------------------------------------------------------------------
  // World model

  /** Global time at which a run starts. */
  function GlobalStartTime(tm: TimeModel, s: Stream): (d: Drawn<nat>)
    ensures 1 <= d.value <= 200 && d.rest == s.(pos := s.pos + 1)
  {
    Between(s, 1, 200)
  }

  /** Every server of a crazy world gets a crazy per-server model. */
  function MakeServerModel(tm: TimeModel, host: string): (m: ServerTimeModel)
    ensures m == CrazyServer
  {
    CrazyServer
  }

  /** The round-trip estimate published to servers; the crazy model keeps
      the interface's default. */
  function EstimateRtt(tm: TimeModel): (rtt: nat)
    ensures rtt == 1234
  {
    1234
  }

  /** How long a packet spends on the wire. Service packets take 50 jiffies
      and draw nothing; data packets pick slow, fast, unpredictable or default
      by successive draws and then a value inside the chosen range. */
  function FlightTime(tm: TimeModel, p: Packet, s: Stream): (d: Drawn<nat>)
    ensures p.kind != Data ==> d.value == 50 && d.rest == s
    ensures p.kind == Data ==> 5 <= d.value <= 1000 && s.pos + 2 <= d.rest.pos <= s.pos + 4
    ensures p.kind == Data && s.engine(s.seed, s.pos) % 11 == 0 ==> 400 <= d.value
    ensures d.rest.engine == s.engine && d.rest.seed == s.seed
  {
    if p.kind != Data then
      Drawn(50, s)
    else
      var slow := Draw(s);
      if slow.value % 11 == 0 then
        Between(slow.rest, 400, 1000)
      else
        var fast := Draw(slow.rest);
        if fast.value % 7 == 0 then
          Between(fast.rest, 5, 10)
        else
          var wild := Draw(fast.rest);
          if wild.value % 5 == 0 then
            Between(wild.rest, 10, 1000)
          else
            Between(wild.rest, 30, 60)
  }

  /** Constant backoff parameters: start at 50 jiffies, double each retry,
      never exceed 1000. */
  function BackoffParams(tm: TimeModel): (b: Backoff)
    ensures b.init == 50 && b.max == 1000 && b.factor == 2
    ensures b.init <= b.max
  {
    Backoff(50, 1000, 2)
  }
}
