/**
 * The simulated world (matrix/world/world.hpp, world.cpp): it owns the
 * servers, grouped into named pools, clients and adversaries, and the
 * network; it starts them, runs the event loop one step at a time (always
 * the actor due earliest, ties to the lowest index), and stops them,
 * folding their state into the world's digest.
 *
 * What an actor does when it starts, steps or shuts down is the business of
 * the server and network models. Here an actor is seen through what the
 * event loop asks of it: whether it runs, and the due times of the work it
 * has queued (its agenda). The work a step queues is a parameter.
 */
module Worlds {
  import opened Wrappers
  import opened Strings
  import opened SortedMap
  import opened Randomness
  import opened TimeModels
  import opened VirtualTime
  import opened ActorCtx
  import opened Digests
  import opened Config
  import opened UntypedDicts
  import opened Histories
  import opened Guids
  import opened PriorityQueues
  import Servers
  import Net

  function Due(t: nat): nat
  {
    t
  }

  /** An actor as the event loop sees it: its life-cycle phase and the due
      times of its queued work. */
  datatype ActorState = ActorState(phase: Servers.State, agenda: seq<nat>)
  {
    /** `IActor::IsRunnable`: running, with work queued. */
    predicate Runnable()
    {
      phase == Servers.Running && agenda != []
    }

    predicate Alive()
    {
      phase == Servers.Running || phase == Servers.Paused
    }

    /** `IActor::NextStepTime`: the earliest due time. */
    function NextStepTime(): (t: nat)
      requires agenda != []
      ensures t in agenda
      ensures forall x :: x in agenda ==> t <= x
    {
      agenda[Smallest(agenda, Due)]
    }

    /** The agenda once the earliest work item has been taken. */
    function Consumed(): (r: ActorState)
      requires agenda != []
      ensures r.phase == phase
      ensures multiset(r.agenda) + multiset{NextStepTime()} == multiset(agenda)
    {
      ActorState(phase, RemoveAt(agenda, Smallest(agenda, Due)))
    }

    /** A running actor has nothing queued before `now`. */
    predicate NotBefore(now: nat)
    {
      phase == Servers.Running ==> forall x :: x in agenda ==> x >= now
    }
  }

  /** What `FindNextStep` hands back: the actor, its index and its time. */
  datatype NextStep = NextStep(actor: Actor, index: nat, time: nat)

  /** Work a step queues: on actor number `actor`, `delay` jiffies after the
      step's time. */
  datatype Spawn = Spawn(actor: nat, delay: nat)

  datatype CallKind = StartCall | StepCall | ShutdownCall

  /** A call into an actor, with the actor that was current during it. */
  datatype ActorCall = ActorCall(kind: CallKind, actor: Actor, current: Option<Actor>)

  /** Where a new server goes: a named pool, the clients or the
      adversaries. */
  datatype PoolRef = NamedPool(name: string) | ClientPool | AdversaryPool

  predicate NoneRunnable(states: seq<ActorState>)
  {
    forall j :: 0 <= j < |states| ==> !states[j].Runnable()
  }

  /** Actor `i` due at `t` is the next step: it is runnable, no runnable
      actor is due earlier, and every runnable actor before it is due
      strictly later. */
  predicate IsNextStep(states: seq<ActorState>, i: nat, t: nat)
  {
    i < |states| && states[i].Runnable() && t == states[i].NextStepTime() &&
    (forall j :: 0 <= j < |states| && states[j].Runnable() ==> t <= states[j].NextStepTime()) &&
    (forall j :: 0 <= j < i && states[j].Runnable() ==> t < states[j].NextStepTime())
  }

  /** The next step is determined: the earliest time wins and, among equal
      times, the lowest index. */
  lemma NextStepUnique(states: seq<ActorState>, i: nat, t: nat, i': nat, t': nat)
    requires IsNextStep(states, i, t) && IsNextStep(states, i', t')
    ensures i == i' && t == t'
  {
  }

  predicate WorkFits(work: seq<Spawn>, n: nat)
  {
    forall w :: w in work ==> w.actor < n
  }

  /** The due times `work` adds to actor `j` for a step at `t`, in order. */
  function DueFor(work: seq<Spawn>, j: nat, t: nat): (r: seq<nat>)
    ensures forall x :: x in r ==> x >= t
  {
    if work == [] then []
    else
      var w := work[|work| - 1];
      DueFor(work[..|work| - 1], j, t) + (if w.actor == j then [t + w.delay] else [])
  }

  /** Queues `work`, item by item, on the actors it names. Each actor ends
      up with its old agenda followed by exactly the items aimed at it. */
  function Spawned(states: seq<ActorState>, work: seq<Spawn>, t: nat): (r: seq<ActorState>)
    requires WorkFits(work, |states|)
    ensures |r| == |states|
    ensures forall j :: 0 <= j < |r| ==> r[j].phase == states[j].phase
    ensures forall j :: 0 <= j < |r| ==> r[j].agenda == states[j].agenda + DueFor(work, j, t)
  {
    if work == [] then states
    else
      var w := work[|work| - 1];
      assert w in work;
      var r := Spawned(states, work[..|work| - 1], t);
      r[w.actor := r[w.actor].(agenda := r[w.actor].agenda + [t + w.delay])]
  }

  /** Takes the earliest work item of actor `i`. */
  function Consume(states: seq<ActorState>, i: nat): (r: seq<ActorState>)
    requires i < |states| && states[i].agenda != []
    ensures |r| == |states| && r[i] == states[i].Consumed()
    ensures forall j :: 0 <= j < |states| && j != i ==> r[j] == states[j]
  {
    states[i := states[i].Consumed()]
  }

  /** A step to the next step's time leaves no running actor with work
      queued in the past. */
  lemma StepKeepsNotBefore(states: seq<ActorState>, i: nat, t: nat, work: seq<Spawn>)
    requires IsNextStep(states, i, t) && WorkFits(work, |states|)
    ensures NothingOverdue(Spawned(Consume(states, i), work, t), t)
  {
    var c := Consume(states, i);
    var r := Spawned(c, work, t);
    forall j | 0 <= j < |states|
      ensures r[j].NotBefore(t)
    {
      if r[j].phase == Servers.Running {
        forall x | x in r[j].agenda
          ensures x >= t
        {
          assert r[j].agenda == c[j].agenda + DueFor(work, j, t);
          if x in c[j].agenda {
            if j == i {
              assert x in multiset(c[i].agenda);
              assert x in multiset(states[i].agenda);
            }
            assert x in states[j].agenda;
            assert states[j].Runnable();
          }
        }
      }
    }
  }

  /** The states of the actors once the world has started them: every
      actor runs; each server has its main program queued at `now`. */
  function StartedStates(actors: seq<Actor>, now: nat): (r: seq<ActorState>)
    ensures |r| == |actors|
    ensures forall j :: 0 <= j < |r| ==> r[j].phase == Servers.Running && r[j].NotBefore(now)
    ensures forall j :: 0 <= j < |r| ==> (r[j].agenda == [] <==> actors[j] == NetworkActor)
  {
    seq(|actors|, j requires 0 <= j < |actors| =>
      if actors[j] == NetworkActor then ActorState(Servers.Running, [])
      else ActorState(Servers.Running, [now]))
  }

  /** The servers of all pools, pool by pool in pool-name order. */
  function AllServers(pools: seq<Entry<seq<ServerConfig>>>): seq<ServerConfig>
  {
    if pools == [] then []
    else AllServers(pools[..|pools| - 1]) + pools[|pools| - 1].value
  }

  lemma AllServersSnoc(pools: seq<Entry<seq<ServerConfig>>>, p: nat)
    requires p < |pools|
    ensures AllServers(pools[..p + 1]) == AllServers(pools[..p]) + pools[p].value
  {
    assert pools[..p + 1][..p] == pools[..p];
  }

  lemma {:induction false} AllServersSplit(pools: seq<Entry<seq<ServerConfig>>>, k: nat)
    requires k <= |pools|
    ensures AllServers(pools) == AllServers(pools[..k]) + AllServers(pools[k..])
    decreases |pools|
  {
    if k < |pools| {
      var n := |pools| - 1;
      AllServersSplit(pools[..n], k);
      assert pools[..n][..k] == pools[..k];
      assert pools[k..][..|pools[k..]| - 1] == pools[..n][k..];
    } else {
      assert pools[..k] == pools;
    }
  }

  /** The calls of one kind made to `servers`, in order, each inside the
      server's own scope. */
  function CallsFor(kind: CallKind, servers: seq<ServerConfig>): (r: seq<ActorCall>)
    ensures |r| == |servers|
  {
    if servers == [] then []
    else
      var s := servers[|servers| - 1];
      CallsFor(kind, servers[..|servers| - 1]) + [ActorCall(kind, ServerActor(s.id), Some(ServerActor(s.id)))]
  }

  lemma {:induction false} CallsForConcat(kind: CallKind, a: seq<ServerConfig>, b: seq<ServerConfig>)
    ensures CallsFor(kind, a + b) == CallsFor(kind, a) + CallsFor(kind, b)
    decreases |b|
  {
    if b == [] {
      assert a + b == a;
    } else {
      var n := |b| - 1;
      assert (a + b)[..|a + b| - 1] == a + b[..n];
      CallsForConcat(kind, a, b[..n]);
    }
  }

  /** The digest items the servers contribute at shutdown, in order. */
  function DigestsOf(servers: seq<ServerConfig>, digestOf: ServerConfig -> Digest): (r: seq<DigestItem>)
    ensures |r| == |servers|
  {
    if servers == [] then []
    else DigestsOf(servers[..|servers| - 1], digestOf) + [Combine(digestOf(servers[|servers| - 1]))]
  }

  /** One more pool's calls follow the calls of the pools before it. */
  lemma CallsForPoolsSnoc(kind: CallKind, pools: seq<Entry<seq<ServerConfig>>>, p: nat)
    requires p < |pools|
    ensures CallsFor(kind, AllServers(pools[..p + 1])) == CallsFor(kind, AllServers(pools[..p])) + CallsFor(kind, pools[p].value)
  {
    AllServersSnoc(pools, p);
    CallsForConcat(kind, AllServers(pools[..p]), pools[p].value);
  }

  lemma {:induction false} DigestsOfConcat(a: seq<ServerConfig>, b: seq<ServerConfig>, digestOf: ServerConfig -> Digest)
    ensures DigestsOf(a + b, digestOf) == DigestsOf(a, digestOf) + DigestsOf(b, digestOf)
    decreases |b|
  {
    if b == [] {
      assert a + b == a;
    } else {
      var n := |b| - 1;
      assert (a + b)[..|a + b| - 1] == a + b[..n];
      DigestsOfConcat(a, b[..n], digestOf);
    }
  }

  /** One more pool's digest items follow those of the pools before it. */
  lemma DigestsOfPoolsSnoc(pools: seq<Entry<seq<ServerConfig>>>, p: nat, digestOf: ServerConfig -> Digest)
    requires p < |pools|
    ensures DigestsOf(AllServers(pools[..p + 1]), digestOf) == DigestsOf(AllServers(pools[..p]), digestOf) + DigestsOf(pools[p].value, digestOf)
  {
    AllServersSnoc(pools, p);
    DigestsOfConcat(AllServers(pools[..p]), pools[p].value, digestOf);
  }

  /** The first server named `host`. */
  function FirstWithHost(servers: seq<ServerConfig>, host: string): (r: Option<ServerConfig>)
    ensures r.None? <==> forall s :: s in servers ==> s.hostname != host
    ensures r.Some? ==> r.value in servers && r.value.hostname == host
  {
    if servers == [] then None
    else if servers[0].hostname == host then Some(servers[0])
    else FirstWithHost(servers[1..], host)
  }

  /** The search finds the first server with that name. */
  lemma {:induction false} FirstMatch(servers: seq<ServerConfig>, host: string, i: nat)
    requires i < |servers| && servers[i].hostname == host
    requires forall j :: 0 <= j < i ==> servers[j].hostname != host
    ensures FirstWithHost(servers, host) == Some(servers[i])
  {
    if i > 0 {
      FirstMatch(servers[1..], host, i - 1);
    }
  }

  /** Searching a concatenation searches the first part, then the second. */
  lemma {:induction false} FirstWithHostConcat(a: seq<ServerConfig>, b: seq<ServerConfig>, host: string)
    ensures FirstWithHost(a + b, host) ==
      if FirstWithHost(a, host).Some? then FirstWithHost(a, host) else FirstWithHost(b, host)
  {
    if a != [] {
      assert (a + b)[0] == a[0] && (a + b)[1..] == a[1..] + b;
      FirstWithHostConcat(a[1..], b, host);
    } else {
      assert a + b == b;
    }
  }

  /** `MakeServerName`: the template, a dash and the index in decimal. */
  function MakeServerName(template: string, index: nat): (name: string)
    ensures |name| > |template| + 1 && name[..|template|] == template && name[|template|] == '-'
    ensures name[|template| + 1..] == NatToString(index)
  {
    template + "-" + NatToString(index)
  }

  /** A server's name starts with its template; in particular every
      adversary's name starts with "Adversary". */
  lemma ServerNameStartsWith(template: string, index: nat)
    ensures StartsWith(MakeServerName(template, index), template)
  {
    assert MakeServerName(template, index)[..|template|] == template;
  }

  /** One template never gives two servers the same name. */
  lemma ServerNamesDistinct(template: string, a: nat, b: nat)
    requires a != b
    ensures MakeServerName(template, a) != MakeServerName(template, b)
  {
    var n := |template| + 1;
    if MakeServerName(template, a) == MakeServerName(template, b) {
      assert MakeServerName(template, a)[n..] == NatToString(a);
      assert MakeServerName(template, b)[n..] == NatToString(b);
      NatToStringInjective(a, b);
    }
  }

  /** `pool` after `AddPool` has appended `n` servers to it: the `k`-th
      new server gets id `firstId + k` and is named after the template and
      the pool's size once it is in. */
  function Grown(pool: seq<ServerConfig>, name: string, template: string, firstId: nat, n: nat): (r: seq<ServerConfig>)
    ensures |r| == |pool| + n
  {
    if n == 0 then pool
    else Grown(pool, name, template, firstId, n - 1) + [ServerConfig(firstId + n - 1, MakeServerName(template, |pool| + n), name)]
  }

  /** Growing a pool keeps the servers it had. */
  lemma {:induction false} GrownKeeps(pool: seq<ServerConfig>, name: string, template: string, firstId: nat, n: nat, k: nat)
    requires k < |pool|
    ensures Grown(pool, name, template, firstId, n)[k] == pool[k]
  {
    if n > 0 {
      GrownKeeps(pool, name, template, firstId, n - 1, k);
    }
  }

  /** The `k`-th new server of an `AddPool` call has the `k`-th new id and
      the next number after the pool's old size. */
  lemma {:induction false} GrownAt(pool: seq<ServerConfig>, name: string, template: string, firstId: nat, n: nat, k: nat)
    requires k < n
    ensures Grown(pool, name, template, firstId, n)[|pool| + k] ==
      ServerConfig(firstId + k, MakeServerName(template, |pool| + k + 1), name)
  {
    if k < n - 1 {
      GrownAt(pool, name, template, firstId, n - 1, k);
    }
  }

  /** The servers one `AddPool` call creates have pairwise distinct names
      and ids. */
  lemma GrownDistinct(pool: seq<ServerConfig>, name: string, template: string, firstId: nat, n: nat, k: nat, k': nat)
    requires k < k' < n
    ensures var r := Grown(pool, name, template, firstId, n);
      r[|pool| + k].hostname != r[|pool| + k'].hostname && r[|pool| + k].id != r[|pool| + k'].id
  {
    GrownAt(pool, name, template, firstId, n, k);
    GrownAt(pool, name, template, firstId, n, k');
    ServerNamesDistinct(template, |pool| + k + 1, |pool| + k' + 1);
  }

  /** Every server actor has an id handed out already. */
  predicate IdsIssued(actors: seq<Actor>, lastId: nat)
  {
    forall a :: a in actors && a.ServerActor? ==> a.id <= lastId
  }

  /** No running actor has work queued before `now`. */
  predicate NothingOverdue(states: seq<ActorState>, now: nat)
  {
    forall j :: 0 <= j < |states| ==> states[j].NotBefore(now)
  }

  /** Pools `a` and `b` agree on every pool except `name`. */
  ghost predicate SameOtherPools(a: seq<Entry<seq<ServerConfig>>>, b: seq<Entry<seq<ServerConfig>>>, name: string)
  {
    Sorted(a) && Sorted(b) && forall n :: n != name ==> Get(a, n) == Get(b, n)
  }

  lemma SameOtherPoolsTrans(a: seq<Entry<seq<ServerConfig>>>, b: seq<Entry<seq<ServerConfig>>>,
                            c: seq<Entry<seq<ServerConfig>>>, name: string)
    requires SameOtherPools(a, b, name) && SameOtherPools(b, c, name)
    ensures SameOtherPools(a, c, name)
  {
  }

  /** Storing a pool leaves every other pool as it was. */
  lemma PutKeepsOthers(pools: seq<Entry<seq<ServerConfig>>>, name: string, pool: seq<ServerConfig>)
    requires Sorted(pools)
    ensures Get(Put(pools, name, pool), name) == Some(pool)
    ensures forall n :: n != name ==> Get(Put(pools, name, pool), n) == Get(pools, n)
  {
    forall n
      ensures Get(Put(pools, name, pool), n) == if n == name then Some(pool) else Get(pools, n)
    {
      GetPut(pools, name, pool, n);
    }
  }

  /** A log of the calls the world makes into its actors. */
  class CallLog {
    var log: seq<ActorCall>

    constructor ()
      ensures log == []
    {
      log := [];
    }

    method Record(c: ActorCall)
      modifies this
      ensures log == old(log) + [c]
    {
      log := log + [c];
    }
  }

  /** A record of the elapsed times a run tested against its budget, one per
      step made: each was under `budget`, the first is `first`, they never
      decrease, and the last is at most `last`. */
  ghost predicate UnderBudget(checked: seq<nat>, budget: nat, first: nat, last: nat)
  {
    (forall k :: 0 <= k < |checked| ==> checked[k] < budget) &&
    (forall k :: 0 < k < |checked| ==> checked[k - 1] <= checked[k]) &&
    (checked != [] ==> checked[0] == first && checked[|checked| - 1] <= last)
  }

  /** A step tested at `e`, under the budget and no earlier than the record's
      last entry, extends the record up to any later elapsed time. */
  lemma UnderBudgetSnoc(checked: seq<nat>, budget: nat, first: nat, e: nat, last: nat)
    requires UnderBudget(checked, budget, first, e) && e < budget && e <= last
    requires checked == [] ==> e == first
    ensures UnderBudget(checked + [e], budget, first, last)
  {
    var c := checked + [e];
    forall k | 0 < k < |c|
      ensures c[k - 1] <= c[k]
    {
      if k < |checked| {
        assert c[k - 1] == checked[k - 1] && c[k] == checked[k];
      }
    }
  }

  class World {
    const seed: Word32
    const random: RandomSource
    const time: Time
    const network: Net.Network
    const active: ActorContext
    const recorder: HistoryRecorder
    const globals: UntypedDict
    const guids: GuidGenerator
    const trace: CallLog
    var timeModel: TimeModel
    var pools: seq<Entry<seq<ServerConfig>>>   // by pool name, in name order
    var clients: seq<ServerConfig>
    var adversaries: seq<ServerConfig>
    var lastId: nat                            // the last server id handed out
    var actors: seq<Actor>
    var states: seq<ActorState>                // one per actor
    var stepNumber: nat
    var startTime: nat
    var digest: seq<DigestItem>

    /** A world with the crazy time model, nothing registered and the clock
        at zero. */
    constructor (engine: Engine, seed: Word32)
      ensures this.seed == seed && random.engine == engine && random.seed == seed && random.steps == 0
      ensures time.now == 0 && timeModel == CrazyTimeModel
      ensures pools == [] && clients == [] && adversaries == [] && lastId == 0
      ensures actors == [] && states == [] && stepNumber == 0 && startTime == 0 && digest == []
      ensures active.current == None && trace.log == [] && recorder.events == []
      ensures network.servers == [] && globals.entries == map[]
      ensures fresh(random) && fresh(time) && fresh(network) && fresh(active) && fresh(recorder)
      ensures fresh(globals) && fresh(guids) && fresh(trace)
      ensures Valid()
    {
      this.seed := seed;
      random := new RandomSource(engine, seed);
      time := new Time();
      network := new Net.Network();
      active := new ActorContext();
      recorder := new HistoryRecorder();
      globals := new UntypedDict();
      guids := new GuidGenerator();
      trace := new CallLog();
      timeModel := CrazyTimeModel;
      pools := [];
      clients := [];
      adversaries := [];
      lastId := 0;
      actors := [];
      states := [];
      stepNumber := 0;
      startTime := 0;
      digest := [];
    }

    /** Pools are kept in name order, there is one state per actor, every
        server id is one handed out already, time has not gone back before
        the start, and no running actor has work queued in the past. */
    ghost predicate Valid()
      reads this, time
    {
      Sorted(pools) && |states| == |actors| && startTime <= time.now &&
      IdsIssued(actors, lastId) && NothingOverdue(states, time.now)
    }

    function PoolOf(target: PoolRef): seq<ServerConfig>
      reads this
      requires Sorted(pools)
    {
      match target
      case NamedPool(name) => Get(pools, name).GetOr([])
      case ClientPool => clients
      case AdversaryPool => adversaries
    }

    method SetTimeModel(tm: TimeModel)
      modifies this
      ensures timeModel == tm
      ensures pools == old(pools) && actors == old(actors) && states == old(states)
      ensures startTime == old(startTime) && lastId == old(lastId)
    {
      timeModel := tm;
    }

    /** `MakeServerTimeModel`: adversaries (by name) get the adversary
        model, everyone else the world model's per-server model. */
    function MakeServerTimeModel(hostname: string): (m: ServerTimeModel)
      reads this
      ensures m == AdversaryServer <==> StartsWith(hostname, "Adversary")
    {
      if StartsWith(hostname, "Adversary") then AdversaryServer
      else MakeServerModel(timeModel, hostname)
    }

    function HasAdversary(): (r: bool)
      reads this
      ensures r <==> adversaries != []
    {
      |adversaries| > 0
    }

    /** Virtual time since the world started. */
    function TimeElapsed(): (d: nat)
      reads this, time
      requires startTime <= time.now
      ensures startTime + d == time.now
    {
      time.now - startTime
    }

    method SetGlobal(name: string, value: Any)
      modifies globals
      ensures globals.entries == old(globals.entries)[name := value]
      ensures GetGlobal(name) == value
    {
      globals.Set(name, value);
    }

    /** The global set under `name`, or an empty any if none was set. */
    function GetGlobal(name: string): (v: Any)
      reads this, globals
      ensures name in globals.entries ==> v == globals.entries[name]
      ensures name !in globals.entries ==> v == Empty
    {
      globals.Get(name)
    }

    method GenerateGuid() returns (guid: string)
      modifies guids
      ensures guid == GuidFor(guids.nextValue) && guids.nextValue == old(guids.nextValue) + 1
    {
      guid := guids.GenerateNext();
    }

    /** Publishes the time model's round-trip estimate, which every server
        then reads as its "net.rtt" setting. */
    method SetConfigGlobals()
      modifies globals
      ensures globals.entries == old(globals.entries)["config.net.rtt" := AnyInt64(EstimateRtt(timeModel))]
      ensures forall server :: GetInt64(server, timeModel, globals.entries, "net.rtt") == Success(EstimateRtt(timeModel))
    {
      SetGlobal("config.net.rtt", AnyInt64(EstimateRtt(timeModel)));
      assert GlobalName("net.rtt") == "config.net.rtt";
    }

    /** Calls into `a` inside its scope: `a` is current during the call and
        the previous actor is current again afterwards. */
    method CallInScope(kind: CallKind, a: Actor)
      modifies active, trace
      ensures trace.log == old(trace.log) + [ActorCall(kind, a, Some(a))]
      ensures active.current == old(active.current)
    {
      var g := active.Scope(a);
      trace.Record(ActorCall(kind, a, active.current));
      active.EndScope(g);
    }

    method CallEach(kind: CallKind, servers: seq<ServerConfig>)
      modifies active, trace
      ensures trace.log == old(trace.log) + CallsFor(kind, servers)
      ensures active.current == old(active.current)
    {
      for i := 0 to |servers|
        invariant trace.log == old(trace.log) + CallsFor(kind, servers[..i])
        invariant active.current == old(active.current)
      {
        CallInScope(kind, ServerActor(servers[i].id));
        assert servers[..i + 1][..i] == servers[..i];
      }
      assert servers[..|servers|] == servers;
    }

    /** Calls every pool's servers, pool by pool in name order. */
    method CallPools(kind: CallKind)
      modifies active, trace
      ensures trace.log == old(trace.log) + CallsFor(kind, AllServers(pools))
      ensures active.current == old(active.current)
    {
      var ps := pools;
      for p := 0 to |ps|
        invariant trace.log == old(trace.log) + CallsFor(kind, AllServers(ps[..p]))
        invariant active.current == old(active.current)
      {
        CallEach(kind, ps[p].value);
        CallsForPoolsSnoc(kind, ps, p);
        AppendAssoc(old(trace.log), CallsFor(kind, AllServers(ps[..p])), CallsFor(kind, ps[p].value));
      }
      assert ps[..|ps|] == ps;
    }

    /** Sets the clock to the start time the time model draws, starts the
        network, publishes the configuration globals, then starts the pool
        servers (in pool-name order), the clients and the adversaries.
        The ensured position of `random` counts the world's own draw only:
        each server's `Start` (`Servers.Server.Start`) goes on to draw from
        the same stream, and those draws are not threaded through here. */
    method Start()
      requires Valid()
      requires time.now <= GlobalStartTime(timeModel, random.AsStream()).value
      modifies this, time, random, active, trace, globals
      ensures Valid()
      ensures var d := GlobalStartTime(timeModel, old(random.AsStream()));
        time.now == d.value && startTime == d.value && random.AsStream() == d.rest
      ensures actors == old(actors) + [NetworkActor]
      ensures states == StartedStates(actors, time.now)
      ensures trace.log == old(trace.log) + [ActorCall(StartCall, NetworkActor, Some(NetworkActor))] +
        CallsFor(StartCall, AllServers(pools)) + CallsFor(StartCall, clients) + CallsFor(StartCall, adversaries)
      ensures globals.entries == old(globals.entries)["config.net.rtt" := AnyInt64(EstimateRtt(timeModel))]
      ensures active.current == old(active.current)
      ensures pools == old(pools) && clients == old(clients) && adversaries == old(adversaries)
      ensures lastId == old(lastId) && stepNumber == old(stepNumber) && digest == old(digest)
      ensures timeModel == old(timeModel)
    {
      var d := GlobalStartTime(timeModel, random.AsStream());
      var drawn := random.Next();
      time.FastForwardTo(d.value);
      Begin();
      StartActors();
    }

    /** The world's own part of `Start`: the start time is now, the network
        joins the actors, and every actor is running; every server has its
        main program queued now. */
    method Begin()
      requires Sorted(pools) && |states| == |actors| && IdsIssued(actors, lastId)
      modifies this
      ensures Valid()
      ensures startTime == time.now
      ensures actors == old(actors) + [NetworkActor]
      ensures states == StartedStates(actors, time.now)
      ensures pools == old(pools) && clients == old(clients) && adversaries == old(adversaries)
      ensures lastId == old(lastId) && stepNumber == old(stepNumber) && digest == old(digest)
      ensures timeModel == old(timeModel)
    {
      startTime := time.now;
      actors := actors + [NetworkActor];
      states := StartedStates(actors, time.now);
    }

    /** The start calls of `Start`, in its order, with the configuration
        globals published once the network has started. */
    method StartActors()
      modifies active, trace, globals
      ensures trace.log == old(trace.log) + [ActorCall(StartCall, NetworkActor, Some(NetworkActor))] +
        CallsFor(StartCall, AllServers(pools)) + CallsFor(StartCall, clients) + CallsFor(StartCall, adversaries)
      ensures globals.entries == old(globals.entries)["config.net.rtt" := AnyInt64(EstimateRtt(timeModel))]
      ensures active.current == old(active.current)
    {
      CallInScope(StartCall, NetworkActor);
      SetConfigGlobals();
      CallPools(StartCall);
      CallEach(StartCall, clients);
      CallEach(StartCall, adversaries);
    }

    /** `FindNextStep`: scans the actors in order and keeps the first one
        with the strictly earliest next step time. */
    method FindNextStep() returns (next: Option<NextStep>)
      requires |states| == |actors|
      ensures next.None? <==> NoneRunnable(states)
      ensures next.Some? ==>
        next.value.index < |actors| && next.value.actor == actors[next.value.index] &&
        IsNextStep(states, next.value.index, next.value.time)
    {
      if actors == [] {
        return None;
      }
      next := None;
      for i := 0 to |actors|
        invariant next.None? <==> forall j :: 0 <= j < i ==> !states[j].Runnable()
        invariant next.Some? ==> var n := next.value;
          n.index < i && n.actor == actors[n.index] && states[n.index].Runnable() &&
          n.time == states[n.index].NextStepTime() &&
          (forall j :: 0 <= j < i && states[j].Runnable() ==> n.time <= states[j].NextStepTime()) &&
          (forall j :: 0 <= j < n.index && states[j].Runnable() ==> n.time < states[j].NextStepTime())
      {
        if states[i].Runnable() {
          var t := states[i].NextStepTime();
          if next.None? || t < next.value.time {
            next := Some(NextStep(actors[i], i, t));
          }
        }
      }
    }

    /** `Step`: finds the next step; if there is one, counts it, feeds its
        time and actor index into the digest, moves the clock to its time
        and steps the actor inside its scope, which queues `work`. With no
        runnable actor nothing changes and the result is false. */
    method Step(work: seq<Spawn>) returns (stepped: bool)
      requires Valid() && WorkFits(work, |actors|)
      modifies this, time, active, trace
      ensures Valid()
      ensures stepped <==> !NoneRunnable(old(states))
      ensures !stepped ==>
        states == old(states) && stepNumber == old(stepNumber) && digest == old(digest) &&
        time.now == old(time.now) && trace.log == old(trace.log)
      ensures stepped ==>
        exists i: nat, t: nat ::
          IsNextStep(old(states), i, t) && i < |actors| &&
          stepNumber == old(stepNumber) + 1 &&
          digest == old(digest) + [EatNumber(t), EatNumber(i)] &&
          time.now == t &&
          trace.log == old(trace.log) + [ActorCall(StepCall, actors[i], Some(actors[i]))] &&
          states == Spawned(Consume(old(states), i), work, t)
      ensures time.now >= old(time.now) && active.current == old(active.current)
      ensures actors == old(actors) && pools == old(pools) && clients == old(clients) && adversaries == old(adversaries)
      ensures lastId == old(lastId) && startTime == old(startTime) && timeModel == old(timeModel)
    {
      var next := FindNextStep();
      if next.None? {
        return false;
      }
      Advance(next.value, work);
      return true;
    }

    /** The body of a step that was found: count, digest, clock, then the
        actor's own step in its scope. */
    method Advance(n: NextStep, work: seq<Spawn>)
      requires Valid() && WorkFits(work, |actors|)
      requires n.index < |actors| && n.actor == actors[n.index] && IsNextStep(states, n.index, n.time)
      modifies this, time, active, trace
      ensures Valid()
      ensures stepNumber == old(stepNumber) + 1
      ensures digest == old(digest) + [EatNumber(n.time), EatNumber(n.index)]
      ensures time.now == n.time && time.now >= old(time.now)
      ensures trace.log == old(trace.log) + [ActorCall(StepCall, n.actor, Some(n.actor))]
      ensures states == Spawned(Consume(old(states), n.index), work, n.time)
      ensures active.current == old(active.current)
      ensures actors == old(actors) && pools == old(pools) && clients == old(clients) && adversaries == old(adversaries)
      ensures lastId == old(lastId) && startTime == old(startTime) && timeModel == old(timeModel)
    {
      assert states[n.index].NotBefore(time.now);
      StepKeepsNotBefore(states, n.index, n.time, work);
      stepNumber := stepNumber + 1;
      digest := digest + [EatNumber(n.time), EatNumber(n.index)];
      time.FastForwardTo(n.time);
      CallInScope(StepCall, n.actor);
      states := Spawned(Consume(states, n.index), work, n.time);
    }

    /** `MakeSteps`: up to `steps` steps, stopping early only when no actor
        is runnable. `work(k)` is what step number `k` queues. */
    method MakeSteps(steps: nat, work: nat -> seq<Spawn>) returns (made: nat)
      requires Valid() && forall k :: WorkFits(work(k), |actors|)
      modifies this, time, active, trace
      ensures Valid()
      ensures made <= steps && stepNumber == old(stepNumber) + made
      ensures made < steps ==> NoneRunnable(states)
      ensures time.now >= old(time.now) && actors == old(actors)
    {
      made := 0;
      for i := 0 to steps
        invariant Valid() && made == i && stepNumber == old(stepNumber) + made
        invariant time.now >= old(time.now) && actors == old(actors)
      {
        var ok := Step(work(stepNumber));
        if !ok {
          return;
        }
        made := made + 1;
      }
    }

    /** `RunFor`: steps while less virtual time than `budget` has passed
        since the start and some actor is runnable. At most `fuel` steps are
        made. `checked` records, for each step made, the elapsed time the
        budget was tested against just before it: each was under the budget,
        the first is the elapsed time at the call, and they never decrease. */
    method RunFor(budget: nat, work: nat -> seq<Spawn>, fuel: nat) returns (ghost checked: seq<nat>)
      requires Valid() && forall k :: WorkFits(work(k), |actors|)
      modifies this, time, active, trace
      ensures Valid()
      ensures stepNumber == old(stepNumber) + |checked| && |checked| <= fuel
      ensures UnderBudget(checked, budget, old(TimeElapsed()), TimeElapsed())
      ensures old(TimeElapsed()) >= budget ==> stepNumber == old(stepNumber)
      ensures |checked| < fuel ==> TimeElapsed() >= budget || NoneRunnable(states)
      ensures time.now >= old(time.now) && actors == old(actors)
    {
      checked := [];
      ghost var first := TimeElapsed();
      var left: nat := fuel;
      while left > 0 && TimeElapsed() < budget
        invariant Valid() && left <= fuel && |checked| == fuel - left
        invariant stepNumber == old(stepNumber) + |checked| && startTime == old(startTime)
        invariant UnderBudget(checked, budget, first, TimeElapsed())
        invariant checked == [] ==> TimeElapsed() == first
        invariant time.now >= old(time.now) && actors == old(actors)
        decreases left
      {
        ghost var elapsed := TimeElapsed();
        var ok := Step(work(stepNumber));
        if !ok {
          return;
        }
        UnderBudgetSnoc(checked, budget, first, elapsed, TimeElapsed());
        checked := checked + [elapsed];
        left := left - 1;
      }
    }

    /** The servers' shutdown: each one's digest, then its shutdown inside
        its scope. */
    method ShutdownServers(servers: seq<ServerConfig>, digestOf: ServerConfig -> Digest)
      returns (items: seq<DigestItem>)
      modifies active, trace
      ensures items == DigestsOf(servers, digestOf)
      ensures trace.log == old(trace.log) + CallsFor(ShutdownCall, servers)
      ensures active.current == old(active.current)
    {
      items := [];
      for i := 0 to |servers|
        invariant items == DigestsOf(servers[..i], digestOf)
        invariant trace.log == old(trace.log) + CallsFor(ShutdownCall, servers[..i])
        invariant active.current == old(active.current)
      {
        items := items + [Combine(digestOf(servers[i]))];
        CallInScope(ShutdownCall, ServerActor(servers[i].id));
        assert servers[..i + 1][..i] == servers[..i];
      }
      assert servers[..|servers|] == servers;
    }

    /** Every pool's servers shut down, pool by pool in name order, with
        their digest items. */
    method ShutdownPools(digestOf: ServerConfig -> Digest) returns (items: seq<DigestItem>)
      modifies active, trace
      ensures items == DigestsOf(AllServers(pools), digestOf)
      ensures trace.log == old(trace.log) + CallsFor(ShutdownCall, AllServers(pools))
      ensures active.current == old(active.current)
    {
      items := [];
      var ps := pools;
      for p := 0 to |ps|
        invariant items == DigestsOf(AllServers(ps[..p]), digestOf)
        invariant trace.log == old(trace.log) + CallsFor(ShutdownCall, AllServers(ps[..p]))
        invariant active.current == old(active.current)
      {
        var more := ShutdownServers(ps[p].value, digestOf);
        items := items + more;
        DigestsOfPoolsSnoc(ps, p, digestOf);
        CallsForPoolsSnoc(ShutdownCall, ps, p);
        AppendAssoc(old(trace.log), CallsFor(ShutdownCall, AllServers(ps[..p])), CallsFor(ShutdownCall, ps[p].value));
      }
      assert ps[..|ps|] == ps;
    }

    /** `Stop`: shuts down the adversaries, the network (after folding its
        digest in), every pool server (after folding its digest in), then
        the clients, whose state never reaches the digest; forgets every
        actor, finalizes the history and returns the world's digest. */
    method Stop(networkDigest: Digest, digestOf: ServerConfig -> Digest) returns (d: Digest)
      requires Valid()
      modifies this, active, trace, recorder
      ensures Valid()
      ensures digest == old(digest) + [Combine(networkDigest)] + DigestsOf(AllServers(old(pools)), digestOf)
      ensures d == Fed(digest)
      ensures trace.log == old(trace.log) + CallsFor(ShutdownCall, old(adversaries)) +
        [ActorCall(ShutdownCall, NetworkActor, Some(NetworkActor))] +
        CallsFor(ShutdownCall, AllServers(old(pools))) + CallsFor(ShutdownCall, old(clients))
      ensures pools == [] && clients == [] && adversaries == [] && actors == [] && states == []
      ensures recorder.events == old(recorder.events) + [Finalized]
      ensures active.current == old(active.current)
      ensures stepNumber == old(stepNumber) && startTime == old(startTime) && lastId == old(lastId)
    {
      var items := ShutdownActors(digestOf);
      recorder.Finalize();
      Forget([Combine(networkDigest)] + items);
      d := Fed(digest);
    }

    /** The end of `Stop`: the digest items are folded in and every actor
        is forgotten; nothing else changes. */
    method Forget(items: seq<DigestItem>)
      requires Valid()
      modifies this
      ensures Valid()
      ensures digest == old(digest) + items
      ensures pools == [] && clients == [] && adversaries == [] && actors == [] && states == []
      ensures stepNumber == old(stepNumber) && startTime == old(startTime) && lastId == old(lastId)
    {
      digest := digest + items;
      adversaries, pools, clients, actors, states := [], [], [], [], [];
    }

    /** The shutdown calls of `Stop`, in its order, and the digest items of
        the pool servers, which follow the network's. */
    method ShutdownActors(digestOf: ServerConfig -> Digest) returns (items: seq<DigestItem>)
      modifies active, trace
      ensures items == DigestsOf(AllServers(pools), digestOf)
      ensures trace.log == old(trace.log) + CallsFor(ShutdownCall, adversaries) +
        [ActorCall(ShutdownCall, NetworkActor, Some(NetworkActor))] +
        CallsFor(ShutdownCall, AllServers(pools)) + CallsFor(ShutdownCall, clients)
      ensures active.current == old(active.current)
    {
      CallEach(ShutdownCall, adversaries);
      CallInScope(ShutdownCall, NetworkActor);
      items := ShutdownPools(digestOf);
      CallEach(ShutdownCall, clients);
    }

    /** Appends `config` to the target pool, creating a named pool that
        does not exist yet; nothing else changes. */
    method AppendToPool(target: PoolRef, config: ServerConfig, ghost members: seq<ServerConfig>)
      requires Sorted(pools) && PoolOf(target) == members
      modifies this
      ensures Sorted(pools)
      ensures PoolOf(target) == members + [config]
      ensures target.NamedPool? ==> pools == Put(old(pools), target.name, members + [config])
      ensures target.NamedPool? ==>
        Get(pools, target.name) == Some(members + [config]) && SameOtherPools(pools, old(pools), target.name)
      ensures !target.NamedPool? ==> pools == old(pools)
      ensures clients == if target == ClientPool then old(clients) + [config] else old(clients)
      ensures adversaries == if target == AdversaryPool then old(adversaries) + [config] else old(adversaries)
      ensures actors == old(actors) && states == old(states) && lastId == old(lastId)
      ensures startTime == old(startTime)
    {
      match target {
        case NamedPool(name) =>
          var pool := Get(pools, name).GetOr([]);
          PutKeepsOthers(pools, name, pool + [config]);
          pools := Put(pools, name, pool + [config]);
        case ClientPool =>
          clients := clients + [config];
        case AdversaryPool =>
          adversaries := adversaries + [config];
      }
    }

    /** `AddServerImpl`: the next server id, appended to the target pool,
        registered with the network and appended to the actors. The id is
        new: no actor has it yet. */
    method AddServerImpl(target: PoolRef, poolName: string, hostname: string, ghost members: seq<ServerConfig>)
      requires Valid() && PoolOf(target) == members
      modifies this, network
      ensures Valid()
      ensures lastId == old(lastId) + 1 && ServerActor(lastId) !in old(actors)
      ensures PoolOf(target) == members + [ServerConfig(lastId, hostname, poolName)]
      ensures target.NamedPool? ==>
        Get(pools, target.name) == Some(members + [ServerConfig(lastId, hostname, poolName)]) &&
        SameOtherPools(pools, old(pools), target.name)
      ensures !target.NamedPool? ==> pools == old(pools)
      ensures target != ClientPool ==> clients == old(clients)
      ensures target != AdversaryPool ==> adversaries == old(adversaries)
      ensures network.servers == old(network.servers) + [hostname]
      ensures actors == old(actors) + [ServerActor(lastId)]
      ensures states == old(states) + [ActorState(Servers.Initial, [])]
    {
      var id := NextId();
      AppendToPool(target, ServerConfig(id, hostname, poolName), members);
      network.AddServer(hostname);
      AddActor(ServerActor(id));
    }

    /** The server id generator: ids are handed out in increasing order,
        starting from 1. */
    method NextId() returns (id: nat)
      requires Valid()
      modifies this
      ensures Valid()
      ensures id == lastId == old(lastId) + 1 && ServerActor(id) !in actors
      ensures pools == old(pools) && clients == old(clients) && adversaries == old(adversaries)
      ensures actors == old(actors) && states == old(states)
    {
      lastId := lastId + 1;
      id := lastId;
    }

    /** `AddActor`: a server actor joins the event loop; it has not started
        yet, so it has no work queued. */
    method AddActor(a: Actor)
      requires Valid() && (a.ServerActor? ==> a.id <= lastId)
      modifies this
      ensures Valid()
      ensures actors == old(actors) + [a] && states == old(states) + [ActorState(Servers.Initial, [])]
      ensures pools == old(pools) && clients == old(clients) && adversaries == old(adversaries)
      ensures lastId == old(lastId)
    {
      actors := actors + [a];
      states := states + [ActorState(Servers.Initial, [])];
    }

    /** `AddToPool`: names the server after the template and the pool's
        new size. */
    method AddToPool(target: PoolRef, poolName: string, template: string, ghost members: seq<ServerConfig>)
      requires Valid() && PoolOf(target) == members
      modifies this, network
      ensures Valid()
      ensures lastId == old(lastId) + 1
      ensures var config := ServerConfig(lastId, MakeServerName(template, |members| + 1), poolName);
        PoolOf(target) == members + [config] &&
        (target.NamedPool? ==> Get(pools, target.name) == Some(members + [config]))
      ensures target.NamedPool? ==> SameOtherPools(pools, old(pools), target.name)
      ensures !target.NamedPool? ==> pools == old(pools)
      ensures target != ClientPool ==> clients == old(clients)
      ensures target != AdversaryPool ==> adversaries == old(adversaries)
      ensures actors == old(actors) + [ServerActor(lastId)]
    {
      var hostname := MakeServerName(template, |PoolOf(target)| + 1);
      AddServerImpl(target, poolName, hostname, members);
    }

    /** `AddServer`: a server with a chosen name, in the "snowflakes"
        pool. */
    method AddServer(hostname: string)
      requires Valid()
      modifies this, network
      ensures Valid()
      ensures PoolOf(NamedPool("snowflakes")) ==
        old(PoolOf(NamedPool("snowflakes"))) + [ServerConfig(lastId, hostname, "snowflakes")]
      ensures lastId == old(lastId) + 1 && actors == old(actors) + [ServerActor(lastId)]
      ensures network.servers == old(network.servers) + [hostname]
      ensures clients == old(clients) && adversaries == old(adversaries)
    {
      AddServerImpl(NamedPool("snowflakes"), "snowflakes", hostname, PoolOf(NamedPool("snowflakes")));
    }

    /** `AddPool`: creates the pool if it is new (even for size zero) and
        appends `size` servers named after the template, numbered on from
        the pool's current size; other pools, the clients and the
        adversaries are untouched. */
    method AddPool(name: string, size: nat, template: string)
      requires Valid()
      modifies this, network
      ensures Valid()
      ensures var pool := old(Get(pools, name)).GetOr([]);
        Get(pools, name) == Some(Grown(pool, name, template, old(lastId) + 1, size))
      ensures SameOtherPools(pools, old(pools), name)
      ensures clients == old(clients) && adversaries == old(adversaries)
      ensures lastId == old(lastId) + size && |actors| == |old(actors)| + size
    {
      var pool := CreatePool(name);
      ghost var firstId := lastId + 1;
      ghost var count := |actors|;
      for i := 0 to size
        invariant Adding(name, template, pool, firstId, i, old(pools), old(clients), old(adversaries), count)
      {
        AddPoolServer(name, template, pool, firstId, i, old(pools), old(clients), old(adversaries), count);
      }
    }

    /** The state after `AddPool` has added `i` of its servers: the pool has
        grown by them, the ids and actors by as many, and nothing else
        changed. */
    ghost predicate Adding(name: string, template: string, pool: seq<ServerConfig>, firstId: nat, i: nat,
                           orig: seq<Entry<seq<ServerConfig>>>, cs: seq<ServerConfig>, advs: seq<ServerConfig>, count: nat)
      reads this, time
    {
      Valid() && lastId + 1 == firstId + i && |actors| == count + i &&
      Get(pools, name) == Some(Grown(pool, name, template, firstId, i)) &&
      SameOtherPools(pools, orig, name) && clients == cs && adversaries == advs
    }

    /** `pools_[name]`: the named pool, created empty if it is new. */
    method CreatePool(name: string) returns (pool: seq<ServerConfig>)
      requires Valid()
      modifies this
      ensures Valid()
      ensures pool == old(Get(pools, name)).GetOr([]) && Get(pools, name) == Some(pool)
      ensures SameOtherPools(pools, old(pools), name)
      ensures clients == old(clients) && adversaries == old(adversaries)
      ensures lastId == old(lastId) && actors == old(actors) && states == old(states)
    {
      pool := Get(pools, name).GetOr([]);
      PutKeepsOthers(pools, name, pool);
      pools := Put(pools, name, pool);
    }

    /** Server `i` of `AddPool`: `AddToPool` on a named pool, which
        continues the pool's numbering and leaves every other pool as it
        was. */
    method AddPoolServer(name: string, template: string, ghost pool: seq<ServerConfig>, ghost firstId: nat,
                         ghost i: nat, ghost orig: seq<Entry<seq<ServerConfig>>>, ghost cs: seq<ServerConfig>,
                         ghost advs: seq<ServerConfig>, ghost count: nat)
      requires Adding(name, template, pool, firstId, i, orig, cs, advs, count)
      modifies this, network
      ensures Adding(name, template, pool, firstId, i + 1, orig, cs, advs, count)
    {
      ghost var before := pools;
      AddToPool(NamedPool(name), name, template, Grown(pool, name, template, firstId, i));
      assert lastId == firstId + i;
      SameOtherPoolsTrans(pools, before, orig, name);
    }

    method AddClient()
      requires Valid()
      modifies this, network
      ensures Valid()
      ensures clients == old(clients) + [ServerConfig(lastId, MakeServerName("Client", |old(clients)| + 1), "clients")]
      ensures adversaries == old(adversaries) && pools == old(pools)
    {
      AddToPool(ClientPool, "clients", "Client", clients);
    }

    /** `AddAdversary`: the new adversary's name starts with "Adversary",
        so it runs under the adversary time model. */
    method AddAdversary()
      requires Valid()
      modifies this, network
      ensures Valid()
      ensures adversaries == old(adversaries) +
        [ServerConfig(lastId, MakeServerName("Adversary", |old(adversaries)| + 1), "adversaries")]
      ensures clients == old(clients) && pools == old(pools)
      ensures HasAdversary()
      ensures MakeServerTimeModel(adversaries[|adversaries| - 1].hostname) == AdversaryServer
    {
      ServerNameStartsWith("Adversary", |adversaries| + 1);
      AddToPool(AdversaryPool, "adversaries", "Adversary", adversaries);
    }

    /** `GetPool`: the host names of a pool, in order; none for an unknown
        pool. */
    method GetPool(name: string) returns (hosts: seq<string>)
      requires Sorted(pools)
      ensures name !in Keys(pools) ==> hosts == []
      ensures |hosts| == |PoolOf(NamedPool(name))|
      ensures forall i :: 0 <= i < |hosts| ==> hosts[i] == PoolOf(NamedPool(name))[i].hostname
    {
      var found := Get(pools, name);
      if found.None? {
        return [];
      }
      var pool := found.value;
      hosts := [];
      for i := 0 to |pool|
        invariant |hosts| == i
        invariant forall k :: 0 <= k < i ==> hosts[k] == pool[k].hostname
      {
        hosts := hosts + [pool[i].hostname];
      }
    }

    /** `ClusterSize`: the number of pool servers; clients and adversaries
        are not counted. */
    method ClusterSize() returns (count: nat)
      ensures count == |AllServers(pools)|
    {
      count := 0;
      for p := 0 to |pools|
        invariant count == |AllServers(pools[..p])|
      {
        AllServersSnoc(pools, p);
        count := count + |pools[p].value|;
      }
      assert pools[..|pools|] == pools;
    }

    method FindInPool(pool: seq<ServerConfig>, hostname: string) returns (r: Option<ServerConfig>)
      ensures r == FirstWithHost(pool, hostname)
    {
      for i := 0 to |pool|
        invariant forall j :: 0 <= j < i ==> pool[j].hostname != hostname
      {
        if pool[i].hostname == hostname {
          FirstMatch(pool, hostname, i);
          return Some(pool[i]);
        }
      }
      return None;
    }

    /** `FindServer`: the first pool server with that name, searching the
        pools in name order; clients and adversaries are not searched. */
    method FindServer(hostname: string) returns (r: Option<ServerConfig>)
      ensures r == FirstWithHost(AllServers(pools), hostname)
    {
      for p := 0 to |pools|
        invariant FirstWithHost(AllServers(pools[..p]), hostname) == None
      {
        var found := FindInPool(pools[p].value, hostname);
        AllServersSnoc(pools, p);
        FirstWithHostConcat(AllServers(pools[..p]), pools[p].value, hostname);
        if found.Some? {
          AllServersSplit(pools, p + 1);
          FirstWithHostConcat(AllServers(pools[..p + 1]), AllServers(pools[p + 1..]), hostname);
          return found;
        }
      }
      assert pools[..|pools|] == pools;
      return None;
    }

    /** `RestartServer`: reboots the named pool server (it must exist): if
        it is alive, its queued work is replaced by its main program at the
        current time; a crashed or unstarted server, and every other actor,
        is left as it was. */
    method RestartServer(hostname: string)
      requires Valid()
      requires FirstWithHost(AllServers(pools), hostname).Some?
      modifies this
      ensures Valid()
      ensures var a := ServerActor(old(FirstWithHost(AllServers(pools), hostname)).value.id);
        |states| == |old(states)| &&
        forall j :: 0 <= j < |states| ==>
          states[j] == if actors[j] == a && old(states[j]).Alive()
                       then ActorState(Servers.Running, [time.now]) else old(states[j])
      ensures actors == old(actors) && pools == old(pools) && stepNumber == old(stepNumber)
    {
      var server := FindServer(hostname);
      var a := ServerActor(server.value.id);
      var now := time.now;
      var before := states;
      var registered := actors;
      states := seq(|before|, j requires 0 <= j < |before| =>
        if registered[j] == a && before[j].Alive() then ActorState(Servers.Running, [now]) else before[j]);
    }
  }
}
