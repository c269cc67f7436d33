/**
 * A simulated server (matrix/server/server.cpp): a process that can be
 * started, paused, resumed, crashed and rebooted. A crash wipes everything a
 * process keeps in memory (network endpoints, open files, scheduled tasks,
 * heap) but keeps the files on disk.
 *
 * The heap (`process::Memory`) is reduced to the number of bytes it reports
 * as allocated, and a reset heap is assumed to report zero. What the code
 * running under the heap allocates or frees (the runtime set up at launch,
 * each task a step runs) is the user program's business; it comes in as a
 * parameter, and `Step` hands back the task it took.
 */
module Servers {
  import opened Wrappers
  import opened Strings
  import opened Randomness
  import opened Packets
  import opened TimeModels
  import opened Clocks
  import opened Scheduling
  import opened Digests
  import opened Filesystem
  import opened RuntimeFs
  import opened Transports
  import Net

  datatype State = Initial | Running | Paused | Crashed

  class Server {
    const host: string
    const scheduler: Scheduler
    const fs: FileSystem
    const transport: Transport
    const monotonic: MonotonicClock
    const wall: WallClock
    var model: Option<ServerTimeModel>   // set by `Start`
    var state: State
    var heapBytes: nat

    /** A new server has not started; its parts are fresh and empty. */
    constructor (host: string)
      ensures this.host == host && state == Initial && model == None && heapBytes == 0
      ensures fresh(scheduler) && fresh(fs) && fresh(transport) && fresh(monotonic) && fresh(wall)
      ensures scheduler.queue == [] && transport.endpoints == map[] && fs.files == []
      ensures Valid()
    {
      this.host := host;
      var sched := new Scheduler();
      scheduler := sched;
      fs := new FileSystem();
      transport := new Transport(host, sched);
      monotonic := new MonotonicClock();
      wall := new WallClock();
      model := None;
      state := Initial;
      heapBytes := 0;
    }

    /** What holds between operations: the parts are consistent, the
        transport queues work on this server's scheduler, a live server has a
        time model, and a crashed one holds no process state at all. */
    ghost predicate Valid()
      reads this, fs, monotonic, transport, scheduler
    {
      fs.Valid() && monotonic.Valid() && transport.scheduler == scheduler &&
      ((state == Running || state == Paused) ==> model.Some?) &&
      (state == Crashed ==> transport.endpoints == map[] && scheduler.queue == [] && fs.openFiles == map[] && heapBytes == 0)
    }

    /** Alive: started and not crashed since. */
    predicate IsAlive()
      reads this
      ensures IsAlive() <==> state != Initial && state != Crashed
    {
      state == Running || state == Paused
    }

    /** Only a running server with queued work can make a step. */
    predicate IsRunnable()
      reads this, scheduler
      ensures IsRunnable() ==> IsAlive()
      ensures IsRunnable() <==> state == Running && scheduler.queue != []
    {
      state == Running && !scheduler.IsEmpty()
    }

    /** Due time of the next task. */
    function NextStepTime(): (t: nat)
      reads this, scheduler
      requires scheduler.queue != []
      ensures forall i :: 0 <= i < |scheduler.queue| ==> t <= scheduler.queue[i].at
    {
      scheduler.NextTaskTime()
    }

    /** Wipes the process: endpoints, open files, scheduled tasks and heap.
        Files on disk survive. Crashing a crashed server is a fatal error. */
    method Crash()
      requires Valid() && state != Crashed
      modifies this, transport, fs, scheduler
      ensures Valid() && state == Crashed
      ensures transport.endpoints == map[] && scheduler.queue == [] && heapBytes == 0
      ensures fs.openFiles == map[] && fs.nextFd == 0
      ensures fs.files == old(fs.files) && fs.data == old(fs.data)
      ensures model == old(model) && transport.nextPort == old(transport.nextPort)
    {
      transport.Reset();
      fs.Reset();
      scheduler.Reset();
      heapBytes := 0;
      state := Crashed;
    }

    /** Starts the process: resets the monotonic clock and, under the heap,
        sets up the runtime (`runtimeBytes` bytes) and schedules the main program
        at the current global time. Only a server that has not run yet or has
        crashed can be launched. */
    method Launch(now: nat, runtimeBytes: nat, s: Stream) returns (rest: Stream)
      requires Valid() && (state == Initial || state == Crashed) && model.Some?
      modifies this, monotonic, scheduler
      ensures Valid() && state == Running
      ensures scheduler.queue == old(scheduler.queue) + [Timed(now, MainTask)]
      ensures monotonic.lastReset == now && monotonic.drift == old(monotonic.drift)
      ensures monotonic.init == ResetMonotonicClock(model.value, s).value
      ensures rest == ResetMonotonicClock(model.value, s).rest
      ensures heapBytes == old(heapBytes) + runtimeBytes
      ensures model == old(model)
    {
      rest := monotonic.Reset(model.value, now, s);
      heapBytes := heapBytes + runtimeBytes;
      scheduler.Schedule(now, MainTask);
      state := Running;
    }

    /** `IActor::Start`: takes the host's time model, draws the wall clock
        offset, initialises the monotonic clock (drift, then a reset) and
        launches, which resets the monotonic clock once more. */
    method Start(m: ServerTimeModel, now: nat, runtimeBytes: nat, s: Stream) returns (rest: Stream)
      requires Valid() && state == Initial
      modifies this, wall, monotonic, scheduler
      ensures Valid() && state == Running && model == Some(m)
      ensures heapBytes == old(heapBytes) + runtimeBytes
      ensures scheduler.queue == old(scheduler.queue) + [Timed(now, MainTask)]
      ensures var afterWall := InitWallClockOffset(m, s);
        var afterDrift := InitClockDrift(m, afterWall.rest);
        var afterInit := ResetMonotonicClock(m, afterDrift.rest);
        wall.offset == afterWall.value &&
        monotonic.drift == Drift(afterDrift.value) &&
        monotonic.init == ResetMonotonicClock(m, afterInit.rest).value &&
        rest == ResetMonotonicClock(m, afterInit.rest).rest
    {
      model := Some(m);
      rest := wall.Init(m, s);
      rest := monotonic.Init(m, now, rest);
      rest := Launch(now, runtimeBytes, rest);
    }

    /** Crash followed by launch, for a live server; otherwise nothing. */
    method FastReboot(now: nat, runtimeBytes: nat, s: Stream) returns (rest: Stream)
      requires Valid()
      modifies this, transport, fs, scheduler, monotonic
      ensures Valid()
      ensures !old(IsAlive()) ==>
        state == old(state) && scheduler.queue == old(scheduler.queue) &&
        transport.endpoints == old(transport.endpoints) && fs.openFiles == old(fs.openFiles) &&
        heapBytes == old(heapBytes) && rest == s
      ensures old(IsAlive()) ==>
        state == Running && scheduler.queue == [Timed(now, MainTask)] &&
        transport.endpoints == map[] && fs.openFiles == map[] && heapBytes == runtimeBytes &&
        rest == ResetMonotonicClock(model.value, s).rest
      ensures fs.files == old(fs.files) && fs.data == old(fs.data) && model == old(model)
    {
      if !IsAlive() {
        return s;
      }
      Crash();
      rest := Launch(now, runtimeBytes, s);
    }

    /** Freezes a running server; in any other state nothing happens. */
    method Pause()
      requires Valid()
      modifies this
      ensures Valid()
      ensures state == if old(state) == Running then Paused else old(state)
      ensures model == old(model) && heapBytes == old(heapBytes)
    {
      if !IsAlive() {
        return;
      }
      if state == Paused {
        return;
      }
      state := Paused;
    }

    /** Unfreezes a paused server, resuming its scheduler at global time
        `now`; in any other state nothing happens. */
    method Resume(now: nat)
      requires Valid()
      modifies this, scheduler
      ensures Valid()
      ensures old(state) == Paused ==> state == Running && scheduler.resumedAt == Some(now)
      ensures old(state) != Paused ==> state == old(state) && scheduler.resumedAt == old(scheduler.resumedAt)
      ensures scheduler.queue == old(scheduler.queue) && model == old(model) && heapBytes == old(heapBytes)
    {
      if state != Paused {
        return;
      }
      scheduler.Resume(now);
      state := Running;
    }

    /** Redraws the wall clock's offset; nothing else changes. */
    method AdjustWallClock(s: Stream) returns (rest: Stream)
      requires Valid() && model.Some?
      modifies wall
      ensures wall.offset == InitWallClockOffset(model.value, s).value
      ensures rest == InitWallClockOffset(model.value, s).rest
    {
      rest := wall.AdjustOffset(model.value, s);
    }

    /** Takes the earliest task off the queue; the caller runs it under the
        heap, which then reports `heapChange` more (or, when negative, fewer)
        bytes as allocated. */
    method Step(heapChange: int) returns (task: Task)
      requires Valid() && scheduler.queue != [] && heapBytes + heapChange >= 0
      modifies this, scheduler
      ensures Valid()
      ensures heapBytes == old(heapBytes) + heapChange
      ensures state == old(state) && model == old(model)
      ensures var k := PriorityQueues.Smallest(old(scheduler.queue), DueAt);
        task == old(scheduler.queue)[k].task && |scheduler.queue| == |old(scheduler.queue)| - 1 &&
        multiset(scheduler.queue) + multiset{old(scheduler.queue)[k]} == multiset(old(scheduler.queue))
    {
      task := scheduler.TakeNext();
      heapBytes := heapBytes + heapChange;
    }

    /** Crashes the server unless it is crashed already; a server is always
        crashed when it is destroyed. */
    method Shutdown()
      requires Valid()
      modifies this, transport, fs, scheduler
      ensures Valid() && state == Crashed
      ensures fs.files == old(fs.files) && fs.data == old(fs.data)
    {
      if state != Crashed {
        Crash();
      }
    }

    /** Hands a packet that arrived over the reverse of `out` to the
        transport. A crashed server has no endpoints, so it may answer with a
        reset but never queues work. */
    method HandlePacket(p: Packet, out: Net.Link, now: nat, tm: TimeModel, s: Stream)
      returns (rest: Stream)
      requires Valid()
      modifies out, out.net, scheduler
      ensures Valid()
      ensures old(state) == Crashed ==> scheduler.queue == old(scheduler.queue)
      ensures Decide(transport.endpoints, p, out.id).Deliver? ==>
        scheduler.queue == old(scheduler.queue) + [Timed(now, Decide(transport.endpoints, p, out.id).task)]
      ensures !Decide(transport.endpoints, p, out.id).Deliver? ==> scheduler.queue == old(scheduler.queue)
    {
      rest := transport.HandlePacket(p, out, now, tm, s);
    }

    /** The server's state digest: zero for a crashed server, otherwise the
        heap size followed by the filesystem's digest. */
    function ComputeDigest(): (d: Digest)
      reads this, fs
      requires fs.Valid()
      ensures d == Zero <==> state == Crashed
      ensures d.Fed? ==> d.items == [EatNumber(heapBytes), Combine(fs.ComputeDigest())]
    {
      if state == Crashed then Zero
      else Fed([EatNumber(heapBytes), Combine(fs.ComputeDigest())])
    }

    /** The stored paths under `prefix`, in path order (the evidently intended
        behaviour of `Server::ListFiles`; see `ListLoopAsWritten`). */
    method ListFiles(prefix: string) returns (listed: seq<string>)
      requires fs.Valid()
      ensures listed == WithPrefix(fs.Paths(), prefix)
    {
      listed := CollectWithPrefix(fs.Paths(), prefix);
    }
  }

  /** `Server::ListFiles` as written: the loop tests the directory iterator
      at position `pos` but never advances it. `fuel` bounds the number of
      iterations; `None` means the loop was still running when it ran out. */
  function ListLoopAsWritten(paths: seq<string>, prefix: string, pos: nat, listed: seq<string>, fuel: nat)
    : (r: Option<seq<string>>)
    ensures pos >= |paths| ==> r == Some(listed)
    decreases fuel
  {
    if pos >= |paths| then Some(listed)
    else if fuel == 0 then None
    else
      var next := if StartsWith(paths[pos], prefix) then listed + [paths[pos]] else listed;
      ListLoopAsWritten(paths, prefix, pos, next, fuel - 1)
  }

  /** As written, listing a non-empty directory never finishes, however many
      iterations are allowed; only an empty directory is listed. */
  lemma {:induction false} ListLoopAsWrittenNeverEnds(paths: seq<string>, prefix: string, listed: seq<string>, fuel: nat)
    requires paths != []
    ensures ListLoopAsWritten(paths, prefix, 0, listed, fuel) == None
    decreases fuel
  {
    if fuel > 0 {
      var next := if StartsWith(paths[0], prefix) then listed + [paths[0]] else listed;
      ListLoopAsWrittenNeverEnds(paths, prefix, next, fuel - 1);
    }
  }

  /** A concrete instance: one stored file and a matching prefix. The
      intended listing is that file; the loop as written never returns. */
  lemma ListFilesCounterexample(fuel: nat)
    ensures ListLoopAsWritten(["/a"], "/", 0, [], fuel) == None
    ensures WithPrefix(["/a"], "/") == ["/a"]
  {
    ListLoopAsWrittenNeverEnds(["/a"], "/", [], fuel);
  }
}
