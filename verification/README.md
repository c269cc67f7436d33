# whirl-matrix in Dafny

A model of the core of whirl-matrix: a deterministic simulator for
distributed programs. The simulator runs a cluster of servers, clients and
adversaries on one thread in virtual time. A world owns the actors (servers
and the network) and repeatedly steps the runnable actor whose next work is
due earliest. Ties go to the lowest registration index. Each step feeds the
step's time and the actor's index into a digest, so two runs with the same
seed can be compared. All randomness comes from one seeded source.

Servers are processes with a life cycle (initial, running, paused, crashed).
A crash wipes process memory but keeps the disk. Messages travel as frames
over one-way links that fault injection can pause. Per-server clocks drift
according to a time model. Storage is emulated by an in-memory filesystem and
a small log-structured database. Client calls are recorded into a history and
checked for linearizability.

Each Dafny module follows one source file or a small group of them:

| module | file | source |
|---|---|---|
| `Worlds` | world.dfy | matrix/world/world.hpp, world.cpp |
| `VirtualTime` | time.dfy | matrix/time/time.hpp |
| `ActorCtx` | actor_ctx.dfy | matrix/world/actor_ctx.hpp |
| `Randomness` | random_source.dfy | matrix/world/random_source.hpp |
| `Servers` | server.dfy | matrix/server/server.cpp |
| `Fibers` | fibers.dfy | matrix/process/fibers.cpp |
| `Scheduling`, `PriorityQueues`, `Digests` | scheduler.dfy, priority_queue.dfy, digest.dfy | the task queue, time-keyed queues and state digests these rely on |
| `Packets`, `Net`, `Transports` | packets.dfy, network.dfy, transport.dfy | matrix/network |
| `Faults` | faults.dfy | matrix/fault/net/split.cpp, isolate.cpp |
| `TimeModels` | time_models.dfy | matrix/time_model/catalog/crazy.cpp, adversary.cpp |
| `Clocks` | clocks.dfy | matrix/clocks |
| `TimeServices` | runtime_time.dfy | matrix/server/runtime/time.hpp, true_time.hpp, random.hpp |
| `TestRandom` | test_random.dfy | matrix/test/random.hpp |
| `Guids` | guids.dfy | matrix/guids/generator.cpp |
| `UntypedDicts`, `Config` | untyped_dict.dfy, config.dfy | matrix/helpers/untyped_dict.hpp, matrix/config/config.cpp |
| `Histories`, `Checker` | history.dfy, checker.dfy | matrix/history/channel.cpp, matrix/semantics/checker |
| `Filesystem`, `RuntimeFs` | fs.dfy, runtime_fs.dfy | matrix/fs, matrix/server/runtime/filesystem.hpp |
| `SortedMap`, `MemTables`, `Databases`, `Iterators`, `Framing` | sorted_map.dfy, mem_table.dfy, database.dfy, iterators.dfy, framed.dfy | matrix/db |
| `JsonWriters` | json_writer.dfy | matrix/helpers/json_writer.hpp |
| `Logging` | log.dfy | matrix/log/format.cpp, env.cpp, backend.cpp |
| `KeyValue` | kv.dfy | examples/kv/node/main.cpp |
| `Strings`, `Wrappers` | strings.dfy, wrappers.dfy | string order and printing, `Option` and `Result` |

Objects whose fields the simulator updates in place are classes with
`modifies` clauses, for example the world, a server, a link or a file
system. Pure decisions are functions: time models, configuration lookup,
log formatting and call classification. Loops are methods with invariants,
each proved against a function that states its result. Simulator invariant
checks (`WHEELS_VERIFY`, panics) become preconditions. Errors that depend on
data become `Result` values: a broken frame, a malformed log-level
specification, a missing configuration key, a bad `std::any_cast`.

The random engine is an uninterpreted function from (seed, draw index) to a
32-bit word. Code that draws threads a `Stream` (engine, seed, position)
explicitly. Each lemma states which draws a function consumes.

## Model

| member | source | states |
|---|---|---|
| VirtualTime.Time.constructor | matrix/time/time.hpp:34 | the virtual clock starts at time zero |
| VirtualTime.Time.FastForwardTo | matrix/time/time.hpp:27-31 | going back in time is a fatal error (required); afterwards `Now` is the target, so readings of `Now` never decrease |
| ActorCtx.ActorContext.constructor | matrix/world/actor_ctx.hpp:49 | no actor is current at first |
| ActorCtx.ActorContext.Scope | matrix/world/actor_ctx.hpp:15-22 | opening a scope makes the actor current, the guard remembers the displaced actor, and the guard's target is the actor it was opened with |
| ActorCtx.ActorContext.EndScope | matrix/world/actor_ctx.hpp:24-27 | closing a scope reinstates exactly the actor its guard displaced |
| ActorCtx.ActorContext.NestScopes | matrix/world/actor_ctx.hpp:15-37 | scopes opened in order and closed in reverse order leave the current actor as it was, and while the innermost is open its actor is current |
| Randomness.Draw | matrix/world/random_source.hpp:25-28 | one draw is the engine's output at the stream position and advances the position by exactly one |
| Randomness.Below | matrix/world/random_source.hpp:25-28 | a bounded draw is below its bound and takes exactly one engine output |
| Randomness.Between | matrix/world/random_source.hpp:25-28 | a ranged draw lies in the closed range and takes exactly one engine output |
| Randomness.RandomSource.constructor | matrix/world/random_source.hpp:16-18 | construction seeds the engine and sets the draw counter to zero |
| Randomness.RandomSource.Reset | matrix/world/random_source.hpp:20-23 | reseeding sets the seed and sets the draw counter to zero |
| Randomness.RandomSource.Next | matrix/world/random_source.hpp:25-32 | each draw is the engine's output for (seed, number of earlier draws), so the output depends only on the seed and the draw index; the counter grows by exactly one |
| Randomness.RandomSource.AsStream | matrix/world/random_source.hpp:30-32 | the outputs still to come start at position `Steps()` of the seeded engine |
| Fibers.Zeros | matrix/process/fibers.hpp:17-19 | a reset stack holds the stack size's worth of zero bytes |
| Fibers.FiberManager.constructor | matrix/process/fibers.hpp:36-37 | the id counter starts at zero and the free-list is empty |
| Fibers.FiberManager.GenerateId | matrix/process/fibers.cpp:5-7 | ids are pre-incremented: 1, 2, 3, ..., each one more than the last |
| Fibers.FiberManager.AcquireStack | matrix/process/fibers.cpp:9-23 | a non-empty free-list hands out its top (the most recently released stack) and shrinks by one; an empty one leads to a new stack and stays empty; the stack handed out is zeroed, every view has the stack size, and no other stack changes |
| Fibers.FiberManager.ReleaseStack | matrix/process/fibers.cpp:25-28 | the released stack goes on top of the free-list, which grows by one |
| Guids.GuidFor | matrix/guids/generator.cpp:8-11 | an identifier is "guid-", the letter of "YXZ" at the value modulo 3, "-", and the value in decimal |
| Guids.GuidForInjective | matrix/guids/generator.cpp:11 | different counter values print as different identifiers |
| Guids.LetterCycle | matrix/guids/generator.cpp:8-11 | the letters for values 1, 2 and 3 are X, Z and Y, and the letter repeats with period three |
| Guids.GuidGenerator.constructor | matrix/guids/generator.hpp:15 | the counter starts at zero, so the first identifier uses value 1 |
| Guids.GuidGenerator.GenerateNext | matrix/guids/generator.cpp:7-12 | the counter is incremented before use and the identifier prints its new value |
| Guids.TwoGuidsDiffer | matrix/guids/generator.cpp:7-12 | two successive identifiers from one generator differ |
| UntypedDicts.Lookup | matrix/helpers/untyped_dict.hpp:15-21 | a stored key gives its value, a missing key an empty `std::any` |
| UntypedDicts.UntypedDict.constructor | matrix/helpers/untyped_dict.hpp:28 | a new dictionary is empty |
| UntypedDicts.UntypedDict.Set | matrix/helpers/untyped_dict.hpp:11-13 | insert-or-assign: the key now holds the new value, and every other key keeps its value and presence |
| UntypedDicts.UntypedDict.Has | matrix/helpers/untyped_dict.hpp:23-25 | holds exactly for stored keys; a key that is not held reads as empty |
| TestRandom.Width | matrix/test/random.hpp:13 | the range width in unsigned 64-bit arithmetic equals `hi - lo + 1` when that does not wrap |
| TestRandom.GetValueInRange | matrix/test/random.hpp:12-14 | for an ordered range the result lies in [lo, hi], and a one-value range gives that value |
| TestRandom.Random.constructor | matrix/test/random.hpp:9-10 | the engine is seeded and no output has been taken |
| TestRandom.Random.Get | matrix/test/random.hpp:12-14 | `lo + output % width` with 64-bit wrap-around, within [lo, hi] for an ordered range, using exactly one engine output |
| TestRandom.Random.Maybe | matrix/test/random.hpp:16-18 | the result is 1 exactly when the engine output is a multiple of `count`, otherwise 0, using exactly one engine output |
| VirtualTime.Time.Now | matrix/time/time.hpp:23-25 | the current virtual time |
| Randomness.RandomSource.Steps | matrix/world/random_source.hpp:30-32 | the number of outputs taken since seeding, which is the position of the remaining stream |
| ActorCtx.ActorContext.Get | matrix/world/actor_ctx.hpp:39-41 | the actor installed by the innermost open scope, none outside every scope |
| UntypedDicts.UntypedDict.Get | matrix/helpers/untyped_dict.hpp:15-21 | the stored value for a stored key, an empty any for a missing one |
| Clocks.Drift.Rate | matrix/clocks/drift.hpp:5-12 | within the documented drift range [-99, +inf) the clock's rate is at least one percent of global speed |
| Clocks.Drift.SleepOrTimeout | matrix/clocks/drift.hpp:27-33 | a wait is zero exactly when the requested duration is zero; a positive request never waits less than one jiffy |
| Clocks.ElapsedWithoutDrift | matrix/clocks/drift.hpp:21-23 | with drift 0 the clock keeps global time |
| Clocks.DocumentedRates | matrix/clocks/drift.hpp:5-23 | drifts -75, -50, +100 and +200 make the clock run at a quarter, half, twice and three times global speed |
| Clocks.ElapsedMonotone | matrix/clocks/drift.hpp:21-23 | a drifting clock never runs backwards: more global time is at least as much observed time |
| Clocks.SleepInvertsElapsed | matrix/clocks/drift.hpp:21-33 | the global wait chosen for a request is the longest one the clock observes as at most the request (when that is at least one jiffy), and one jiffy more is observed as at least the request |
| Clocks.MonotonicClock.constructor | matrix/clocks/monotonic.hpp:42-44 | a new clock has no drift, last reset 0 and initial reading 0 |
| Clocks.MonotonicClock.Init | matrix/clocks/monotonic.hpp:16-19 | draws the drift from the server's time model, then resets: the reading restarts at a fresh draw at the current global time |
| Clocks.MonotonicClock.Reset | matrix/clocks/monotonic.hpp:21-24 | keeps the drift, takes a fresh initial reading from the time model and records the global time, so the clock reads exactly that initial value right after |
| Clocks.MonotonicClock.Now | matrix/clocks/monotonic.hpp:26-39 | the reading is drifted global time since the last reset plus the initial reading, never below the initial reading |
| Clocks.MonotonicNowNeverDecreases | matrix/clocks/monotonic.hpp:26-28 | between resets the monotonic reading never decreases as global time advances |
| Clocks.WallClock.constructor | matrix/clocks/wall.hpp:35 | the offset starts at zero |
| Clocks.WallClock.Init | matrix/clocks/wall.hpp:15-17 | the offset is one draw of the server's time model |
| Clocks.WallClock.AdjustOffset | matrix/clocks/wall.hpp:19-23 | redraws the offset exactly as `Init` does |
| Clocks.WallClock.Now | matrix/clocks/wall.hpp:25-27 | the reading is global time plus the offset |
| TimeServices.ElapsedSuperadditive | matrix/clocks/drift.hpp:21-23 | rounding down loses no more over a sum than over its parts |
| TimeServices.TimeService.constructor | matrix/server/runtime/time.hpp:19-25 | the service uses the given wall clock, monotonic clock and scheduler |
| TimeServices.TimeService.WallTimeNow | matrix/server/runtime/time.hpp:27-29 | the wall reading is global time plus the wall clock's offset |
| TimeServices.TimeService.MonotonicNow | matrix/server/runtime/time.hpp:31-33 | the monotonic reading is drifted time since the last reset plus the initial reading |
| TimeServices.TimeService.ToRealTimeDelay | matrix/server/runtime/time.hpp:49-51 | a delay maps to a zero global duration exactly when it is zero |
| TimeServices.TimeService.AfterRealTime | matrix/server/runtime/time.hpp:53-55 | a zero delay is due now; a positive delay is due strictly later |
| TimeServices.TimeService.AfterJiffies | matrix/server/runtime/time.hpp:35-46 | schedules exactly one timer task on the server's scheduler, due at `AfterRealTime(delay)` |
| TimeServices.TimerNeverFiresEarly | matrix/server/runtime/time.hpp:35-55 | by one jiffy after its due time, a timer's server has seen its monotonic clock advance by at least the delay |
| TimeServices.TrueTimeNow | matrix/server/runtime/true_time.hpp:12-24 | the interval contains global time, its upper end is now plus one uncertainty draw, its width is twice the uncertainty, and the lower end saturates at zero |
| TimeServices.GenerateNumber | matrix/server/runtime/random.hpp:13-16 | for a positive bound, one global draw reduced modulo the bound, so below it |
| Clocks.Drift.Elapsed | matrix/clocks/drift.hpp:21-23 | a clock at a rate up to 100% observes no more than the global duration, and one at 100% or more observes no less |
| Clocks.MonotonicClock.SleepOrTimeout | matrix/clocks/monotonic.hpp:31-33 | the global wait is zero exactly for a zero sleep, and waiting one jiffy past it the clock has observed at least the sleep |
| TimeModels.InitClockDrift | matrix/time_model/catalog/crazy.cpp:14-27 | the crazy model draws one of three bands (+200..+299 when the first draw is a multiple of 3, else +75..+99 or -75..-50 by a second draw) and then a value inside it; the adversary model (catalog/adversary.cpp:11-13) returns 0 without drawing |
| TimeModels.ResetMonotonicClock | matrix/time_model/catalog/crazy.cpp:29-31 | crazy: a reading in [1, 100] from one draw; adversary (catalog/adversary.cpp:15-17): 0 without drawing |
| TimeModels.InitWallClockOffset | matrix/time_model/catalog/crazy.cpp:33-35 | crazy: an offset below 1000 from one draw; adversary (catalog/adversary.cpp:19-21): 0 without drawing |
| TimeModels.TrueTimeUncertainty | matrix/time_model/catalog/crazy.cpp:39-44 | crazy: in [300, 1000] when the first draw is a multiple of 7, otherwise in [5, 50], two draws in all; adversary (catalog/adversary.cpp:25-27): 1 |
| TimeModels.DiskWrite | matrix/time_model/catalog/crazy.cpp:48-50 | crazy: a latency in [10, 250] from one draw, whatever the size; adversary (catalog/adversary.cpp:31-33): 1 |
| TimeModels.DiskRead | matrix/time_model/catalog/crazy.cpp:52-54 | crazy: a latency in [10, 50] from one draw; adversary (catalog/adversary.cpp:35-37): 1 |
| TimeModels.GetCacheMiss | matrix/time_model/catalog/crazy.cpp:58-60 | crazy: a miss exactly when the draw is a multiple of 11, one draw; adversary: never a miss and no draw (the definition catalog/adversary.cpp lacks) |
| TimeModels.IteratorCacheMiss | matrix/time_model/catalog/crazy.cpp:62-64 | crazy: a miss exactly when the draw is a multiple of 17, one draw; adversary: never a miss and no draw |
| TimeModels.ThreadPause | matrix/time_model/catalog/crazy.cpp:68-70 | crazy: a pause in [5, 50] from one draw; adversary (catalog/adversary.cpp:41-43): 1 |
| TimeModels.AdversaryAsWrittenIsAbstract | matrix/time_model/catalog/adversary.cpp:7-44 | an inventory of overrides, not a model of the class: the methods the adversary model defines lack `GetCacheMiss` and `IteratorCacheMiss`, both pure virtual in matrix/time_model/time_model.hpp:47-48 |
| TimeModels.DriftAboveMinimum | matrix/time_model/catalog/crazy.cpp:14-27 | every drift either model produces is at least -75, inside the drift's documented range |
| TimeModels.CrazyDriftCanExceedSeventyFive | matrix/time_model/catalog/crazy.cpp:13-18 | despite the "[-75, +75]" note, a first draw of 0 gives a drift of at least +200 |
| TimeModels.GlobalStartTime | matrix/time_model/catalog/crazy.cpp:80-82 | the start time lies in [1, 200] and takes one draw |
| TimeModels.FlightTime | matrix/time_model/catalog/crazy.cpp:92-113 | a service packet takes 50 jiffies and draws nothing; a data packet takes 5..1000 jiffies using two to four draws, and at least 400 when the first draw is a multiple of 11 |
| TimeModels.MakeServerModel | matrix/time_model/catalog/crazy.cpp:86-88 | every host of a crazy world gets the crazy server model |
| TimeModels.EstimateRtt | matrix/time_model/time_model.hpp:72-74 | the interface's default round-trip estimate, 1234 jiffies, which the crazy model keeps |
| TimeModels.BackoffParams | matrix/time_model/catalog/crazy.cpp:115-117 | retries start at 50 jiffies, grow by a factor of 2 and never exceed 1000 |
| Net.Network.constructor | matrix/network/network.hpp:115-119 | a new network has no servers, no link events and an empty frame log |
| Net.Network.AddServer | matrix/network/network.hpp:51 | registers one more host at the end of the server list; nothing else changes |
| Net.Network.AddLinkEvent | matrix/network/network.hpp:106 | appends one (time, link) event; nothing else changes |
| Net.Network.PauseLink | matrix/network/network.hpp:76 | records one pause call for the directed link (start, end); nothing else changes |
| Net.Network.LogFrame | matrix/network/network.hpp:95-97 | appends the frame to the log, so `FrameCount` grows by one |
| Net.Network.GetFrame | matrix/network/network.hpp:87-93 | the frame logged at that index exactly when the index is below `FrameCount`; an index out of range is an error (`None`) |
| Net.RequeueStep | matrix/network/link.cpp:62-63 | re-queueing one overdue frame at now + 1 keeps the multiset of rebased frames and lowers the number of overdue frames by one, so the loop of `Resume` terminates |
| Net.Link.constructor | matrix/network/link.hpp:93 | a new link is empty and not paused |
| Net.Link.NextFrameTime | matrix/network/link.hpp:65-67 | the smallest delivery time in the queue: no queued frame is due earlier, and one is due then |
| Net.Link.MakeFrame | matrix/network/link.cpp:29-32 | the frame carries the link's start and end hosts, the current global time as send time, and the packet |
| Net.Link.ChooseDeliveryTime | matrix/network/link.cpp:34-40 | a loopback link delivers at now + 1 without drawing; any other link at now plus the time model's flight time; delivery is always strictly after now |
| Net.Link.AddFrame | matrix/network/link.cpp:68-71 | the frame is queued at its delivery time and one (time, link) event is registered with the network |
| Net.Link.Add | matrix/network/link.cpp:21-27 | the new frame is queued at the chosen delivery time and registered with the network, whether or not the link is paused |
| Net.Link.ExtractNextFrame | matrix/network/link.cpp:42-45 | extracting from a paused link is fatal (required); otherwise the frame due first is removed and returned |
| Net.Link.Pause | matrix/network/link.cpp:47-50 | pausing a paused link is fatal (required); otherwise the link becomes paused and its frames stay |
| Net.Link.Resume | matrix/network/link.cpp:52-66 | a link that is not paused is left alone; a paused link is unpaused, every frame due strictly before now is re-queued at now + 1 (the queue's multiset is the rebased one, with one new network event per moved frame), and frames due at or after now keep their times |
| Net.Link.RequeueOverdue | matrix/network/link.cpp:61-65 | the loop of `Resume` ends with no frame due before now, the frames rebased, and exactly one new event at now + 1 per overdue frame |
| Net.Link.RequeueNext | matrix/network/link.cpp:62-64 | one iteration of the loop keeps the loop invariant for one more moved frame and lowers the overdue count |
| Net.Link.RequeueFirst | matrix/network/link.cpp:62-63 | the frame due first (overdue) is moved to now + 1 with one new network event; the rebased multiset is kept and one fewer frame is overdue |
| Net.Link.Shutdown | matrix/network/link.hpp:71-73 | the frame queue becomes empty |
| PriorityQueues.Smallest | matrix/network/link.hpp:25-30 | the index of an element whose key is minimal (frames and tasks are ordered by time only) |
| PriorityQueues.RemoveAt | matrix/network/link.cpp:44 | `Extract` removes exactly the chosen element and keeps the others |
| Net.Link.IsLoopBack | matrix/network/link.hpp:51-53 | a link whose two ends are the same host |
| Net.Link.HasFrames | matrix/network/link.hpp:61-63 | some frame is queued on the link |
| Net.FrameEventLess | matrix/network/link.hpp:25-27 | frames are ordered by delivery time alone |
| Net.LinkEventLess | matrix/network/network.hpp:35-37 | link events are ordered by time alone, whatever the link |
| Net.Network.FrameCount | matrix/network/network.hpp:87-89 | the number of frames logged |
| Transports.Reply | matrix/network/transport.cpp:125-129 | an answer swaps the packet's ports, echoes its timestamp and carries the given type and payload |
| Transports.ReplyToReply | matrix/network/transport.cpp:125-129 | answering an answer addresses the original ports again with the original timestamp |
| Transports.Decide | matrix/network/transport.cpp:136-211 | the decision table: no endpoint means a reset answer (a reset itself is dropped); a stamp older than the endpoint's means a reset answer; a ping is answered with a ping; a fresh reset schedules the handler's disconnect; fresh data schedules the handler's message callback |
| Transports.ResetAnsweredOnlyWhenStale | matrix/network/transport.cpp:152-189 | an incoming reset is answered exactly when it is stale for an existing endpoint, and dropped exactly when its endpoint is missing |
| Transports.DeliveredOnlyToLiveEndpoints | matrix/network/transport.cpp:165-210 | a handler callback is scheduled only for a non-ping packet that is fresh for an existing endpoint, and only for that endpoint's handler |
| Transports.Transport.constructor | matrix/network/transport.hpp:77-79 | a new transport has no endpoints and hands out ports from 1 |
| Transports.Transport.FindFreePort | matrix/network/transport.cpp:213-220 | the result is the first port at or after the counter that has no endpoint; the counter moves one past it and the endpoints are untouched |
| Transports.Transport.ConnectTo | matrix/network/transport.cpp:47-69 | a fresh unused port gets an endpoint stamped with the new timestamp; with an adversary in the world exactly one ping is sent on the link, otherwise nothing is sent |
| Transports.Transport.Serve | matrix/network/transport.cpp:71-85 | a port already in use is fatal (required); otherwise the port gets an endpoint for the handler |
| Transports.Transport.RemoveEndpoint | matrix/network/transport.cpp:87-92 | the endpoint at that port, if any, is removed and no other |
| Transports.Transport.Reset | matrix/network/transport.cpp:94-101 | every endpoint is removed; the port counter is kept |
| Transports.Transport.HandlePacket | matrix/network/transport.cpp:136-211 | performs `Decide`'s reaction: a drop changes nothing, an answer puts exactly one frame on the outgoing link, a delivery queues exactly one task to run now |
| Scheduling.Scheduler.constructor | matrix/server/server.cpp:181-183 | a new task queue is empty |
| Scheduling.Scheduler.NextTaskTime | matrix/server/server.cpp:193-195 | the due time of the earliest queued task: no task is due earlier and one is due then |
| Scheduling.Scheduler.Schedule | matrix/server/server.cpp:181-183 | queues exactly one task at the given global time |
| Scheduling.Scheduler.ScheduleAsap | matrix/network/transport.cpp:187 | queues exactly one task due at the current global time |
| Scheduling.Scheduler.TakeNext | matrix/server/server.cpp:198 | removes and returns the earliest-due task and keeps the rest |
| Scheduling.Scheduler.Reset | matrix/server/server.cpp:62-63 | drops every queued task |
| Scheduling.Scheduler.Resume | matrix/server/server.cpp:111 | records the global time the queue was resumed at and keeps the tasks |
| Servers.Server.constructor | matrix/server/server.cpp:19-25 | a new server is in state Initial, with an empty task queue, no endpoints and no files |
| Servers.Server.NextStepTime | matrix/server/server.cpp:193-195 | the due time of the earliest queued task |
| Servers.Server.Crash | matrix/server/server.cpp:45-72 | crashing a crashed server is fatal (required); otherwise endpoints, open files, scheduled tasks and heap are cleared, files on disk are kept, and the server ends Crashed |
| Servers.Server.Launch | matrix/server/server.cpp:160-184 | only an Initial or Crashed server can be launched (required); the monotonic clock is reset, the heap reports the runtime set up under it on top of what it held, the main program is queued at the current global time, and the server ends Running |
| Servers.Server.Start | matrix/server/server.cpp:151-158 | takes the host's time model, draws the wall offset, then the drift and a reset of the monotonic clock, then launches (a second monotonic reset); ends Running with the main program queued and the runtime's bytes on the heap |
| Servers.Server.FastReboot | matrix/server/server.cpp:74-83 | a server that is not alive is left exactly as it was; a live one is crashed and launched, ending Running with only the main program queued, no endpoints or open files, and only the new runtime on the heap; files survive |
| Servers.Server.Pause | matrix/server/server.cpp:85-98 | only Running becomes Paused; from Initial, Paused or Crashed nothing changes |
| Servers.Server.Resume | matrix/server/server.cpp:100-114 | only Paused becomes Running, resuming the scheduler at the current time; in any other state nothing changes |
| Servers.Server.AdjustWallClock | matrix/server/server.cpp:116-125 | redraws the wall clock's offset from the server's time model |
| Servers.Server.Step | matrix/server/server.cpp:197-203 | takes exactly one task, the earliest-due one, off the queue; the heap then reports what running it under the heap allocated or freed |
| Servers.Server.Shutdown | matrix/server/server.cpp:205-209 | crashes the server unless it is crashed already, so it always ends Crashed (as the destructor at server.cpp:27-29 requires), with its files kept |
| Servers.Server.HandlePacket | matrix/server/server.cpp:33-37 | hands the packet to the transport: a task is queued exactly when the transport decides to deliver, and a crashed server (no endpoints) never queues work |
| Servers.Server.ComputeDigest | matrix/server/server.cpp:211-222 | the digest is zero exactly for a crashed server; otherwise it eats the bytes the heap reports allocated (grown by launch and by each step, cleared by a crash) and combines the filesystem's digest, in that order |
| Servers.Server.ListFiles | matrix/server/server.cpp:126-137 | the listing is exactly the stored paths with the prefix, in path order (the evidently intended loop) |
| Servers.ListLoopAsWritten | matrix/server/server.cpp:130-135 | the loop as written: it tests the iterator's position without ever advancing it; only an empty directory ends it |
| Servers.ListLoopAsWrittenNeverEnds | matrix/server/server.cpp:131-135 | with at least one file the loop as written never finishes, however many iterations are allowed |
| Servers.ListFilesCounterexample | matrix/server/server.cpp:126-137 | one file "/a" and prefix "/": the intended listing is ["/a"], the loop as written never returns |
| Servers.Server.IsAlive | matrix/server/server.cpp:41-43 | alive exactly when started and not crashed (Running or Paused) |
| Servers.Server.IsRunnable | matrix/server/server.cpp:186-191 | runnable exactly when Running with queued work; a runnable server is alive |
| Filesystem.PRead | matrix/fs/fs.cpp:56 | a read copies the bytes at the offset, as many as are available up to the request, and none past the end |
| Filesystem.Resize | matrix/fs/fs.cpp:109 | truncation gives exactly the requested size, keeps the existing prefix and pads with zero bytes |
| Filesystem.PathAppend | matrix/fs/fs.cpp:135-144 | joins with one '/' unless the base already ends with '/' |
| Filesystem.LastSlash | matrix/fs/fs.cpp:149 | `find_last_of('/')`: the position of a '/' with none after it, or none in the whole path |
| Filesystem.PathSplit | matrix/fs/fs.cpp:146-157 | parent and name around the last '/', the name free of '/', so parent + "/" + name is the path; a path without '/' is all parent with an empty name |
| Filesystem.SplitAppend | matrix/fs/fs.cpp:135-157 | splitting a joined path gives back the name and the base (without its trailing '/') |
| Filesystem.FilesDigestItems | matrix/fs/fs.cpp:231-234 | for each path in path order, the path is eaten and then its file's digest combined |
| Filesystem.FileSystem.constructor | matrix/fs/fs.hpp:119-123 | a new filesystem has no files, no open descriptors and descriptor counter 0 |
| Filesystem.FileSystem.Exists | matrix/fs/fs.cpp:28-32 | holds exactly when the path is in the file table |
| Filesystem.FileSystem.Lookup | matrix/fs/fs.cpp:161-164 | the file a stored path names, and nothing for a path not in the table |
| Filesystem.FileSystem.Paths | matrix/fs/fs.cpp:120-123 | the paths in the order the directory iterator visits them, the table's path order |
| Filesystem.FileSystem.CreateFile | matrix/fs/fs.cpp:169-170 | a new empty file is inserted under the free path; the table stays sorted and the descriptors are untouched |
| Filesystem.FileSystem.FindOrCreateFile | matrix/fs/fs.cpp:159-176 | an existing path gives its file and changes nothing; a missing path is created for append and is an error (nothing) for read |
| Filesystem.FileSystem.InitOffset | matrix/fs/fs.cpp:196-201 | a descriptor starts at 0 for reading and at the file's size for appending |
| Filesystem.FileSystem.Open | matrix/fs/fs.cpp:34-47 | fails with "no such file or directory" exactly when reading a missing path, changing nothing; otherwise the descriptor is the counter's next value (1, 2, 3, ...), fresh, and open on the path's file at the mode's initial offset; append creates a missing file |
| Filesystem.FileSystem.NewDescriptor | matrix/fs/fs.cpp:43-45 | the pre-incremented counter names a descriptor not yet open, which is opened at the initial offset; the file table is unchanged |
| Filesystem.FileSystem.Read | matrix/fs/fs.cpp:49-59 | an unknown descriptor or one not opened for reading is fatal (required); the bytes are what `PRead` gives at the offset, and the offset advances by the number read |
| Filesystem.FileSystem.Append | matrix/fs/fs.cpp:61-69 | an unknown descriptor or one not opened for append is fatal (required); the bytes are appended to the descriptor's file and nothing else changes |
| Filesystem.FileSystem.Close | matrix/fs/fs.cpp:79-89 | closing an unknown descriptor is fatal (required); otherwise exactly that descriptor is removed |
| Filesystem.FileSystem.Create | matrix/fs/fs.cpp:91-102 | returns false and changes nothing when the path exists; otherwise inserts a new empty file and returns true; either way the path exists afterwards |
| Filesystem.FileSystem.Truncate | matrix/fs/fs.cpp:104-111 | a missing file is fatal (required); otherwise the path's file is resized |
| Filesystem.FileSystem.Unlink | matrix/fs/fs.cpp:113-118 | the path is removed from the table (if present); file contents and open descriptors are kept |
| Filesystem.FileSystem.Reset | matrix/fs/fs.cpp:222-226 | a crash drops every open descriptor and restarts numbering at 0, keeping every file and its contents |
| Filesystem.FileSystem.ComputeDigest | matrix/fs/fs.cpp:228-236 | two items per file, the path first, in path order |
| RuntimeFs.WithPrefix | matrix/server/runtime/filesystem.hpp:39-44 | the paths that start with the prefix, in their order, never more than there are paths |
| RuntimeFs.WithPrefixMembers | matrix/server/runtime/filesystem.hpp:40-42 | a path is listed exactly when it is among the paths and starts with the prefix |
| RuntimeFs.WithPrefixAscending | matrix/server/runtime/filesystem.hpp:38-44 | filtering keeps a strictly ascending list strictly ascending |
| RuntimeFs.CollectWithPrefix | matrix/server/runtime/filesystem.hpp:34-47 | the directory walk (advancing the iterator each time) lists exactly the filtered paths, in order |
| RuntimeFs.FS.constructor | matrix/server/runtime/filesystem.hpp:14-16 | the service wraps the given filesystem and has made no disk access |
| RuntimeFs.FS.ListFiles | matrix/server/runtime/filesystem.hpp:34-47 | the listing is the stored paths with the prefix, in path order |
| RuntimeFs.ListFilesExact | matrix/server/runtime/filesystem.hpp:34-47 | `ListFiles` returns exactly the stored paths with the prefix, each once, in strictly ascending path order |
| RuntimeFs.FS.Open | matrix/server/runtime/filesystem.hpp:49-53 | delegates, charging no disk access: succeeds exactly for an existing path or append mode; a failure changes nothing; a success opens the next descriptor on the path's file at the mode's initial offset, keeps an existing file's table and data, and creates a missing one empty |
| RuntimeFs.FS.Append | matrix/server/runtime/filesystem.hpp:55-59 | charges one disk write of the data's size, then appends the data to the descriptor's file |
| RuntimeFs.FS.Read | matrix/server/runtime/filesystem.hpp:61-66 | charges one disk read of the buffer's size (not the bytes actually read), then reads at the offset and advances it |
| RuntimeFs.FS.Create | matrix/server/runtime/filesystem.hpp:18-20 | delegates, charging no disk access: true exactly when the path did not exist; false changes no file; true adds the path with a new empty file; the path exists afterwards and open descriptors are untouched |
| RuntimeFs.FS.Unlink | matrix/server/runtime/filesystem.hpp:22-24 | delegates, charging no disk access: the path is removed from the table, while file contents and open descriptors are kept |
| RuntimeFs.FS.Truncate | matrix/server/runtime/filesystem.hpp:26-28 | delegates, charging no disk access: the path's file is resized, and the table and open descriptors are unchanged |
| RuntimeFs.FS.Exists | matrix/server/runtime/filesystem.hpp:30-32 | delegates: holds exactly for stored paths |
| RuntimeFs.FS.Close | matrix/server/runtime/filesystem.hpp:72-74 | delegates, charging no disk access: exactly that descriptor is closed, and files and their contents are unchanged |
| SortedMap.KeyList | matrix/db/mem_table.hpp:34-36 | the keys of a table in iteration order |
| SortedMap.LowerBound | matrix/db/iterator.hpp:45-47 | the first position whose key is not less than the given key: every key before it is smaller, none after it is |
| SortedMap.Get | matrix/db/mem_table.hpp:17-24 | `find`: a value exactly when the key is stored, and then the one stored under it |
| SortedMap.GetAt | matrix/db/mem_table.hpp:17-24 | a key occurs at most once: a stored entry is what a lookup finds |
| SortedMap.Put | matrix/db/mem_table.hpp:13-15 | `insert_or_assign` keeps the table strictly sorted and adds exactly the key to its key set |
| SortedMap.InsertKeepsSorted | matrix/db/mem_table.hpp:13-15 | inserting a new key at its lower bound keeps the keys strictly ascending and adds exactly that key |
| SortedMap.GetPut | matrix/db/mem_table.hpp:13-24 | after a put the key reads the new value and every other key reads what it read before |
| SortedMap.GetPutSame | matrix/db/mem_table.hpp:13-24 | after a put the key reads the new value |
| SortedMap.GetPutOther | matrix/db/mem_table.hpp:13-24 | a put leaves every other key's value as it was |
| SortedMap.Remove | matrix/db/mem_table.hpp:26-28 | `erase` keeps the table strictly sorted and removes exactly the key from its key set |
| SortedMap.GetRemove | matrix/db/mem_table.hpp:17-28 | after an erase the key is absent and every other key reads what it read before |
| MemTables.MemTable.constructor | matrix/db/mem_table.hpp:11 | a new table is empty |
| MemTables.MemTable.Put | matrix/db/mem_table.hpp:13-15 | the key now reads the new value and every other key keeps its value |
| MemTables.MemTable.TryGet | matrix/db/mem_table.hpp:17-24 | a value exactly for stored keys, `nullopt` otherwise |
| MemTables.MemTable.Delete | matrix/db/mem_table.hpp:26-28 | the key is absent afterwards, every other key keeps its value, and deleting an absent key changes nothing |
| MemTables.MemTable.Clear | matrix/db/mem_table.hpp:30-32 | the table becomes empty |
| MemTables.MemTable.GetEntries | matrix/db/mem_table.hpp:34-36 | the entries in strictly ascending key order |
| Databases.ApplyMutation | matrix/db/database.cpp:86-96 | a put or a delete keeps the table sorted |
| Databases.ApplyBatch | matrix/db/database.cpp:85-98 | applying a batch's mutations in order keeps the table sorted |
| Databases.ReplayAll | matrix/db/database.cpp:113-116 | replaying the logged batches in order into an empty table gives a sorted table |
| Databases.LastMutation | matrix/db/database.cpp:86-96 | the last mutation of a batch on a key, which is in the batch; none exactly when no mutation touches the key |
| Databases.ApplyBatchGet | matrix/db/database.cpp:85-98 | after a batch, a key's value is decided by the last mutation on it (put: its value; delete: absent); untouched keys keep theirs |
| Databases.ApplyBatchConcat | matrix/db/database.cpp:85-98 | applying two batches in turn is applying their concatenation |
| Databases.ReplayIsFlatApply | matrix/db/database.cpp:100-121 | replaying a log is applying all its mutations, in log order, to an empty table |
| Databases.RecoveredValue | matrix/db/database.cpp:100-121 | after replay each key holds the value its last logged mutation gave it; a key the log never mentions is absent |
| Databases.Database.constructor | matrix/db/database.cpp:21-24 | a new database has an empty table, an empty log and version 0 |
| Databases.Database.ApplyToMemTable | matrix/db/database.cpp:85-98 | the loop applies the batch's mutations to the table in order |
| Databases.Database.ReplayWAL | matrix/db/database.cpp:100-121 | the table is cleared; without a WAL file the version is left as it was; otherwise the table is the replay of the file's batches and the version their number |
| Databases.Database.Open | matrix/db/database.cpp:26-34 | the table is the replay of the WAL, and later writes extend that log |
| Databases.Database.DoWrite | matrix/db/database.cpp:77-83 | the batch is appended to the log, applied to the table, and the version grows by one, so the table stays the replay of the log |
| Databases.Database.Write | matrix/db/database.cpp:72-75 | after a write each key holds what the batch's last mutation on it says, other keys keep theirs; one log entry and one version more |
| Databases.Database.Put | matrix/db/database.cpp:36-42 | a one-mutation batch: the key reads the value, other keys are unchanged, one log entry and one version more |
| Databases.Database.Delete | matrix/db/database.cpp:44-50 | a one-mutation batch: the key is absent, other keys are unchanged, one log entry and one version more |
| Databases.Database.TryGet | matrix/db/database.cpp:52-59 | after drawing a cache miss, returns the value the last logged mutation on the key gave it, present exactly when the key is in the table |
| Databases.Database.MakeSnapshot | matrix/db/database.cpp:67-70 | a snapshot holds a copy of the current entries (sorted) and the current version |
| Iterators.Iterator.constructor | matrix/db/iterator.hpp:15-19 | a new iterator is at the first (smallest) entry, or invalid when the snapshot is empty |
| Iterators.Iterator.Key | matrix/db/iterator.hpp:21-24 | reading an invalid iterator is fatal (required); the key is one of the snapshot's keys |
| Iterators.Iterator.Value | matrix/db/iterator.hpp:26-29 | reading an invalid iterator is fatal (required); the value is the one the snapshot stores under the current key |
| Iterators.Iterator.SeekToFirst | matrix/db/iterator.hpp:31-39 | valid exactly when there are entries, and then at the smallest key |
| Iterators.Iterator.SeekToLast | matrix/db/iterator.hpp:41-49 | valid exactly when there are entries, and then at the largest key |
| Iterators.Iterator.Seek | matrix/db/iterator.hpp:51-58 | `lower_bound`: valid exactly when some key is not less than the target, and then at the smallest such key |
| Iterators.Iterator.Next | matrix/db/iterator.hpp:64-70 | on an invalid iterator fatal (required); moves to the next larger key, becoming invalid past the last |
| Iterators.Iterator.Prev | matrix/db/iterator.hpp:72-79 | on an invalid iterator fatal (required); moves to the next smaller key, and at the first entry becomes invalid without moving |
| Iterators.MakeIterator | matrix/db/snapshot.cpp:7-10 | a fresh iterator over the snapshot's own entries, at the first one |
| Iterators.ScanSnapshot | matrix/db/iterator.hpp:15-70 | walking from the first entry with `Next` while valid visits every entry of the snapshot exactly once, in ascending key order |
| Iterators.MovingIterator.constructor | matrix/db/iterator.cpp:9-13 | seeks to the first entry, which calls the database's iterator hook once when there is an entry |
| Iterators.MovingIterator.Key | matrix/db/iterator.cpp:15-18 | reading an invalid iterator is fatal (required); the key is one of the snapshot's keys |
| Iterators.MovingIterator.Value | matrix/db/iterator.cpp:20-23 | reading an invalid iterator is fatal (required); the value is the one stored under the current key |
| Iterators.MovingIterator.Move | matrix/db/iterator.cpp:81-83 | one more call of the database's iterator hook; the position is unchanged |
| Iterators.MovingIterator.SeekToFirst | matrix/db/iterator.cpp:25-34 | as the inline iterator, plus exactly one hook call when it ends valid |
| Iterators.MovingIterator.SeekToLast | matrix/db/iterator.cpp:36-45 | as the inline iterator, plus exactly one hook call when it ends valid |
| Iterators.MovingIterator.Seek | matrix/db/iterator.cpp:47-55 | as the inline iterator, plus exactly one hook call when it ends valid |
| Iterators.MovingIterator.Next | matrix/db/iterator.cpp:61-69 | as the inline iterator, plus exactly one hook call when it ends valid |
| Iterators.MovingIterator.Prev | matrix/db/iterator.cpp:71-79 | as the inline iterator, plus exactly one hook call when it ends valid |
| Framing.EncodeLE | matrix/db/detail/framed.cpp:53-54 | a header value written as its in-memory bytes takes exactly the requested number of bytes |
| Framing.DecodeLE | matrix/db/detail/framed.cpp:26-27 | a header read back from k bytes is below 256^k |
| Framing.DecodeEncodeLE | matrix/db/detail/framed.cpp:50-55 | decoding the written bytes of a header gives back its value |
| Framing.FrameHeader | matrix/db/detail/framed.cpp:50-55 | the header is 8 bytes and decodes to the payload length |
| Framing.Frame | matrix/db/detail/framed.cpp:39-48 | one frame is the header followed by the payload; its header decodes to the payload's length |
| Framing.NextFrame | matrix/db/detail/framed.cpp:14-35 | nothing exactly at the clean end of input; "broken frame header" exactly when fewer than 8 bytes remain; otherwise the payload is the header's number of bytes after the header (a short payload is an error) |
| Framing.NextFrameOfFrame | matrix/db/detail/framed.cpp:14-55 | a written frame, wherever it sits in the input, reads back as its payload |
| Framing.ReadAllFrames | matrix/db/detail/framed.cpp:14-55 | reading back a stream of written frames yields their payloads, in order, then the clean end (the framing round trip) |
| Framing.FramedWriter.constructor | matrix/db/detail/framed.cpp:39-48 | nothing has been written |
| Framing.FramedWriter.WriteFrame | matrix/db/detail/framed.cpp:39-48 | header and payload are built in one buffer and written with a single write |
| Framing.FramedReader.constructor | matrix/db/detail/framed.cpp:14 | reading starts at the beginning of the input |
| Framing.FramedReader.ReadNextFrame | matrix/db/detail/framed.cpp:14-23 | returns what `NextFrame` gives at the current offset and consumes exactly the frame it read |
| JsonWriters.IntToString | matrix/helpers/json_writer.hpp:68-71 | an integer is printed in decimal, with a leading minus sign exactly when negative |
| JsonWriters.EntryStart | matrix/helpers/json_writer.hpp:90-97 | entry n starts with a comma exactly when n > 1, then a line break, then one space per open container |
| JsonWriters.Closing | matrix/helpers/json_writer.hpp:35-56 | closing text ends with the bracket, starts with a line break when the container has any entry, and is only indentation otherwise (the evidently intended `Complete`) |
| JsonWriters.ClosingAsWritten | matrix/helpers/json_writer.hpp:99-104 | the closing text as written: a line break only when the container has more than one entry |
| JsonWriters.ClosingAsWrittenSingleEntry | matrix/helpers/json_writer.hpp:99-104 | as written, a container with exactly one entry gets no line break before its bracket, while one with two entries does and the intended version does for one |
| JsonWriters.JsonWriter.constructor | matrix/helpers/json_writer.hpp:125-129 | the writer starts in an object with no entries and no saved containers |
| JsonWriters.JsonWriter.Depth | matrix/helpers/json_writer.hpp:118-120 | the number of saved (open) containers |
| JsonWriters.JsonWriter.Indent | matrix/helpers/json_writer.hpp:74-78 | writes one space per open container and changes no state |
| JsonWriters.JsonWriter.NewEntry | matrix/helpers/json_writer.hpp:90-97 | counts one more entry; a comma is written exactly when it is not the first, then a line break and the indentation |
| JsonWriters.JsonWriter.BeforeValue | matrix/helpers/json_writer.hpp:80-84 | a value starts a new entry inside a list and writes nothing elsewhere |
| JsonWriters.JsonWriter.BeforeField | matrix/helpers/json_writer.hpp:86-88 | a field always starts a new entry |
| JsonWriters.JsonWriter.PushState | matrix/helpers/json_writer.hpp:107-109 | saves the current container and its count on top of the stack |
| JsonWriters.JsonWriter.PopState | matrix/helpers/json_writer.hpp:111-116 | restores the innermost saved container and its count and drops it from the stack |
| JsonWriters.JsonWriter.OpenList | matrix/helpers/json_writer.hpp:26-33 | the enclosing container is saved (having counted the list as its entry if it is a list), "[" is written, and an empty list becomes current |
| JsonWriters.JsonWriter.OpenMap | matrix/helpers/json_writer.hpp:42-49 | as `OpenList`, with "{" and an empty map |
| JsonWriters.JsonWriter.CloseList | matrix/helpers/json_writer.hpp:35-40 | the enclosing container becomes current exactly as it was saved, and the closing text with "]" is written at the enclosing depth |
| JsonWriters.JsonWriter.CloseMap | matrix/helpers/json_writer.hpp:51-56 | as `CloseList`, with "}" |
| JsonWriters.JsonWriter.Complete | matrix/helpers/json_writer.hpp:99-104 | ends the last entry with a line break when the container has any entry (the condition corrected from `index_ > 1`) |
| JsonWriters.JsonWriter.WriteField | matrix/helpers/json_writer.hpp:58-61 | starts an entry and writes the quoted name, a colon and a space |
| JsonWriters.JsonWriter.WriteString | matrix/helpers/json_writer.hpp:63-66 | starts an entry inside a list, then writes the string between quotes, unescaped |
| JsonWriters.JsonWriter.WriteInteger | matrix/helpers/json_writer.hpp:68-71 | starts an entry inside a list, then writes the integer in decimal |
| Logging.LimitWidth | matrix/log/format.cpp:9-15 | the result is a prefix of the text, of length `width` when the text is at least that long and the whole text otherwise |
| Logging.Column | matrix/log/format.cpp:17-29 | a column is exactly its width plus two brackets wide |
| Logging.ColumnShowsPrefix | matrix/log/format.cpp:17-29 | a column is '[', the cut text, spaces up to the width, then ']' (left-aligned padding) |
| Logging.Columns | matrix/log/format.cpp:22-29 | the header starts with "[T " and has the stamp's length plus three tabs and columns of widths 7, 15 and 12 |
| Logging.TraceColumn | matrix/log/format.cpp:31-34 | the trace-id column is empty exactly when the event has no trace id |
| Logging.Tail | matrix/log/format.cpp:31-36 | what follows the header ends with a tab and the message |
| Logging.FormatLogEvent | matrix/log/format.cpp:19-39 | the line starts with the header, ends with a tab and the message, and is exactly as long as those plus the trace-id column |
| Logging.TraceColumnIffTraceId | matrix/log/format.cpp:31-34 | the line is longer than header, tab and message exactly when the event has a trace id, by the bracketed id and its tab |
| Logging.Split | matrix/log/env.cpp:21-23 | splitting gives at least one piece and no piece contains the separator |
| Logging.JoinSplit | matrix/log/env.cpp:21-23 | joining the pieces with the separator gives back the original text |
| Logging.LevelsOfFailsIff | matrix/log/env.cpp:22-24 | parsing fails exactly when some component does not split into exactly two parts on '=' |
| Logging.FirstOccurrenceWins | matrix/log/env.cpp:25-28 | the first component naming a component decides its level (`emplace` never overwrites) |
| Logging.LevelsKeys | matrix/log/env.cpp:25-28 | every name in the parsed map comes from some component |
| Logging.LevelsOfFailureSticks | matrix/log/env.cpp:22-24 | once a component is refused, the remaining components change nothing: the whole parse fails with that error |
| Logging.ParseLogLevels | matrix/log/env.cpp:16-31 | the loop computes the levels map of the components split on ',', or the error for the first malformed component |
| Logging.GetLogLevelsFromEnv | matrix/log/env.cpp:33-41 | an unset variable gives no levels; a set one is parsed |
| Logging.LogBackend.constructor | matrix/log/backend.cpp:26-28 | the levels are read from the environment; no events are kept and no file is attached |
| Logging.LogBackend.GetMinLevelFor | matrix/log/backend.cpp:24-35 | a configured component gets its level; any other gets Info |
| Logging.DefaultLevelWithoutEnv | matrix/log/backend.cpp:24-35 | without configured levels every component logs from Info up |
| Logging.LogBackend.Write | matrix/log/backend.cpp:15-22 | the event is appended to the kept events; with a file attached its formatted line and a line break are appended to the file, without one nothing is written |
| Logging.LogBackend.AppendToFile | matrix/log/backend.cpp:42-47 | the file at the given path becomes attached for appending, and what the backend appends to it starts with a line of 80 dashes; the kept events and levels are unchanged |
| KeyValue.Majority | examples/kv/node/main.cpp:175-178 | the quorum is more than half of the replicas and, for a non-empty cluster, no more than all of them |
| KeyValue.MajorityOfSmallClusters | examples/kv/node/main.cpp:175-178 | three replicas need two acknowledgements, five need three |
| KeyValue.SubsetCard | examples/kv/node/main.cpp:175-178 | a subset has no more replicas than the set it is drawn from |
| KeyValue.MajoritiesIntersect | examples/kv/node/main.cpp:175-178 | any write quorum and any read quorum of the same replicas share a replica, which is why a read sees the latest acknowledged write |
| KeyValue.MostRecentIndex | examples/kv/node/main.cpp:166-173 | the chosen value has no newer timestamp anywhere and every value before it is strictly older (`std::max_element` keeps the first maximum) |
| KeyValue.FindMostRecent | examples/kv/node/main.cpp:166-173 | the result is one of the values read and its timestamp is at least every other's |
| KeyValue.ChooseWriteTimestamp | examples/kv/node/main.cpp:160-164 | the write timestamp is the coordinator's wall-clock reading in jiffies |
| KeyValue.Replica.constructor | examples/kv/node/main.cpp:188-190 | a replica starts with an empty store |
| KeyValue.Replica.LocalWrite | examples/kv/node/main.cpp:199-213 | the value is stored exactly when the key is new or its timestamp is strictly newer than the stored one; no key is lost and no stored timestamp goes back |
| KeyValue.Replica.Update | examples/kv/node/main.cpp:220-223 | puts the value under the key and changes no other key |
| KeyValue.Replica.LocalRead | examples/kv/node/main.cpp:215-217 | the stored value for a known key, value 0 at timestamp zero otherwise |
| Config.TryGetGlobal | matrix/config/config.cpp:85-88 | a key is looked up as the global "config." + key; a missing global reads as an empty value |
| Config.GetString | matrix/config/config.cpp:7-30 | "pool.name" and "pool" give the server's pool and "db.path" gives "/db"; any other key succeeds exactly when its global holds a string, fails with key-not-found exactly when there is no such global, and fails with a bad cast otherwise |
| Config.GetInt64 | matrix/config/config.cpp:32-69 | "node.id" gives the server's id, "rpc.port" 42, the three backoff keys the time model's backoff parameters; any other key succeeds exactly when its global holds an integer, with key-not-found exactly when the global is missing |
| Config.GetBool | matrix/config/config.cpp:71-83 | booleans come only from globals: success exactly when the global holds a boolean, key-not-found exactly when it is missing |
| Config.BuiltinsShadowGlobals | matrix/config/config.cpp:7-69 | setting the global of a built-in key changes nothing that is read, while for any other key the newly set global is what is read |
| Checker.Cleaned | matrix/semantics/checker/check.hpp:8-20 | the cleaned history is no longer than the original and holds exactly the calls of the history that are completed or mutations |
| Checker.Cleanup | matrix/semantics/checker/check.hpp:9-20 | the loop skips exactly the uncompleted read-only calls and keeps the rest in order (the result is `Cleaned`) |
| Checker.CleanupKeepsOrder | matrix/semantics/checker/check.hpp:12-18 | the kept calls appear in the same relative order as in the history |
| Checker.CleanupIdempotent | matrix/semantics/checker/check.hpp:9-20 | cleaning an already cleaned history changes nothing |
| Checker.LinCheck | matrix/semantics/checker/check.hpp:22-42 | the verdict is true exactly when every independent sub-history of the cleaned history passes the brute-force search with the 777777-step budget |
| Checker.PrecedenceIsStrictOrder | matrix/semantics/checker/real_time_order.hpp:9-11 | real-time precedence is irreflexive, asymmetric and transitive on well-formed calls; an uncompleted call precedes nothing and a call ending when another starts does not precede it |
| Checker.PrecedesInRealTime | matrix/semantics/checker/real_time_order.hpp:9-11 | only a completed call precedes, and only a call that starts after it has ended |
| Histories.Classify | matrix/history/channel.cpp:52-69 | a result completes the call exactly when it is an answer (with that answer as output), loses it exactly when it is a transport or execution error, and removes it exactly for any other error |
| Histories.OutcomeEvent | matrix/history/recorder.hpp:31-37 | an outcome becomes one completion, loss or removal notification about that same cookie |
| Histories.HistoryRecorder.constructor | matrix/history/recorder.hpp:54-56 | a recorder starts with nothing recorded and cookie counter 0 |
| Histories.HistoryRecorder.CallStarted | matrix/history/recorder.hpp:25 | hands out the next cookie, advances the counter by one and records the start with the method and input |
| Histories.HistoryRecorder.Finalize | matrix/history/recorder.hpp:39-40 | records that the history is complete; the counter is unchanged |
| Histories.HistoryRecorder.Notify | matrix/history/recorder.hpp:27-37 | records exactly the given notification; the counter is unchanged |
| Histories.Channel.constructor | matrix/history/channel.cpp:21-22 | the wrapped channel to a peer starts open, with nothing forwarded |
| Histories.Channel.Call | matrix/history/channel.cpp:42 | the call is forwarded, once, in order |
| Histories.Channel.Close | matrix/history/channel.cpp:24-26 | the channel is closed; what was forwarded stays |
| Histories.HistoryChannel.constructor | matrix/history/channel.cpp:21-22 | the history channel wraps the given channel and recorder |
| Histories.HistoryChannel.Peer | matrix/history/channel.cpp:28-30 | the peer is the wrapped channel's peer |
| Histories.HistoryChannel.Close | matrix/history/channel.cpp:24-26 | closing is forwarded to the wrapped channel |
| Histories.HistoryChannel.Call | matrix/history/channel.cpp:32-49 | the start is recorded under a fresh cookie, followed by a label exactly when the trace id is non-empty, before the call is forwarded once |
| Histories.HistoryChannel.RecordCallResult | matrix/history/channel.cpp:52-64 | exactly one notification about the cookie is recorded, the one `Classify` decides |
| Histories.MaybeCompleted | matrix/history/channel.cpp:66-69 | exactly the transport and execution errors, after which the call may or may not have taken effect |
| Faults.Swap | matrix/fault/net/split.cpp:16 | a swap keeps the length and the multiset of entries |
| Faults.SwapKeepsDistinct | matrix/fault/net/split.cpp:16 | swapping two entries of a list of distinct hosts keeps them distinct |
| Faults.PartialShuffle | matrix/fault/net/split.cpp:14-18 | the partial Fisher-Yates shuffle is a permutation of the pool that leaves the already-final prefix alone and uses one random draw per step |
| Faults.ShuffleKeepsDistinct | matrix/fault/net/split.cpp:14-18 | shuffling distinct host names keeps them distinct |
| Faults.DistinctCount | matrix/fault/net/split.cpp:12-17 | distinct entries make a set of exactly as many hosts |
| Faults.ElementsSnoc | matrix/fault/net/split.cpp:17 | inserting the next shuffled host adds it to the left side |
| Faults.GenerateSplit | matrix/fault/net/split.cpp:11-21 | the left side is the set of the first `lhs_size` hosts of the partially shuffled pool, and exactly `lhs_size` draws are made |
| Faults.SplitSides | matrix/fault/net/split.cpp:11-21 | the left side only holds pool hosts and, when host names are distinct, exactly `lhs_size` of them |
| Faults.RowCutsExact | matrix/fault/net/split.cpp:29-34 | the inner loop pauses a link from the host exactly when its target is in the pool and on the other side |
| Faults.CrossLinksExact | matrix/fault/net/split.cpp:28-35 | the two loops pause a link exactly when both ends are in the pool and on opposite sides |
| Faults.SplitPausesExactlyTheCut | matrix/fault/net/split.cpp:23-36 | a split pauses exactly the links between pool hosts on opposite sides, always in both directions, and never a self link |
| Faults.RandomSplit | matrix/fault/net/split.cpp:23-36 | the pause calls made are exactly the crossing links of the generated split, in pool order over the caller's pool; nothing else of the network changes |
| Faults.PauseCut | matrix/fault/net/split.cpp:28-35 | the outer loop issues the crossing links of each source host in turn |
| Faults.PauseRow | matrix/fault/net/split.cpp:29-34 | the inner loop issues, in pool order, the links from one host that cross the split |
| Faults.IsolationLinksExact | matrix/fault/net/isolate.cpp:7-16 | isolation pauses a link exactly when it joins the victim and another pool host, in either direction |
| Faults.IsolationLinkCount | matrix/fault/net/isolate.cpp:10-15 | two pause calls are made per pool entry other than the victim |
| Faults.Isolate | matrix/fault/net/isolate.cpp:7-16 | the pause calls are exactly the isolation links, in pool order; nothing else of the network changes |
| Faults.PauseIncomingLinks | matrix/fault/net/isolate.cpp:18-27 | as written it makes the same pause calls as `Isolate` |
| Faults.PauseIncomingLinksPausesOutgoing | matrix/fault/net/isolate.cpp:18-27 | as written, the link from the victim to any other pool host, an outgoing link, is paused |
| Faults.IncomingLinksExact | matrix/fault/net/isolate.cpp:18-23 | the intended pause set holds a link exactly when it runs from another pool host to the victim |
| Faults.PauseIncomingOnly | matrix/fault/net/isolate.cpp:18-23 | the intended `PauseIncomingLinks`: the pause calls are exactly the links into the victim, in pool order |
| Faults.IncomingOnlyKeepsOutgoing | matrix/fault/net/isolate.cpp:18-23 | with the intended behaviour no outgoing link of the victim is paused |
| Strings.LessIrreflexive | matrix/fs/fs.hpp:32 | no path sorts before itself in the order of the file map |
| Strings.LessTransitive | matrix/fs/fs.hpp:32 | the string order of the file map is transitive |
| Strings.LessTotal | matrix/fs/fs.hpp:32 | any two different strings are ordered one way or the other |
| Strings.LessAsymmetric | matrix/fs/fs.hpp:32 | two strings are never each before the other |
| Strings.NatToString | matrix/log/format.cpp:23 | a printed number is non-empty and ends with the digit of its last decimal place |
| Strings.NatToStringDigits | matrix/log/format.cpp:23 | a printed number consists of decimal digits only |
| Strings.NatToStringInjective | matrix/world/world.hpp:242-246 | different numbers print differently, which keeps generated server names apart |
| Strings.Repeat | matrix/log/backend.cpp:46 | `n` copies of the character, exactly `n` long |
| Strings.PadRight | matrix/log/format.cpp:17-22 | left-justified padding: the text first, then spaces up to the width; a longer text is written whole |
| Worlds.ActorState.NextStepTime | matrix/server/server.cpp:193-195 | the next step time is one of the actor's due times and no later than any of them |
| Worlds.ActorState.Consumed | matrix/server/server.cpp:197-203 | a step takes exactly one work item, one due at the earliest time, and keeps the phase |
| Worlds.NextStepUnique | matrix/world/world.cpp:111-131 | at most one actor and time qualify as the next step: the earliest time wins and ties go to the lowest index |
| Worlds.DueFor | matrix/world/world.cpp:106 | work queued by a step is never due before the step's time |
| Worlds.Spawned | matrix/world/world.cpp:106 | queued work keeps every actor's phase and appends to each actor exactly the items aimed at it |
| Worlds.Consume | matrix/world/world.cpp:106 | the stepped actor loses its earliest item; every other actor is untouched |
| Worlds.StepKeepsNotBefore | matrix/world/world.cpp:88-109 | after a step to the next step's time, no running actor has work queued in the past, so virtual time never has to go back |
| Worlds.StartedStates | matrix/world/world.cpp:55-83 | after the start every actor is running with nothing overdue, and exactly the servers have work queued (their main program) |
| Worlds.AllServersSnoc | matrix/world/world.cpp:65-69 | the servers of one more pool follow those of the pools before it |
| Worlds.AllServersSplit | matrix/world/world.cpp:65-69 | the servers of all pools split at any pool into those before and those from it on |
| Worlds.CallsFor | matrix/world/world.cpp:65-83 | one call per server, in order |
| Worlds.CallsForConcat | matrix/world/world.cpp:65-83 | calling two lists of servers in turn makes the calls of the first, then those of the second |
| Worlds.CallsForPoolsSnoc | matrix/world/world.cpp:65-69 | the calls for one more pool follow the calls for the pools before it |
| Worlds.DigestsOf | matrix/world/world.cpp:159-165 | one digest item per server |
| Worlds.DigestsOfConcat | matrix/world/world.cpp:159-165 | the digest items of two lists of servers are those of the first, then those of the second |
| Worlds.DigestsOfPoolsSnoc | matrix/world/world.cpp:159-165 | the digest items of one more pool follow those of the pools before it |
| Worlds.FirstWithHost | matrix/world/world.hpp:273-282 | no server is found exactly when none has the name; a found server is in the list and has the name |
| Worlds.FirstMatch | matrix/world/world.hpp:275-279 | the search returns the first server with the name |
| Worlds.FirstWithHostConcat | matrix/world/world.hpp:274-281 | searching the pools in turn finds the match in the earlier pool when there is one, otherwise in the later |
| Worlds.ServerNameStartsWith | matrix/world/world.hpp:242-246 | a server's name starts with its template, so every adversary's name starts with "Adversary" |
| Worlds.ServerNamesDistinct | matrix/world/world.hpp:242-246 | one template never gives two indices the same name |
| Worlds.Grown | matrix/world/world.hpp:65-73 | a pool grown by `n` servers is `n` longer |
| Worlds.GrownKeeps | matrix/world/world.hpp:65-73 | growing a pool keeps every server it had, in place |
| Worlds.GrownAt | matrix/world/world.hpp:65-73 | the `k`-th new server gets the `k`-th new id and the name numbered by the pool's size once it is in |
| Worlds.GrownDistinct | matrix/world/world.hpp:65-73 | the servers one `AddPool` call creates have pairwise distinct names and ids |
| Worlds.SameOtherPoolsTrans | matrix/world/world.hpp:65-73 | agreeing on all other pools is transitive |
| Worlds.PutKeepsOthers | matrix/world/world.hpp:61-69 | storing a pool by name stores it there and leaves every other pool as it was |
| Worlds.CallLog.constructor | matrix/world/world.hpp:231-237 | the log of scoped calls starts empty |
| Worlds.CallLog.Record | matrix/world/world.hpp:231-237 | a call is appended to the log |
| Worlds.World.constructor | matrix/world/world.hpp:48-54 | a new world has the crazy time model, the seeded random source, the clock at zero and nothing registered |
| Worlds.World.SetTimeModel | matrix/world/world.hpp:95-97 | replaces the time model; pools, actors and ids are unchanged |
| Worlds.World.MakeServerTimeModel | matrix/world/world.hpp:107-113 | a host gets the adversary time model exactly when its name starts with "Adversary" |
| Worlds.World.HasAdversary | matrix/world/world.hpp:91-93 | true exactly when some adversary was added |
| Worlds.World.TimeElapsed | matrix/world/world.hpp:202-204 | the start time plus the elapsed time is the current time |
| Worlds.World.SetGlobal | matrix/world/world.hpp:218-224 | the global is set and then reads back as the value; other globals are unchanged |
| Worlds.World.GenerateGuid | matrix/world/world.hpp:227-229 | the guid for the generator's counter, which advances by one |
| Worlds.World.SetConfigGlobals | matrix/world/world.cpp:36-40 | publishes the round-trip estimate as "config.net.rtt", which every server then reads as its "net.rtt" setting |
| Worlds.World.CallInScope | matrix/world/world.hpp:231-237 | the actor is current during the call and the previous actor is current again afterwards |
| Worlds.World.CallEach | matrix/world/world.cpp:65-83 | one scoped call per server, in order; the current actor is restored |
| Worlds.World.CallPools | matrix/world/world.cpp:65-69 | one scoped call per pool server, pool by pool in name order |
| Worlds.World.Start | matrix/world/world.cpp:42-86 | the clock moves to the drawn start time, which becomes the start; the network joins the actors; the start calls go to the network, the pool servers by pool name, the clients and the adversaries, in that order; the round-trip global is published; afterwards every actor runs and nothing is overdue; the stream position stated counts only the world's own start-time draw |
| Worlds.World.Begin | matrix/world/world.cpp:49-56 | the start time is now, the network is appended to the actors and every actor is running with its main program queued now |
| Worlds.World.StartActors | matrix/world/world.cpp:56-83 | the start calls in the order of `Start`, with the globals published |
| Worlds.World.FindNextStep | matrix/world/world.cpp:111-131 | nothing is found exactly when no actor is runnable; a found step is the runnable actor due earliest, the lowest index among equals |
| Worlds.World.Step | matrix/world/world.cpp:88-109 | a step happens exactly when some actor is runnable; it counts the step, feeds the time and actor index into the digest, moves the clock forward to the step's time and steps that actor in its scope; without one nothing changes |
| Worlds.World.Advance | matrix/world/world.cpp:96-106 | the step counter grows by one, the digest gets time then index, the clock reaches the step's time without going back, the actor's earliest item is consumed and the work it queues is added |
| Worlds.World.MakeSteps | matrix/world/world.cpp:194-203 | makes at most the requested number of steps, counts exactly the steps made, and stops early only when no actor is runnable |
| Worlds.World.RunFor | matrix/world/world.cpp:205-211 | every step made was begun with less elapsed time than the budget (the recorded elapsed times start at the call's, never decrease and stay under the budget); none is made once the budget has elapsed; it stops early only when the budget is spent or no actor is runnable, and makes at most fuel steps |
| Worlds.World.ShutdownServers | matrix/world/world.cpp:159-165 | each server's digest item, then its shutdown in its scope, in order |
| Worlds.World.ShutdownPools | matrix/world/world.cpp:159-166 | every pool server's digest item and shutdown, pool by pool in name order |
| Worlds.World.Stop | matrix/world/world.cpp:133-192 | shuts down adversaries, the network, the pool servers and the clients in that order; the digest gets the network's digest, then each pool server's, never a client's; every actor is forgotten and the history is finalized |
| Worlds.World.Forget | matrix/world/world.cpp:141-179 | the digest items are folded in and pools, clients, adversaries and actors are emptied |
| Worlds.World.ShutdownActors | matrix/world/world.cpp:143-175 | the shutdown calls in the order of `Stop`, returning the pool servers' digest items |
| Worlds.World.AppendToPool | matrix/world/world.hpp:259 | the server is appended to its pool, creating a named pool if needed; every other pool, the clients and the adversaries are untouched |
| Worlds.World.AddServerImpl | matrix/world/world.hpp:255-263 | the server gets a new id no actor has, joins its pool, the network and the actors, and has not started |
| Worlds.World.NextId | matrix/world/world.hpp:257 | ids are handed out in increasing order and each is new |
| Worlds.World.AddActor | matrix/world/world.hpp:288-290 | the actor is appended to the event loop with no work queued |
| Worlds.World.AddToPool | matrix/world/world.hpp:248-252 | the server is named after the template and the pool's new size and appended to that pool only |
| Worlds.World.AddServer | matrix/world/world.hpp:56-63 | the server with the chosen name is appended to the "snowflakes" pool and registered with the network and the event loop |
| Worlds.World.AddPool | matrix/world/world.hpp:65-73 | the pool exists afterwards (even for size zero) and has grown by `size` servers with consecutive new ids and names numbered on from its size; other pools, clients and adversaries are untouched |
| Worlds.World.CreatePool | matrix/world/world.hpp:69 | `pools_[name]` returns the existing pool or creates an empty one, touching no other pool |
| Worlds.World.AddPoolServer | matrix/world/world.hpp:70-72 | one iteration of `AddPool`'s loop keeps its invariant |
| Worlds.World.AddClient | matrix/world/world.hpp:75-81 | appends a client named "Client-" and the clients' new count |
| Worlds.World.AddAdversary | matrix/world/world.hpp:83-89 | appends an adversary named "Adversary-" and the new count, which then runs under the adversary time model |
| Worlds.World.GetPool | matrix/world/world.hpp:173-187 | an unknown pool has no hosts; a known one gives its servers' names in order |
| Worlds.World.ClusterSize | matrix/world/world.hpp:265-271 | the number of pool servers, clients and adversaries not counted |
| Worlds.World.FindInPool | matrix/world/world.hpp:275-279 | the first server of the pool with the name, or none |
| Worlds.World.FindServer | matrix/world/world.hpp:273-282 | the first pool server with the name, searching pools in name order; clients and adversaries are not searched |
| Worlds.World.RestartServer | matrix/world/world.cpp:213-217 | the named pool server, if alive, has its work replaced by its main program queued now; every other actor is unchanged |
| Worlds.MakeServerName | matrix/world/world.hpp:242-246 | the template, a dash, then the index in decimal |
| Worlds.World.GetGlobal | matrix/world/world.hpp:222-224 | the value set under the name, an empty any if none was set |

## Left out

- Worlds.World.RunFor: takes a `fuel` bound on the number of steps, since the source's loop need not terminate. Every step made is proved to have begun under the budget; when fuel ends the run first, the budget may not yet have elapsed.
- Worlds.World.Step: actors are seen through their phase and the due times of their queued work (`ActorState`). The work a step queues is a parameter. What the actor's own step runs (a user task, a frame delivery) belongs to `Servers.Server.Step` and the network.
- Worlds.World.Start: the network actor's start queues no work of its own. The random draws a server's own `Start` makes (clock offset, drift, reset) are modelled in `Servers.Server.Start`, not threaded through the world, so the stream position `Start` ensures counts the world's own start-time draw only; in the source the servers' draws follow it on the same stream. `ITimeModel::Initialize` is not modelled; the crazy model's is empty (matrix/time_model/catalog/crazy.cpp:77-78). The world's field updates are grouped before the start calls; the calls, their order, the clock, the globals and the digest are as in the source.
- Worlds.World.RestartServer: modelled on actor states, where a live server's queued work is replaced by its main program. The full `FastReboot` is `Servers.Server.FastReboot`.
- Worlds.World.NextId: the server id generator (`server_ids_`, whose file is not part of this model) is taken to hand out 1, 2, 3, ...
- Worlds: the tracer, the logger calls, `SetupMatrixRuntime`, `GetStdout`, `WriteLogTo`, `WriteTraceTo`, `RandomNumber`, `CurrentActor` and the `WorldGuard` are left out: they are I/O or delegation.
- Transports.Transport.ConnectTo: the endpoint's timestamp is a parameter `ts`; in the source it is the world's current step number (matrix/network/timestamp.cpp:7-9), which the caller supplies. The same holds for Transports.Transport.Serve.
- PriorityQueues.Smallest: picks the first minimal element, so ties among equal times go first in, first out. `std::priority_queue` promises no order among equal keys; the model fixes this one.
- Servers.Server: the heap is reduced to the number of bytes it reports allocated. What the runtime set-up at launch and each task run by a step allocate or free is the user program's business and comes in as a parameter (`runtimeBytes`, `heapChange`).
- Filesystem: `Sync` and `SyncDir` return success and do nothing; `Corrupt` is an empty placeholder in the source. `MakePath` and `GetNameComponent` are delegation only. The disk latency emulation (`detail::Disk`) is not part of this model: `RuntimeFs` logs its charges as `DiskOp`s.
- Guids.GuidGenerator.GenerateNext: 64-bit wrap-around of the counter is not modelled.
- Clocks: 64-bit overflow of `real.Count() * (100 + drift)` is not modelled; jiffies are unbounded naturals.
- TestRandom.Random.Get: requires the range width `max - min + 1` to be non-zero as a 64-bit value. The full range `Get(0, SIZE_MAX)` divides by zero in the source.
- Databases: SSTable access and iterator moves only draw the cache miss; the disk reads they add are left out. The WAL is the sequence of batches it holds; its serialisation is not part of this model. The fiber mutex is a no-op in this sequential model. `Snapshot::TryGet` is not modelled, because its body is not shown.
- Iterators.MovingIterator: the database's `Move()` hook is counted, not run.
- Framing: matrix/db/detail/framed.hpp is not part of this model; the frame header is taken to be an 8-byte little-endian length.
- Logging: levels are kept by name. The logging library's level conversions, `MakeLogEvent` (context capture) and `Log` are left out. `wheels::Split` is taken to cut at every separator, keeping empty pieces.
- Logging.LogBackend.constructor: requires a well-formed `WHIRL_LOG_LEVELS`, because a malformed one aborts the simulator.
- KeyValue: the coordinator's `Set` and `Get` broadcast and quorum plumbing (futures, RPC) is left out; their quorum size and choice of value are modelled. The replica's store is a map. The write mutex is a no-op.
- Histories: the recorder's bodies are not shown; it is a log of notifications and its cookies are taken to be 0, 1, 2, ... The RPC channel and its futures are left out; a call's result arrives as a `CallResult`.
- Checker: `LinCheckBrute`, `Model::IsMutation` and `Model::Decompose` are parameters.
- Scheduling, Digests, Net: the scheduler, `DigestCalculator` and the network actor's own logic (Network.cpp) are not shown. They are modelled by what their callers rely on: a time-keyed task queue, the sequence of fed items, and a log of `PauseLink` calls and link events.
- Config: `std::any` is the datatype `Any` over the types the configuration reads.
- Randomness: the Mersenne Twister's algorithm is an uninterpreted function of seed and draw index.

## Findings

| source | as written | input that shows it | evidently intended | confidence | as-written member | corrected member |
|---|---|---|---|---|---|---|
| matrix/server/server.cpp:126-137 | `Server::ListFiles` tests the directory iterator in its loop but never advances it | a filesystem holding "/a", listed with prefix "/": the loop never ends | each stored path is visited once and those with the prefix are returned in path order, as `FS::ListFiles` does | high, not executed | Servers.ListLoopAsWritten, Servers.ListLoopAsWrittenNeverEnds, Servers.ListFilesCounterexample | Servers.Server.ListFiles, RuntimeFs.CollectWithPrefix |
| matrix/fault/net/isolate.cpp:18-27 | `PauseIncomingLinks` has the body of `Isolate`, so it also pauses the victim's outgoing links | pool ["a", "b"], victim "a": link a->b is paused | only the links into the victim are paused, so the victim can still send | medium, not executed | Faults.PauseIncomingLinks, Faults.PauseIncomingLinksPausesOutgoing | Faults.PauseIncomingOnly, Faults.IncomingOnlyKeepsOutgoing |
| matrix/helpers/json_writer.hpp:99-104 | `Complete` breaks the line before the closing bracket only when `index_ > 1`, although its comment says "at least one entry" | a list with one entry: its "]" stays on the entry's line, while with two entries it gets its own line | a line break whenever the container has at least one entry (`index_ > 0`) | high, not executed | JsonWriters.ClosingAsWritten, JsonWriters.ClosingAsWrittenSingleEntry | JsonWriters.Closing, JsonWriters.JsonWriter.Complete |
| matrix/time_model/catalog/adversary.cpp:7-44 | the adversary server model defines neither `GetCacheMiss` nor `IteratorCacheMiss`, both pure virtual in matrix/time_model/time_model.hpp:47-48, so it cannot be instantiated | `MakeAdversaryTimeModel()` for any adversary | a deterministic answer with no draw, like the rest of the adversary model: never a cache miss | medium, not executed | TimeModels.AdversaryAsWrittenIsAbstract | TimeModels.GetCacheMiss, TimeModels.IteratorCacheMiss |
