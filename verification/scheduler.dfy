/**
 * A server's local task queue. The simulator's scheduler implementation is
 * not part of this model; what the server, the transport and the time service
 * rely on is kept: tasks are queued with the global time at which they become
 * due, the earliest is taken first (earlier-queued first among equal times),
 * a crash empties the queue, and "as soon as possible" means at the current
 * global time.
 */
module Scheduling {
  import opened Wrappers
  import opened Packets
  import opened PriorityQueues

  /** The work a server runs, one task at a time. */
  datatype Task =
    | MainTask                                                    // the node's main program
    | DisconnectTask(handler: nat, peer: string)                  // a peer reset the connection
    | MessageTask(handler: nat, message: string, reply: Packet, replyLink: LinkId)  // a message, with its reply socket
    | TimerTask(timer: nat)                                       // a user-level sleep or timeout fired

  datatype Timed = Timed(at: nat, task: Task)

  function DueAt(t: Timed): nat
  {
    t.at
  }

  class Scheduler {
    var queue: seq<Timed>
    var resumedAt: Option<nat>   // the last global time the queue was resumed at

    constructor ()
      ensures queue == [] && resumedAt == None
    {
      queue := [];
      resumedAt := None;
    }

    function IsEmpty(): bool
      reads this
    {
      queue == []
    }

    /** Due time of the task that `TakeNext` would return. */
    function NextTaskTime(): (t: nat)
      reads this
      requires queue != []
      ensures forall i :: 0 <= i < |queue| ==> t <= queue[i].at
      ensures exists i :: 0 <= i < |queue| && t == queue[i].at
    {
      queue[Smallest(queue, DueAt)].at
    }

    /** Queues `task`, due at global time `at`. */
    method Schedule(at: nat, task: Task)
      modifies this
      ensures queue == old(queue) + [Timed(at, task)]
      ensures resumedAt == old(resumedAt)
    {
      queue := queue + [Timed(at, task)];
    }

    /** Queues `task` to run as soon as possible: due now. */
    method ScheduleAsap(task: Task, now: nat)
      modifies this
      ensures queue == old(queue) + [Timed(now, task)]
      ensures resumedAt == old(resumedAt)
    {
      Schedule(now, task);
    }

    /** Removes and returns the earliest-due task. */
    method TakeNext() returns (task: Task)
      requires queue != []
      modifies this
      ensures var k := Smallest(old(queue), DueAt);
        task == old(queue)[k].task && queue == RemoveAt(old(queue), k)
      ensures resumedAt == old(resumedAt)
    {
      var k := Smallest(queue, DueAt);
      task := queue[k].task;
      queue := RemoveAt(queue, k);
    }

    /** Drops every queued task. */
    method Reset()
      modifies this
      ensures queue == [] && resumedAt == old(resumedAt)
    {
      queue := [];
    }

    /** Resumes the queue after a pause, against global time `now`. */
    method Resume(now: nat)
      modifies this
      ensures queue == old(queue) && resumedAt == Some(now)
    {
      resumedAt := Some(now);
    }
  }
}
