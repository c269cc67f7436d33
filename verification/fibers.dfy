/**
 * Fiber ids and fiber stacks (matrix/process/fibers.cpp): ids come from a
 * pre-incremented counter; released stacks go onto a free-list that is reused
 * last-in first-out, and a reused stack is zeroed before it is handed out.
 * Stacks are named by the order in which they were allocated.
 */
module Fibers {
  import opened Wrappers

  /** `sizeof(FiberStack)`: 64 * 4 KiB. */
  const StackSize: nat := 64 * 4 * 1024

  function Zeros(n: nat): (z: seq<Byte>)
    ensures |z| == n && forall i :: 0 <= i < n ==> z[i] == 0
  {
    seq(n, _ => 0)
  }

  /** A mutable view of a stack: which stack, and how many bytes. */
  datatype MemView = MemView(stack: nat, size: nat)

  class FiberManager {
    var nextId: nat
    var pool: seq<nat>                 // free-list; the top is the last element
    var stackCount: nat                 // stacks 0 .. stackCount - 1 exist
    var memory: map<nat, seq<Byte>>    // contents of every allocated stack

    constructor ()
      ensures nextId == 0 && pool == [] && stackCount == 0 && memory == map[]
    {
      nextId := 0;
      pool := [];
      stackCount := 0;
      memory := map[];
    }

    ghost predicate Valid()
      reads this
    {
      (forall i :: 0 <= i < |pool| ==> pool[i] < stackCount) &&
      (forall s :: s in memory <==> s < stackCount) &&
      (forall s :: s in memory ==> |memory[s]| == StackSize)
    }

    /** A fresh fiber id: 1 for the first call, then 2, 3, ... */
    method GenerateId() returns (id: nat)
      modifies this
      ensures id == old(nextId) + 1 && nextId == id
      ensures pool == old(pool) && stackCount == old(stackCount) && memory == old(memory)
    {
      nextId := nextId + 1;
      id := nextId;
    }

    /** A zeroed stack of `StackSize` bytes: the most recently released one if
        the free-list is not empty, otherwise a newly allocated one. */
    method AcquireStack() returns (view: MemView)
      requires Valid()
      modifies this
      ensures Valid()
      ensures view.size == StackSize
      ensures view.stack in memory && memory[view.stack] == Zeros(StackSize)
      ensures old(pool) != [] ==>
        view.stack == old(pool)[|old(pool)| - 1] && pool == old(pool)[..|old(pool)| - 1] &&
        stackCount == old(stackCount)
      ensures old(pool) == [] ==>
        view.stack == old(stackCount) && stackCount == old(stackCount) + 1 && pool == old(pool)
      ensures forall s :: s in old(memory) && s != view.stack ==> s in memory && memory[s] == old(memory)[s]
      ensures nextId == old(nextId)
    {
      var stack: nat;
      if pool != [] {
        stack := pool[|pool| - 1];
        pool := pool[..|pool| - 1];
      } else {
        stack := stackCount;
        stackCount := stackCount + 1;
      }
      memory := memory[stack := Zeros(StackSize)];
      view := MemView(stack, StackSize);
    }

    /** Returns a stack to the top of the free-list. */
    method ReleaseStack(view: MemView)
      requires Valid() && view.stack < stackCount
      modifies this
      ensures Valid()
      ensures pool == old(pool) + [view.stack]
      ensures stackCount == old(stackCount) && memory == old(memory) && nextId == old(nextId)
    {
      pool := pool + [view.stack];
    }
  }
}
