/**
 * The front end of the linearizability checker
 * (matrix/semantics/checker/check.hpp, real_time_order.hpp).
 *
 * The data-type model (`Model::IsMutation`, `Model::Decompose`) and the
 * brute-force search (`LinCheckBrute`) are not part of this model; they are
 * parameters.
 */
module Checker {
  import opened Wrappers
  import opened Histories

  /** The search budget handed to the brute-force checker. */
  const TimeLimit: nat := 777777

  /** A call the checker must keep: completed, or a mutation (whose effect may
      be visible even though its answer was lost). */
  predicate Kept(c: Call, isMutation: Call -> bool)
  {
    c.IsCompleted() || isMutation(c)
  }

  /** The history without its uncompleted read-only calls, the others in
      their order. */
  function Cleaned(h: History, isMutation: Call -> bool): (r: History)
    ensures |r| <= |h|
    ensures forall c :: c in r <==> c in h && Kept(c, isMutation)
  {
    if h == [] then []
    else if Kept(h[0], isMutation) then [h[0]] + Cleaned(h[1..], isMutation)
    else Cleaned(h[1..], isMutation)
  }

  lemma {:induction false} CleanedSnoc(h: History, c: Call, isMutation: Call -> bool)
    ensures Cleaned(h + [c], isMutation) == Cleaned(h, isMutation) + (if Kept(c, isMutation) then [c] else [])
  {
    if h == [] {
      assert h + [c] == [c];
    } else {
      assert (h + [c])[1..] == h[1..] + [c];
      CleanedSnoc(h[1..], c, isMutation);
    }
  }

  /** `Cleanup`: walks the history, skipping the uncompleted read-only calls
      and pushing the others. */
  method Cleanup(h: History, isMutation: Call -> bool) returns (result: History)
    ensures result == Cleaned(h, isMutation)
  {
    result := [];
    for i := 0 to |h|
      invariant result == Cleaned(h[..i], isMutation)
    {
      CleanedSnoc(h[..i], h[i], isMutation);
      assert h[..i + 1] == h[..i] + [h[i]];
      if !h[i].IsCompleted() && !isMutation(h[i]) {
        // skipped
      } else {
        result := result + [h[i]];
      }
    }
    assert h[..|h|] == h;
  }

  /** `sub` is `h` with some calls left out, the rest in their order. */
  predicate Subsequence(sub: History, h: History)
    decreases |h|
  {
    if sub == [] then true
    else if h == [] then false
    else if sub[0] == h[0] then Subsequence(sub[1..], h[1..])
    else Subsequence(sub, h[1..])
  }

  /** Cleanup keeps the relative order of the calls it keeps. */
  lemma {:induction false} CleanupKeepsOrder(h: History, isMutation: Call -> bool)
    ensures Subsequence(Cleaned(h, isMutation), h)
  {
    if h != [] {
      CleanupKeepsOrder(h[1..], isMutation);
    }
  }

  /** Cleaning up twice is cleaning up once. */
  lemma {:induction false} CleanupIdempotent(h: History, isMutation: Call -> bool)
    ensures Cleaned(Cleaned(h, isMutation), isMutation) == Cleaned(h, isMutation)
  {
    if h != [] {
      CleanupIdempotent(h[1..], isMutation);
      if Kept(h[0], isMutation) {
        assert ([h[0]] + Cleaned(h[1..], isMutation))[1..] == Cleaned(h[1..], isMutation);
      }
    }
  }

  /** `LinCheck`: clean up, split into independent sub-histories, and check
      each with the brute-force search, stopping at the first failure. The
      history is linearizable exactly when every sub-history passes. */
  method LinCheck(h: History, isMutation: Call -> bool, decompose: History -> seq<History>,
                  brute: (History, nat) -> bool) returns (r: bool)
    ensures r <==> forall sub :: sub in decompose(Cleaned(h, isMutation)) ==> brute(sub, TimeLimit)
  {
    var cleaned := Cleanup(h, isMutation);
    var subs := decompose(cleaned);
    for i := 0 to |subs|
      invariant forall j :: 0 <= j < i ==> brute(subs[j], TimeLimit)
    {
      if !brute(subs[i], TimeLimit) {
        return false;
      }
    }
    return true;
  }

  /** `lhs` ended strictly before `rhs` started. */
  predicate PrecedesInRealTime(lhs: Call, rhs: Call)
    ensures PrecedesInRealTime(lhs, rhs) ==> lhs.endTime.Some? && lhs.endTime.value < rhs.startTime
    ensures !lhs.IsCompleted() ==> !PrecedesInRealTime(lhs, rhs)
  {
    lhs.IsCompleted() && lhs.endTime.value < rhs.startTime
  }

  /** A call that does not end before it starts. */
  predicate WellFormed(c: Call)
  {
    c.endTime.Some? ==> c.startTime <= c.endTime.value
  }

  /** On well-formed calls real-time precedence is a strict partial order;
      an uncompleted call precedes nothing and touching intervals are
      unordered. */
  lemma PrecedenceIsStrictOrder(a: Call, b: Call, c: Call)
    requires WellFormed(a) && WellFormed(b) && WellFormed(c)
    ensures !PrecedesInRealTime(a, a)
    ensures PrecedesInRealTime(a, b) ==> !PrecedesInRealTime(b, a)
    ensures PrecedesInRealTime(a, b) && PrecedesInRealTime(b, c) ==> PrecedesInRealTime(a, c)
    ensures !a.IsCompleted() ==> !PrecedesInRealTime(a, b)
    ensures a.endTime == Some(b.startTime) ==> !PrecedesInRealTime(a, b)
  {
  }
}
