/**
 * Unique identifiers (matrix/guids/generator.cpp): "guid-", a letter that
 * cycles through "YXZ", "-", and the value of a counter that is incremented
 * before each use.
 */
module Guids {
  import opened Strings

  const Letters: string := "YXZ"

  /** The identifier printed for counter value `v`. */
  function GuidFor(v: nat): (g: string)
    ensures |g| >= 8
    ensures g[..5] == "guid-" && g[5] == Letters[v % 3] && g[6] == '-'
    ensures g[7..] == NatToString(v)
  {
    "guid-" + [Letters[v % 3]] + "-" + NatToString(v)
  }

  /** Different counter values give different identifiers, because their
      decimal suffixes differ. */
  lemma GuidForInjective(a: nat, b: nat)
    requires GuidFor(a) == GuidFor(b)
    ensures a == b
  {
    assert NatToString(a) == GuidFor(a)[7..] == GuidFor(b)[7..] == NatToString(b);
    NatToStringInjective(a, b);
  }

  /** The letter follows the counter modulo three: X, Z, Y for 1, 2, 3, and
      then again. */
  lemma LetterCycle(v: nat)
    ensures GuidFor(1)[5] == 'X' && GuidFor(2)[5] == 'Z' && GuidFor(3)[5] == 'Y'
    ensures GuidFor(v + 3)[5] == GuidFor(v)[5]
  {
  }

  class GuidGenerator {
    var nextValue: nat

    constructor ()
      ensures nextValue == 0
    {
      nextValue := 0;
    }

    /** Increments the counter, then prints its new value; the first
        identifier uses value 1. */
    method GenerateNext() returns (guid: string)
      modifies this
      ensures nextValue == old(nextValue) + 1
      ensures guid == GuidFor(nextValue)
    {
      nextValue := nextValue + 1;
      guid := GuidFor(nextValue);
    }
  }

  /** Two calls on one generator give different identifiers. */
  method TwoGuidsDiffer(g: GuidGenerator) returns (first: string, second: string)
    modifies g
    ensures first != second
  {
    first := g.GenerateNext();
    second := g.GenerateNext();
    if first == second {
      GuidForInjective(g.nextValue - 1, g.nextValue);
    }
  }
}
