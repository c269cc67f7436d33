/**
 * Network fault helpers (matrix/fault/net/split.cpp, isolate.cpp): which
 * directed links to pause. Each helper issues `PauseLink(start, end)` calls on
 * the network, which the model records in `Network.pauseCalls`.
 */
module Faults {
  import opened Packets
  import opened Randomness
  import Net

  /** The distinct values occurring in `s`. */
  function Elements(s: seq<string>): set<string>
  {
    set x | x in s
  }

  predicate NoDuplicates(s: seq<string>)
  {
    forall i, j :: 0 <= i < j < |s| ==> s[i] != s[j]
  }

  /** `s` with the entries at `i` and `j` exchanged (`std::swap`). */
  function Swap(s: seq<string>, i: nat, j: nat): (r: seq<string>)
    requires i < |s| && j < |s|
    ensures |r| == |s| && multiset(r) == multiset(s)
  {
    s[i := s[j]][j := s[i]]
  }

  /** Steps `i` .. `n - 1` of a Fisher-Yates shuffle of `pool`: step `i` swaps
      entry `i` with an entry drawn from [i, |pool| - 1]. Entries before `i`
      are already final. */
  function PartialShuffle(pool: seq<string>, i: nat, n: nat, s: Stream): (d: Drawn<seq<string>>)
    requires i <= n <= |pool|
    ensures |d.value| == |pool| && d.value[..i] == pool[..i]
    ensures multiset(d.value) == multiset(pool)
    ensures d.rest == s.(pos := s.pos + (n - i))
    decreases n - i
  {
    if i == n then Drawn(pool, s)
    else
      var j := Between(s, i, |pool| - 1);
      var d := PartialShuffle(Swap(pool, i, j.value), i + 1, n, j.rest);
      assert d.value[..i] == d.value[..i + 1][..i];
      d
  }

  /** Swaps keep the entries distinct. */
  lemma SwapKeepsDistinct(s: seq<string>, i: nat, j: nat)
    requires i < |s| && j < |s| && NoDuplicates(s)
    ensures NoDuplicates(Swap(s, i, j))
  {
    var r := Swap(s, i, j);
    forall a, b | 0 <= a < b < |r|
      ensures r[a] != r[b]
    {
      var a' := if a == i then j else if a == j then i else a;
      var b' := if b == i then j else if b == j then i else b;
      assert r[a] == s[a'] && r[b] == s[b'];
    }
  }

  lemma {:induction false} ShuffleKeepsDistinct(pool: seq<string>, i: nat, n: nat, s: Stream)
    requires i <= n <= |pool| && NoDuplicates(pool)
    ensures NoDuplicates(PartialShuffle(pool, i, n, s).value)
    decreases n - i
  {
    if i < n {
      var j := Between(s, i, |pool| - 1);
      SwapKeepsDistinct(pool, i, j.value);
      ShuffleKeepsDistinct(Swap(pool, i, j.value), i + 1, n, j.rest);
    }
  }

  /** A sequence without duplicates has as many elements as entries. */
  lemma {:induction false} DistinctCount(s: seq<string>)
    requires NoDuplicates(s)
    ensures |Elements(s)| == |s|
  {
    if s != [] {
      var init := s[..|s| - 1];
      assert s == init + [s[|s| - 1]];
      assert Elements(s) == Elements(init) + {s[|s| - 1]};
      assert s[|s| - 1] !in Elements(init);
      DistinctCount(init);
    }
  }

  lemma ElementsSnoc(s: seq<string>, i: nat)
    requires i < |s|
    ensures Elements(s[..i + 1]) == Elements(s[..i]) + {s[i]}
  {
    assert s[..i + 1] == s[..i] + [s[i]];
  }

  /** The left side of a split: the first `n` hosts of the partially
      shuffled pool. */
  function LeftSide(pool: seq<string>, n: nat, s: Stream): set<string>
    requires n <= |pool|
  {
    Elements(PartialShuffle(pool, 0, n, s).value[..n])
  }

  /** `GenerateSplit`: the left side is the set of the first `lhsSize`
      hosts of the partially shuffled pool. */
  method GenerateSplit(pool: seq<string>, lhsSize: nat, s: Stream) returns (lhs: set<string>, rest: Stream)
    requires lhsSize <= |pool|
    ensures lhs == LeftSide(pool, lhsSize, s) && rest == PartialShuffle(pool, 0, lhsSize, s).rest
  {
    var work := pool;
    lhs := {};
    rest := s;
    var i := 0;
    while i < lhsSize
      invariant i <= lhsSize && |work| == |pool|
      invariant PartialShuffle(work, i, lhsSize, rest) == PartialShuffle(pool, 0, lhsSize, s)
      invariant lhs == Elements(work[..i])
    {
      var j := Between(rest, i, |work| - 1);
      work := Swap(work, i, j.value);
      rest := j.rest;
      ElementsSnoc(work, i);
      lhs := lhs + {work[i]};
      i := i + 1;
    }
  }

  /** The left side only holds pool members; with distinct host names it has
      exactly `lhsSize` of them. */
  lemma SplitSides(pool: seq<string>, lhsSize: nat, s: Stream)
    requires lhsSize <= |pool|
    ensures var lhs := LeftSide(pool, lhsSize, s);
      lhs <= Elements(pool) && (NoDuplicates(pool) ==> |lhs| == lhsSize)
  {
    var d := PartialShuffle(pool, 0, lhsSize, s);
    forall x | x in d.value[..lhsSize]
      ensures x in pool
    {
      assert x in multiset(d.value);
    }
    if NoDuplicates(pool) {
      ShuffleKeepsDistinct(pool, 0, lhsSize, s);
      DistinctCount(d.value[..lhsSize]);
    }
  }

  /** The links from `a` to each of `targets` that cross the split. */
  function RowCuts(a: string, targets: seq<string>, lhs: set<string>): seq<LinkId>
  {
    if targets == [] then []
    else
      var b := targets[|targets| - 1];
      RowCuts(a, targets[..|targets| - 1], lhs) + (if (a in lhs) != (b in lhs) then [LinkId(a, b)] else [])
  }

  /** The links crossing the split, source by source in pool order. */
  function CrossLinks(sources: seq<string>, targets: seq<string>, lhs: set<string>): seq<LinkId>
  {
    if sources == [] then []
    else CrossLinks(sources[..|sources| - 1], targets, lhs) + RowCuts(sources[|sources| - 1], targets, lhs)
  }

  lemma {:induction false} RowCutsExact(a: string, targets: seq<string>, lhs: set<string>, l: LinkId)
    ensures l in RowCuts(a, targets, lhs) <==> l.start == a && l.end in targets && (a in lhs) != (l.end in lhs)
  {
    if targets != [] {
      var init := targets[..|targets| - 1];
      assert targets == init + [targets[|targets| - 1]];
      RowCutsExact(a, init, lhs, l);
    }
  }

  lemma {:induction false} CrossLinksExact(sources: seq<string>, targets: seq<string>, lhs: set<string>, l: LinkId)
    ensures l in CrossLinks(sources, targets, lhs) <==>
      l.start in sources && l.end in targets && (l.start in lhs) != (l.end in lhs)
  {
    if sources != [] {
      var init := sources[..|sources| - 1];
      assert sources == init + [sources[|sources| - 1]];
      CrossLinksExact(init, targets, lhs, l);
      RowCutsExact(sources[|sources| - 1], targets, lhs, l);
    }
  }

  /** `RandomSplit` pauses exactly the links between pool members on opposite
      sides: each such pair in both directions, and never a link inside one
      side or a self link. */
  lemma SplitPausesExactlyTheCut(pool: seq<string>, lhs: set<string>, a: string, b: string)
    ensures LinkId(a, b) in CrossLinks(pool, pool, lhs) <==> a in pool && b in pool && (a in lhs) != (b in lhs)
    ensures LinkId(a, b) in CrossLinks(pool, pool, lhs) ==> LinkId(b, a) in CrossLinks(pool, pool, lhs) && a != b
  {
    CrossLinksExact(pool, pool, lhs, LinkId(a, b));
    CrossLinksExact(pool, pool, lhs, LinkId(b, a));
  }

  /** Splits the pool at random into a left side of `lhsSize` hosts and the
      rest, and pauses every link that crosses the split. The pairs are
      visited over the caller's pool, not the shuffled copy. */
  method RandomSplit(pool: seq<string>, lhsSize: nat, net: Net.Network, s: Stream) returns (rest: Stream)
    requires lhsSize <= |pool|
    modifies net
    ensures net.pauseCalls == old(net.pauseCalls) + CrossLinks(pool, pool, LeftSide(pool, lhsSize, s))
    ensures rest == PartialShuffle(pool, 0, lhsSize, s).rest
    ensures net.servers == old(net.servers) && net.events == old(net.events) && net.framesLog == old(net.framesLog)
  {
    var lhs;
    lhs, rest := GenerateSplit(pool, lhsSize, s);
    PauseCut(pool, lhs, net);
  }

  /** The loops of `RandomSplit`: every ordered pair of pool entries, and a
      pause for each pair on opposite sides of `lhs`. */
  method PauseCut(pool: seq<string>, lhs: set<string>, net: Net.Network)
    modifies net
    ensures net.pauseCalls == old(net.pauseCalls) + CrossLinks(pool, pool, lhs)
    ensures net.servers == old(net.servers) && net.events == old(net.events) && net.framesLog == old(net.framesLog)
  {
    var i := 0;
    while i < |pool|
      invariant i <= |pool|
      invariant net.pauseCalls == old(net.pauseCalls) + CrossLinks(pool[..i], pool, lhs)
      invariant net.servers == old(net.servers) && net.events == old(net.events) && net.framesLog == old(net.framesLog)
    {
      PauseRow(pool[i], pool, lhs, net);
      assert pool[..i + 1][..i] == pool[..i];
      i := i + 1;
    }
    assert pool[..i] == pool;
  }

  /** The inner loop of `RandomSplit`: the links from `a` that cross the
      split, in pool order. */
  method PauseRow(a: string, pool: seq<string>, lhs: set<string>, net: Net.Network)
    modifies net
    ensures net.pauseCalls == old(net.pauseCalls) + RowCuts(a, pool, lhs)
    ensures net.servers == old(net.servers) && net.events == old(net.events) && net.framesLog == old(net.framesLog)
  {
    var j := 0;
    while j < |pool|
      invariant j <= |pool|
      invariant net.pauseCalls == old(net.pauseCalls) + RowCuts(a, pool[..j], lhs)
      invariant net.servers == old(net.servers) && net.events == old(net.events) && net.framesLog == old(net.framesLog)
    {
      assert pool[..j + 1][..j] == pool[..j];
      if (a in lhs) != (pool[j] in lhs) {
        net.PauseLink(a, pool[j]);
      }
      j := j + 1;
    }
    assert pool[..j] == pool;
  }

  /** Both directions between `victim` and each other host, in pool order. */
  function IsolationLinks(hosts: seq<string>, victim: string): seq<LinkId>
  {
    if hosts == [] then []
    else
      var h := hosts[|hosts| - 1];
      IsolationLinks(hosts[..|hosts| - 1], victim) + (if h != victim then [LinkId(h, victim), LinkId(victim, h)] else [])
  }

  /** Number of entries of `hosts` other than `victim`. */
  function CountOthers(hosts: seq<string>, victim: string): nat
  {
    if hosts == [] then 0
    else CountOthers(hosts[..|hosts| - 1], victim) + (if hosts[|hosts| - 1] != victim then 1 else 0)
  }

  /** `Isolate` pauses a link iff it joins the victim and another pool member,
      in either direction; links not touching the victim, and the victim's
      self link, are left alone. */
  lemma {:induction false} IsolationLinksExact(hosts: seq<string>, victim: string, l: LinkId)
    ensures l in IsolationLinks(hosts, victim) <==>
      (l.start in hosts && l.start != victim && l.end == victim) ||
      (l.start == victim && l.end in hosts && l.end != victim)
  {
    if hosts != [] {
      var init := hosts[..|hosts| - 1];
      assert hosts == init + [hosts[|hosts| - 1]];
      IsolationLinksExact(init, victim, l);
    }
  }

  /** Two `PauseLink` calls per pool entry other than the victim. */
  lemma {:induction false} IsolationLinkCount(hosts: seq<string>, victim: string)
    ensures |IsolationLinks(hosts, victim)| == 2 * CountOthers(hosts, victim)
  {
    if hosts != [] {
      IsolationLinkCount(hosts[..|hosts| - 1], victim);
    }
  }

  /** Cuts `victim` off from the rest of the pool in both directions. */
  method Isolate(pool: seq<string>, victim: string, net: Net.Network)
    modifies net
    ensures net.pauseCalls == old(net.pauseCalls) + IsolationLinks(pool, victim)
    ensures net.servers == old(net.servers) && net.events == old(net.events) && net.framesLog == old(net.framesLog)
  {
    var i := 0;
    while i < |pool|
      invariant i <= |pool|
      invariant net.pauseCalls == old(net.pauseCalls) + IsolationLinks(pool[..i], victim)
      invariant net.servers == old(net.servers) && net.events == old(net.events) && net.framesLog == old(net.framesLog)
    {
      assert pool[..i + 1][..i] == pool[..i];
      if pool[i] != victim {
        net.PauseLink(pool[i], victim);
        net.PauseLink(victim, pool[i]);
      }
      i := i + 1;
    }
    assert pool[..i] == pool;
  }

  /** `PauseIncomingLinks` as written: its loop is the loop of `Isolate`,
      so it pauses the victim's outgoing links as well as its incoming ones. */
  method PauseIncomingLinks(pool: seq<string>, victim: string, net: Net.Network)
    modifies net
    ensures net.pauseCalls == old(net.pauseCalls) + IsolationLinks(pool, victim)
    ensures net.servers == old(net.servers) && net.events == old(net.events) && net.framesLog == old(net.framesLog)
  {
    Isolate(pool, victim, net);
  }

  /** The discrepancy: for any other host in the pool, the link from the
      victim to it, an outgoing link, is among those `PauseIncomingLinks`
      pauses. */
  lemma PauseIncomingLinksPausesOutgoing(pool: seq<string>, victim: string, h: string)
    requires h in pool && h != victim
    ensures LinkId(victim, h) in IsolationLinks(pool, victim)
  {
    IsolationLinksExact(pool, victim, LinkId(victim, h));
  }

  /** The links into `victim` from each other host, in pool order. */
  function IncomingLinks(hosts: seq<string>, victim: string): seq<LinkId>
  {
    if hosts == [] then []
    else
      var h := hosts[|hosts| - 1];
      IncomingLinks(hosts[..|hosts| - 1], victim) + (if h != victim then [LinkId(h, victim)] else [])
  }

  lemma {:induction false} IncomingLinksExact(hosts: seq<string>, victim: string, l: LinkId)
    ensures l in IncomingLinks(hosts, victim) <==> l.start in hosts && l.start != victim && l.end == victim
  {
    if hosts != [] {
      var init := hosts[..|hosts| - 1];
      assert hosts == init + [hosts[|hosts| - 1]];
      IncomingLinksExact(init, victim, l);
    }
  }

  /** Pausing only the links into `victim`, as the name `PauseIncomingLinks`
      promises: the victim can still send. */
  method PauseIncomingOnly(pool: seq<string>, victim: string, net: Net.Network)
    modifies net
    ensures net.pauseCalls == old(net.pauseCalls) + IncomingLinks(pool, victim)
    ensures net.servers == old(net.servers) && net.events == old(net.events) && net.framesLog == old(net.framesLog)
  {
    var i := 0;
    while i < |pool|
      invariant i <= |pool|
      invariant net.pauseCalls == old(net.pauseCalls) + IncomingLinks(pool[..i], victim)
      invariant net.servers == old(net.servers) && net.events == old(net.events) && net.framesLog == old(net.framesLog)
    {
      assert pool[..i + 1][..i] == pool[..i];
      if pool[i] != victim {
        net.PauseLink(pool[i], victim);
      }
      i := i + 1;
    }
    assert pool[..i] == pool;
  }

  /** With the intended behaviour no outgoing link of the victim is paused. */
  lemma IncomingOnlyKeepsOutgoing(pool: seq<string>, victim: string, h: string)
    ensures LinkId(victim, h) !in IncomingLinks(pool, victim)
  {
    IncomingLinksExact(pool, victim, LinkId(victim, h));
  }
}
