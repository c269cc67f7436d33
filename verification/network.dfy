/**
 * The link layer (matrix/network/link.*, matrix/network/network.hpp).
 *
 * A `Link` is a one-way queue of frames keyed by delivery time, with a pause
 * flag for fault injection. Every frame put on a link also registers a
 * (delivery time, link) event with the `Network`, which also keeps the log of
 * delivered frames. The network actor's own step logic, link construction and
 * `PauseLink` bodies live in a file that is not part of this model: the
 * network here records the events it is given, the frames it logs and the
 * `PauseLink` calls made on it.
 */
module Net {
  import opened Wrappers
  import opened Packets
  import opened Randomness
  import opened TimeModels
  import opened PriorityQueues

  /** A frame with its delivery time; frames are ordered by time only. */
  datatype FrameEvent = FrameEvent(frame: Frame, time: nat)

  /** A pending delivery on a link; events are ordered by time only. */
  datatype LinkEvent = LinkEvent(time: nat, link: LinkId)

  /** The network's logs, as one value. */
  datatype NetLogs = NetLogs(servers: seq<string>, events: seq<LinkEvent>, framesLog: seq<Frame>, pauseCalls: seq<LinkId>)

  function FrameTime(e: FrameEvent): nat
  {
    e.time
  }

  /** `FrameEvent::operator<`: frames are ordered by delivery time alone,
      so frames due at the same time are unordered. */
  predicate FrameEventLess(a: FrameEvent, b: FrameEvent)
    ensures FrameEventLess(a, b) <==> FrameTime(a) < FrameTime(b)
  {
    a.time < b.time
  }

  /** `LinkEvent::operator<`: link events are ordered by time alone,
      whichever link they belong to. */
  predicate LinkEventLess(a: LinkEvent, b: LinkEvent)
    ensures LinkEventLess(a, b) <==> a.time < b.time
  {
    a.time < b.time
  }

  class Network {
    var servers: seq<string>      // hosts registered with `AddServer`
    var events: seq<LinkEvent>    // link events, in the order they were added
    var framesLog: seq<Frame>     // delivered frames
    var pauseCalls: seq<LinkId>   // `PauseLink(start, end)` calls, in order

    constructor ()
      ensures servers == [] && events == [] && framesLog == [] && pauseCalls == []
    {
      servers := [];
      events := [];
      framesLog := [];
      pauseCalls := [];
    }

    method AddServer(host: string)
      modifies this
      ensures servers == old(servers) + [host]
      ensures events == old(events) && framesLog == old(framesLog) && pauseCalls == old(pauseCalls)
    {
      servers := servers + [host];
    }

    method AddLinkEvent(link: LinkId, t: nat)
      modifies this
      ensures events == old(events) + [LinkEvent(t, link)]
      ensures servers == old(servers) && framesLog == old(framesLog) && pauseCalls == old(pauseCalls)
    {
      events := events + [LinkEvent(t, link)];
    }

    method PauseLink(start: string, end: string)
      modifies this
      ensures pauseCalls == old(pauseCalls) + [LinkId(start, end)]
      ensures servers == old(servers) && events == old(events) && framesLog == old(framesLog)
    {
      pauseCalls := pauseCalls + [LinkId(start, end)];
    }

    /** Appends a delivered frame to the log. */
    method LogFrame(frame: Frame)
      modifies this
      ensures framesLog == old(framesLog) + [frame]
      ensures FrameCount() == old(FrameCount()) + 1
      ensures servers == old(servers) && events == old(events) && pauseCalls == old(pauseCalls)
    {
      framesLog := framesLog + [frame];
    }

    /** The number of frames logged so far. */
    function FrameCount(): (n: nat)
      reads this
      ensures n == |framesLog|
    {
      |framesLog|
    }

    /** The frame logged `index`-th; an index out of range raises
        `std::out_of_range`, modelled as `None`. */
    function GetFrame(index: nat): (r: Option<Frame>)
      reads this
      ensures r.Some? <==> index < FrameCount()
      ensures r.Some? ==> r.value == framesLog[index]
    {
      if index < |framesLog| then Some(framesLog[index]) else None
    }
  }

  /** `n` copies of event `e`. */
  function Repeated(e: LinkEvent, n: nat): seq<LinkEvent>
  {
    if n == 0 then [] else Repeated(e, n - 1) + [e]
  }

  /** Number of queued frames due strictly before `now`. */
  function Overdue(q: seq<FrameEvent>, now: nat): nat
  {
    if q == [] then 0 else (if q[0].time < now then 1 else 0) + Overdue(q[1..], now)
  }

  lemma {:induction false} OverdueConcat(a: seq<FrameEvent>, b: seq<FrameEvent>, now: nat)
    ensures Overdue(a + b, now) == Overdue(a, now) + Overdue(b, now)
  {
    if a == [] {
      assert a + b == b;
    } else {
      assert (a + b)[1..] == a[1..] + b;
      OverdueConcat(a[1..], b, now);
    }
  }

  lemma {:induction false} NoneOverdue(q: seq<FrameEvent>, now: nat)
    requires forall i :: 0 <= i < |q| ==> q[i].time >= now
    ensures Overdue(q, now) == 0
    ensures Rebased(q, now) == q
  {
    if q != [] {
      NoneOverdue(q[1..], now);
      assert q == [q[0]] + q[1..];
    }
  }

  /** What `Resume` promises of each frame: one due before `now` is moved to
      `now + 1`, any other is left alone. */
  function Rebase(e: FrameEvent, now: nat): FrameEvent
  {
    if e.time < now then e.(time := now + 1) else e
  }

  function Rebased(q: seq<FrameEvent>, now: nat): (r: seq<FrameEvent>)
  {
    if q == [] then [] else [Rebase(q[0], now)] + Rebased(q[1..], now)
  }

  lemma {:induction false} RebasedConcat(a: seq<FrameEvent>, b: seq<FrameEvent>, now: nat)
    ensures Rebased(a + b, now) == Rebased(a, now) + Rebased(b, now)
  {
    if a == [] {
      assert a + b == b;
    } else {
      assert (a + b)[1..] == a[1..] + b;
      RebasedConcat(a[1..], b, now);
    }
  }

  /** Moving one overdue frame to `now + 1` keeps the rebased multiset and
      lowers the number of overdue frames by one. */
  lemma RequeueStep(q: seq<FrameEvent>, k: nat, now: nat)
    requires k < |q| && q[k].time < now
    ensures var q' := RemoveAt(q, k) + [q[k].(time := now + 1)];
      multiset(Rebased(q', now)) == multiset(Rebased(q, now)) &&
      Overdue(q', now) + 1 == Overdue(q, now)
  {
    var e := q[k];
    var e' := e.(time := now + 1);
    var q' := RemoveAt(q, k) + [e'];
    assert q == q[..k] + [e] + q[k + 1..];
    assert q' == q[..k] + q[k + 1..] + [e'];
    RebasedConcat(q[..k] + [e], q[k + 1..], now);
    RebasedConcat(q[..k], [e], now);
    RebasedConcat(q[..k] + q[k + 1..], [e'], now);
    RebasedConcat(q[..k], q[k + 1..], now);
    OverdueConcat(q[..k] + [e], q[k + 1..], now);
    OverdueConcat(q[..k], [e], now);
    OverdueConcat(q[..k] + q[k + 1..], [e'], now);
    OverdueConcat(q[..k], q[k + 1..], now);
    assert Overdue([e], now) == 1 && Overdue([e'], now) == 0;
  }

  /** One-way link from `id.start` to `id.end`. */
  class Link {
    const id: LinkId
    const net: Network
    var frames: seq<FrameEvent>
    var paused: bool

    /** A new link is empty and not paused. */
    constructor (net: Network, id: LinkId)
      ensures this.net == net && this.id == id && frames == [] && !paused
    {
      this.net := net;
      this.id := id;
      frames := [];
      paused := false;
    }

    /** A link from a host to itself. */
    predicate IsLoopBack()
      reads this
      ensures IsLoopBack() <==> id.start == id.end
    {
      id.start == id.end
    }

    predicate IsPaused()
      reads this
    {
      paused
    }

    predicate HasFrames()
      reads this
      ensures HasFrames() <==> |frames| > 0
    {
      frames != []
    }

    /** Smallest delivery time in the queue. */
    function NextFrameTime(): (t: nat)
      reads this
      requires HasFrames()
      ensures forall i :: 0 <= i < |frames| ==> t <= frames[i].time
      ensures exists i :: 0 <= i < |frames| && frames[i].time == t
    {
      frames[Smallest(frames, FrameTime)].time
    }

    /** The frame for `packet`, sent from this link's start to its end now. */
    function MakeFrame(packet: Packet, now: nat): (f: Frame)
      reads this
      ensures f.sourceHost == id.start && f.destHost == id.end
      ensures f.sendTime == now && f.packet == packet
    {
      Frame(id.start, id.end, now, packet)
    }

    /** When a packet sent now arrives: one jiffy later on a loopback link,
        without consulting the time model; otherwise after the model's
        flight time. */
    function ChooseDeliveryTime(packet: Packet, now: nat, tm: TimeModel, s: Stream): (d: Drawn<nat>)
      reads this
      ensures IsLoopBack() ==> d == Drawn(now + 1, s)
      ensures !IsLoopBack() ==> d.value == now + FlightTime(tm, packet, s).value
      ensures !IsLoopBack() ==> d.rest == FlightTime(tm, packet, s).rest
      ensures d.value > now
    {
      if IsLoopBack() then Drawn(now + 1, s)
      else
        var f := FlightTime(tm, packet, s);
        Drawn(now + f.value, f.rest)
    }

    /** Queues `frame` for delivery at `t` and tells the network. */
    method AddFrame(frame: Frame, t: nat)
      modifies this, net
      ensures frames == old(frames) + [FrameEvent(frame, t)]
      ensures net.events == old(net.events) + [LinkEvent(t, id)]
      ensures paused == old(paused)
      ensures net.servers == old(net.servers) && net.framesLog == old(net.framesLog) && net.pauseCalls == old(net.pauseCalls)
    {
      frames := frames + [FrameEvent(frame, t)];
      net.AddLinkEvent(id, t);
    }

    /** Sends `packet` over this link. The pause flag is not consulted: a
        paused link still accepts frames. */
    method Add(packet: Packet, now: nat, tm: TimeModel, s: Stream) returns (rest: Stream)
      modifies this, net
      ensures var d := ChooseDeliveryTime(packet, now, tm, s);
        frames == old(frames) + [FrameEvent(MakeFrame(packet, now), d.value)] &&
        net.events == old(net.events) + [LinkEvent(d.value, id)] &&
        rest == d.rest
      ensures paused == old(paused)
      ensures net.servers == old(net.servers) && net.framesLog == old(net.framesLog) && net.pauseCalls == old(net.pauseCalls)
    {
      var d := ChooseDeliveryTime(packet, now, tm, s);
      AddFrame(MakeFrame(packet, now), d.value);
      rest := d.rest;
    }

    /** Removes and returns the frame due first. Extracting from a paused link
        is a fatal error. */
    method ExtractNextFrame() returns (frame: Frame)
      requires !paused && HasFrames()
      modifies this
      ensures var k := Smallest(old(frames), FrameTime);
        frame == old(frames)[k].frame && frames == RemoveAt(old(frames), k)
      ensures paused == old(paused)
    {
      var k := Smallest(frames, FrameTime);
      frame := frames[k].frame;
      frames := RemoveAt(frames, k);
    }

    /** Pausing an already paused link is a fatal error. */
    method Pause()
      requires !paused
      modifies this
      ensures paused && frames == old(frames)
    {
      paused := true;
    }

    /** Unpauses the link. Frames that fell due while it was paused are
        re-queued at `now + 1`, each registering a new network event; frames
        due at or after `now` keep their times. A link that is not paused is
        left as it is. */
    method Resume(now: nat)
      modifies this, net
      ensures !old(paused) ==> frames == old(frames) && !paused && net.events == old(net.events)
      ensures old(paused) ==> !paused
      ensures old(paused) ==> multiset(frames) == multiset(Rebased(old(frames), now))
      ensures old(paused) ==> forall i :: 0 <= i < |frames| ==> frames[i].time >= now
      ensures old(paused) ==>
        net.events == old(net.events) + Repeated(LinkEvent(now + 1, id), Overdue(old(frames), now))
      ensures net.servers == old(net.servers) && net.framesLog == old(net.framesLog) && net.pauseCalls == old(net.pauseCalls)
    {
      if paused {
        paused := false;
        RequeueOverdue(now);
      }
    }

    /** The loop of `Resume`: while the frame due first is overdue, it is
        re-queued at `now + 1`. */
    method RequeueOverdue(now: nat)
      modifies this, net
      ensures paused == old(paused)
      ensures multiset(frames) == multiset(Rebased(old(frames), now))
      ensures forall i :: 0 <= i < |frames| ==> frames[i].time >= now
      ensures net.events == old(net.events) + Repeated(LinkEvent(now + 1, id), Overdue(old(frames), now))
      ensures net.servers == old(net.servers) && net.framesLog == old(net.framesLog) && net.pauseCalls == old(net.pauseCalls)
    {
      ghost var moved: nat := 0;
      ghost var orig := Snapshot();
      while HasFrames() && NextFrameTime() < now
        invariant Requeued(orig, now, moved)
        decreases Overdue(frames, now)
      {
        RequeueNext(orig, now, moved);
        moved := moved + 1;
      }
      NoneOverdue(frames, now);
      assert moved == Overdue(old(frames), now);
    }

    /** The parts of the link and the network that re-queueing touches. */
    ghost function Snapshot(): (bool, seq<FrameEvent>, NetLogs)
      reads this, net
    {
      (paused, frames, NetLogs(net.servers, net.events, net.framesLog, net.pauseCalls))
    }

    /** `moved` overdue frames of `orig` have been re-queued at `now + 1`. */
    ghost predicate Requeued(orig: (bool, seq<FrameEvent>, NetLogs), now: nat, moved: nat)
      reads this, net
    {
      paused == orig.0 &&
      multiset(Rebased(frames, now)) == multiset(Rebased(orig.1, now)) &&
      Overdue(frames, now) + moved == Overdue(orig.1, now) &&
      net.events == orig.2.events + Repeated(LinkEvent(now + 1, id), moved) &&
      net.servers == orig.2.servers && net.framesLog == orig.2.framesLog && net.pauseCalls == orig.2.pauseCalls
    }

    /** One iteration of the loop of `Resume`. */
    method RequeueNext(ghost orig: (bool, seq<FrameEvent>, NetLogs), now: nat, ghost moved: nat)
      requires HasFrames() && NextFrameTime() < now && Requeued(orig, now, moved)
      modifies this, net
      ensures Requeued(orig, now, moved + 1)
      ensures Overdue(frames, now) < old(Overdue(frames, now))
    {
      RequeueFirst(now);
      AppendAssoc(orig.2.events, Repeated(LinkEvent(now + 1, id), moved), [LinkEvent(now + 1, id)]);
    }

    /** One step of `Resume`: the frame due first, which is overdue, is
        re-queued at `now + 1`. */
    method RequeueFirst(now: nat)
      requires HasFrames() && NextFrameTime() < now
      modifies this, net
      ensures HasFrames() && paused == old(paused)
      ensures multiset(Rebased(frames, now)) == multiset(Rebased(old(frames), now))
      ensures Overdue(frames, now) + 1 == Overdue(old(frames), now)
      ensures net.events == old(net.events) + [LinkEvent(now + 1, id)]
      ensures net.servers == old(net.servers) && net.framesLog == old(net.framesLog) && net.pauseCalls == old(net.pauseCalls)
    {
      var k := Smallest(frames, FrameTime);
      RequeueStep(frames, k, now);
      var e := frames[k];
      frames := RemoveAt(frames, k);
      AddFrame(e.frame, now + 1);
    }

    /** Drops every queued frame. */
    method Shutdown()
      modifies this
      ensures frames == [] && paused == old(paused)
    {
      frames := [];
    }
  }
}
