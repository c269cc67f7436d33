/**
 * Per-server transport (matrix/network/transport.*): a TCP-like layer of
 * local endpoints keyed by port. Each endpoint carries the handler that owns
 * it and the timestamp it was created with; packets stamped earlier than the
 * endpoint they reach are stale and are answered with a reset.
 *
 * Handlers are named by number; the callbacks they run are tasks queued on
 * the server's scheduler (see `Scheduling.Task`).
 */
module Transports {
  import opened Wrappers
  import opened Packets
  import opened Randomness
  import opened TimeModels
  import opened Scheduling
  import Net

  datatype Endpoint = Endpoint(handler: nat, ts: nat)

  /** The client end of a connection: the link it sends on, its own port, the
      remote port and the connection's timestamp. */
  datatype ClientSocket = ClientSocket(link: LinkId, localPort: nat, remotePort: nat, ts: nat)

  /** An answer to `p` (`Replier::Reply`): its ports swapped and its
      timestamp echoed. */
  function Reply(p: Packet, kind: PacketType, payload: string): (r: Packet)
    ensures r.kind == kind && r.message == payload
    ensures r.sourcePort == p.destPort && r.destPort == p.sourcePort && r.ts == p.ts
  {
    Packet(kind, p.destPort, p.sourcePort, p.ts, payload)
  }

  /** Answering an answer addresses the original sender's port again, with the
      original timestamp. */
  lemma ReplyToReply(p: Packet, k1: PacketType, m1: string, k2: PacketType, m2: string)
    ensures var r := Reply(Reply(p, k1, m1), k2, m2);
      r.sourcePort == p.sourcePort && r.destPort == p.destPort && r.ts == p.ts
  {
  }

  /** What the transport does with an incoming packet. */
  datatype Reaction =
    | Drop                 // nothing is sent and nothing is scheduled
    | Answer(reply: Packet)  // a packet is sent back on the outgoing link
    | Deliver(task: Task)  // a handler callback is scheduled

  /** `Transport::HandlePacket`'s decision for `p`, which arrived over the
      link whose reverse is `out` (so `out.end` is the sender's host). */
  function Decide(endpoints: map<nat, Endpoint>, p: Packet, out: LinkId): (r: Reaction)
    ensures p.destPort !in endpoints ==>
      r == (if p.kind == Reset then Drop else Answer(Reply(p, Reset, "<reset>")))
    ensures p.destPort in endpoints && p.ts < endpoints[p.destPort].ts ==>
      r == Answer(Reply(p, Reset, "<reset>"))
    ensures p.destPort in endpoints && p.ts >= endpoints[p.destPort].ts ==>
      var h := endpoints[p.destPort].handler;
      r == match p.kind
           case Ping => Answer(Reply(p, Ping, "<ping>"))
           case Reset => Deliver(DisconnectTask(h, out.end))
           case Data => Deliver(MessageTask(h, p.message, p, out))
  {
    if p.destPort !in endpoints then
      if p.kind != Reset then Answer(Reply(p, Reset, "<reset>")) else Drop
    else
      var e := endpoints[p.destPort];
      if p.ts < e.ts then Answer(Reply(p, Reset, "<reset>"))
      else if p.kind == Ping then Answer(Reply(p, Ping, "<ping>"))
      else if p.kind == Reset then Deliver(DisconnectTask(e.handler, out.end))
      else Deliver(MessageTask(e.handler, p.message, p, out))
  }

  /** A reset is dropped only when it reaches a missing endpoint; a reset
      that is fresh for its endpoint disconnects the handler instead. A reset
      never provokes an answer unless it is stale. */
  lemma ResetAnsweredOnlyWhenStale(endpoints: map<nat, Endpoint>, p: Packet, out: LinkId)
    requires p.kind == Reset
    ensures Decide(endpoints, p, out).Answer? <==> p.destPort in endpoints && p.ts < endpoints[p.destPort].ts
    ensures Decide(endpoints, p, out).Drop? <==> p.destPort !in endpoints
  {
  }

  /** Only a packet accepted by a live endpoint reaches a handler, and the
      handler is that endpoint's. */
  lemma DeliveredOnlyToLiveEndpoints(endpoints: map<nat, Endpoint>, p: Packet, out: LinkId)
    requires Decide(endpoints, p, out).Deliver?
    ensures p.destPort in endpoints && p.ts >= endpoints[p.destPort].ts && p.kind != Ping
    ensures Decide(endpoints, p, out).task.handler == endpoints[p.destPort].handler
  {
  }

  /** Any number larger than every used port. */
  ghost function PastAll(ports: set<nat>): (b: nat)
    ensures forall p :: p in ports ==> p < b
    decreases ports
  {
    if ports == {} then 0
    else
      var p :| p in ports;
      var b := PastAll(ports - {p});
      assert forall q :: q in ports ==> q == p || q in ports - {p};
      if p < b then b else p + 1
  }

  class Transport {
    const host: string
    const scheduler: Scheduler
    var endpoints: map<nat, Endpoint>
    var nextPort: nat

    /** A new transport has no endpoints; ports are handed out from 1. */
    constructor (host: string, scheduler: Scheduler)
      ensures this.host == host && this.scheduler == scheduler
      ensures endpoints == map[] && nextPort == 1
    {
      this.host := host;
      this.scheduler := scheduler;
      endpoints := map[];
      nextPort := 1;
    }

    /** The first unused port at or after `nextPort`; the counter moves past
        it. */
    method FindFreePort() returns (port: nat)
      modifies this
      ensures port !in endpoints && port >= old(nextPort)
      ensures forall q :: old(nextPort) <= q < port ==> q in endpoints
      ensures nextPort == port + 1 && endpoints == old(endpoints)
    {
      while nextPort in endpoints
        invariant nextPort >= old(nextPort) && endpoints == old(endpoints)
        invariant forall q :: old(nextPort) <= q < nextPort ==> q in endpoints
        decreases PastAll(endpoints.Keys) - nextPort
      {
        nextPort := nextPort + 1;
      }
      port := nextPort;
      nextPort := nextPort + 1;
    }

    /** Opens a client endpoint on a fresh port, stamped `ts` (the current
        world step), and connects it over `link` to `remotePort`. When the
        world has an adversary a ping is sent at once, to start the ping-pong
        that detects crashes and reboots. */
    method ConnectTo(remotePort: nat, handler: nat, ts: nat, hasAdversary: bool,
                     link: Net.Link, now: nat, tm: TimeModel, s: Stream)
      returns (socket: ClientSocket, rest: Stream)
      requires link.id.start == host
      modifies this, link, link.net
      ensures socket.localPort !in old(endpoints) && socket.localPort >= old(nextPort)
      ensures socket == ClientSocket(link.id, socket.localPort, remotePort, ts)
      ensures endpoints == old(endpoints)[socket.localPort := Endpoint(handler, ts)]
      ensures !hasAdversary ==> link.frames == old(link.frames) && rest == s
      ensures hasAdversary ==>
        var ping := Packet(Ping, socket.localPort, remotePort, ts, "<ping>");
        var d := link.ChooseDeliveryTime(ping, now, tm, s);
        link.frames == old(link.frames) + [Net.FrameEvent(link.MakeFrame(ping, now), d.value)] &&
        rest == d.rest
    {
      var port := FindFreePort();
      endpoints := endpoints[port := Endpoint(handler, ts)];
      rest := s;
      if hasAdversary {
        rest := link.Add(Packet(Ping, port, remotePort, ts, "<ping>"), now, tm, s);
      }
      socket := ClientSocket(link.id, port, remotePort, ts);
    }

    /** Opens a server endpoint at `port`; the port must be free. */
    method Serve(port: nat, handler: nat, ts: nat)
      requires port !in endpoints
      modifies this
      ensures endpoints == old(endpoints)[port := Endpoint(handler, ts)]
      ensures nextPort == old(nextPort)
    {
      endpoints := endpoints[port := Endpoint(handler, ts)];
    }

    /** Closes the endpoint at `port`, if any. */
    method RemoveEndpoint(port: nat)
      modifies this
      ensures endpoints == old(endpoints) - {port}
      ensures nextPort == old(nextPort)
    {
      endpoints := endpoints - {port};
    }

    /** Closes every endpoint (on a crash). The port counter is kept. */
    method Reset()
      modifies this
      ensures endpoints == map[] && nextPort == old(nextPort)
    {
      endpoints := map[];
    }

    /** Handles `p`, delivered over the reverse of `out`: answers it on `out`
        or schedules a handler callback to run as soon as possible, as
        `Decide` says. */
    method HandlePacket(p: Packet, out: Net.Link, now: nat, tm: TimeModel, s: Stream)
      returns (rest: Stream)
      modifies out, out.net, scheduler
      ensures endpoints == old(endpoints) && nextPort == old(nextPort)
      ensures match Decide(endpoints, p, out.id)
        case Drop =>
          out.frames == old(out.frames) && scheduler.queue == old(scheduler.queue) && rest == s
        case Answer(reply) =>
          var d := out.ChooseDeliveryTime(reply, now, tm, s);
          out.frames == old(out.frames) + [Net.FrameEvent(out.MakeFrame(reply, now), d.value)] &&
          scheduler.queue == old(scheduler.queue) && rest == d.rest
        case Deliver(task) =>
          out.frames == old(out.frames) && scheduler.queue == old(scheduler.queue) + [Timed(now, task)] &&
          rest == s
    {
      rest := s;
      match Decide(endpoints, p, out.id)
      case Drop =>
      case Answer(reply) =>
        rest := out.Add(reply, now, tm, s);
      case Deliver(task) =>
        scheduler.ScheduleAsap(task, now);
    }
  }
}
