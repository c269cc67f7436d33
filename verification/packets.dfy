/** Packets and frames carried by the simulated network
    (matrix/network/packet.hpp, matrix/network/frame.hpp). */
module Packets {

  datatype PacketType =
    | Data   // user message
    | Reset  // connection reset by peer
    | Ping   // keep-alive

  /** A transport-level packet: header plus opaque message bytes. */
  datatype Packet = Packet(kind: PacketType, sourcePort: nat, destPort: nat, ts: nat, message: string)

  /** A directed link, named by the hosts at its two ends. */
  datatype LinkId = LinkId(start: string, end: string)

  /** A packet on the wire between two hosts, stamped with its send time. */
  datatype Frame = Frame(sourceHost: string, destHost: string, sendTime: nat, packet: Packet)
}
