/** Values shared by the LEACH sensor node and the LEACH base station:
    addresses, the packets they receive and the packets they emit. */
module LeachTypes {

  /** An IPv4 address, as its 32-bit integer value. */
  newtype Addr = x: int | 0 <= x < 0x1_0000_0000

  /** 255.255.255.255, the limited broadcast address; also the fallback of the head lookup. */
  const Broadcast: Addr := 0xFFFF_FFFF

  /** 0.0.0.0, the value of a default-constructed address. */
  const Unspecified: Addr := 0

  /** A data fingerprint: the decimal text of a hash value. */
  type Fingerprint = string

  /** Simulated time. */
  type Time = int

  datatype Option<T> = None | Some(value: T)

  /** The two runtime errors a handler throws. */
  datatype Error =
    | UnknownGate          // the packet arrived on a gate other than ipIn
    | UnsupportedMessage   // the packet does not carry the manet protocol tag

  datatype Result<T> = Ok(value: T) | Err(error: Error)

  /** One entry of a TDMA schedule: a member and its slot, which doubles as its send delay. */
  datatype SlotEntry = SlotEntry(nodeAddress: Addr, tdmaDelay: int)

  /** The LEACH packet kinds, with the fields the handlers read. */
  datatype Body =
    | HeadAnnouncement(srcAddress: Addr)                        // CH
    | AckPacket(srcAddress: Addr)                               // ACK
    | SchedulePacket(srcAddress: Addr, schedule: seq<SlotEntry>) // SCH
    | DataPacket(srcAddress: Addr, fingerprint: Fingerprint)    // DATA
    | BsPacket(chAddr: Addr, fingerprint: Fingerprint)          // BS

  /** A packet as delivered to a handler: whether it carries the manet protocol tag,
      whether it arrived on ipIn, the received signal power, the source address of
      its network-layer address indication (when that tag is present) and its body. */
  datatype Packet = Packet(
    manet: bool,
    onIpIn: bool,
    rxPower: real,
    srcTag: Option<Addr>,
    body: Body)

  /** What the simulation kernel delivers: the module's own timer, or a packet. */
  datatype Message = SelfMessage | Arrival(packet: Packet)

  /** What a handler hands to the network, in the order it sends it. */
  datatype Outgoing =
    | Announce(src: Addr)                                              // to Broadcast
    | Ack(src: Addr, dest: Addr)
    | Schedule(src: Addr, entries: seq<SlotEntry>)                     // to Broadcast
    | Data(src: Addr, dest: Addr, fingerprint: Fingerprint, delay: int) // sent after `delay`
    | Relay(chAddr: Addr, fingerprint: Fingerprint)                    // to the base station, 10.0.0.1
}
