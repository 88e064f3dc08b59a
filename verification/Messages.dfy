/** What travels through the stack: stamped broadcasts, BEB contents, URB keys and link packets.
    Processes are numbered 0..N-1 here; the identifier written in a packet is the number plus one. */
module Messages {

  /** An upper-layer message: its text and the clock entries written after it, in writing order. */
  datatype Stamped = Stamped(body: string, stamp: seq<(nat, nat)>)

  /** The payload of a link packet: the origin's own copy, or a copy relayed for `origin`. */
  datatype Content = Direct(m: Stamped) | Relay(origin: nat, m: Stamped)

  /** An entry of URB's `pending`: origin-prefixed, or the bare text that the one-argument broadcast pushes. */
  datatype Key = Key(origin: nat, m: Stamped) | Bare(m: Stamped)

  /** A packet on the wire; an acknowledgement repeats the sender and target of the packet it answers. */
  datatype Packet = Packet(ack: bool, sender: nat, target: nat, content: Content)

  /** The key under which URB files a content received from `sender`. */
  function KeyOf(sender: nat, c: Content): Key {
    match c
    case Direct(m) => Key(sender, m)
    case Relay(origin, m) => Key(origin, m)
  }
}
