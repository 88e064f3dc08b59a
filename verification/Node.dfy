/** The objects of one process below the causal layer: receiver, links, best-effort and reliable broadcast,
    with the texts they store. Identifiers are 1..n; the link to process i is at position i - 1. */
module Node {
  import opened Text
  import opened StdList
  import opened Codec
  import opened UrbProtocol

  // ---------- what the handlers do, as functions on the stored texts ----------

  /** The retransmission lists of the links, and the fields of URB. */
  datatype Core = Core(queues: seq<seq<string>>, urb: Urb<string, string>)

  /** With the acknowledgement lists of the links, and what the receiver and best-effort broadcast have seen. */
  datatype State = State(core: Core, acks: seq<seq<string>>, received: seq<string>, beb: seq<string>)

  function Data(me: nat, target: nat, payload: string): string {
    PacketText(Fields('0', me, target, payload))
  }

  /** The packet of a payload is appended on every link but the missing one to the process itself. */
  function Fan(queues: seq<seq<string>>, me: nat, payload: string): seq<seq<string>> {
    seq(|queues|, i requires 0 <= i < |queues| =>
      if i + 1 == me then queues[i] else queues[i] + [Data(me, i + 1, payload)])
  }

  /** URB's `broadcastMessage`, in both forms. */
  function BroadcastStep(c: Core, me: nat, msg: string, addId: bool): Core {
    Core(Fan(c.queues, me, msg), c.urb.(pending := c.urb.pending + [if addId then DirectKey(me, msg) else msg]))
  }

  /** URB's handler for a received packet; None where it throws. */
  function UrbStep(c: Core, me: nat, msg: string): Option<Core>
    requires |msg| >= 7
  {
    match UrbKey(msg[1..4], msg[7..])
    case None => None
    case Some(k) =>
      Some(Core(if k in c.urb.pending then c.queues else Fan(c.queues, me, RelayText(k)), Receive(c.urb, k, msg[1..4])))
  }

  function BebStep(seen: seq<string>, c: Core, me: nat, msg: string): Option<Core>
    requires |msg| >= 7
  {
    if msg in seen then Some(c) else UrbStep(c, me, msg)
  }

  /** A data packet for this process. */
  function DataStep(s: State, me: nat, msg: string): Option<State>
    requires |msg| >= 7
  {
    if msg[1..] in s.received then Some(s)
    else
      match BebStep(s.beb, s.core, me, msg)
      case None => None
      case Some(c) => Some(State(c, s.acks, s.received + [msg[1..]], PushNew(s.beb, msg)))
  }

  /** What a data packet that throws leaves behind: it counts as seen by the receiver and by best-effort broadcast. */
  function DataThrown(s: State, msg: string): State
    requires |msg| >= 7
  {
    s.(received := s.received + [msg[1..]], beb := PushNew(s.beb, msg))
  }

  /** The acknowledgement is queued on the link to the sender, whichever link's thread read the packet. */
  function QueueAck(acks: seq<seq<string>>, me: nat, sender: nat, ack: string): seq<seq<string>> {
    if 0 < sender <= |acks| && sender != me then acks[sender - 1 := acks[sender - 1] + [ack]] else acks
  }

  /** An acknowledgement read by the thread of the link to `via`. A thread of another link than the target's
      looks the link up by the packet's sender, and there is none to the process itself. */
  function DropAcked(queues: seq<seq<string>>, me: nat, via: nat, sender: nat, target: nat, data: string)
      : seq<seq<string>>
    requires 0 < via <= |queues|
  {
    if target == via then queues[via - 1 := Remove(queues[via - 1], data)]
    else if 0 < sender <= |queues| && sender != me then queues[sender - 1 := Remove(queues[sender - 1], data)]
    else queues
  }

  /** One message read by the thread of the link to `via`. */
  function ReceiveStep(s: State, me: nat, via: nat, msg: string): Option<State>
    requires 0 < via <= |s.core.queues|
  {
    match ReadPacket(msg)
    case None => None
    case Some(f) =>
      if f.target == me && f.ack == '0' then
        match DataStep(s, me, msg)
        case None => None
        case Some(t) => Some(t.(acks := QueueAck(t.acks, me, f.sender, "1" + msg[1..])))
      else if f.sender == me && f.ack == '1' then
        Some(s.(core := s.core.(queues := DropAcked(s.core.queues, me, via, f.sender, f.target, "0" + msg[1..]))))
      else Some(s)
  }

  /** A data packet to process `me`. */
  predicate DataFor(f: Fields, me: nat) {
    f.target == me && f.ack == '0'
  }

  /** The acknowledgement of a packet that process `me` sent. */
  predicate AckFor(f: Fields, me: nat) {
    f.sender == me && f.ack == '1'
  }

  lemma DataExample()
    ensures Data(2, 13, "abc") == "0002013abc"
  {
    PacketExample();
  }

  /** What a message that throws leaves behind. */
  function ReceiveThrown(s: State, msg: string): State {
    if ReadPacket(msg).None? then s else DataThrown(s, msg)
  }

  // ---------- receiver ----------

  class Receiver {
    const id: nat
    var delivered: seq<string>
    var log: seq<string>
    var canReceive: bool

    constructor (id: nat)
      ensures this.id == id && delivered == [] && log == [] && canReceive
    {
      this.id := id;
      delivered, log, canReceive := [], [], true;
    }

    method HasDelivered(msg: string) returns (b: bool)
      ensures b <==> msg in delivered
    {
      b := msg in delivered;
    }

    method AddMessageDelivered(msg: string)
      modifies this`delivered
      ensures delivered == old(delivered) + [msg]
    {
      delivered := delivered + [msg];
    }

    method AddMessageLog(msg: string)
      modifies this`log
      ensures log == PushNew(old(log), msg)
    {
      if msg !in log {
        log := log + [msg];
      }
    }

    /** The log can only be read once the process has stopped receiving. */
    method GetMessageLog() returns (r: seq<string>)
      ensures r == if canReceive then [] else log
    {
      if !canReceive {
        return log;
      } else {
        return [];
      }
    }
  }

  // ---------- links ----------

  class Link {
    const me: nat
    const target: nat
    const receiver: Receiver
    var active: bool
    var messages: seq<string>
    var acks: seq<string>
    /** The packets handed to the socket so far. */
    var wire: seq<string>

    constructor (receiver: Receiver, target: nat)
      ensures this.receiver == receiver && me == receiver.id && this.target == target
      ensures !active && messages == [] && acks == [] && wire == []
    {
      this.receiver, this.me, this.target := receiver, receiver.id, target;
      active, messages, acks, wire := false, [], [], [];
    }

    method SendNewMessage(msg: string)
      modifies this`messages, this`wire
      ensures messages == old(messages) + [Data(me, target, msg)]
      ensures wire == old(wire) + if active then [Data(me, target, msg)] else []
    {
      var packet := Data(me, target, msg);
      if active {
        wire := wire + [packet];
      }
      messages := messages + [packet];
    }

    /** One pass of the send thread: everything not yet acknowledged is sent again, and stays queued. */
    method SendPass()
      modifies this`wire
      ensures wire == old(wire) + if active then messages else []
    {
      if active && messages != [] {
        for i := 0 to |messages|
          invariant wire == old(wire) + messages[..i]
        {
          wire := wire + [messages[i]];
        }
        assert messages[..|messages|] == messages;
      }
    }

    /** One pass of the acknowledgement thread: repetitions in a row are dropped, and the list is emptied. */
    method AckPass()
      modifies this`wire, this`acks
      ensures active ==> acks == [] && wire == old(wire) + Unique(old(acks))
      ensures !active ==> acks == old(acks) && wire == old(wire)
    {
      if active {
        acks := Unique(acks);
        if acks != [] {
          for i := 0 to |acks|
            invariant acks == Unique(old(acks)) && wire == old(wire) + acks[..i]
          {
            wire := wire + [acks[i]];
          }
          assert acks[..|acks|] == acks;
          acks := [];
        }
      }
    }

    method SetLinkActive()
      modifies this`active
      ensures active
    {
      active := true;
    }

    method AddAck(ack: string)
      modifies this`acks
      ensures acks == old(acks) + [ack]
    {
      acks := acks + [ack];
    }

    method RemoveMessage(msg: string)
      modifies this`messages
      ensures messages == Remove(old(messages), msg)
    {
      messages := Remove(messages, msg);
    }
  }

  ghost function Queues(links: seq<Link?>): seq<seq<string>>
    reads links
  {
    seq(|links|, i requires 0 <= i < |links| reads links => if links[i] == null then [] else links[i].messages)
  }

  ghost function Acks(links: seq<Link?>): seq<seq<string>>
    reads links
  {
    seq(|links|, i requires 0 <= i < |links| reads links => if links[i] == null then [] else links[i].acks)
  }

  /** The links of process `me`: one to each other process, at its place. */
  ghost predicate LinksOf(links: seq<Link?>, me: nat) {
    && 0 < me <= |links|
    && forall i :: 0 <= i < |links| ==>
         if i + 1 == me then links[i] == null
         else links[i] != null && links[i].me == me && links[i].target == i + 1
  }

  // ---------- best-effort broadcast ----------

  class BestEffortBroadcast {
    const me: nat
    const links: seq<Link?>
    var delivered: seq<string>

    constructor (me: nat, links: seq<Link?>)
      ensures this.me == me && this.links == links && delivered == []
    {
      this.me, this.links, delivered := me, links, [];
    }

    method BroadcastMessage(msg: string)
      requires LinksOf(links, me)
      modifies links
      ensures Queues(links) == Fan(old(Queues(links)), me, msg) && Acks(links) == old(Acks(links))
      ensures forall k :: 0 <= k < |links| && links[k] != null ==>
        && links[k].active == old(links[k].active)
        && links[k].messages == old(links[k].messages) + [Data(me, k + 1, msg)]
        && links[k].wire == old(links[k].wire) + if links[k].active then [Data(me, k + 1, msg)] else []
    {
      for i := 0 to |links|
        invariant forall k :: 0 <= k < |links| && links[k] != null ==>
          && links[k].acks == old(links[k].acks) && links[k].active == old(links[k].active)
          && links[k].messages == old(links[k].messages) + (if k < i then [Data(me, k + 1, msg)] else [])
          && links[k].wire == old(links[k].wire) + (if k < i && links[k].active then [Data(me, k + 1, msg)] else [])
      {
        if links[i] != null {
          links[i].SendNewMessage(msg);
        }
      }
    }

    method SetBroadcastActive()
      requires LinksOf(links, me)
      modifies links
      ensures Queues(links) == old(Queues(links)) && Acks(links) == old(Acks(links))
      ensures forall k :: 0 <= k < |links| && links[k] != null ==>
        links[k].active && links[k].wire == old(links[k].wire)
    {
      for i := 0 to |links|
        invariant forall k :: 0 <= k < |links| && links[k] != null ==>
          && links[k].acks == old(links[k].acks) && links[k].messages == old(links[k].messages)
          && links[k].wire == old(links[k].wire) && (k < i ==> links[k].active)
      {
        if links[i] != null {
          links[i].SetLinkActive();
        }
      }
    }

    method Deliver(msg: string, upper: UniformReliableBroadcast) returns (ok: bool)
      requires |msg| >= 7 && upper.beb == this && LinksOf(links, me)
      modifies this`delivered, upper, links
      ensures Acks(links) == old(Acks(links))
      ensures BebStep(old(delivered), old(upper.CoreOf()), me, msg) == if ok then Some(upper.CoreOf()) else None
      ensures msg in old(delivered) ==> ok && upper.CoreOf() == old(upper.CoreOf()) && delivered == old(delivered)
      ensures msg !in old(delivered) ==>
        && delivered == old(delivered) + [msg]
        && UrbStep(old(upper.CoreOf()), me, msg) == if ok then Some(upper.CoreOf()) else None
      ensures !ok ==> upper.CoreOf() == old(upper.CoreOf())
    {
      if msg !in delivered {
        delivered := delivered + [msg];
        ok := upper.Deliver(msg);
      } else {
        ok := true;
      }
    }
  }

  // ---------- uniform reliable broadcast ----------

  lemma UrbStepFor(c: Core, me: nat, msg: string, key: string)
    requires |msg| >= 7 && UrbKey(msg[1..4], msg[7..]) == Some(key)
    ensures UrbStep(c, me, msg) ==
      Some(Core(if key !in c.urb.pending then Fan(c.queues, me, RelayText(key)) else c.queues,
                Receive(c.urb, key, msg[1..4])))
  {
  }

  lemma RelayedAgain(payload: string)
    requires |payload| >= 4 && payload[0] == 'r'
    ensures payload == RelayText(payload[1..4] + payload[4..])
  {
  }

  lemma FirstRelay(sender: string, payload: string)
    ensures "r" + sender + payload == RelayText(sender + payload)
  {
  }

  /** A pass that started with the fields u0 has handed over ks on its way to position i. */
  ghost predicate Handing(u0: Urb<string, string>, ks: seq<string>, u: Urb<string, string>, n: nat, i: nat) {
    && i <= |u.pending| && u == u0.(delivered := u0.delivered + set k | k in ks)
    && HandOvers(u0, n, 0) == ks + HandOvers(u, n, i)
  }

  lemma HandOverStep(u0: Urb<string, string>, ks: seq<string>, u: Urb<string, string>, n: nat, i: nat)
    requires i < |u.pending| && Handing(u0, ks, u, n, i)
    ensures var k := u.pending[i];
            if CanDeliver(u, n, k) && k !in u.delivered
            then Handing(u0, ks + [k], u.(delivered := u.delivered + {k}), n, i + 1)
            else Handing(u0, ks, u, n, i + 1)
  {
    var k := u.pending[i];
    assert ks + ([k] + HandOvers(u.(delivered := u.delivered + {k}), n, i + 1))
        == (ks + [k]) + HandOvers(u.(delivered := u.delivered + {k}), n, i + 1);
    assert u0.delivered + (set x | x in ks + [k]) == (u0.delivered + set x | x in ks) + {k};
  }

  class UniformReliableBroadcast {
    const beb: BestEffortBroadcast
    const n: nat
    var pending: seq<string>
    var ack: Multimap<string, string>
    var delivered: set<string>

    constructor (beb: BestEffortBroadcast, n: nat)
      ensures this.beb == beb && this.n == n && Fields() == Urb([], map[], {})
    {
      this.beb, this.n := beb, n;
      pending, ack, delivered := [], map[], {};
    }

    ghost function Fields(): Urb<string, string>
      reads this
    {
      Urb(pending, ack, delivered)
    }

    ghost function CoreOf(): Core
      reads this, beb.links
    {
      Core(Queues(beb.links), Fields())
    }

    method BroadcastMessage(msg: string)
      requires LinksOf(beb.links, beb.me)
      modifies this`pending, beb.links
      ensures CoreOf() == BroadcastStep(old(CoreOf()), beb.me, msg, false) && Acks(beb.links) == old(Acks(beb.links))
      ensures pending == old(pending) + [msg]
    {
      pending := pending + [msg];
      beb.BroadcastMessage(msg);
    }

    method BroadcastMessageId(msg: string, addId: bool)
      requires LinksOf(beb.links, beb.me)
      modifies this`pending, beb.links
      ensures CoreOf() == BroadcastStep(old(CoreOf()), beb.me, msg, addId) && Acks(beb.links) == old(Acks(beb.links))
      ensures pending == old(pending) + [if addId then Pad3(beb.me) + msg else msg]
    {
      if addId {
        pending := pending + [Pad3(beb.me) + msg];
      } else {
        pending := pending + [msg];
      }
      beb.BroadcastMessage(msg);
    }

    method SetBroadcastActive()
      requires LinksOf(beb.links, beb.me)
      modifies beb.links
      ensures CoreOf() == old(CoreOf()) && Acks(beb.links) == old(Acks(beb.links))
      ensures forall k :: 0 <= k < |beb.links| && beb.links[k] != null ==> beb.links[k].active
    {
      beb.SetBroadcastActive();
    }

    /** Count an acknowledgement, and remember the message; true when it was not known. */
    method File(key: string, sender: string) returns (first: bool)
      modifies this`ack, this`pending
      ensures Fields() == Receive(old(Fields()), key, sender)
      ensures first <==> key !in old(pending)
      ensures Queues(beb.links) == old(Queues(beb.links)) && Acks(beb.links) == old(Acks(beb.links))
    {
      ack := Insert(ack, key, sender);
      first := key !in pending;
      if first {
        pending := pending + [key];
      }
    }

    /** False where the source throws because a payload that starts with `r` is too short to be a relay. */
    method Deliver(msg: string) returns (ok: bool)
      requires |msg| >= 7 && LinksOf(beb.links, beb.me)
      modifies this, beb.links
      ensures Acks(beb.links) == old(Acks(beb.links))
      ensures ok <==> UrbStep(old(CoreOf()), beb.me, msg).Some?
      ensures ok ==> UrbStep(old(CoreOf()), beb.me, msg) == Some(CoreOf())
      ensures !ok ==> CoreOf() == old(CoreOf())
    {
      var payload := msg[7..];
      var sender := msg[1..4];
      var key: string;
      var relay: string;
      if payload != "" && payload[0] == 'r' {
        if |payload| < 4 {
          return false;
        }
        key := payload[1..4] + payload[4..];
        relay := payload;
        RelayedAgain(payload);
      } else {
        key := sender + payload;
        relay := "r" + sender + payload;
        FirstRelay(sender, payload);
      }
      ghost var before := CoreOf();
      UrbStepFor(before, beb.me, msg, key);
      var first := File(key, sender);
      assert Fields() == Receive(before.urb, key, sender);
      if first {
        beb.BroadcastMessage(relay);
        assert Queues(beb.links) == Fan(before.queues, beb.me, RelayText(key));
        assert Fields() == Receive(before.urb, key, sender);
      }
      return true;
    }

    /** One pass over the pending messages: the keys handed to the upper layer, in order. */
    method DeliverPending() returns (handed: seq<string>)
      modifies this`delivered
      ensures handed == HandOvers(old(Fields()), n, 0)
      ensures delivered == old(delivered) + set k | k in handed
      ensures InListOrder(handed, pending)
      ensures forall k :: k in handed <==> k in pending && k !in old(delivered) && CanDeliver(Fields(), n, k)
    {
      handed := [];
      ghost var start := Fields();
      for i := 0 to |pending|
        invariant Handing(start, handed, Fields(), n, i)
      {
        var k := pending[i];
        HandOverStep(start, handed, Fields(), n, i);
        if CanDeliverKey(k) && k !in delivered {
          delivered := delivered + {k};
          handed := handed + [k];
        }
      }
      HandOversExact(start, n);
    }

    predicate CanDeliverKey(k: string)
      reads this
    {
      CountKey(ack, k) > n / 2
    }
  }

  // ---------- the receive thread ----------

  lemma QueuesUpdate(links: seq<Link?>, me: nat, before: seq<seq<string>>, i: nat, q: seq<string>)
    requires LinksOf(links, me) && i < |links| && links[i] != null && links[i].messages == q && |before| == |links|
    requires forall k :: 0 <= k < |links| && k != i ==> before[k] == if links[k] == null then [] else links[k].messages
    ensures Queues(links) == before[i := q]
  {
  }

  lemma AcksUpdate(links: seq<Link?>, me: nat, before: seq<seq<string>>, i: nat, q: seq<string>)
    requires LinksOf(links, me) && i < |links| && links[i] != null && links[i].acks == q && |before| == |links|
    requires forall k :: 0 <= k < |links| && k != i ==> before[k] == if links[k] == null then [] else links[k].acks
    ensures Acks(links) == before[i := q]
  {
  }

  lemma AcksSame(links: seq<Link?>, acks: seq<seq<string>>)
    requires Acks(links) == acks
    ensures |acks| == |links| && forall k :: 0 <= k < |links| && links[k] != null ==> links[k].acks == acks[k]
  {
    forall k | 0 <= k < |links| && links[k] != null ensures links[k].acks == acks[k] {
      assert Acks(links)[k] == links[k].acks;
    }
  }

  /** A data packet for this process: deliver it upwards unless it was received before. */
  method DeliverOnce(receiver: Receiver, links: seq<Link?>, beb: BestEffortBroadcast,
                     urb: UniformReliableBroadcast, msg: string)
      returns (ok: bool)
    requires LinksOf(links, receiver.id) && beb.links == links && beb.me == receiver.id && urb.beb == beb && |msg| >= 7
    modifies receiver`delivered, links, beb, urb
    ensures var s := old(State(urb.CoreOf(), Acks(links), receiver.delivered, beb.delivered));
            var r := DataStep(s, receiver.id, msg);
            && (ok <==> r.Some?)
            && State(urb.CoreOf(), Acks(links), receiver.delivered, beb.delivered)
               == if ok then r.value else DataThrown(s, msg)
    ensures msg[1..] in old(receiver.delivered) ==>
      ok && receiver.delivered == old(receiver.delivered) && beb.delivered == old(beb.delivered)
      && urb.CoreOf() == old(urb.CoreOf())
    ensures msg[1..] !in old(receiver.delivered) ==> receiver.delivered == old(receiver.delivered) + [msg[1..]]
    ensures !ok ==> urb.CoreOf() == old(urb.CoreOf()) && msg in beb.delivered
    ensures Acks(links) == old(Acks(links))
  {
    var seen := receiver.HasDelivered(msg[1..]);
    if seen {
      return true;
    }
    receiver.AddMessageDelivered(msg[1..]);
    ok := beb.Deliver(msg, urb);
  }

  /** Queue the acknowledgement on the link to the sender. */
  method Acknowledge(receiver: Receiver, via: Link, links: seq<Link?>, sender: nat, ack: string)
    requires LinksOf(links, receiver.id) && 0 < via.target <= |links| && links[via.target - 1] == via
    requires 0 < sender <= |links|
    modifies links
    ensures Acks(links) == QueueAck(old(Acks(links)), receiver.id, sender, ack)
    ensures Queues(links) == old(Queues(links))
    ensures forall k :: 0 <= k < |links| && links[k] != null ==>
      links[k].acks == old(links[k].acks) + if k + 1 == sender then [ack] else []
  {
    ghost var before := Acks(links);
    if sender == via.target {
      via.AddAck(ack);
      AcksUpdate(links, receiver.id, before, via.target - 1, before[via.target - 1] + [ack]);
    } else {
      var correct := links[sender - 1];
      if correct != null {
        correct.AddAck(ack);
        AcksUpdate(links, receiver.id, before, sender - 1, before[sender - 1] + [ack]);
      }
    }
  }

  /** Drop an acknowledged message. */
  method Acknowledged(receiver: Receiver, via: Link, links: seq<Link?>, sender: nat, target: nat, data: string)
    requires LinksOf(links, receiver.id) && 0 < via.target <= |links| && links[via.target - 1] == via
    requires 0 < sender <= |links|
    modifies links
    ensures Acks(links) == old(Acks(links))
    ensures Queues(links) == DropAcked(old(Queues(links)), receiver.id, via.target, sender, target, data)
    ensures forall k :: 0 <= k < |links| && links[k] != null ==>
      links[k].messages == if k + 1 == (if target == via.target then target else sender)
                           then Remove(old(links[k].messages), data) else old(links[k].messages)
  {
    ghost var before := Queues(links);
    if target == via.target {
      via.RemoveMessage(data);
      QueuesUpdate(links, receiver.id, before, via.target - 1, Remove(before[via.target - 1], data));
    } else {
      var correct := links[sender - 1];
      if correct != null {
        correct.RemoveMessage(data);
        QueuesUpdate(links, receiver.id, before, sender - 1, Remove(before[sender - 1], data));
      }
    }
  }

  /** A data packet for this process: deliver it upwards unless it was received before, and acknowledge it. */
  method ReceiveData(receiver: Receiver, via: Link, links: seq<Link?>, beb: BestEffortBroadcast,
                     urb: UniformReliableBroadcast, sender: nat, msg: string)
      returns (ok: bool)
    requires LinksOf(links, receiver.id) && beb.links == links && beb.me == receiver.id && urb.beb == beb
    requires 0 < via.target <= |links| && links[via.target - 1] == via && 0 < sender <= |links| && |msg| >= 7
    modifies receiver`delivered, links, beb, urb
    ensures var s := old(State(urb.CoreOf(), Acks(links), receiver.delivered, beb.delivered));
            var r := DataStep(s, receiver.id, msg);
            && (ok <==> r.Some?)
            && State(urb.CoreOf(), Acks(links), receiver.delivered, beb.delivered)
               == if ok then r.value.(acks := QueueAck(s.acks, receiver.id, sender, "1" + msg[1..]))
                  else DataThrown(s, msg)
    ensures msg[1..] in receiver.delivered
    ensures ok ==> forall k :: 0 <= k < |links| && links[k] != null ==>
      links[k].acks == old(links[k].acks) + if k + 1 == sender then ["1" + msg[1..]] else []
  {
    ok := DeliverOnce(receiver, links, beb, urb, msg);
    if ok {
      AcksSame(links, old(Acks(links)));
      Acknowledge(receiver, via, links, sender, "1" + msg[1..]);
    }
  }

  /** One message read by the thread of link `via`: the body of the loop of `deliverThreaded`. False where the
      source throws. */
  method ReceiveMessage(receiver: Receiver, via: Link, links: seq<Link?>, beb: BestEffortBroadcast,
                        urb: UniformReliableBroadcast, msg: string)
      returns (ok: bool)
    requires LinksOf(links, receiver.id) && beb.links == links && beb.me == receiver.id && urb.beb == beb
    requires 0 < via.target <= |links| && links[via.target - 1] == via
    requires ReadPacket(msg).Some? ==> 0 < ReadPacket(msg).value.sender <= |links|
    modifies receiver`delivered, links, beb, urb
    ensures var s := old(State(urb.CoreOf(), Acks(links), receiver.delivered, beb.delivered));
            var r := ReceiveStep(s, receiver.id, via.target, msg);
            && (ok <==> r.Some?)
            && State(urb.CoreOf(), Acks(links), receiver.delivered, beb.delivered)
               == if ok then r.value else ReceiveThrown(s, msg)
    ensures ReadPacket(msg).Some? && !DataFor(ReadPacket(msg).value, receiver.id)
              && !AckFor(ReadPacket(msg).value, receiver.id) ==>
      ok && State(urb.CoreOf(), Acks(links), receiver.delivered, beb.delivered)
              == old(State(urb.CoreOf(), Acks(links), receiver.delivered, beb.delivered))
    ensures ok && ReadPacket(msg).Some? && DataFor(ReadPacket(msg).value, receiver.id) ==>
      && msg[1..] in receiver.delivered
      && forall k :: 0 <= k < |links| && links[k] != null ==>
           links[k].acks == old(links[k].acks) + if k + 1 == ReadPacket(msg).value.sender then ["1" + msg[1..]] else []
    ensures ReadPacket(msg).Some? && AckFor(ReadPacket(msg).value, receiver.id) ==>
      && ok && Acks(links) == old(Acks(links)) && urb.Fields() == old(urb.Fields())
      && forall k :: 0 <= k < |links| && links[k] != null ==>
           links[k].messages == if via == links[k] && ReadPacket(msg).value.target == via.target
                                then Remove(old(links[k].messages), "0" + msg[1..]) else old(links[k].messages)
  {
    var f := ReadPacket(msg);
    if f.None? {
      return false;
    }
    if receiver.id == f.value.target && f.value.ack == '0' {
      ok := ReceiveData(receiver, via, links, beb, urb, f.value.sender, msg);
    } else if receiver.id == f.value.sender && f.value.ack == '1' {
      Acknowledged(receiver, via, links, f.value.sender, f.value.target, "0" + msg[1..]);
      ok := true;
    } else {
      ok := true;
    }
  }
}
