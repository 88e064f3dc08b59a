/** N processes running perfect links, best-effort broadcast and uniform reliable broadcast over a network
    that loses, duplicates and reorders packets, with crashes. */
module UrbSystem {
  import opened Messages
  import opened StdList
  import opened UrbProtocol

  /** One process. `out[q]` and `acks[q]` are `messages_to_send` and `acks_to_send` of the link to q;
      `got` is the receiver's delivered list and `beb` the one of best-effort broadcast, both as
      (sender, content) pairs. `calls` and `handed` are history: how often BEB was asked to broadcast a
      content, and the keys URB handed to its upper layer, in order. */
  datatype Process = Process(
    out: seq<seq<Content>>,
    acks: seq<seq<Content>>,
    got: set<(nat, Content)>,
    beb: set<(nat, Content)>,
    urb: Urb<Key, nat>,
    calls: multiset<Content>,
    handed: seq<Key>)

  datatype Sys = Sys(procs: seq<Process>, net: set<Packet>, crashed: set<nat>)

  datatype Step =
    | Broadcast(p: nat, m: Stamped, addId: bool)
    | Send(p: nat, q: nat, c: Content)
    | ReceiveData(p: nat, pkt: Packet)
    | ReceiveAck(p: nat, via: nat, pkt: Packet)
    | FlushAcks(p: nat, q: nat)
    | HandOver(p: nat, k: Key)
    | Crash(p: nat)

  // ---------- moves of one process ----------

  /** BEB: hand the content to every link except the missing one to itself. */
  function Fanout(p: Process, me: nat, c: Content): Process {
    p.(out := seq(|p.out|, q requires 0 <= q < |p.out| => if q == me then p.out[q] else p.out[q] + [c]),
       calls := p.calls + multiset{c})
  }

  function UrbBroadcast(p: Process, me: nat, m: Stamped, addId: bool): Process {
    Fanout(p.(urb := p.urb.(pending := p.urb.pending + [if addId then Key(me, m) else Bare(m)])), me, Direct(m))
  }

  /** URB's `deliver`: count, and relay on first receipt. */
  function UrbDeliver(p: Process, me: nat, sender: nat, c: Content): Process {
    var k := KeyOf(sender, c);
    var p1 := p.(urb := Receive(p.urb, k, sender));
    if k in p.urb.pending then p1 else Fanout(p1, me, Relay(k.origin, k.m))
  }

  function BebDeliver(p: Process, me: nat, sender: nat, c: Content): Process {
    if (sender, c) in p.beb then p else UrbDeliver(p.(beb := p.beb + {(sender, c)}), me, sender, c)
  }

  /** The data branch of the link's receive thread: deliver once, acknowledge always. */
  function LinkDeliver(p: Process, me: nat, sender: nat, c: Content): Process
    requires sender < |p.acks|
  {
    var p1 := if (sender, c) in p.got then p else BebDeliver(p.(got := p.got + {(sender, c)}), me, sender, c);
    p1.(acks := p1.acks[sender := p1.acks[sender] + [c]])
  }

  // ---------- the step system ----------

  function Init(n: nat): Sys {
    Sys(seq(n, i => Process(seq(n, j => []), seq(n, j => []), {}, {}, Urb([], map[], {}), multiset{}, [])), {}, {})
  }

  predicate Shape(s: Sys) {
    && (forall p :: 0 <= p < |s.procs| ==> |s.procs[p].out| == |s.procs| && |s.procs[p].acks| == |s.procs|)
    && (forall p :: p in s.crashed ==> p < |s.procs|)
  }

  predicate Enabled(s: Sys, e: Step)
    requires Shape(s)
  {
    && e.p < |s.procs| && e.p !in s.crashed
    && match e
       case Broadcast(p, m, addId) => Direct(m) !in s.procs[p].calls
       case Send(p, q, c) => q < |s.procs| && c in s.procs[p].out[q]
       case ReceiveData(p, pkt) => pkt in s.net && !pkt.ack && pkt.target == p && pkt.sender < |s.procs|
       case ReceiveAck(p, via, pkt) => via < |s.procs| && via != p && pkt in s.net && pkt.ack && pkt.sender == p
       case FlushAcks(p, q) => q < |s.procs|
       case HandOver(p, k) =>
         && k in s.procs[p].urb.pending && k !in s.procs[p].urb.delivered
         && CanDeliver(s.procs[p].urb, |s.procs|, k)
       case Crash(p) => true
  }

  function AckPackets(p: nat, q: nat, cs: seq<Content>): set<Packet> {
    set c | c in cs :: Packet(true, q, p, c)
  }

  /** What a step does to the process that takes it. */
  function Local(s: Sys, e: Step): Process
    requires Shape(s) && Enabled(s, e)
  {
    var p := s.procs[e.p];
    match e
    case Broadcast(me, m, addId) => UrbBroadcast(p, me, m, addId)
    case Send(_, _, _) => p
    case ReceiveData(me, pkt) => LinkDeliver(p, me, pkt.sender, pkt.content)
    // The thread of the link to pkt.target removes the message. Any other thread looks up the link by the
    // packet's sender, which is this process itself and has no link, so the acknowledgement is dropped.
    case ReceiveAck(me, via, pkt) =>
      if pkt.target == via then p.(out := p.out[via := Remove(p.out[via], pkt.content)]) else p
    case FlushAcks(_, q) => p.(acks := p.acks[q := []])
    case HandOver(_, k) => p.(urb := p.urb.(delivered := p.urb.delivered + {k}), handed := p.handed + [k])
    case Crash(_) => p
  }

  function Next(s: Sys, e: Step): Sys
    requires Shape(s) && Enabled(s, e)
  {
    var procs := s.procs[e.p := Local(s, e)];
    match e
    case Send(p, q, c) => Sys(procs, s.net + {Packet(false, p, q, c)}, s.crashed)
    case FlushAcks(p, q) => Sys(procs, s.net + AckPackets(p, q, Unique(s.procs[p].acks[q])), s.crashed)
    case Crash(p) => Sys(procs, s.net, s.crashed + {p})
    case _ => Sys(procs, s.net, s.crashed)
  }

  // ---------- the invariant ----------

  /** Everything on the wire or in a queue was really asked for or really received. */
  ghost predicate NetInv(s: Sys) {
    forall k :: k in s.net ==>
      && k.sender < |s.procs| && k.target < |s.procs| && k.sender != k.target
      && if k.ack then (k.sender, k.content) in s.procs[k.target].got else k.content in s.procs[k.sender].calls
  }

  /** Perfect links lose nothing: a content given to a link is still queued there or was received. */
  ghost predicate NoLoss(s: Sys)
    requires Shape(s)
  {
    forall p, q, c :: 0 <= p < |s.procs| && 0 <= q < |s.procs| && p != q && c in s.procs[p].calls ==>
      c in s.procs[p].out[q] || (p, c) in s.procs[q].got
  }

  ghost predicate GotInv(s: Sys) {
    forall p, x :: 0 <= p < |s.procs| && x in s.procs[p].got ==>
      x.0 < |s.procs| && x.0 != p && x.1 in s.procs[x.0].calls && KeyOf(x.0, x.1) in s.procs[p].urb.pending
  }

  ghost predicate PendingInv(s: Sys) {
    forall p, k :: 0 <= p < |s.procs| && k in s.procs[p].urb.pending && k.Key? ==>
      && k.origin < |s.procs| && Direct(k.m) in s.procs[k.origin].calls
      && (p != k.origin ==> Relay(k.origin, k.m) in s.procs[p].calls)
  }

  /** The received contents that count as acknowledgements of k. */
  function Votes(got: set<(nat, Content)>, k: Key): set<(nat, Content)> {
    set x | x in got && KeyOf(x.0, x.1) == k
  }

  ghost predicate VoteInv(p: Process) {
    && p.beb == p.got
    && forall k :: CountKey(p.urb.ack, k) == |Votes(p.got, k)|
  }

  ghost predicate HandedInv(p: Process, n: nat) {
    && (forall k :: k in p.urb.delivered ==> k in p.urb.pending && CanDeliver(p.urb, n, k))
    && (forall k :: k in p.handed <==> k in p.urb.delivered)
    && (forall i, j :: 0 <= i < j < |p.handed| ==> p.handed[i] != p.handed[j])
  }

  ghost predicate OutInv(p: Process, me: nat) {
    forall q :: 0 <= q < |p.out| ==> forall c :: c in p.out[q] ==> q != me && c in p.calls
  }

  ghost predicate AckInv(p: Process, me: nat) {
    forall q :: 0 <= q < |p.acks| ==> forall c :: c in p.acks[q] ==> q != me && (q, c) in p.got
  }

  /** Relays are for pending messages, and nothing is broadcast twice on a process's links. */
  ghost predicate CallInv(p: Process) {
    forall c :: c in p.calls ==> p.calls[c] == 1 && (c.Relay? ==> Key(c.origin, c.m) in p.urb.pending)
  }

  /** A process relays its own message exactly when it broadcast it with the bare text in `pending` and a
      relay of it came back. */
  ghost predicate OriginInv(pending: seq<Key>, calls: multiset<Content>, me: nat) {
    forall m :: OriginAt(pending, calls, me, m)
  }

  ghost predicate OriginAt(pending: seq<Key>, calls: multiset<Content>, me: nat, m: Stamped) {
    && (Bare(m) in pending ==> Direct(m) in calls)
    && (Direct(m) in calls ==> Bare(m) in pending || Key(me, m) in pending)
    && (Relay(me, m) in calls <==> Bare(m) in pending && Key(me, m) in pending)
  }

  /** The part of the invariant that speaks of one process alone. */
  ghost predicate Own(p: Process, me: nat, n: nat) {
    && |p.out| == n && |p.acks| == n
    && OutInv(p, me) && AckInv(p, me) && CallInv(p) && OriginInv(p.urb.pending, p.calls, me)
    && VoteInv(p) && HandedInv(p, n)
  }

  ghost predicate Inv(s: Sys) {
    && Shape(s) && NetInv(s) && NoLoss(s) && GotInv(s) && PendingInv(s)
    && forall p :: 0 <= p < |s.procs| ==> Own(s.procs[p], p, |s.procs|)
  }

  lemma InitInv(n: nat)
    ensures Inv(Init(n))
  {
  }

  // ---------- preservation ----------

  /** What process p holds only grows. */
  ghost predicate Grows(a: Process, b: Process) {
    a.calls <= b.calls && a.got <= b.got && (forall k :: k in a.urb.pending ==> k in b.urb.pending)
  }

  ghost predicate LocalNoLoss(s: Sys, p: nat, b: Process)
    requires |b.out| == |s.procs|
  {
    forall q, c :: 0 <= q < |s.procs| && p != q && c in b.calls ==> c in b.out[q] || (p, c) in s.procs[q].got
  }

  ghost predicate LocalGot(s: Sys, p: nat, b: Process) {
    forall x :: x in b.got ==>
      x.0 < |s.procs| && x.0 != p && x.1 in s.procs[x.0].calls && KeyOf(x.0, x.1) in b.urb.pending
  }

  ghost predicate LocalPending(s: Sys, p: nat, b: Process) {
    forall k :: k in b.urb.pending && k.Key? ==>
      && k.origin < |s.procs|
      && (if k.origin == p then Direct(k.m) in b.calls
          else Direct(k.m) in s.procs[k.origin].calls && Relay(k.origin, k.m) in b.calls)
  }

  /** What a step of process p must establish for its new value b. */
  ghost predicate LocalGood(s: Sys, p: nat, b: Process)
    requires p < |s.procs|
  {
    && Grows(s.procs[p], b) && Own(b, p, |s.procs|)
    && LocalNoLoss(s, p, b) && LocalGot(s, p, b) && LocalPending(s, p, b)
  }

  lemma NoLossKept(s: Sys, p: nat, b: Process, t: Sys)
    requires Shape(s) && Shape(t) && p < |s.procs| && t.procs == s.procs[p := b] && |b.out| == |s.procs|
    requires NoLoss(s) && Grows(s.procs[p], b) && LocalNoLoss(s, p, b)
    ensures NoLoss(t)
  {
  }

  lemma GotKept(s: Sys, p: nat, b: Process, t: Sys)
    requires p < |s.procs| && t.procs == s.procs[p := b] && GotInv(s) && Grows(s.procs[p], b) && LocalGot(s, p, b)
    ensures GotInv(t)
  {
  }

  lemma PendingKept(s: Sys, p: nat, b: Process, t: Sys)
    requires p < |s.procs| && t.procs == s.procs[p := b]
    requires PendingInv(s) && Grows(s.procs[p], b) && LocalPending(s, p, b)
    ensures PendingInv(t)
  {
  }

  lemma NetKept(s: Sys, p: nat, b: Process, t: Sys)
    requires p < |s.procs| && t.procs == s.procs[p := b] && Grows(s.procs[p], b)
    requires NetInv(Sys(s.procs, t.net, s.crashed))
    ensures NetInv(t)
  {
  }

  lemma Assemble(s: Sys, p: nat, b: Process, t: Sys)
    requires Inv(s) && p < |s.procs| && LocalGood(s, p, b) && t.procs == s.procs[p := b]
    requires (forall x :: x in t.crashed ==> x < |s.procs|) && NetInv(Sys(s.procs, t.net, s.crashed))
    ensures Inv(t)
  {
    assert Shape(t);
    NoLossKept(s, p, b, t);
    GotKept(s, p, b, t);
    PendingKept(s, p, b, t);
    NetKept(s, p, b, t);
  }

  lemma FanoutOut(p: Process, me: nat, c: Content, q: nat)
    requires q < |p.out|
    ensures forall x :: x in Fanout(p, me, c).out[q] <==> x in p.out[q] || (q != me && x == c)
  {
  }

  lemma FanoutOwn(p: Process, me: nat, c: Content)
    requires OutInv(p, me)
    ensures OutInv(Fanout(p, me, c), me)
  {
    forall q | 0 <= q < |p.out|
      ensures forall x :: x in Fanout(p, me, c).out[q] ==> q != me && x in Fanout(p, me, c).calls
    {
      FanoutOut(p, me, c, q);
    }
  }

  lemma FanoutNoLoss(s: Sys, p: nat, b: Process, c: Content)
    requires |b.out| == |s.procs| && LocalNoLoss(s, p, b)
    ensures LocalNoLoss(s, p, Fanout(b, p, c))
  {
    forall q, x | 0 <= q < |s.procs| && p != q && x in Fanout(b, p, c).calls
      ensures x in Fanout(b, p, c).out[q] || (p, x) in s.procs[q].got
    {
      FanoutOut(b, p, c, q);
    }
  }

  lemma BroadcastGood(s: Sys, p: nat, m: Stamped, addId: bool)
    requires Inv(s) && p < |s.procs| && Direct(m) !in s.procs[p].calls
    ensures LocalGood(s, p, UrbBroadcast(s.procs[p], p, m, addId))
  {
    var a := s.procs[p];
    var b := a.(urb := a.urb.(pending := a.urb.pending + [if addId then Key(p, m) else Bare(m)]));
    var d := Fanout(b, p, Direct(m));
    FanoutOwn(b, p, Direct(m));
    FanoutNoLoss(s, p, b, Direct(m));
    assert CallInv(d);
    forall x ensures OriginAt(d.urb.pending, d.calls, p, x) {
      assert OriginAt(a.urb.pending, a.calls, p, x);
    }
  }

  lemma VotesGrow(got: set<(nat, Content)>, x: (nat, Content), k: Key)
    requires x !in got
    ensures |Votes(got + {x}, k)| == |Votes(got, k)| + if KeyOf(x.0, x.1) == k then 1 else 0
  {
    if KeyOf(x.0, x.1) == k {
      assert Votes(got + {x}, k) == Votes(got, k) + {x};
    } else {
      assert Votes(got + {x}, k) == Votes(got, k);
    }
  }

  /** The value of a process between counting an acknowledgement and relaying. */
  function Counted(p: Process, sender: nat, c: Content): Process {
    p.(got := p.got + {(sender, c)}, beb := p.beb + {(sender, c)}, urb := Receive(p.urb, KeyOf(sender, c), sender))
  }

  lemma CountedVotes(p: Process, sender: nat, c: Content)
    requires VoteInv(p) && (sender, c) !in p.got
    ensures VoteInv(Counted(p, sender, c))
  {
    var b := Counted(p, sender, c);
    forall k
      ensures CountKey(b.urb.ack, k) == |Votes(b.got, k)|
    {
      VotesGrow(p.got, (sender, c), k);
    }
  }

  lemma CountedHanded(p: Process, n: nat, sender: nat, c: Content)
    requires HandedInv(p, n)
    ensures HandedInv(Counted(p, sender, c), n)
  {
    var b := Counted(p, sender, c);
    forall k | k in b.urb.delivered ensures k in b.urb.pending && CanDeliver(b.urb, n, k) {
      assert CountKey(p.urb.ack, k) <= CountKey(b.urb.ack, k);
    }
  }

  lemma CountedOrigin(a: Process, p: nat, sender: nat, c: Content)
    requires OriginInv(a.urb.pending, a.calls, p)
    requires KeyOf(sender, c).origin == p ==> Direct(KeyOf(sender, c).m) in a.calls
    ensures var d := UrbDeliver(a, p, sender, c); OriginInv(d.urb.pending, d.calls, p)
  {
    var d := UrbDeliver(a, p, sender, c);
    forall m ensures OriginAt(d.urb.pending, d.calls, p, m) {
      assert OriginAt(a.urb.pending, a.calls, p, m);
    }
  }

  /** A process that has counted the first receipt of a content, and relays it if it is new. */
  function FirstReceipt(p: Process, me: nat, sender: nat, c: Content): Process {
    UrbDeliver(p.(got := p.got + {(sender, c)}, beb := p.beb + {(sender, c)}), me, sender, c)
  }

  lemma FirstReceiptOwn(a: Process, p: nat, n: nat, sender: nat, c: Content)
    requires Own(a, p, n) && (sender, c) !in a.got
    requires KeyOf(sender, c).origin == p ==> Direct(KeyOf(sender, c).m) in a.calls
    requires KeyOf(sender, c) !in a.urb.pending ==> Relay(KeyOf(sender, c).origin, KeyOf(sender, c).m) !in a.calls
    ensures Own(FirstReceipt(a, p, sender, c), p, n)
  {
    var k, b := KeyOf(sender, c), Counted(a, sender, c);
    CountedVotes(a, sender, c);
    CountedHanded(a, n, sender, c);
    if k !in a.urb.pending {
      FanoutOwn(b, p, Relay(k.origin, k.m));
      assert CallInv(Fanout(b, p, Relay(k.origin, k.m)));
    }
    CountedOrigin(a.(got := a.got + {(sender, c)}, beb := a.beb + {(sender, c)}), p, sender, c);
  }

  /** The message of a received content was broadcast by its origin. */
  lemma ContentKnown(s: Sys, p: nat, sender: nat, c: Content)
    requires Inv(s) && p < |s.procs| && sender < |s.procs| && c in s.procs[sender].calls
    ensures var k := KeyOf(sender, c);
            && k.origin < |s.procs| && Direct(k.m) in s.procs[k.origin].calls
            && (k !in s.procs[p].urb.pending ==> Relay(k.origin, k.m) !in s.procs[p].calls)
  {
    assert Own(s.procs[sender], sender, |s.procs|) && Own(s.procs[p], p, |s.procs|);
    if c.Relay? { assert Key(c.origin, c.m) in s.procs[sender].urb.pending; }
  }

  lemma FirstReceiptGot(s: Sys, p: nat, sender: nat, c: Content, d: Process)
    requires p < |s.procs| && sender < |s.procs| && sender != p && c in s.procs[sender].calls
    requires GotInv(s) && d == FirstReceipt(s.procs[p], p, sender, c)
    ensures Grows(s.procs[p], d) && LocalGot(s, p, d)
  {
  }

  lemma FirstReceiptPending(s: Sys, p: nat, sender: nat, c: Content, d: Process)
    requires p < |s.procs| && PendingInv(s) && d == FirstReceipt(s.procs[p], p, sender, c)
    requires var k := KeyOf(sender, c); k.origin < |s.procs| && Direct(k.m) in s.procs[k.origin].calls
    ensures LocalPending(s, p, d)
  {
  }

  lemma FirstReceiptGood(s: Sys, p: nat, sender: nat, c: Content)
    requires Inv(s) && p < |s.procs| && sender < |s.procs| && sender != p
    requires (sender, c) !in s.procs[p].got && c in s.procs[sender].calls
    ensures LocalGood(s, p, FirstReceipt(s.procs[p], p, sender, c))
  {
    var a, k := s.procs[p], KeyOf(sender, c);
    ContentKnown(s, p, sender, c);
    FirstReceiptOwn(a, p, |s.procs|, sender, c);
    FirstReceiptGot(s, p, sender, c, FirstReceipt(a, p, sender, c));
    FirstReceiptPending(s, p, sender, c, FirstReceipt(a, p, sender, c));
    assert LocalNoLoss(s, p, Counted(a, sender, c));
    if k !in a.urb.pending {
      FanoutNoLoss(s, p, Counted(a, sender, c), Relay(k.origin, k.m));
    }
  }

  lemma QueueAckGood(s: Sys, p: nat, b: Process, sender: nat, c: Content)
    requires p < |s.procs| && sender < |s.procs| && sender != p
    requires LocalGood(s, p, b) && (sender, c) in b.got
    ensures LocalGood(s, p, b.(acks := b.acks[sender := b.acks[sender] + [c]]))
  {
    assert AckInv(b.(acks := b.acks[sender := b.acks[sender] + [c]]), p);
  }

  lemma ReceiveGood(s: Sys, p: nat, pkt: Packet)
    requires Inv(s) && p < |s.procs| && pkt in s.net && !pkt.ack && pkt.target == p && pkt.sender < |s.procs|
    ensures LocalGood(s, p, LinkDeliver(s.procs[p], p, pkt.sender, pkt.content))
  {
    var a := s.procs[p];
    var x := (pkt.sender, pkt.content);
    if x in a.got {
      QueueAckGood(s, p, a, pkt.sender, pkt.content);
    } else {
      FirstReceiptGood(s, p, pkt.sender, pkt.content);
      QueueAckGood(s, p, BebDeliver(a.(got := a.got + {x}), p, pkt.sender, pkt.content), pkt.sender, pkt.content);
    }
  }

  lemma AckGood(s: Sys, p: nat, via: nat, pkt: Packet)
    requires Inv(s) && p < |s.procs| && Enabled(s, ReceiveAck(p, via, pkt))
    ensures LocalGood(s, p, Local(s, ReceiveAck(p, via, pkt)))
  {
    var b := Local(s, ReceiveAck(p, via, pkt));
    assert OutInv(b, p);
    assert LocalNoLoss(s, p, b);
  }

  lemma FlushGood(s: Sys, p: nat, q: nat)
    requires Inv(s) && p < |s.procs| && q < |s.procs|
    ensures LocalGood(s, p, s.procs[p].(acks := s.procs[p].acks[q := []]))
  {
    assert AckInv(s.procs[p].(acks := s.procs[p].acks[q := []]), p);
  }

  lemma HandOverGood(s: Sys, p: nat, k: Key)
    requires Inv(s) && p < |s.procs| && Enabled(s, HandOver(p, k))
    ensures LocalGood(s, p, Local(s, HandOver(p, k)))
  {
    var b := Local(s, HandOver(p, k));
    assert HandedInv(b, |s.procs|);
  }

  lemma StepGood(s: Sys, e: Step)
    requires Inv(s) && Enabled(s, e)
    ensures LocalGood(s, e.p, Local(s, e))
  {
    match e
    case Broadcast(p, m, addId) => BroadcastGood(s, p, m, addId);
    case Send(_, _, _) =>
    case ReceiveData(p, pkt) => ReceiveGood(s, p, pkt);
    case ReceiveAck(p, via, pkt) => AckGood(s, p, via, pkt);
    case FlushAcks(p, q) => FlushGood(s, p, q);
    case HandOver(p, k) => HandOverGood(s, p, k);
    case Crash(_) =>
  }

  lemma NetNext(s: Sys, e: Step)
    requires Inv(s) && Enabled(s, e)
    ensures NetInv(Sys(s.procs, Next(s, e).net, s.crashed))
  {
    assert Own(s.procs[e.p], e.p, |s.procs|);
  }

  /** Every step keeps the invariant. */
  lemma NextInv(s: Sys, e: Step)
    requires Inv(s) && Enabled(s, e)
    ensures Inv(Next(s, e))
  {
    StepGood(s, e);
    NetNext(s, e);
    Assemble(s, e.p, Local(s, e), Next(s, e));
  }
  // ---------- the order of the lists ----------

  /** b is a, one element longer at the end or not. */
  ghost predicate AtMostAppended<C(!new)>(a: seq<C>, b: seq<C>) {
    b == a || exists c :: b == a + [c]
  }

  /** A step adds to the end of a list and nowhere else; a retransmission list may also lose one content, the others
      keeping their order, and an acknowledgement list be emptied. */
  lemma ListsKeepOrder(s: Sys, e: Step)
    requires Shape(s) && Enabled(s, e)
    ensures var a, b := s.procs[e.p], Local(s, e);
            && |b.out| == |a.out| && |b.acks| == |a.acks|
            && AtMostAppended(a.urb.pending, b.urb.pending) && AtMostAppended(a.handed, b.handed)
            && (forall q :: 0 <= q < |a.out| ==>
                  AtMostAppended(a.out[q], b.out[q]) || (e.ReceiveAck? && b.out[q] == Remove(a.out[q], e.pkt.content)))
            && (forall q :: 0 <= q < |a.acks| ==>
                  AtMostAppended(a.acks[q], b.acks[q]) || (e == FlushAcks(e.p, q) && b.acks[q] == []))
  {
  }
}
