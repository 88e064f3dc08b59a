/** From every reachable state the live processes can come to rest by the steps of the protocol alone, so the theorems
    about quiescent states are about states that every run can reach. */
module Quiescence {
  import opened Messages
  import opened StdList
  import opened UrbProtocol
  import opened UrbSystem
  import opened UrbTheorems

  /** Steps of the protocol: no new broadcast, and no crash. */
  ghost predicate OnlyProtocol(es: seq<Step>) {
    forall e :: e in es ==> !e.Broadcast? && !e.Crash?
  }

  /** From s to t nothing was broadcast and nobody crashed; the crashed processes did nothing, and nothing pending
      was forgotten. */
  ghost predicate Calm(s: Sys, t: Sys) {
    && |t.procs| == |s.procs| && t.crashed == s.crashed
    && forall p :: 0 <= p < |s.procs| ==>
         CalmAt(s.procs[p], t.procs[p]) && (p in s.crashed ==> t.procs[p] == s.procs[p])
  }

  ghost predicate CalmAt(a: Process, b: Process) {
    && (forall m :: Direct(m) in a.calls <==> Direct(m) in b.calls)
    && (forall k :: k in a.urb.pending ==> k in b.urb.pending)
    && (forall k :: k in a.urb.delivered ==> k in b.urb.delivered)
  }

  lemma CalmTransitive(s: Sys, t: Sys, u: Sys)
    requires Calm(s, t) && Calm(t, u)
    ensures Calm(s, u)
  {
    forall p | 0 <= p < |s.procs| ensures CalmAt(s.procs[p], u.procs[p]) {
      assert CalmAt(s.procs[p], t.procs[p]) && CalmAt(t.procs[p], u.procs[p]);
    }
  }

  /** After es, which leads to s, the steps `more` of the protocol lead to t. */
  ghost predicate Continues(n: nat, es: seq<Step>, s: Sys, more: seq<Step>, t: Sys) {
    Reaches(n, es + more, t) && OnlyProtocol(more) && Shape(t) && Calm(s, t)
  }

  lemma Stay(n: nat, es: seq<Step>, s: Sys)
    requires Reaches(n, es, s) && Shape(s)
    ensures Continues(n, es, s, [], s)
  {
    assert es + [] == es;
  }

  lemma Chain(n: nat, es: seq<Step>, s: Sys, first: seq<Step>, u: Sys, rest: seq<Step>, t: Sys)
    requires Continues(n, es, s, first, u) && Continues(n, es + first, u, rest, t)
    ensures Continues(n, es, s, first + rest, t)
  {
    assert es + (first + rest) == es + first + rest;
    CalmTransitive(s, u, t);
  }

  // ---------- one round between two live processes ----------

  /** The receiver after the round. */
  function Received(b: Process, q: nat, p: nat, c: Content): Process
    requires p < |b.acks|
  {
    var r := LinkDeliver(b, q, p, c);
    r.(acks := r.acks[p := []])
  }

  /** The sender after the round. */
  function Cleared(a: Process, q: nat, c: Content): Process
    requires q < |a.out|
  {
    a.(out := a.out[q := Remove(a.out[q], c)])
  }

  function AfterRound(s: Sys, p: nat, q: nat, c: Content, net: set<Packet>): Sys
    requires Shape(s) && p < |s.procs| && q < |s.procs|
  {
    s.(procs := s.procs[q := Received(s.procs[q], q, p, c)][p := Cleared(s.procs[p], q, c)], net := net)
  }

  lemma AckQueued(b: Process, q: nat, p: nat, c: Content)
    requires p < |b.acks|
    ensures var r := LinkDeliver(b, q, p, c);
            |r.out| == |b.out| && |r.acks| == |b.acks| && r.acks[p] == b.acks[p] + [c]
  {
  }

  lemma SendAndReceive(n: nat, es: seq<Step>, s: Sys, p: nat, q: nat, c: Content)
      returns (more: seq<Step>, net: set<Packet>)
    requires Reaches(n, es, s) && Shape(s) && |s.procs| == n && p in Live(s) && q in Live(s) && p != q
    requires c in s.procs[p].out[q]
    ensures OnlyProtocol(more)
    ensures Reaches(n, es + more, Sys(s.procs[q := LinkDeliver(s.procs[q], q, p, c)], net, s.crashed))
  {
    var e1, e2 := Send(p, q, c), ReceiveData(q, Packet(false, p, q, c));
    Extend(n, es, s, e1);
    var s1 := Next(s, e1);
    assert s1.procs == s.procs;
    Extend(n, es + [e1], s1, e2);
    more, net := [e1, e2], s1.net;
    assert es + more == es + [e1] + [e2];
  }

  lemma Acknowledged(n: nat, es: seq<Step>, s: Sys, p: nat, q: nat, c: Content)
      returns (more: seq<Step>, net: set<Packet>)
    requires Reaches(n, es, s) && Shape(s) && |s.procs| == n && p in Live(s) && q in Live(s) && p != q
    requires c in s.procs[q].acks[p]
    ensures OnlyProtocol(more)
    ensures var b := s.procs[q].(acks := s.procs[q].acks[p := []]);
            Reaches(n, es + more, Sys(s.procs[q := b][p := Cleared(s.procs[p], q, c)], net, s.crashed))
  {
    var e1, e2 := FlushAcks(q, p), ReceiveAck(p, q, Packet(true, p, q, c));
    Extend(n, es, s, e1);
    var s1 := Next(s, e1);
    assert c in Unique(s.procs[q].acks[p]);
    assert Packet(true, p, q, c) in s1.net;
    Extend(n, es + [e1], s1, e2);
    more, net := [e1, e2], s1.net;
    assert es + more == es + [e1] + [e2];
  }

  /** p sends c to q, q receives it and sends its acknowledgements to p, and p receives the one for c. */
  lemma Round(n: nat, es: seq<Step>, s: Sys, p: nat, q: nat, c: Content) returns (more: seq<Step>, net: set<Packet>)
    requires Reaches(n, es, s) && Shape(s) && |s.procs| == n && p in Live(s) && q in Live(s) && p != q
    requires c in s.procs[p].out[q]
    ensures Reaches(n, es + more, AfterRound(s, p, q, c, net)) && OnlyProtocol(more)
  {
    AckQueued(s.procs[q], q, p, c);
    var first, wire := SendAndReceive(n, es, s, p, q, c);
    var t := Sys(s.procs[q := LinkDeliver(s.procs[q], q, p, c)], wire, s.crashed);
    var second;
    second, net := Acknowledged(n, es + first, t, p, q, c);
    more := first + second;
    assert es + more == es + first + second;
    RoundEnds(s, t, p, q, c, net);
  }

  lemma RoundEnds(s: Sys, t: Sys, p: nat, q: nat, c: Content, net: set<Packet>)
    requires Shape(s) && Shape(t) && p < |s.procs| && q < |s.procs| && p != q && t.crashed == s.crashed
    requires t.procs == s.procs[q := LinkDeliver(s.procs[q], q, p, c)]
    ensures var b := t.procs[q].(acks := t.procs[q].acks[p := []]);
            Sys(t.procs[q := b][p := Cleared(t.procs[p], q, c)], net, t.crashed) == AfterRound(s, p, q, c, net)
  {
    var b := Received(s.procs[q], q, p, c);
    assert t.procs[q := b] == s.procs[q := b];
  }

  // ---------- every round makes progress ----------

  /** The keys of all messages that were broadcast. */
  function Universe(s: Sys): set<Key> {
    set o, c | 0 <= o < |s.procs| && c in s.procs[o].calls && c.Direct? :: Key(o, c.m)
  }

  /** The processes that do not know a message yet. */
  function Missing(s: Sys): set<(nat, Key)> {
    set q: nat, k | q < |s.procs| && k in Universe(s) && k !in s.procs[q].urb.pending :: (q, k)
  }

  /** What is still queued between live processes. */
  function Queued(s: Sys): set<(nat, nat, Content)>
    requires Shape(s)
  {
    set p, q, c | p in Live(s) && q in Live(s) && p != q && c in s.procs[p].out[q] :: (p, q, c)
  }

  lemma ReceivedIs(b: Process, q: nat, p: nat, c: Content)
    requires b.beb == b.got && p < |b.acks| && ((p, c) in b.got ==> KeyOf(p, c) in b.urb.pending)
    ensures var r := Received(b, q, p, c);
            && CalmAt(b, r) && |r.out| == |b.out| && |r.acks| == |b.acks| && KeyOf(p, c) in r.urb.pending
            && (KeyOf(p, c) in b.urb.pending ==> r.out == b.out && r.urb.pending == b.urb.pending)
  {
  }

  lemma ClearedIs(a: Process, q: nat, c: Content)
    requires q < |a.out|
    ensures var r := Cleared(a, q, c);
            && CalmAt(a, r) && |r.out| == |a.out| && r.acks == a.acks && r.urb == a.urb && c !in r.out[q]
            && forall z :: 0 <= z < |a.out| ==> forall x :: x in r.out[z] ==> x in a.out[z]
  {
  }

  lemma CalmUpdate(s: Sys, p: nat, q: nat, a: Process, b: Process, t: Sys)
    requires Shape(s) && p in Live(s) && q in Live(s) && p != q
    requires t.procs == s.procs[q := b][p := a] && t.crashed == s.crashed
    requires CalmAt(s.procs[p], a) && CalmAt(s.procs[q], b)
    requires |a.out| == |a.acks| == |b.out| == |b.acks| == |s.procs|
    ensures Shape(t) && Calm(s, t)
  {
  }

  lemma RoundCalm(s: Sys, p: nat, q: nat, c: Content, net: set<Packet>)
    requires Inv(s) && p in Live(s) && q in Live(s) && p != q
    ensures Shape(AfterRound(s, p, q, c, net)) && Calm(s, AfterRound(s, p, q, c, net))
  {
    assert Own(s.procs[q], q, |s.procs|) && Own(s.procs[p], p, |s.procs|);
    ReceivedIs(s.procs[q], q, p, c);
    ClearedIs(s.procs[p], q, c);
    CalmUpdate(s, p, q, Cleared(s.procs[p], q, c), Received(s.procs[q], q, p, c), AfterRound(s, p, q, c, net));
  }

  lemma SameUniverse(s: Sys, t: Sys)
    requires Calm(s, t)
    ensures Universe(t) == Universe(s) && Missing(t) <= Missing(s) && Live(t) == Live(s)
  {
    forall o, m | 0 <= o < |s.procs| ensures Direct(m) in t.procs[o].calls <==> Direct(m) in s.procs[o].calls {
      assert CalmAt(s.procs[o], t.procs[o]);
    }
    forall k ensures k in Universe(t) <==> k in Universe(s) {
      if k.Key? && k.origin < |s.procs| {
        assert Direct(k.m) in t.procs[k.origin].calls <==> Direct(k.m) in s.procs[k.origin].calls;
      }
    }
    forall x | x in Missing(t) ensures x in Missing(s) {
      assert CalmAt(s.procs[x.0], t.procs[x.0]);
    }
  }

  /** A message that is new to q is known to it after the round. */
  lemma NewMessageShrinks(s: Sys, p: nat, q: nat, c: Content, net: set<Packet>)
    requires Inv(s) && p in Live(s) && q in Live(s) && p != q && c in s.procs[p].out[q]
    requires KeyOf(p, c) !in s.procs[q].urb.pending
    ensures Missing(AfterRound(s, p, q, c, net)) < Missing(s)
  {
    var k, t := KeyOf(p, c), AfterRound(s, p, q, c, net);
    RoundCalm(s, p, q, c, net);
    SameUniverse(s, t);
    assert Own(s.procs[p], p, |s.procs|) && Own(s.procs[q], q, |s.procs|);
    ContentKnown(s, q, p, c);
    ReceivedIs(s.procs[q], q, p, c);
    assert k in Universe(s);
    assert (q, k) in Missing(s) && (q, k) !in Missing(t);
  }

  lemma QueueShrinks(s: Sys, p: nat, q: nat, c: Content, a: Process, t: Sys)
    requires Shape(s) && Shape(t) && p in Live(s) && q in Live(s) && p != q && c in s.procs[p].out[q]
    requires |t.procs| == |s.procs| && t.crashed == s.crashed && t.procs[p] == a && c !in a.out[q]
    requires forall r :: 0 <= r < |s.procs| && r != p ==> t.procs[r].out == s.procs[r].out
    requires forall z :: 0 <= z < |s.procs| ==> forall x :: x in a.out[z] ==> x in s.procs[p].out[z]
    ensures Queued(t) < Queued(s)
  {
    assert (p, q, c) in Queued(s) && (p, q, c) !in Queued(t);
    forall x | x in Queued(t) ensures x in Queued(s) {
    }
  }

  lemma SameMissing(s: Sys, t: Sys)
    requires Calm(s, t) && forall r :: 0 <= r < |s.procs| ==> t.procs[r].urb.pending == s.procs[r].urb.pending
    ensures Missing(t) == Missing(s)
  {
    SameUniverse(s, t);
    forall x | x in Missing(s) ensures x in Missing(t) {
      assert t.procs[x.0].urb.pending == s.procs[x.0].urb.pending;
    }
  }

  /** A known one leaves the queue, and nothing comes in its place. */
  lemma KnownMessageShrinks(s: Sys, p: nat, q: nat, c: Content, net: set<Packet>)
    requires Inv(s) && p in Live(s) && q in Live(s) && p != q && c in s.procs[p].out[q]
    requires KeyOf(p, c) in s.procs[q].urb.pending
    ensures Shape(AfterRound(s, p, q, c, net))
    ensures Missing(AfterRound(s, p, q, c, net)) == Missing(s) && Queued(AfterRound(s, p, q, c, net)) < Queued(s)
  {
    var t := AfterRound(s, p, q, c, net);
    RoundCalm(s, p, q, c, net);
    assert Own(s.procs[q], q, |s.procs|);
    ReceivedIs(s.procs[q], q, p, c);
    ClearedIs(s.procs[p], q, c);
    SameMissing(s, t);
    QueueShrinks(s, p, q, c, Cleared(s.procs[p], q, c), t);
  }

  /** One round brings the live processes closer to rest. */
  lemma Progress(n: nat, es: seq<Step>, s: Sys, x: (nat, nat, Content)) returns (more: seq<Step>, t: Sys)
    requires Reaches(n, es, s) && Shape(s) && |s.procs| == n && x in Queued(s)
    ensures Continues(n, es, s, more, t)
    ensures Missing(t) < Missing(s) || (Missing(t) == Missing(s) && Queued(t) < Queued(s))
  {
    var (p, q, c) := x;
    var net;
    more, net := Round(n, es, s, p, q, c);
    t := AfterRound(s, p, q, c, net);
    ReachableInv(n, es, s);
    RoundCalm(s, p, q, c, net);
    if KeyOf(p, c) in s.procs[q].urb.pending {
      KnownMessageShrinks(s, p, q, c, net);
    } else {
      NewMessageShrinks(s, p, q, c, net);
    }
  }

  /** Rounds go on until nothing is queued between live processes. */
  lemma {:induction false} Settle(n: nat, es: seq<Step>, s: Sys) returns (more: seq<Step>, t: Sys)
    requires Reaches(n, es, s) && Shape(s) && |s.procs| == n
    ensures Continues(n, es, s, more, t) && Queued(t) == {}
    decreases Missing(s), Queued(s)
  {
    if Queued(s) == {} {
      more, t := [], s;
      Stay(n, es, s);
    } else {
      var x :| x in Queued(s);
      var first, u := Progress(n, es, s, x);
      var rest;
      rest, t := Settle(n, es + first, u);
      Chain(n, es, s, first, u, rest, t);
      more := first + rest;
    }
  }

  // ---------- hand-overs ----------

  /** p has scanned its pending messages. */
  ghost predicate Scanned(p: Process, n: nat) {
    forall k :: k in p.urb.pending && CanDeliver(p.urb, n, k) ==> k in p.urb.delivered
  }

  lemma PassScans(s: Sys, p: nat, n: nat)
    requires Shape(s) && p < |s.procs| && p !in s.crashed
    ensures var t := HandedAll(s, p, HandOvers(s.procs[p].urb, n, 0));
            && Shape(t) && Calm(s, t) && Queued(t) == Queued(s) && Scanned(t.procs[p], n)
            && forall q :: 0 <= q < |s.procs| && q != p ==> t.procs[q] == s.procs[q]
  {
    HandOversExact(s.procs[p].urb, n);
    var t := HandedAll(s, p, HandOvers(s.procs[p].urb, n, 0));
    assert forall q :: 0 <= q < |s.procs| ==> t.procs[q].out == s.procs[q].out;
  }

  ghost predicate ScannedBelow(s: Sys, n: nat, up: nat) {
    forall p :: 0 <= p < up && p < |s.procs| && p !in s.crashed ==> Scanned(s.procs[p], n)
  }

  lemma OnePass(n: nat, es: seq<Step>, s: Sys, p: nat) returns (more: seq<Step>, t: Sys)
    requires Reaches(n, es, s) && Shape(s) && |s.procs| == n && p < n && p !in s.crashed && ScannedBelow(s, n, p)
    ensures Continues(n, es, s, more, t) && Queued(t) == Queued(s) && ScannedBelow(t, n, p + 1)
  {
    more := PassIsARun(n, es, s, p, 0);
    t := HandedAll(s, p, HandOvers(s.procs[p].urb, n, 0));
    PassScans(s, p, n);
  }

  /** Process p makes a pass if it is live. */
  lemma PassIfLive(n: nat, es: seq<Step>, s: Sys, p: nat) returns (more: seq<Step>, t: Sys)
    requires Reaches(n, es, s) && Shape(s) && |s.procs| == n && p < n && ScannedBelow(s, n, p)
    ensures Continues(n, es, s, more, t) && Queued(t) == Queued(s) && ScannedBelow(t, n, p + 1)
  {
    if p in s.crashed {
      more, t := [], s;
      Stay(n, es, s);
    } else {
      more, t := OnePass(n, es, s, p);
    }
  }

  /** Each live process among the first `up` makes a pass over its pending messages. */
  lemma {:induction false} Passes(n: nat, es: seq<Step>, s: Sys, up: nat) returns (more: seq<Step>, t: Sys)
    requires Reaches(n, es, s) && Shape(s) && |s.procs| == n && up <= n
    ensures Continues(n, es, s, more, t) && Queued(t) == Queued(s) && ScannedBelow(t, n, up)
  {
    if up == 0 {
      more, t := [], s;
      Stay(n, es, s);
    } else {
      var first, u := Passes(n, es, s, up - 1);
      var rest;
      rest, t := PassIfLive(n, es + first, u, up - 1);
      Chain(n, es, s, first, u, rest, t);
      more := first + rest;
    }
  }

  // ---------- quiescence is always within reach ----------

  lemma SomeElement(cs: seq<Content>)
    ensures cs != [] ==> exists c :: c in cs
  {
    if cs != [] { assert cs[0] in cs; }
  }

  lemma AtRest(t: Sys)
    requires Shape(t) && Queued(t) == {} && ScannedBelow(t, |t.procs|, |t.procs|)
    ensures Quiescent(t)
  {
    forall p, q | p in Live(t) && q in Live(t) && p != q ensures t.procs[p].out[q] == [] {
      SomeElement(t.procs[p].out[q]);
      assert forall c :: c in t.procs[p].out[q] ==> (p, q, c) in Queued(t);
    }
    forall p | p in Live(t) ensures Scanned(t.procs[p], |t.procs|) {
    }
  }

  /** Every run can be continued by steps of the protocol, with no further broadcast and no further crash, to a state
      in which the live processes are at rest. */
  lemma QuiescenceReachable(n: nat, es: seq<Step>, s: Sys) returns (more: seq<Step>, t: Sys)
    requires Reaches(n, es, s) && Shape(s) && |s.procs| == n
    ensures Continues(n, es, s, more, t) && Quiescent(t)
  {
    var first, u := Settle(n, es, s);
    var rest;
    rest, t := Passes(n, es + first, u, n);
    Chain(n, es, s, first, u, rest, t);
    more := first + rest;
    AtRest(t);
  }

  /** While C - 1 > n / 2 processes live, what a live process broadcast, or any process delivered, can still be
      delivered by every live process, whatever was lost and whoever crashed so far. */
  lemma DeliveryWithinReach(n: nat, es: seq<Step>, s: Sys, k: Key) returns (more: seq<Step>, t: Sys)
    requires Reaches(n, es, s) && Shape(s) && |s.procs| == n && |Live(s)| - 1 > n / 2
    requires || (k.Key? && k.origin in Live(s) && Direct(k.m) in s.procs[k.origin].calls)
             || (exists p :: 0 <= p < n && k in s.procs[p].urb.delivered)
    ensures Reaches(n, es + more, t) && OnlyProtocol(more) && Live(t) == Live(s) && |t.procs| == n
    ensures forall q :: q in Live(s) ==> k in t.procs[q].urb.delivered
  {
    more, t := QuiescenceReachable(n, es, s);
    SameUniverse(s, t);
    if exists p :: 0 <= p < n && k in s.procs[p].urb.delivered {
      var p :| 0 <= p < n && k in s.procs[p].urb.delivered;
      assert CalmAt(s.procs[p], t.procs[p]);
      assert k in t.procs[p].urb.delivered;
    } else {
      assert CalmAt(s.procs[k.origin], t.procs[k.origin]);
    }
    UniformAgreement(n, es + more, t, k);
  }

  // ---------- where agreement breaks ----------

  lemma {:induction false} CrashAll(n: nat, dead: set<nat>) returns (es: seq<Step>)
    requires forall x :: x in dead ==> x < n
    ensures Reaches(n, es, Sys(Init(n).procs, {}, dead))
  {
    if dead == {} {
      es := [];
    } else {
      var x :| x in dead;
      var less := CrashAll(n, dead - {x});
      var s := Sys(Init(n).procs, {}, dead - {x});
      Extend(n, less, s, Crash(x));
      es := less + [Crash(x)];
      assert s.procs[x := s.procs[x]] == s.procs;
      assert dead - {x} + {x} == dead;
    }
  }

  lemma LiveOnes(s: Sys, n: nat, dead: set<nat>)
    requires |s.procs| == n && s.crashed == dead && forall x :: x in dead ==> x < n
    ensures |Live(s)| == n - |dead|
  {
    var all := UpTo(n);
    assert Live(s) == all - dead && dead <= all;
  }

  /** Process o has broadcast m with the bare text pending, and the crashed processes have done nothing. */
  ghost predicate OnlyLiveSpoke(s: Sys, n: nat, dead: set<nat>, o: nat, m: Stamped) {
    && Shape(s) && |s.procs| == n && s.crashed == dead && o < n && (forall x :: x in dead ==> x < n)
    && Bare(m) in s.procs[o].urb.pending && forall x :: x in dead ==> s.procs[x].calls == multiset{}
  }

  lemma FirstBroadcast(n: nat, dead: set<nat>, o: nat, m: Stamped)
    requires o < n && o !in dead && forall x :: x in dead ==> x < n
    ensures var a, e := Sys(Init(n).procs, {}, dead), Broadcast(o, m, false);
            Shape(a) && Enabled(a, e) && OnlyLiveSpoke(Next(a, e), n, dead, o, m)
  {
    var a, e := Sys(Init(n).procs, {}, dead), Broadcast(o, m, false);
    assert forall x :: 0 <= x < n ==> a.procs[x].calls == multiset{};
    assert Next(a, e).procs == a.procs[o := UrbBroadcast(a.procs[o], o, m, false)];
    assert Bare(m) in UrbBroadcast(a.procs[o], o, m, false).urb.pending;
  }

  lemma CrashAndBroadcast(n: nat, dead: set<nat>, o: nat, m: Stamped) returns (es: seq<Step>, s: Sys)
    requires o < n && o !in dead && forall x :: x in dead ==> x < n
    ensures Reaches(n, es, s) && OnlyLiveSpoke(s, n, dead, o, m)
  {
    var first := CrashAll(n, dead);
    FirstBroadcast(n, dead, o, m);
    var a, e := Sys(Init(n).procs, {}, dead), Broadcast(o, m, false);
    Extend(n, first, a, e);
    es, s := first + [e], Next(a, e);
  }

  lemma StillOnlyLive(a: Sys, b: Sys, n: nat, dead: set<nat>, o: nat, m: Stamped)
    requires OnlyLiveSpoke(a, n, dead, o, m) && Shape(b) && Calm(a, b)
    ensures OnlyLiveSpoke(b, n, dead, o, m)
  {
    assert CalmAt(a.procs[o], b.procs[o]);
  }

  lemma NoLateRelayers(s: Sys, n: nat, dead: set<nat>, o: nat, m: Stamped)
    requires Inv(s) && OnlyLiveSpoke(s, n, dead, o, m)
    ensures LateRelayers(s, o, m) == {}
  {
    forall x | x in dead ensures (x, Relay(o, m)) !in s.procs[o].got {
      assert s.procs[x].calls == multiset{};
    }
  }

  /** Process o broadcasts after `dead` crashed, and the others come to rest. */
  lemma BroadcastAndRest(n: nat, dead: set<nat>, o: nat, m: Stamped) returns (es: seq<Step>, s: Sys)
    requires o < n && o !in dead && forall x :: x in dead ==> x < n
    ensures Reaches(n, es, s) && OnlyLiveSpoke(s, n, dead, o, m) && Quiescent(s)
    ensures LateRelayers(s, o, m) == {}
  {
    var first, a := CrashAndBroadcast(n, dead, o, m);
    var more;
    more, s := QuiescenceReachable(n, first, a);
    es := first + more;
    StillOnlyLive(a, s, n, dead, o, m);
    ReachableInv(n, es, s);
    NoLateRelayers(s, n, dead, o, m);
  }

  /** Agreement breaks for every number n of processes and of crashes at the start that leave C with
      C > n / 2 >= C - 1, whoever crashes and whoever of the others broadcasts. */
  lemma BreaksForEveryNumber(n: nat, dead: set<nat>, o: nat, m: Stamped) returns (es: seq<Step>, s: Sys)
    requires o < n && o !in dead && forall x :: x in dead ==> x < n
    requires n - |dead| > n / 2 >= n - |dead| - 1
    ensures Reaches(n, es, s) && Shape(s) && |s.procs| == n && s.crashed == dead && Quiescent(s)
    ensures Key(o, m) !in s.procs[o].urb.delivered
    ensures forall q :: q in Live(s) && q != o ==> Key(o, m) in s.procs[q].urb.delivered
  {
    es, s := BroadcastAndRest(n, dead, o, m);
    LiveOnes(s, n, dead);
    AgreementBreaks(n, es, s, o, m);
  }
}
