/** A run of three processes, one of which crashes at the start: a broadcast is delivered by the other live
    process and never by its origin, although only a minority crashed. */
module ThreeProcesses {
  import opened Messages
  import opened StdList
  import opened UrbProtocol
  import opened UrbSystem
  import opened UrbTheorems

  // ---------- the states on the way ----------

  /** Process 0 with what it has queued for 1 and for 2 and the acknowledgements it owes to 1. */
  function First(out1: seq<Content>, out2: seq<Content>, owed: seq<Content>, got: set<(nat, Content)>,
                 urb: Urb<Key, nat>, calls: multiset<Content>): Process {
    Process([[], out1, out2], [[], owed, []], got, got, urb, calls, [])
  }

  /** Process 1, likewise. */
  function Second(out0: seq<Content>, out2: seq<Content>, owed: seq<Content>, got: set<(nat, Content)>,
                  urb: Urb<Key, nat>, calls: multiset<Content>, handed: seq<Key>): Process {
    Process([out0, [], out2], [owed, [], []], got, got, urb, calls, handed)
  }

  function Fresh(): Process {
    Process([[], [], []], [[], [], []], {}, {}, Urb([], map[], {}), multiset{}, [])
  }

  function World(a: Process, b: Process, net: set<Packet>): Sys {
    Sys([a, b, Fresh()], net, {2})
  }

  /** Process 0 after its broadcast, with the bare text pending. */
  function A1(m: Stamped): Process {
    First([Direct(m)], [Direct(m)], [], {}, Urb([Bare(m)], map[], {}), multiset{Direct(m)})
  }

  /** Process 0 after the relay of its message came back: it has relayed it too. */
  function A2(m: Stamped, out1: seq<Content>, owed: seq<Content>): Process {
    First(out1, [Direct(m), Relay(0, m)], owed, {(1, Relay(0, m))},
      Urb([Bare(m), Key(0, m)], map[Key(0, m) := [1]], {}), multiset{Direct(m), Relay(0, m)})
  }

  /** Process 1 after the direct copy arrived. */
  function B1(m: Stamped): Process {
    Second([Relay(0, m)], [Relay(0, m)], [Direct(m)], {(0, Direct(m))},
      Urb([Key(0, m)], map[Key(0, m) := [0]], {}), multiset{Relay(0, m)}, [])
  }

  /** Process 1 after the origin's relay arrived too: it counts the origin twice. */
  function B2(m: Stamped, out0: seq<Content>, owed: seq<Content>, delivered: set<Key>, handed: seq<Key>): Process {
    Second(out0, [Relay(0, m)], owed, {(0, Direct(m)), (0, Relay(0, m))},
      Urb([Key(0, m)], map[Key(0, m) := [0, 0]], delivered), multiset{Relay(0, m)}, handed)
  }

  // ---------- single steps ----------

  lemma FanThree(p: Process, me: nat, c: Content, x: seq<Content>, y: seq<Content>, z: seq<Content>)
    requires p.out == [x, y, z] && me < 3
    ensures me == 0 ==> Fanout(p, me, c).out == [x, y + [c], z + [c]]
    ensures me == 1 ==> Fanout(p, me, c).out == [x + [c], y, z + [c]]
  {
  }

  lemma Single(c: Content)
    ensures [] + [c] == [c]
  {
  }

  lemma Broadcasts(m: Stamped)
    ensures UrbBroadcast(Fresh(), 0, m, false) == A1(m)
  {
    var p := Fresh();
    assert p.urb.pending + [Bare(m)] == [Bare(m)];
    FanThree(p.(urb := p.urb.(pending := [Bare(m)])), 0, Direct(m), [], [], []);
    Single(Direct(m));
  }

  lemma DirectArrives(m: Stamped)
    ensures LinkDeliver(Fresh(), 1, 0, Direct(m)) == B1(m)
  {
    var p, k := Fresh(), Key(0, m);
    assert [] + [k] == [k] && [] + [0] == [0];
    FanThree(p.(got := {(0, Direct(m))}, beb := {(0, Direct(m))}, urb := Urb([k], map[k := [0]], {})), 1, Relay(0, m),
      [], [], []);
    Single(Direct(m));
    Single(Relay(0, m));
    assert p.acks[0 := [Direct(m)]] == [[Direct(m)], [], []];
  }

  lemma RelayComesBack(m: Stamped)
    ensures LinkDeliver(A1(m), 0, 1, Relay(0, m)) == A2(m, [Direct(m), Relay(0, m)], [Relay(0, m)])
  {
    var p, k, x := A1(m), Key(0, m), (1, Relay(0, m));
    assert [Bare(m)] + [k] == [Bare(m), k] && [] + [1] == [1];
    FanThree(p.(got := {x}, beb := {x}, urb := Urb([Bare(m), k], map[k := [1]], {})), 0, Relay(0, m),
      [], [Direct(m)], [Direct(m)]);
    Single(Relay(0, m));
    assert [Direct(m)] + [Relay(0, m)] == [Direct(m), Relay(0, m)];
    assert p.acks[1 := [Relay(0, m)]] == [[], [Relay(0, m)], []];
  }

  lemma OriginsRelayArrives(m: Stamped)
    ensures LinkDeliver(B1(m), 1, 0, Relay(0, m)) == B2(m, [Relay(0, m)], [Direct(m), Relay(0, m)], {}, [])
  {
    var p, k := B1(m), Key(0, m);
    assert [0] + [0] == [0, 0];
    assert [Direct(m)] + [Relay(0, m)] == [Direct(m), Relay(0, m)];
    assert p.acks[0 := [Direct(m), Relay(0, m)]] == [[Direct(m), Relay(0, m)], [], []];
  }

  // ---------- the run ----------

  /** A step of process 0 or 1 that leads where the caller says. */
  lemma Take(es: seq<Step>, a: Process, b: Process, net: set<Packet>, e: Step, c: Process)
    requires Reaches(3, es, World(a, b, net)) && Shape(World(a, b, net)) && e.p < 2 && !e.Crash?
    requires Enabled(World(a, b, net), e) && Local(World(a, b, net), e) == c
    ensures var t := Next(World(a, b, net), e);
            Reaches(3, es + [e], t) && t == World(if e.p == 0 then c else a, if e.p == 1 then c else b, t.net)
  {
    Extend(3, es, World(a, b, net), e);
    var ps := World(a, b, net).procs;
    assert ps[0 := c] == [c, b, Fresh()] && ps[1 := c] == [a, c, Fresh()];
  }

  lemma Started() returns (es: seq<Step>)
    ensures Reaches(3, es, World(Fresh(), Fresh(), {}))
  {
    var s := Init(3);
    forall p | 0 <= p < 3 ensures s.procs[p] == Fresh() {
      assert s.procs[p].out == [[], [], []] && s.procs[p].acks == [[], [], []];
    }
    assert s == Sys([Fresh(), Fresh(), Fresh()], {}, {});
    Extend(3, [], s, Crash(2));
    es := [] + [Crash(2)];
    assert s.procs[2 := s.procs[2]] == s.procs;
  }

  lemma BroadcastAndRelay(m: Stamped) returns (es: seq<Step>, net: set<Packet>)
    ensures Reaches(3, es, World(A1(m), B1(m), net))
  {
    es := Started();
    var e := Broadcast(0, m, false);
    Broadcasts(m);
    Take(es, Fresh(), Fresh(), {}, e, A1(m));
    es, net := es + [e], Next(World(Fresh(), Fresh(), {}), e).net;
    e := Send(0, 1, Direct(m));
    Take(es, A1(m), Fresh(), net, e, A1(m));
    es, net := es + [e], Next(World(A1(m), Fresh(), net), e).net;
    e := ReceiveData(1, Packet(false, 0, 1, Direct(m)));
    DirectArrives(m);
    Take(es, A1(m), Fresh(), net, e, B1(m));
    es, net := es + [e], Next(World(A1(m), Fresh(), net), e).net;
  }

  lemma RelayAndRelay(m: Stamped) returns (es: seq<Step>, net: set<Packet>)
    ensures Reaches(3, es, World(A2(m, [Direct(m), Relay(0, m)], [Relay(0, m)]),
                                 B2(m, [Relay(0, m)], [Direct(m), Relay(0, m)], {}, []), net))
  {
    es, net := BroadcastAndRelay(m);
    var a := A2(m, [Direct(m), Relay(0, m)], [Relay(0, m)]);
    var e := Send(1, 0, Relay(0, m));
    Take(es, A1(m), B1(m), net, e, B1(m));
    es, net := es + [e], Next(World(A1(m), B1(m), net), e).net;
    e := ReceiveData(0, Packet(false, 1, 0, Relay(0, m)));
    RelayComesBack(m);
    Take(es, A1(m), B1(m), net, e, a);
    es, net := es + [e], Next(World(A1(m), B1(m), net), e).net;
    e := Send(0, 1, Relay(0, m));
    Take(es, a, B1(m), net, e, a);
    es, net := es + [e], Next(World(a, B1(m), net), e).net;
    e := ReceiveData(1, Packet(false, 0, 1, Relay(0, m)));
    OriginsRelayArrives(m);
    Take(es, a, B1(m), net, e, B2(m, [Relay(0, m)], [Direct(m), Relay(0, m)], {}, []));
    es, net := es + [e], Next(World(a, B1(m), net), e).net;
  }

  lemma SecondAcknowledges(m: Stamped) returns (es: seq<Step>, net: set<Packet>)
    ensures Reaches(3, es, World(A2(m, [Direct(m), Relay(0, m)], [Relay(0, m)]), B2(m, [Relay(0, m)], [], {}, []), net))
    ensures Packet(true, 0, 1, Direct(m)) in net && Packet(true, 0, 1, Relay(0, m)) in net
  {
    es, net := RelayAndRelay(m);
    var d, r := Direct(m), Relay(0, m);
    var a, b, b1 := A2(m, [d, r], [r]), B2(m, [r], [d, r], {}, []), B2(m, [r], [], {}, []);
    var e := FlushAcks(1, 0);
    assert Unique([d, r]) == [d] + Unique([d, r][1..]) && [d, r][1..] == [r];
    assert b.acks[0 := []] == b1.acks;
    Take(es, a, b, net, e, b1);
    es, net := es + [e], Next(World(a, b, net), e).net;
  }

  lemma FirstAcknowledged(m: Stamped) returns (es: seq<Step>, net: set<Packet>)
    ensures Reaches(3, es, World(A2(m, [], [Relay(0, m)]), B2(m, [Relay(0, m)], [], {}, []), net))
  {
    es, net := SecondAcknowledges(m);
    var d, r := Direct(m), Relay(0, m);
    var a, a1, a2, b1 := A2(m, [d, r], [r]), A2(m, [r], [r]), A2(m, [], [r]), B2(m, [r], [], {}, []);
    var e := ReceiveAck(0, 1, Packet(true, 0, 1, d));
    RemoveFirst(d, r);
    assert a.out[1 := [r]] == a1.out;
    Take(es, a, b1, net, e, a1);
    es, net := es + [e], Next(World(a, b1, net), e).net;
    e := ReceiveAck(0, 1, Packet(true, 0, 1, r));
    RemoveOnly(r);
    assert a1.out[1 := []] == a2.out;
    Take(es, a1, b1, net, e, a2);
    es, net := es + [e], Next(World(a1, b1, net), e).net;
  }

  lemma RemoveOnly(c: Content)
    ensures Remove([c], c) == []
  {
    assert [c][1..] == [];
  }

  lemma RemoveFirst(c: Content, d: Content)
    requires c != d
    ensures Remove([c, d], c) == [d]
  {
    assert [c, d][1..] == [d] && [d][1..] == [];
    assert Remove([d], c) == [d] + Remove([], c);
  }

  lemma SecondDelivers(m: Stamped) returns (es: seq<Step>, net: set<Packet>)
    ensures Reaches(3, es, World(A2(m, [], []), B2(m, [], [], {Key(0, m)}, [Key(0, m)]), net))
  {
    es, net := FirstAcknowledged(m);
    var r, k := Relay(0, m), Key(0, m);
    var a, a1 := A2(m, [], [r]), A2(m, [], []);
    var b, b1, b2 := B2(m, [r], [], {}, []), B2(m, [], [], {}, []), B2(m, [], [], {k}, [k]);
    var e := FlushAcks(0, 1);
    assert a.acks[1 := []] == a1.acks;
    Take(es, a, b, net, e, a1);
    es, net := es + [e], Next(World(a, b, net), e).net;
    e := ReceiveAck(1, 0, Packet(true, 1, 0, r));
    RemoveOnly(r);
    assert b.out[0 := []] == b1.out;
    Take(es, a1, b, net, e, b1);
    es, net := es + [e], Next(World(a1, b, net), e).net;
    e := HandOver(1, k);
    assert [] + [k] == [k];
    Take(es, a1, b1, net, e, b2);
    es, net := es + [e], Next(World(a1, b1, net), e).net;
  }

  /** With one crash out of three, every message that process 0 broadcasts can end like this: nothing is left to
      send between the two live processes, the other one has delivered the message, and process 0 has not. */
  lemma MinorityCrashBreaksAgreement(m: Stamped) returns (es: seq<Step>, s: Sys)
    ensures Reaches(3, es, s) && Shape(s) && |s.procs| == 3 && s.crashed == {2} && Live(s) == {0, 1}
    ensures Quiescent(s) && Bare(m) in s.procs[0].urb.pending
    ensures Key(0, m) in s.procs[1].urb.delivered && Key(0, m) !in s.procs[0].urb.delivered
  {
    var net;
    es, net := SecondDelivers(m);
    s := World(A2(m, [], []), B2(m, [], [], {Key(0, m)}, [Key(0, m)]), net);
    assert Live(s) == {0, 1};
  }
}
