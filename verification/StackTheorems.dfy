/** What holds in every reachable state of the whole stack. */
module StackTheorems {
  import opened Messages
  import opened LcbProtocol
  import opened StdList
  import opened Stack
  import U = UrbSystem
  import Runs = UrbTheorems

  // ---------- runs ----------

  datatype Outcome = Blocked | Reached(s: State)

  /** Where the moves `vs` lead, for processes with the given dependency lists. */
  function After(deps: seq<seq<nat>>, vs: seq<Move>): Outcome {
    if vs == [] then Reached(Init(deps))
    else
      match After(deps, vs[..|vs| - 1])
      case Blocked => Blocked
      case Reached(s) =>
        if Shape(s, deps) && Enabled(s, deps, vs[|vs| - 1]) then Reached(Next(s, deps, vs[|vs| - 1])) else Blocked
  }

  ghost predicate Reaches(deps: seq<seq<nat>>, vs: seq<Move>, s: State) {
    After(deps, vs) == Reached(s)
  }

  lemma {:induction false} ReachableInv(deps: seq<seq<nat>>, vs: seq<Move>, t: State)
    requires Reaches(deps, vs, t)
    ensures Inv(t, deps)
  {
    if vs == [] {
      InitInv(deps);
    } else {
      var s := After(deps, vs[..|vs| - 1]).s;
      ReachableInv(deps, vs[..|vs| - 1], s);
      NextInv(s, deps, vs[|vs| - 1]);
    }
  }

  /** Below the causal layer every run of the stack is a run of the link and URB system. */
  lemma {:induction false} Projection(deps: seq<seq<nat>>, vs: seq<Move>, t: State) returns (es: seq<U.Step>)
    requires Reaches(deps, vs, t)
    ensures Runs.Reaches(|deps|, es, t.net)
  {
    if vs == [] {
      es := [];
    } else {
      var s := After(deps, vs[..|vs| - 1]).s;
      es := Projection(deps, vs[..|vs| - 1], s);
      var v := vs[|vs| - 1];
      if !v.Release? {
        var e := match v
          case Bcast(p, body, addId) => U.Broadcast(p, NewMessage(s, deps, p, body), addId)
          case Under(e) => e
          case Up(p, k) => U.HandOver(p, k);
        Runs.Extend(|deps|, es, s.net, e);
        es := es + [e];
      }
    }
  }

  // ---------- causal order ----------

  /** Message b = (process, number) directly depends on a: the same process broadcast a earlier, or it
      delivered a from one of its dependencies before broadcasting b. */
  ghost predicate DependsOn(s: State, deps: seq<seq<nat>>, b: (nat, nat), a: (nat, nat)) {
    && b.0 < |s.top| && b.0 < |deps| && b.0 < |s.sent| && b.1 < |s.sent[b.0]|
    && ((a.0 == b.0 && a.1 < b.1) || (a.0 in deps[b.0] && DeliveredBefore(s.top[b.0].events, a, b.1)))
  }

  ghost predicate DeliveredBefore(es: seq<Event>, a: (nat, nat), i: nat) {
    exists j :: 0 <= j < |es| && es[j] == B(i) && D(a.0, a.1) in es[..j]
  }

  /** Own deliveries are of own earlier broadcasts. */
  lemma {:induction false} OwnDeliveries(sent: seq<seq<Stamped>>, p: nat, es: seq<Event>, i: nat)
    requires p < |sent| && AllInTurn(sent, p, es) && D(p, i) in es
    ensures i < NumB(es)
  {
    var init, e := es[..|es| - 1], es[|es| - 1];
    TurnPrefix(sent, p, es);
    assert es == init + [e];
    if D(p, i) in init {
      OwnDeliveries(sent, p, init, i);
    }
  }

  /** A direct dependency is counted in the clock that the dependent message carries. */
  lemma DependencyIsStamped(s: State, deps: seq<seq<nat>>, b: (nat, nat), a: (nat, nat))
    requires Inv(s, deps) && DependsOn(s, deps, b, a)
    ensures a.0 in ClockOf(s.sent[b.0][b.1].stamp) && a.1 < ClockOf(s.sent[b.0][b.1].stamp)[a.0]
  {
    var clock := ClockOf(s.sent[b.0][b.1].stamp);
    assert IsStamped(s.sent[b.0][b.1], b.0, b.1, deps[b.0]);
    assert clock[b.0] == b.1;
    if !(a.0 == b.0 && a.1 < b.1) {
      assert TopInv(s, deps, b.0);
      var es := s.top[b.0].events;
      var j :| 0 <= j < |es| && es[j] == B(b.1) && D(a.0, a.1) in es[..j];
      assert GoodEvent(s.sent, deps, b.0, es[..j], es[j]);
      GoodPrefix(s.sent, deps, b.0, es, j);
      DeliveredUpTo(s.sent, deps, b.0, es[..j], a.0, a.1);
      if a.0 == b.0 {
        LogInTurn(s.sent, deps, b.0, es[..j]);
        OwnDeliveries(s.sent, b.0, es[..j], a.1);
      }
    }
  }

  /** Localized causal order: a process that delivers b has delivered every message b directly depends on before. */
  lemma CausalOrder(deps: seq<seq<nat>>, vs: seq<Move>, s: State, p: nat, b: (nat, nat), a: (nat, nat), j: nat)
    requires Reaches(deps, vs, s) && p < |s.top| && j < |s.top[p].events|
    requires s.top[p].events[j] == D(b.0, b.1) && DependsOn(s, deps, b, a)
    ensures D(a.0, a.1) in s.top[p].events[..j]
  {
    ReachableInv(deps, vs, s);
    DependencyIsStamped(s, deps, b, a);
    assert TopInv(s, deps, p);
    var es := s.top[p].events;
    assert GoodEvent(s.sent, deps, p, es[..j], es[j]);
    GoodPrefix(s.sent, deps, p, es, j);
    DeliveredUpTo(s.sent, deps, p, es[..j], a.0, a.1);
  }

  /** A chain of direct dependencies, from the last message back to the first. */
  ghost predicate Chain(s: State, deps: seq<seq<nat>>, ms: seq<(nat, nat)>) {
    forall i :: 0 < i < |ms| ==> DependsOn(s, deps, ms[i - 1], ms[i])
  }

  /** The same for the transitive closure: along every chain of dependencies. */
  lemma {:induction false} CausalOrderTransitive(deps: seq<seq<nat>>, vs: seq<Move>, s: State, p: nat,
                                                 ms: seq<(nat, nat)>, j: nat)
    requires Reaches(deps, vs, s) && p < |s.top| && j < |s.top[p].events|
    requires |ms| > 1 && Chain(s, deps, ms) && s.top[p].events[j] == D(ms[0].0, ms[0].1)
    ensures D(ms[|ms| - 1].0, ms[|ms| - 1].1) in s.top[p].events[..j]
    decreases |ms|
  {
    assert DependsOn(s, deps, ms[0], ms[1]);
    CausalOrder(deps, vs, s, p, ms[0], ms[1], j);
    if |ms| > 2 {
      var es := s.top[p].events;
      var i :| 0 <= i < j && es[i] == D(ms[1].0, ms[1].1);
      forall x | 0 < x < |ms[1..]| ensures DependsOn(s, deps, ms[1..][x - 1], ms[1..][x]) {
        assert DependsOn(s, deps, ms[x], ms[x + 1]);
      }
      CausalOrderTransitive(deps, vs, s, p, ms[1..], i);
      assert es[..i] <= es[..j];
    }
  }

  /** The own clock entry counts deliveries, and they are numbers 0, 1, 2, ... of the sender in order: the
      delivery at position j is number i exactly when i deliveries from that sender precede it. */
  lemma SenderOrder(deps: seq<seq<nat>>, vs: seq<Move>, s: State, p: nat)
    requires Reaches(deps, vs, s) && p < |s.top|
    ensures forall o :: At(s.top[p].inbox.vc, o) == NumD(s.top[p].events, o)
    ensures forall o: nat, i: nat :: D(o, i) in s.top[p].events <==> i < At(s.top[p].inbox.vc, o)
    ensures forall j :: 0 <= j < |s.top[p].events| && s.top[p].events[j].D? ==>
      s.top[p].events[j].i == NumD(s.top[p].events[..j], s.top[p].events[j].origin)
    ensures forall j :: 0 <= j < |s.top[p].events| && s.top[p].events[j].B? ==>
      s.top[p].events[j].i == NumB(s.top[p].events[..j])
  {
    ReachableInv(deps, vs, s);
    assert TopInv(s, deps, p);
    var es := s.top[p].events;
    forall o: nat, i: nat ensures D(o, i) in es <==> i < At(s.top[p].inbox.vc, o) {
      DeliveredUpTo(s.sent, deps, p, es, o, i);
    }
    forall j | 0 <= j < |es|
      ensures es[j].D? ==> es[j].i == NumD(es[..j], es[j].origin)
      ensures es[j].B? ==> es[j].i == NumB(es[..j])
    {
      assert GoodEvent(s.sent, deps, p, es[..j], es[j]);
    }
  }

  // ---------- no deadlock ----------

  /** The place of a message in the order of all broadcasts. */
  function Place(order: seq<(nat, nat)>, x: (nat, nat)): nat {
    if order == [] then 0
    else if order[|order| - 1] == x then |order| - 1
    else Place(order[..|order| - 1], x)
  }

  function Time(s: State): Key -> nat {
    (k: Key) => Place(s.order, (Origin(k), Number(k.m)))
  }

  lemma {:induction false} PlaceOf(sent: seq<seq<Stamped>>, order: seq<(nat, nat)>, o: nat, i: nat)
    requires forall j :: 0 <= j < |order| ==> GoodOrder(sent, order[..j], order[j])
    requires i < NumOf(order, o)
    ensures Place(order, (o, i)) < |order| && order[Place(order, (o, i))] == (o, i)
  {
    var init := order[..|order| - 1];
    assert GoodOrder(sent, init, order[|order| - 1]);
    if order[|order| - 1] != (o, i) {
      forall j | 0 <= j < |init| ensures GoodOrder(sent, init[..j], init[j]) {
        assert init[..j] == order[..j];
      }
      PlaceOf(sent, init, o, i);
    }
  }

  lemma {:induction false} PlacePrefix(sent: seq<seq<Stamped>>, order: seq<(nat, nat)>, c: nat, o: nat, i: nat)
    requires forall j :: 0 <= j < |order| ==> GoodOrder(sent, order[..j], order[j])
    requires c <= |order| && i < NumOf(order[..c], o)
    ensures i < NumOf(order, o) && Place(order, (o, i)) < c
    decreases |order|
  {
    if c == |order| {
      assert order[..c] == order;
      PlaceOf(sent, order, o, i);
    } else {
      var init := order[..|order| - 1];
      assert init[..c] == order[..c];
      forall j | 0 <= j < |init| ensures GoodOrder(sent, init[..j], init[j]) {
        assert init[..j] == order[..j];
      }
      PlacePrefix(sent, init, c, o, i);
      assert GoodOrder(sent, init, order[|order| - 1]);
    }
  }

  /** Every broadcast that a stamp counts came before the stamped broadcast. */
  lemma StampIsEarlier(s: State, deps: seq<seq<nat>>, o: nat, i: nat, z: nat, k: nat)
    requires Inv(s, deps) && o < |s.sent| && i < |s.sent[o]|
    requires z in ClockOf(s.sent[o][i].stamp) && k < ClockOf(s.sent[o][i].stamp)[z]
    ensures z < |s.sent| ==> k < |s.sent[z]|
    ensures k < NumOf(s.order, z)
    ensures Place(s.order, (z, k)) < Place(s.order, (o, i)) < |s.order|
    ensures s.order[Place(s.order, (z, k))] == (z, k) && z < |s.sent|
  {
    PlaceOf(s.sent, s.order, o, i);
    var c := Place(s.order, (o, i));
    assert GoodOrder(s.sent, s.order[..c], s.order[c]);
    PlacePrefix(s.sent, s.order, c, z, k);
    PlaceOf(s.sent, s.order, z, k);
    assert GoodOrder(s.sent, s.order[..Place(s.order, (z, k))], s.order[Place(s.order, (z, k))]);
  }

  lemma {:induction false} RangeCard(lo: nat, hi: nat) returns (r: set<nat>)
    requires lo <= hi
    ensures |r| == hi - lo && forall i: nat :: i in r <==> lo <= i < hi
  {
    if lo == hi {
      r := {};
    } else {
      var less := RangeCard(lo, hi - 1);
      r := less + {hi - 1};
    }
  }

  /** Everything that the waiting messages of p count in their clocks has reached p. */
  ghost predicate ClosedUnderStamps(s: State, p: nat)
    requires p < |s.top| && p < |s.net.procs|
  {
    forall k, z, i: nat :: k in s.top[p].inbox.pairs && z in ClockOf(k.m.stamp) && i < ClockOf(k.m.stamp)[z] ==>
      z < |s.sent| && i < |s.sent[z]| && Key(z, s.sent[z][i]) in s.net.procs[p].handed
  }

  lemma CountedIsDoneOrWaiting(s: State, deps: seq<seq<nat>>, p: nat, k: Key, z: nat, i: nat)
    requires Inv(s, deps) && p < |deps| && ClosedUnderStamps(s, p)
    requires k in s.top[p].inbox.pairs && z in ClockOf(k.m.stamp)
    requires At(s.top[p].inbox.vc, z) <= i < ClockOf(k.m.stamp)[z]
    ensures z < |s.sent| && i < |s.sent[z]|
    ensures Number(s.sent[z][i]) == i
    ensures Key(z, s.sent[z][i]) in Earlier(s.top[p].inbox, z, Time(s)(k), Time(s), Origin)
  {
    assert TopInv(s, deps, p);
    assert Known(s.sent, k);
    StampIsEarlier(s, deps, k.origin, Number(k.m), z, i);
    assert IsStamped(s.sent[z][i], z, i, deps[z]);
    DeliveredUpTo(s.sent, deps, p, s.top[p].events, z, i);
    assert Key(z, s.sent[z][i]) in s.net.procs[p].handed;
  }

  /** The messages counted but not delivered, as keys. */
  function MessageOf(s: State, r: nat): nat -> Key {
    (i: nat) => Key(r, if r < |s.sent| && i < |s.sent[r]| then s.sent[r][i] else Stamped("", [(r, i)]))
  }

  lemma MissingAreWaiting(s: State, deps: seq<seq<nat>>, p: nat, k: Key, r: nat)
    requires Inv(s, deps) && p < |deps| && ClosedUnderStamps(s, p)
    requires k in s.top[p].inbox.pairs && r in ClockOf(k.m.stamp)
    requires At(s.top[p].inbox.vc, r) < ClockOf(k.m.stamp)[r]
    ensures ClockOf(k.m.stamp)[r] - At(s.top[p].inbox.vc, r)
         <= |Earlier(s.top[p].inbox, r, Time(s)(k), Time(s), Origin)|
  {
    var f := MessageOf(s, r);
    var missing := RangeCard(At(s.top[p].inbox.vc, r), ClockOf(k.m.stamp)[r]);
    var earlier := Earlier(s.top[p].inbox, r, Time(s)(k), Time(s), Origin);
    forall i | i in missing ensures Number(f(i).m) == i && f(i) in earlier {
      CountedIsDoneOrWaiting(s, deps, p, k, r, i);
    }
    Runs.InjectionCard(missing, earlier, f);
  }

  lemma StampsComplete(s: State, deps: seq<seq<nat>>, p: nat)
    requires Inv(s, deps) && p < |deps| && ClosedUnderStamps(s, p)
    ensures Complete(s.top[p].inbox, Time(s), Origin)
  {
    var b := s.top[p].inbox;
    forall k, r | k in b.pairs && r in b.pairs[k]
      ensures b.pairs[k][r] <= At(b.vc, r) + |Earlier(b, r, Time(s)(k), Time(s), Origin)|
    {
      assert b.pairs[k] == ClockOf(k.m.stamp) by { assert TopInv(s, deps, p); }
      if b.pairs[k][r] > At(b.vc, r) {
        MissingAreWaiting(s, deps, p, k, r);
      }
    }
  }

  /** No causal deadlock: if everything counted by the messages waiting at p has reached p, then as many scans
      as there are messages waiting release them all, in whatever order each scan visits them. */
  lemma NoCausalDeadlock(deps: seq<seq<nat>>, vs: seq<Move>, s: State, p: nat, orders: seq<seq<Key>>)
    requires Reaches(deps, vs, s) && p < |s.top| && p < |s.net.procs| && ClosedUnderStamps(s, p)
    requires |orders| >= |s.top[p].inbox.pairs|
    requires forall i :: 0 <= i < |orders| ==> Covers(orders[i], s.top[p].inbox)
    ensures Scans(s.top[p].inbox, orders, Origin).pairs == map[]
  {
    ReachableInv(deps, vs, s);
    StampsComplete(s, deps, p);
    DrainsCompletely(s.top[p].inbox, orders, Time(s), Origin);
  }

  lemma OneRelease(deps: seq<seq<nat>>, vs: seq<Move>, s: State, p: nat, k: Key) returns (t: State)
    requires Reaches(deps, vs, s) && p < |s.top| && p !in s.net.crashed && Deliverable(s.top[p].inbox, k)
    ensures Reaches(deps, vs + [Release(p, k)], t)
    ensures |t.top| == |s.top| && t.net == s.net && t.sent == s.sent
    ensures t.top[p].inbox == Deliver(s.top[p].inbox, k, Origin)
  {
    ReachableInv(deps, vs, s);
    t := Next(s, deps, Release(p, k));
    assert (vs + [Release(p, k)])[..|vs + [Release(p, k)]| - 1] == vs;
  }

  function Releases(p: nat, ks: seq<Key>): seq<Move> {
    Each((k: Key) => Release(p, k), ks)
  }

  /** A scan of a live process is a sequence of moves of the stack. */
  lemma {:induction false} ScanIsAMove(deps: seq<seq<nat>>, vs: seq<Move>, s: State, p: nat, ks: seq<Key>)
      returns (t: State)
    requires Reaches(deps, vs, s) && p < |s.top| && p !in s.net.crashed && Allowed(s.top[p].inbox, ks, Origin)
    ensures Reaches(deps, vs + Releases(p, ks), t) && |t.top| == |s.top| && t.net == s.net && t.sent == s.sent
    ensures t.top[p].inbox == DeliverAll(s.top[p].inbox, ks, Origin)
    decreases |ks|
  {
    if ks == [] {
      t := s;
      assert vs + Releases(p, ks) == vs;
    } else {
      var u := OneRelease(deps, vs, s, p, ks[0]);
      t := ScanIsAMove(deps, vs + [Release(p, ks[0])], u, p, ks[1..]);
      assert vs + Releases(p, ks) == vs + [Release(p, ks[0])] + Releases(p, ks[1..]);
    }
  }

  // ---------- agreement of the causal layer ----------

  /** The messages of live processes, and those that any process, live or crashed, has delivered. */
  ghost predicate Due(s: State, o: nat, i: nat) {
    && o < |s.sent| && i < |s.sent[o]|
    && (o !in s.net.crashed || exists p :: 0 <= p < |s.top| && D(o, i) in s.top[p].events)
  }

  lemma DueIsClosed(s: State, deps: seq<seq<nat>>, o: nat, i: nat, z: nat, k: nat)
    requires Inv(s, deps) && Due(s, o, i) && z in ClockOf(s.sent[o][i].stamp) && k < ClockOf(s.sent[o][i].stamp)[z]
    ensures Due(s, z, k)
  {
    StampIsEarlier(s, deps, o, i, z, k);
    if o !in s.net.crashed {
      assert IsStamped(s.sent[o][i], o, i, deps[o]);
      if z != o {
        BroadcastCounts(s, deps, o, i, z, k);
      }
    } else {
      var p :| 0 <= p < |s.top| && D(o, i) in s.top[p].events;
      DeliveryCounts(s, deps, p, o, i, z, k);
    }
  }

  /** What a stamp counts was delivered by the process that wrote it... */
  lemma BroadcastCounts(s: State, deps: seq<seq<nat>>, o: nat, i: nat, z: nat, k: nat)
    requires Inv(s, deps) && o < |s.sent| && i < |s.sent[o]| && z != o
    requires z in ClockOf(s.sent[o][i].stamp) && k < ClockOf(s.sent[o][i].stamp)[z]
    ensures D(z, k) in s.top[o].events
  {
    assert TopInv(s, deps, o);
    assert IsStamped(s.sent[o][i], o, i, deps[o]);
    var es := s.top[o].events;
    BroadcastUpTo(s.sent, deps, o, es, i);
    var j :| 0 <= j < |es| && es[j] == B(i);
    assert GoodEvent(s.sent, deps, o, es[..j], es[j]);
    GoodPrefix(s.sent, deps, o, es, j);
    DeliveredUpTo(s.sent, deps, o, es[..j], z, k);
  }

  /** ... and by every process that delivered the stamped message. */
  lemma DeliveryCounts(s: State, deps: seq<seq<nat>>, p: nat, o: nat, i: nat, z: nat, k: nat)
    requires Inv(s, deps) && p < |deps| && D(o, i) in s.top[p].events && o < |s.sent| && i < |s.sent[o]|
    requires z in ClockOf(s.sent[o][i].stamp) && k < ClockOf(s.sent[o][i].stamp)[z]
    ensures D(z, k) in s.top[p].events
  {
    assert TopInv(s, deps, p);
    var es := s.top[p].events;
    var j :| 0 <= j < |es| && es[j] == D(o, i);
    assert GoodEvent(s.sent, deps, p, es[..j], es[j]);
    GoodPrefix(s.sent, deps, p, es, j);
    DeliveredUpTo(s.sent, deps, p, es[..j], z, k);
  }

  /** URB has handed every due message to every live process, once the links are quiet. */
  lemma DueIsHanded(deps: seq<seq<nat>>, vs: seq<Move>, s: State, q: nat, o: nat, i: nat)
    requires Reaches(deps, vs, s) && Inv(s, deps) && Runs.Quiescent(s.net)
    requires |Runs.Live(s.net)| - 1 > |deps| / 2 && q in Runs.Live(s.net) && Due(s, o, i)
    ensures Key(o, s.sent[o][i]) in s.net.procs[q].handed
  {
    var es := Projection(deps, vs, s);
    var k := Key(o, s.sent[o][i]);
    assert Direct(k.m) in s.net.procs[o].calls by { assert s.sent[o][i] in s.sent[o]; }
    if o in s.net.crashed {
      var p :| 0 <= p < |s.top| && D(o, i) in s.top[p].events;
      assert TopInv(s, deps, p);
      assert U.Own(s.net.procs[p], p, |deps|);
      assert k in s.net.procs[p].urb.delivered;
    }
    Runs.UniformAgreement(|deps|, es, s.net, k);
    assert U.Own(s.net.procs[q], q, |deps|);
  }

  lemma CountsReached(s: State, deps: seq<seq<nat>>, q: nat, clock: Clock)
    requires Inv(s, deps) && q < |deps|
    requires forall z, k: nat :: z in clock && k < clock[z] ==> D(z, k) in s.top[q].events
    ensures Inferior(clock, s.top[q].inbox.vc)
  {
    assert TopInv(s, deps, q);
    forall z | z in clock ensures clock[z] <= At(s.top[q].inbox.vc, z) {
      if clock[z] > 0 {
        DeliveredUpTo(s.sent, deps, q, s.top[q].events, z, clock[z] - 1);
      }
    }
  }

  lemma HandedIsDelivered(sent: seq<seq<Stamped>>, handed: seq<Key>, t: Top, k: Key)
    requires InboxInv(sent, handed, t) && Stuck(t.inbox) && k in handed && Inferior(ClockOf(k.m.stamp), t.inbox.vc)
    ensures D(Origin(k), Number(k.m)) in t.events
  {
    assert Known(sent, k);
    assert !Deliverable(t.inbox, k);
  }

  lemma NumberIs(s: State, deps: seq<seq<nat>>, o: nat, i: nat)
    requires Inv(s, deps) && o < |s.sent| && i < |s.sent[o]|
    ensures Number(s.sent[o][i]) == i
  {
    assert IsStamped(s.sent[o][i], o, i, deps[o]);
  }

  /** A message all of whose counted messages q has delivered is not left waiting at q. */
  lemma NotLeftWaiting(s: State, deps: seq<seq<nat>>, q: nat, o: nat, i: nat)
    requires Inv(s, deps) && q < |deps| && Stuck(s.top[q].inbox) && o < |s.sent| && i < |s.sent[o]|
    requires Key(o, s.sent[o][i]) in s.net.procs[q].handed
    requires forall z, k: nat :: z in ClockOf(s.sent[o][i].stamp) && k < ClockOf(s.sent[o][i].stamp)[z] ==>
      D(z, k) in s.top[q].events
    ensures D(o, i) in s.top[q].events
  {
    CountsReached(s, deps, q, ClockOf(s.sent[o][i].stamp));
    NumberIs(s, deps, o, i);
    HandedIsDelivered(s.sent, s.net.procs[q].handed, s.top[q], Key(o, s.sent[o][i])) by {
      assert TopInv(s, deps, q);
    }
  }

  lemma {:induction false} DueDelivered(deps: seq<seq<nat>>, vs: seq<Move>, s: State, q: nat, o: nat, i: nat)
    requires Reaches(deps, vs, s) && Inv(s, deps) && Runs.Quiescent(s.net)
    requires |Runs.Live(s.net)| - 1 > |deps| / 2 && q in Runs.Live(s.net) && Stuck(s.top[q].inbox)
    requires Due(s, o, i)
    ensures D(o, i) in s.top[q].events
    decreases Place(s.order, (o, i))
  {
    var clock := ClockOf(s.sent[o][i].stamp);
    forall z, k: nat | z in clock && k < clock[z] ensures D(z, k) in s.top[q].events {
      StampIsEarlier(s, deps, o, i, z, k);
      DueIsClosed(s, deps, o, i, z, k);
      DueDelivered(deps, vs, s, q, z, k);
    }
    DueIsHanded(deps, vs, s, q, o, i);
    NotLeftWaiting(s, deps, q, o, i);
  }

  /** Uniform agreement of the causal layer: with C live processes and C - 1 > n / 2, once the links are quiet
      and every live process has scanned until nothing more could be released, each live process has delivered
      every message that a live process broadcast or that any process, crashed since or not, delivered. */
  lemma CausalAgreement(deps: seq<seq<nat>>, vs: seq<Move>, s: State)
    requires Reaches(deps, vs, s) && Shape(s, deps) && Runs.Quiescent(s.net)
    requires |Runs.Live(s.net)| - 1 > |deps| / 2
    requires forall q :: q in Runs.Live(s.net) ==> Stuck(s.top[q].inbox)
    ensures forall q, o, i :: q in Runs.Live(s.net) && Due(s, o, i) ==> D(o, i) in s.top[q].events
  {
    ReachableInv(deps, vs, s);
    forall q, o, i | q in Runs.Live(s.net) && Due(s, o, i) ensures D(o, i) in s.top[q].events {
      DueDelivered(deps, vs, s, q, o, i);
    }
  }
}
