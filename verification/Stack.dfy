/** The whole stack: localized causal broadcast at every process, on top of the link and URB system. */
module Stack {
  import opened Messages
  import opened LcbProtocol
  import Urb = UrbProtocol
  import U = UrbSystem

  /** An event of a process's log: its own i-th broadcast, or the delivery of the origin's i-th. */
  datatype Event = B(i: nat) | D(origin: nat, i: nat)

  /** The causal layer of one process; `events` is history. */
  datatype Top = Top(lsn: nat, inbox: Inbox<Key>, events: seq<Event>)

  /** `sent` lists each process's broadcasts and `order` all of them, as (process, number), in the order in
      which they happened; both are history. */
  datatype State = State(net: U.Sys, top: seq<Top>, sent: seq<seq<Stamped>>, order: seq<(nat, nat)>)

  datatype Move =
    | Bcast(p: nat, body: string, addId: bool)
    | Under(e: U.Step)
    | Up(p: nat, k: Key)
    | Release(p: nat, k: Key)

  // ---------- moves ----------

  function Stamp(t: Top, me: nat, deps: seq<nat>): seq<(nat, nat)> {
    Entries(t.inbox.vc, deps) + [(me, t.lsn)]
  }

  /** The number of a message: the entry that its origin wrote last. */
  function Number(m: Stamped): nat {
    if m.stamp == [] then 0 else m.stamp[|m.stamp| - 1].1
  }

  function Origin(k: Key): nat {
    match k
    case Key(o, _) => o
    case Bare(_) => 0
  }

  /** `deliver`: file the message with its clock, unless it is waiting already. */
  function File(t: Top, k: Key): Top {
    if k in t.inbox.pairs && t.inbox.pairs[k] != map[] then t
    else t.(inbox := t.inbox.(pairs := t.inbox.pairs[k := ClockOf(k.m.stamp)]))
  }

  function ReleaseOne(t: Top, k: Key): Top {
    t.(inbox := Deliver(t.inbox, k, Origin), events := t.events + [D(Origin(k), Number(k.m))])
  }

  function NewMessage(s: State, deps: seq<seq<nat>>, p: nat, body: string): Stamped
    requires p < |s.top| && p < |deps|
  {
    Stamped(body, Stamp(s.top[p], p, deps[p]))
  }

  predicate Shape(s: State, deps: seq<seq<nat>>) {
    U.Shape(s.net) && |s.net.procs| == |s.top| == |s.sent| == |deps|
  }

  function Init(deps: seq<seq<nat>>): State {
    var n := |deps|;
    State(U.Init(n), seq(n, i => Top(0, Inbox(map[], map[]), [])), seq(n, i => []), [])
  }

  predicate Enabled(s: State, deps: seq<seq<nat>>, v: Move)
    requires Shape(s, deps)
  {
    match v
    case Bcast(p, body, addId) =>
      p < |s.top| && U.Enabled(s.net, U.Broadcast(p, NewMessage(s, deps, p, body), addId))
    case Under(e) => !e.Broadcast? && !e.HandOver? && U.Enabled(s.net, e)
    case Up(p, k) => p < |s.top| && U.Enabled(s.net, U.HandOver(p, k))
    case Release(p, k) => p < |s.top| && p !in s.net.crashed && Deliverable(s.top[p].inbox, k)
  }

  function Next(s: State, deps: seq<seq<nat>>, v: Move): State
    requires Shape(s, deps) && Enabled(s, deps, v)
  {
    match v
    case Bcast(p, body, addId) =>
      var m := NewMessage(s, deps, p, body);
      var t := s.top[p];
      State(U.Next(s.net, U.Broadcast(p, m, addId)),
            s.top[p := t.(lsn := t.lsn + 1, events := t.events + [B(t.lsn)])],
            s.sent[p := s.sent[p] + [m]],
            s.order + [(p, t.lsn)])
    case Under(e) => s.(net := U.Next(s.net, e))
    case Up(p, k) => s.(net := U.Next(s.net, U.HandOver(p, k)), top := s.top[p := File(s.top[p], k)])
    case Release(p, k) => s.(top := s.top[p := ReleaseOne(s.top[p], k)])
  }

  // ---------- counting events ----------

  function NumB(es: seq<Event>): nat {
    if es == [] then 0 else NumB(es[..|es| - 1]) + if es[|es| - 1].B? then 1 else 0
  }

  function NumD(es: seq<Event>, o: nat): nat {
    if es == [] then 0
    else NumD(es[..|es| - 1], o) + if es[|es| - 1].D? && es[|es| - 1].origin == o then 1 else 0
  }

  function NumOf(order: seq<(nat, nat)>, p: nat): nat {
    if order == [] then 0 else NumOf(order[..|order| - 1], p) + if order[|order| - 1].0 == p then 1 else 0
  }

  // ---------- the invariant ----------

  /** m is the i-th message of p: its own entry comes last, and its clock speaks of p and its dependencies. */
  ghost predicate IsStamped(m: Stamped, p: nat, i: nat, deps: seq<nat>) {
    && m.stamp != [] && m.stamp[|m.stamp| - 1] == (p, i)
    && forall z :: z in ClockOf(m.stamp) <==> z == p || z in deps
  }

  ghost predicate SentInv(s: State, deps: seq<seq<nat>>)
    requires Shape(s, deps)
  {
    forall p :: 0 <= p < |deps| ==> SentAt(s.sent[p], s.top[p].lsn, s.net.procs[p].calls, p, deps[p])
  }

  ghost predicate SentAt(sent: seq<Stamped>, lsn: nat, calls: multiset<Content>, p: nat, deps: seq<nat>) {
    && |sent| == lsn
    && (forall i :: 0 <= i < |sent| ==> IsStamped(sent[i], p, i, deps))
    && forall m :: Direct(m) in calls <==> m in sent
  }

  /** Broadcasts, and the deliveries of each origin, are numbered 0, 1, 2, ... */
  ghost predicate TurnOf(before: seq<Event>, e: Event) {
    match e
    case B(i) => i == NumB(before)
    case D(o, i) => i == NumD(before, o)
  }

  /** An event is numbered in turn and about a message that was sent; own deliveries are of earlier broadcasts. */
  ghost predicate InTurn(sent: seq<seq<Stamped>>, p: nat, before: seq<Event>, e: Event)
    requires p < |sent|
  {
    && TurnOf(before, e)
    && match e
       case B(i) => i < |sent[p]|
       case D(o, i) => o < |sent| && i < |sent[o]| && (o == p ==> i < NumB(before))
  }

  /** A broadcast is stamped with the deliveries before it, and a delivery has all its stamp counts before it. */
  ghost predicate Covered(sent: seq<seq<Stamped>>, deps: seq<seq<nat>>, p: nat, before: seq<Event>, e: Event)
    requires p < |deps| && |sent| == |deps| && InTurn(sent, p, before, e)
  {
    match e
    case B(i) =>
      forall d :: d in deps[p] && d != p && d in ClockOf(sent[p][i].stamp) ==>
        ClockOf(sent[p][i].stamp)[d] == NumD(before, d)
    case D(o, i) =>
      forall z :: z in ClockOf(sent[o][i].stamp) ==> ClockOf(sent[o][i].stamp)[z] <= NumD(before, z)
  }

  ghost predicate GoodEvent(sent: seq<seq<Stamped>>, deps: seq<seq<nat>>, p: nat, before: seq<Event>, e: Event)
    requires p < |deps| && |sent| == |deps|
  {
    InTurn(sent, p, before, e) && Covered(sent, deps, p, before, e)
  }

  ghost predicate GoodLog(sent: seq<seq<Stamped>>, deps: seq<seq<nat>>, p: nat, es: seq<Event>)
    requires p < |deps| && |sent| == |deps|
  {
    forall j :: 0 <= j < |es| ==> GoodEvent(sent, deps, p, es[..j], es[j])
  }

  ghost predicate LogInv(sent: seq<seq<Stamped>>, deps: seq<seq<nat>>, p: nat, t: Top)
    requires p < |deps| && |sent| == |deps|
  {
    && GoodLog(sent, deps, p, t.events)
    && NumB(t.events) == t.lsn
    && forall r :: At(t.inbox.vc, r) == NumD(t.events, r)
  }

  /** k is the message of its origin with its number. */
  ghost predicate Known(sent: seq<seq<Stamped>>, k: Key) {
    k.Key? && k.origin < |sent| && Number(k.m) < |sent[k.origin]| && k.m == sent[k.origin][Number(k.m)]
  }

  /** What URB handed over is waiting or delivered, never both. */
  ghost predicate InboxInv(sent: seq<seq<Stamped>>, handed: seq<Key>, t: Top) {
    && (forall k :: k in t.inbox.pairs ==>
         k in handed && D(Origin(k), Number(k.m)) !in t.events && t.inbox.pairs[k] == ClockOf(k.m.stamp))
    && (forall k :: k in handed ==> Known(sent, k) && (k in t.inbox.pairs || D(k.origin, Number(k.m)) in t.events))
    && (forall o: nat, i: nat :: D(o, i) in t.events ==> o < |sent| && i < |sent[o]| && Key(o, sent[o][i]) in handed)
  }

  /** Broadcasts are numbered in order, and a stamp only counts broadcasts that came before. */
  ghost predicate GoodOrder(sent: seq<seq<Stamped>>, before: seq<(nat, nat)>, x: (nat, nat)) {
    && x.0 < |sent| && x.1 < |sent[x.0]| && x.1 == NumOf(before, x.0)
    && forall z :: z in ClockOf(sent[x.0][x.1].stamp) ==> ClockOf(sent[x.0][x.1].stamp)[z] <= NumOf(before, z)
  }

  ghost predicate OrderInv(order: seq<(nat, nat)>, sent: seq<seq<Stamped>>) {
    && (forall j :: 0 <= j < |order| ==> GoodOrder(sent, order[..j], order[j]))
    && (forall p :: 0 <= p < |sent| ==> NumOf(order, p) == |sent[p]|)
  }

  ghost predicate TopInv(s: State, deps: seq<seq<nat>>, p: nat)
    requires Shape(s, deps) && p < |deps|
  {
    LogInv(s.sent, deps, p, s.top[p]) && InboxInv(s.sent, s.net.procs[p].handed, s.top[p])
  }

  ghost predicate Inv(s: State, deps: seq<seq<nat>>) {
    && Shape(s, deps) && U.Inv(s.net) && SentInv(s, deps) && OrderInv(s.order, s.sent)
    && forall p :: 0 <= p < |deps| ==> TopInv(s, deps, p)
  }

  lemma InitInv(deps: seq<seq<nat>>)
    ensures Inv(Init(deps), deps)
  {
    U.InitInv(|deps|);
  }

  // ---------- lemmas about logs ----------

  lemma GoodPrefix(sent: seq<seq<Stamped>>, deps: seq<seq<nat>>, p: nat, es: seq<Event>, j: nat)
    requires p < |deps| && |sent| == |deps| && j <= |es| && GoodLog(sent, deps, p, es)
    ensures GoodLog(sent, deps, p, es[..j]) && (j < |es| ==> GoodEvent(sent, deps, p, es[..j], es[j]))
  {
    forall i | 0 <= i < j ensures GoodEvent(sent, deps, p, es[..j][..i], es[..j][i]) {
      assert es[..j][..i] == es[..i];
    }
  }

  ghost predicate AllInTurn(sent: seq<seq<Stamped>>, p: nat, es: seq<Event>)
    requires p < |sent|
  {
    forall j :: 0 <= j < |es| ==> InTurn(sent, p, es[..j], es[j])
  }

  lemma TurnPrefix(sent: seq<seq<Stamped>>, p: nat, es: seq<Event>)
    requires p < |sent| && AllInTurn(sent, p, es) && es != []
    ensures AllInTurn(sent, p, es[..|es| - 1]) && InTurn(sent, p, es[..|es| - 1], es[|es| - 1])
  {
    var init := es[..|es| - 1];
    forall i | 0 <= i < |init| ensures InTurn(sent, p, init[..i], init[i]) {
      assert init[..i] == es[..i];
    }
  }

  lemma LastEvent(es: seq<Event>, x: Event)
    requires es != []
    ensures x in es <==> x in es[..|es| - 1] || es[|es| - 1] == x
  {
    assert es == es[..|es| - 1] + [es[|es| - 1]];
  }

  lemma {:induction false} CountD(sent: seq<seq<Stamped>>, p: nat, es: seq<Event>, o: nat, i: nat)
    requires p < |sent| && AllInTurn(sent, p, es)
    ensures D(o, i) in es <==> i < NumD(es, o)
    ensures NumD(es, o) > 0 ==> o < |sent| && NumD(es, o) <= |sent[o]|
  {
    if es != [] {
      var init, e := es[..|es| - 1], es[|es| - 1];
      TurnPrefix(sent, p, es);
      CountD(sent, p, init, o, i);
      assert NumD(es, o) == NumD(init, o) + if e.D? && e.origin == o then 1 else 0;
      LastEvent(es, D(o, i));
    }
  }

  lemma {:induction false} CountB(sent: seq<seq<Stamped>>, p: nat, es: seq<Event>, i: nat)
    requires p < |sent| && AllInTurn(sent, p, es)
    ensures B(i) in es <==> i < NumB(es)
  {
    if es != [] {
      var init, e := es[..|es| - 1], es[|es| - 1];
      TurnPrefix(sent, p, es);
      CountB(sent, p, init, i);
      LastEvent(es, B(i));
    }
  }

  lemma LogInTurn(sent: seq<seq<Stamped>>, deps: seq<seq<nat>>, p: nat, es: seq<Event>)
    requires p < |deps| && |sent| == |deps| && GoodLog(sent, deps, p, es)
    ensures AllInTurn(sent, p, es)
  {
    forall j | 0 <= j < |es| ensures InTurn(sent, p, es[..j], es[j]) {
      assert GoodEvent(sent, deps, p, es[..j], es[j]);
    }
  }

  /** The i-th delivery from o is that of its i-th message, so all earlier ones are in the log. */
  lemma DeliveredUpTo(sent: seq<seq<Stamped>>, deps: seq<seq<nat>>, p: nat, es: seq<Event>, o: nat, i: nat)
    requires p < |deps| && |sent| == |deps| && GoodLog(sent, deps, p, es)
    ensures D(o, i) in es <==> i < NumD(es, o)
    ensures NumD(es, o) > 0 ==> o < |sent| && NumD(es, o) <= |sent[o]|
  {
    LogInTurn(sent, deps, p, es);
    CountD(sent, p, es, o, i);
  }

  lemma BroadcastUpTo(sent: seq<seq<Stamped>>, deps: seq<seq<nat>>, p: nat, es: seq<Event>, i: nat)
    requires p < |deps| && |sent| == |deps| && GoodLog(sent, deps, p, es)
    ensures B(i) in es <==> i < NumB(es)
  {
    LogInTurn(sent, deps, p, es);
    CountB(sent, p, es, i);
  }

  lemma {:induction false} EntriesClock(vc: Clock, deps: seq<nat>)
    ensures forall z :: z in ClockOf(Entries(vc, deps)) <==> z in deps
    ensures forall z :: z in deps ==> ClockOf(Entries(vc, deps))[z] == At(vc, z)
  {
    if deps != [] {
      EntriesClock(vc, deps[..|deps| - 1]);
      var es := Entries(vc, deps);
      assert es[..|es| - 1] == Entries(vc, deps[..|deps| - 1]);
      assert deps == deps[..|deps| - 1] + [deps[|deps| - 1]];
    }
  }

  lemma StampClock(t: Top, me: nat, deps: seq<nat>)
    ensures forall z :: z in ClockOf(Stamp(t, me, deps)) <==> z == me || z in deps
    ensures forall z :: z in ClockOf(Stamp(t, me, deps)) ==>
      ClockOf(Stamp(t, me, deps))[z] == if z == me then t.lsn else At(t.inbox.vc, z)
  {
    EntriesClock(t.inbox.vc, deps);
    var st := Stamp(t, me, deps);
    assert st[..|st| - 1] == Entries(t.inbox.vc, deps);
  }

  // ---------- preservation ----------

  ghost predicate Extends(a: seq<seq<Stamped>>, b: seq<seq<Stamped>>) {
    |a| == |b| && forall o :: 0 <= o < |a| ==> a[o] <= b[o]
  }

  lemma LogGrows(a: seq<seq<Stamped>>, b: seq<seq<Stamped>>, deps: seq<seq<nat>>, p: nat, t: Top)
    requires p < |deps| && |a| == |deps| && Extends(a, b) && LogInv(a, deps, p, t)
    ensures LogInv(b, deps, p, t)
  {
    forall j | 0 <= j < |t.events| ensures GoodEvent(b, deps, p, t.events[..j], t.events[j]) {
      assert GoodEvent(a, deps, p, t.events[..j], t.events[j]);
    }
  }

  lemma InboxGrows(a: seq<seq<Stamped>>, b: seq<seq<Stamped>>, handed: seq<Key>, t: Top)
    requires Extends(a, b) && InboxInv(a, handed, t)
    ensures InboxInv(b, handed, t)
  {
    forall k | k in handed ensures Known(b, k) {
      assert Known(a, k);
    }
  }

  lemma {:induction false} LogAppend(sent: seq<seq<Stamped>>, deps: seq<seq<nat>>, p: nat, es: seq<Event>, e: Event)
    requires p < |deps| && |sent| == |deps| && GoodEvent(sent, deps, p, es, e)
    requires GoodLog(sent, deps, p, es)
    ensures GoodLog(sent, deps, p, es + [e])
    ensures NumB(es + [e]) == NumB(es) + (if e.B? then 1 else 0)
    ensures forall o :: NumD(es + [e], o) == NumD(es, o) + if e.D? && e.origin == o then 1 else 0
  {
    var es' := es + [e];
    assert es'[..|es' | - 1] == es;
    forall j | 0 <= j < |es'| ensures GoodEvent(sent, deps, p, es'[..j], es'[j]) {
      assert es'[..j] == if j < |es| then es[..j] else es;
    }
  }

  lemma NewNotSent(s: State, deps: seq<seq<nat>>, p: nat, body: string)
    requires Inv(s, deps) && p < |deps|
    ensures NewMessage(s, deps, p, body) !in s.sent[p]
  {
    var m := NewMessage(s, deps, p, body);
    assert m.stamp[|m.stamp| - 1] == (p, s.top[p].lsn);
    forall i | 0 <= i < |s.sent[p]| ensures s.sent[p][i] != m {
      assert IsStamped(s.sent[p][i], p, i, deps[p]);
    }
  }

  /** A process can broadcast at any time until it crashes: its stamped message is always a new one. */
  lemma BroadcastNeverBlocked(s: State, deps: seq<seq<nat>>, p: nat, body: string, addId: bool)
    requires Inv(s, deps) && p < |deps| && p !in s.net.crashed
    ensures Enabled(s, deps, Bcast(p, body, addId))
  {
    NewNotSent(s, deps, p, body);
  }

  /** The deliveries a process counts for another never exceed what that one broadcast. */
  lemma ClockBound(s: State, deps: seq<seq<nat>>, p: nat, d: nat)
    requires Inv(s, deps) && p < |deps|
    ensures At(s.top[p].inbox.vc, d) <= NumOf(s.order, d)
  {
    assert TopInv(s, deps, p);
    DeliveredUpTo(s.sent, deps, p, s.top[p].events, d, 0);
  }

  lemma NewInOrder(s: State, deps: seq<seq<nat>>, p: nat, body: string, sent: seq<seq<Stamped>>)
    requires Inv(s, deps) && p < |deps|
    requires sent == s.sent[p := s.sent[p] + [NewMessage(s, deps, p, body)]]
    ensures GoodOrder(sent, s.order, (p, s.top[p].lsn))
  {
    StampClock(s.top[p], p, deps[p]);
    forall d ensures At(s.top[p].inbox.vc, d) <= NumOf(s.order, d) {
      ClockBound(s, deps, p, d);
    }
  }

  lemma OrderAppend(a: seq<seq<Stamped>>, b: seq<seq<Stamped>>, order: seq<(nat, nat)>, x: (nat, nat))
    requires Extends(a, b) && GoodOrder(b, order, x)
    requires forall j :: 0 <= j < |order| ==> GoodOrder(a, order[..j], order[j])
    ensures var o := order + [x]; forall j :: 0 <= j < |o| ==> GoodOrder(b, o[..j], o[j])
    ensures forall p :: NumOf(order + [x], p) == NumOf(order, p) + if x.0 == p then 1 else 0
  {
    var o := order + [x];
    assert o[..|o| - 1] == order;
    forall j | 0 <= j < |o| ensures GoodOrder(b, o[..j], o[j]) {
      assert o[..j] == if j < |order| then order[..j] else order;
      if j < |order| { assert GoodOrder(a, order[..j], order[j]); }
    }
  }

  lemma BcastFrame(n: U.Sys, p: nat, m: Stamped, addId: bool, q: nat)
    requires U.Shape(n) && U.Enabled(n, U.Broadcast(p, m, addId)) && q < |n.procs|
    ensures var a, b := n.procs[q], U.Next(n, U.Broadcast(p, m, addId)).procs[q];
            b.handed == a.handed && b.calls == a.calls + if q == p then multiset{Direct(m)} else multiset{}
  {
  }

  lemma OneMoreSent(sent: seq<Stamped>, t: Top, calls: multiset<Content>, p: nat, deps: seq<nat>, m: Stamped)
    requires SentAt(sent, t.lsn, calls, p, deps) && m.stamp == Stamp(t, p, deps)
    ensures SentAt(sent + [m], t.lsn + 1, calls + multiset{Direct(m)}, p, deps)
  {
    StampClock(t, p, deps);
    assert IsStamped(m, p, t.lsn, deps);
  }

  lemma BcastSent(s: State, deps: seq<seq<nat>>, p: nat, body: string, addId: bool, t: State)
    requires Shape(s, deps) && SentInv(s, deps) && Enabled(s, deps, Bcast(p, body, addId))
    requires Shape(t, deps) && t == Next(s, deps, Bcast(p, body, addId))
    ensures SentInv(t, deps)
  {
    var m := NewMessage(s, deps, p, body);
    forall q | 0 <= q < |deps| ensures SentAt(t.sent[q], t.top[q].lsn, t.net.procs[q].calls, q, deps[q]) {
      assert SentAt(s.sent[q], s.top[q].lsn, s.net.procs[q].calls, q, deps[q]);
      BcastFrame(s.net, p, m, addId, q);
      if q == p {
        OneMoreSent(s.sent[p], s.top[p], s.net.procs[p].calls, p, deps[p], m);
      }
    }
  }

  /** The log of the process that broadcasts. */
  lemma BcastLog(sent: seq<seq<Stamped>>, deps: seq<seq<nat>>, p: nat, t: Top, m: Stamped)
    requires p < |deps| && |sent| == |deps| && LogInv(sent, deps, p, t) && m.stamp == Stamp(t, p, deps[p])
    requires t.lsn < |sent[p]| && sent[p][t.lsn] == m
    ensures LogInv(sent, deps, p, t.(lsn := t.lsn + 1, events := t.events + [B(t.lsn)]))
  {
    StampClock(t, p, deps[p]);
    LogAppend(sent, deps, p, t.events, B(t.lsn));
  }

  lemma BcastInbox(sent: seq<seq<Stamped>>, handed: seq<Key>, t: Top)
    requires InboxInv(sent, handed, t)
    ensures InboxInv(sent, handed, t.(lsn := t.lsn + 1, events := t.events + [B(t.lsn)]))
  {
    var es := t.events + [B(t.lsn)];
    forall o, i ensures D(o, i) in es <==> D(o, i) in t.events {}
  }

  lemma BcastTop(s: State, deps: seq<seq<nat>>, p: nat, body: string, addId: bool, q: nat)
    requires Inv(s, deps) && p < |deps| && q < |deps| && Enabled(s, deps, Bcast(p, body, addId))
    requires Shape(Next(s, deps, Bcast(p, body, addId)), deps)
    ensures TopInv(Next(s, deps, Bcast(p, body, addId)), deps, q)
  {
    var t, m := Next(s, deps, Bcast(p, body, addId)), NewMessage(s, deps, p, body);
    assert TopInv(s, deps, q) && SentAt(s.sent[q], s.top[q].lsn, s.net.procs[q].calls, q, deps[q]);
    BcastFrame(s.net, p, m, addId, q);
    LogGrows(s.sent, t.sent, deps, q, s.top[q]);
    InboxGrows(s.sent, t.sent, s.net.procs[q].handed, s.top[q]);
    if q == p {
      BcastLog(t.sent, deps, p, s.top[p], m);
      BcastInbox(t.sent, s.net.procs[p].handed, s.top[p]);
    }
  }

  lemma BcastTops(s: State, deps: seq<seq<nat>>, p: nat, body: string, addId: bool)
    requires Inv(s, deps) && p < |deps| && Enabled(s, deps, Bcast(p, body, addId))
    requires Shape(Next(s, deps, Bcast(p, body, addId)), deps)
    ensures forall q :: 0 <= q < |deps| ==> TopInv(Next(s, deps, Bcast(p, body, addId)), deps, q)
  {
    forall q | 0 <= q < |deps| ensures TopInv(Next(s, deps, Bcast(p, body, addId)), deps, q) {
      BcastTop(s, deps, p, body, addId, q);
    }
  }

  lemma BcastOrder(s: State, deps: seq<seq<nat>>, p: nat, body: string, addId: bool)
    requires Inv(s, deps) && p < |deps| && Enabled(s, deps, Bcast(p, body, addId))
    ensures OrderInv(Next(s, deps, Bcast(p, body, addId)).order, Next(s, deps, Bcast(p, body, addId)).sent)
  {
    var t := Next(s, deps, Bcast(p, body, addId));
    NewInOrder(s, deps, p, body, t.sent);
    OrderAppend(s.sent, t.sent, s.order, (p, s.top[p].lsn));
  }

  lemma BcastInv(s: State, deps: seq<seq<nat>>, p: nat, body: string, addId: bool)
    requires Inv(s, deps) && Enabled(s, deps, Bcast(p, body, addId))
    ensures Inv(Next(s, deps, Bcast(p, body, addId)), deps)
  {
    U.NextInv(s.net, U.Broadcast(p, NewMessage(s, deps, p, body), addId));
    BcastSent(s, deps, p, body, addId, Next(s, deps, Bcast(p, body, addId)));
    BcastOrder(s, deps, p, body, addId);
    BcastTops(s, deps, p, body, addId);
  }

  /** Steps below the upper layer neither broadcast nor hand over. */
  lemma UnderFrame(n: U.Sys, e: U.Step, q: nat)
    requires U.Shape(n) && U.Enabled(n, e) && !e.Broadcast? && q < |n.procs|
    ensures forall m :: Direct(m) in U.Next(n, e).procs[q].calls <==> Direct(m) in n.procs[q].calls
    ensures U.Next(n, e).procs[q].handed
         == n.procs[q].handed + if e.HandOver? && q == e.p then [e.k] else []
  {
  }

  lemma UnderSent(s: State, deps: seq<seq<nat>>, e: U.Step, t: State)
    requires Shape(s, deps) && SentInv(s, deps) && U.Enabled(s.net, e) && !e.Broadcast?
    requires Shape(t, deps) && t.net == U.Next(s.net, e) && t.sent == s.sent
    requires forall p :: 0 <= p < |deps| ==> t.top[p].lsn == s.top[p].lsn
    ensures SentInv(t, deps)
  {
    forall p | 0 <= p < |deps| ensures SentAt(t.sent[p], t.top[p].lsn, t.net.procs[p].calls, p, deps[p]) {
      assert SentAt(s.sent[p], s.top[p].lsn, s.net.procs[p].calls, p, deps[p]);
      UnderFrame(s.net, e, p);
    }
  }

  lemma UnderInv(s: State, deps: seq<seq<nat>>, e: U.Step)
    requires Inv(s, deps) && Enabled(s, deps, Under(e))
    ensures Inv(Next(s, deps, Under(e)), deps)
  {
    var t := Next(s, deps, Under(e));
    U.NextInv(s.net, e);
    UnderSent(s, deps, e, t);
    forall q | 0 <= q < |deps| ensures TopInv(t, deps, q) {
      UnderFrame(s.net, e, q);
      assert TopInv(s, deps, q);
    }
  }

  /** URB hands over a message only once and only what was broadcast, so it is neither waiting nor delivered. */
  lemma UpIsNew(s: State, deps: seq<seq<nat>>, p: nat, k: Key)
    requires Inv(s, deps) && p < |deps| && U.Enabled(s.net, U.HandOver(p, k)) && k.Key?
    ensures Known(s.sent, k) && k !in s.top[p].inbox.pairs && D(k.origin, Number(k.m)) !in s.top[p].events
  {
    assert U.Own(s.net.procs[p], p, |deps|);
    assert TopInv(s, deps, p);
    assert k.m in s.sent[k.origin];
    var i :| 0 <= i < |s.sent[k.origin]| && s.sent[k.origin][i] == k.m;
    assert IsStamped(s.sent[k.origin][i], k.origin, i, deps[k.origin]);
  }

  lemma HandedAreKeys(n: U.Sys, p: nat, k: Key)
    requires U.Inv(n) && p < |n.procs| && Urb.CanDeliver(n.procs[p].urb, |n.procs|, k)
    ensures k.Key?
  {
    assert U.Own(n.procs[p], p, |n.procs|);
    var votes := U.Votes(n.procs[p].got, k);
    assert |votes| > 0;
    var x :| x in votes;
  }

  lemma FileInbox(sent: seq<seq<Stamped>>, handed: seq<Key>, t: Top, k: Key)
    requires InboxInv(sent, handed, t) && Known(sent, k)
    requires k !in t.inbox.pairs && D(k.origin, Number(k.m)) !in t.events
    ensures InboxInv(sent, handed + [k], File(t, k))
  {
  }

  lemma UpTop(s: State, deps: seq<seq<nat>>, p: nat, k: Key, q: nat)
    requires Inv(s, deps) && Enabled(s, deps, Up(p, k)) && q < |deps|
    requires Shape(Next(s, deps, Up(p, k)), deps)
    ensures TopInv(Next(s, deps, Up(p, k)), deps, q)
  {
    HandedAreKeys(s.net, p, k);
    UpIsNew(s, deps, p, k);
    UnderFrame(s.net, U.HandOver(p, k), q);
    assert TopInv(s, deps, q);
    FileInbox(s.sent, s.net.procs[p].handed, s.top[p], k) by {
      assert TopInv(s, deps, p);
    }
  }

  lemma UpTops(s: State, deps: seq<seq<nat>>, p: nat, k: Key)
    requires Inv(s, deps) && Enabled(s, deps, Up(p, k))
    requires Shape(Next(s, deps, Up(p, k)), deps)
    ensures forall q :: 0 <= q < |deps| ==> TopInv(Next(s, deps, Up(p, k)), deps, q)
  {
    forall q | 0 <= q < |deps| ensures TopInv(Next(s, deps, Up(p, k)), deps, q) {
      UpTop(s, deps, p, k, q);
    }
  }

  lemma UpInv(s: State, deps: seq<seq<nat>>, p: nat, k: Key)
    requires Inv(s, deps) && Enabled(s, deps, Up(p, k))
    ensures Inv(Next(s, deps, Up(p, k)), deps)
  {
    var e := U.HandOver(p, k);
    U.NextInv(s.net, e);
    UnderSent(s, deps, e, Next(s, deps, Up(p, k)));
    UpTops(s, deps, p, k);
  }

  /** The test W <= VC acts as equality on the sender's own entry: a message is released exactly when its
      number is the count of its origin's messages delivered so far. */
  lemma ReleaseIsNext(s: State, deps: seq<seq<nat>>, p: nat, k: Key)
    requires Inv(s, deps) && p < |deps| && Deliverable(s.top[p].inbox, k)
    ensures Known(s.sent, k) && Number(k.m) == At(s.top[p].inbox.vc, k.origin)
    ensures GoodEvent(s.sent, deps, p, s.top[p].events, D(k.origin, Number(k.m)))
  {
    var t := s.top[p];
    assert TopInv(s, deps, p);
    assert Known(s.sent, k);
    var i := Number(k.m);
    assert IsStamped(s.sent[k.origin][i], k.origin, i, deps[k.origin]);
    assert ClockOf(k.m.stamp)[k.origin] == i;
    DeliveredUpTo(s.sent, deps, p, t.events, k.origin, i);
  }

  lemma ReleaseInbox(sent: seq<seq<Stamped>>, handed: seq<Key>, t: Top, k: Key)
    requires InboxInv(sent, handed, t) && k in t.inbox.pairs
    ensures InboxInv(sent, handed, ReleaseOne(t, k))
  {
    var t1 := ReleaseOne(t, k);
    assert Known(sent, k);
    forall x | x in t1.inbox.pairs ensures D(Origin(x), Number(x.m)) !in t1.events {
      assert Known(sent, x);
    }
  }

  lemma ReleaseLog(sent: seq<seq<Stamped>>, deps: seq<seq<nat>>, p: nat, t: Top, k: Key)
    requires p < |deps| && |sent| == |deps| && LogInv(sent, deps, p, t)
    requires GoodEvent(sent, deps, p, t.events, D(Origin(k), Number(k.m)))
    ensures LogInv(sent, deps, p, ReleaseOne(t, k))
  {
    LogAppend(sent, deps, p, t.events, D(Origin(k), Number(k.m)));
  }

  lemma ReleaseTop(s: State, deps: seq<seq<nat>>, p: nat, k: Key)
    requires Inv(s, deps) && p < |deps| && Deliverable(s.top[p].inbox, k)
    ensures LogInv(s.sent, deps, p, ReleaseOne(s.top[p], k))
    ensures InboxInv(s.sent, s.net.procs[p].handed, ReleaseOne(s.top[p], k))
  {
    assert TopInv(s, deps, p);
    ReleaseIsNext(s, deps, p, k);
    ReleaseLog(s.sent, deps, p, s.top[p], k);
    ReleaseInbox(s.sent, s.net.procs[p].handed, s.top[p], k);
  }

  lemma ReleaseTopAt(s: State, deps: seq<seq<nat>>, p: nat, k: Key, q: nat)
    requires Inv(s, deps) && Enabled(s, deps, Release(p, k)) && q < |deps|
    requires Shape(Next(s, deps, Release(p, k)), deps)
    ensures TopInv(Next(s, deps, Release(p, k)), deps, q)
  {
    if q == p {
      ReleaseTop(s, deps, p, k);
    } else {
      assert TopInv(s, deps, q);
    }
  }

  lemma ReleaseTops(s: State, deps: seq<seq<nat>>, p: nat, k: Key)
    requires Inv(s, deps) && Enabled(s, deps, Release(p, k))
    requires Shape(Next(s, deps, Release(p, k)), deps)
    ensures forall q :: 0 <= q < |deps| ==> TopInv(Next(s, deps, Release(p, k)), deps, q)
  {
    forall q | 0 <= q < |deps| ensures TopInv(Next(s, deps, Release(p, k)), deps, q) {
      ReleaseTopAt(s, deps, p, k, q);
    }
  }

  lemma ReleaseInv(s: State, deps: seq<seq<nat>>, p: nat, k: Key)
    requires Inv(s, deps) && Enabled(s, deps, Release(p, k))
    ensures Inv(Next(s, deps, Release(p, k)), deps)
  {
    var t := Next(s, deps, Release(p, k));
    assert t.net == s.net && t.sent == s.sent && t.order == s.order;
    ReleaseTops(s, deps, p, k);
    assert SentInv(t, deps);
  }

  /** Every move of the stack keeps the invariant. */
  lemma NextInv(s: State, deps: seq<seq<nat>>, v: Move)
    requires Inv(s, deps) && Enabled(s, deps, v)
    ensures Inv(Next(s, deps, v), deps)
  {
    match v
    case Bcast(p, body, addId) => BcastInv(s, deps, p, body, addId);
    case Under(e) => UnderInv(s, deps, e);
    case Up(p, k) => UpInv(s, deps, p, k);
    case Release(p, k) => ReleaseInv(s, deps, p, k);
  }
}
