/** The handlers on texts do what the steps of the structured system do: in every run, the fields of a process
    are the texts of its structured state. */
module Refinement {
  import opened Messages
  import opened StdList
  import opened Text
  import opened Codec
  import opened UrbProtocol
  import opened Rendering
  import U = UrbSystem
  import Runs = UrbTheorems
  import N = Node

  // ---------- lists, sets and maps of texts ----------

  /** Nothing else in the list has the text of x. */
  ghost predicate Apart<A(!new), B(!new)>(f: A -> B, xs: seq<A>, x: A) {
    forall y :: y in xs && f(y) == f(x) ==> y == x
  }

  lemma InEach<A(!new), B(!new)>(f: A -> B, xs: seq<A>, x: A)
    requires Apart(f, xs, x)
    ensures f(x) in Each(f, xs) <==> x in xs
  {
    if x in xs {
      var i :| 0 <= i < |xs| && xs[i] == x;
      assert Each(f, xs)[i] == f(x);
    }
  }

  lemma {:induction false} RemoveEach<A(!new), B(!new)>(f: A -> B, xs: seq<A>, x: A)
    requires Apart(f, xs, x)
    ensures Remove(Each(f, xs), f(x)) == Each(f, Remove(xs, x))
  {
    if xs != [] {
      assert xs == [xs[0]] + xs[1..];
      EachCons(f, xs[0], xs[1..]);
      RemoveEach(f, xs[1..], x);
      if xs[0] != x {
        EachCons(f, xs[0], Remove(xs[1..], x));
      }
    }
  }

  lemma {:induction false} UniqueEach<A(!new), B(!new)>(f: A -> B, xs: seq<A>)
    requires forall x :: x in xs ==> Apart(f, xs, x)
    ensures Unique(Each(f, xs)) == Each(f, Unique(xs))
  {
    if |xs| > 1 {
      var rest := xs[1..];
      assert xs == [xs[0]] + rest;
      EachCons(f, xs[0], rest);
      forall x | x in rest ensures Apart(f, rest, x) {
        assert Apart(f, xs, x);
      }
      UniqueEach(f, rest);
      assert Each(f, xs)[0] == f(xs[0]) && Each(f, xs)[1] == f(xs[1]) && Each(f, xs)[1..] == Each(f, rest);
      assert Apart(f, xs, xs[0]);
      if xs[0] != xs[1] {
        EachCons(f, xs[0], Unique(rest));
      }
    }
  }

  /** `seen` lists the texts of the elements of xs. */
  ghost predicate Lists<A(!new), B(!new)>(seen: seq<B>, f: A -> B, xs: set<A>) {
    forall t :: t in seen <==> exists x :: x in xs && f(x) == t
  }

  lemma ListsAdd<A(!new), B(!new)>(seen: seq<B>, f: A -> B, xs: set<A>, x: A)
    requires Lists(seen, f, xs)
    ensures Lists(seen + [f(x)], f, xs + {x})
  {
    forall t ensures t in seen + [f(x)] <==> exists y :: y in xs + {x} && f(y) == t {
      if t in seen {
        var y :| y in xs && f(y) == t;
        assert y in xs + {x};
      } else if t == f(x) {
        assert x in xs + {x};
      }
    }
  }

  lemma InLists<A(!new), B(!new)>(seen: seq<B>, f: A -> B, xs: set<A>, x: A)
    requires Lists(seen, f, xs) && forall y :: y in xs && f(y) == f(x) ==> y == x
    ensures f(x) in seen <==> x in xs
  {
  }

  // ---------- the relation ----------

  function IdText(p: nat): string {
    Pad3(p + 1)
  }

  function KeyTexts(ks: seq<Key>): seq<string> {
    Each(KeyText, ks)
  }

  function DataFor(sender: nat, target: nat): Content -> string {
    c => DataText(sender, target, c)
  }

  function AckFor(sender: nat, target: nat): Content -> string {
    c => AckText(sender, target, c)
  }

  function TailFor(me: nat): ((nat, Content)) -> string {
    (x: (nat, Content)) => Tail(x.0, me, x.1)
  }

  function SeenFor(me: nat): ((nat, Content)) -> string {
    (x: (nat, Content)) => DataText(x.0, me, x.1)
  }

  ghost predicate UrbRenders(a: Urb<Key, nat>, b: Urb<string, string>) {
    && b.pending == KeyTexts(a.pending)
    && (forall t :: t in b.ack ==> t in b.pending)
    && (forall k :: k in a.pending ==> Filed(b.ack, KeyText(k)) == Each(IdText, Filed(a.ack, k)))
    && b.delivered == (set k | k in a.delivered :: KeyText(k))
  }

  ghost predicate OutRenders(out: seq<seq<Content>>, me: nat, queues: seq<seq<string>>) {
    |queues| == |out| && forall q :: 0 <= q < |out| ==> queues[q] == Each(DataFor(me, q), out[q])
  }

  ghost predicate AcksRender(acks: seq<seq<Content>>, me: nat, texts: seq<seq<string>>) {
    |texts| == |acks| && forall q :: 0 <= q < |acks| ==> texts[q] == Each(AckFor(q, me), acks[q])
  }

  /** The fields of the objects of process `me` are the texts of its structured state. */
  ghost predicate Renders(p: U.Process, me: nat, st: N.State) {
    && OutRenders(p.out, me, st.core.queues) && AcksRender(p.acks, me, st.acks) && UrbRenders(p.urb, st.core.urb)
    && Lists(st.received, TailFor(me), p.got) && Lists(st.beb, SeenFor(me), p.beb)
  }

  // ---------- the parts of a handler ----------

  lemma FanAt(p: U.Process, me: nat, c: Content, queues: seq<seq<string>>, q: nat)
    requires q < |p.out| == |queues| && queues[q] == Each(DataFor(me, q), p.out[q])
    ensures N.Fan(queues, me + 1, ContentText(c))[q] == Each(DataFor(me, q), U.Fanout(p, me, c).out[q])
  {
    if q != me {
      EachSnoc(DataFor(me, q), p.out[q], c);
      assert N.Data(me + 1, q + 1, ContentText(c)) == DataFor(me, q)(c);
    }
  }

  lemma FanRefines(p: U.Process, me: nat, c: Content, queues: seq<seq<string>>)
    requires OutRenders(p.out, me, queues)
    ensures OutRenders(U.Fanout(p, me, c).out, me, N.Fan(queues, me + 1, ContentText(c)))
  {
    forall q | 0 <= q < |p.out|
      ensures N.Fan(queues, me + 1, ContentText(c))[q] == Each(DataFor(me, q), U.Fanout(p, me, c).out[q])
    {
      FanAt(p, me, c, queues, q);
    }
  }

  lemma PendingSnoc(a: Urb<Key, nat>, b: Urb<string, string>, k: Key)
    requires UrbRenders(a, b) && k !in a.pending && Apart(KeyText, a.pending, k) && Filed(a.ack, k) == []
    ensures UrbRenders(a.(pending := a.pending + [k]), b.(pending := b.pending + [KeyText(k)]))
  {
    EachSnoc(KeyText, a.pending, k);
    InEach(KeyText, a.pending, k);
    assert Filed(b.ack, KeyText(k)) == [];
  }

  lemma CountRefines(a: Urb<Key, nat>, b: Urb<string, string>, k: Key, s: nat)
    requires UrbRenders(a, b) && k in a.pending && Apart(KeyText, a.pending, k)
    ensures UrbRenders(a.(ack := Insert(a.ack, k, s)), b.(ack := Insert(b.ack, KeyText(k), IdText(s))))
  {
    InEach(KeyText, a.pending, k);
    EachSnoc(IdText, Filed(a.ack, k), s);
  }

  lemma ReceiveRefines(a: Urb<Key, nat>, b: Urb<string, string>, k: Key, s: nat)
    requires UrbRenders(a, b) && Apart(KeyText, a.pending, k) && (k !in a.pending ==> Filed(a.ack, k) == [])
    ensures UrbRenders(Receive(a, k, s), Receive(b, KeyText(k), IdText(s)))
  {
    InEach(KeyText, a.pending, k);
    if k in a.pending {
      CountRefines(a, b, k, s);
    } else {
      var a1, b1 := a.(pending := a.pending + [k]), b.(pending := b.pending + [KeyText(k)]);
      PendingSnoc(a, b, k);
      CountRefines(a1, b1, k, s);
    }
  }

  lemma DeliverRefines(a: Urb<Key, nat>, b: Urb<string, string>, k: Key)
    requires UrbRenders(a, b)
    ensures UrbRenders(a.(delivered := a.delivered + {k}), b.(delivered := b.delivered + {KeyText(k)}))
  {
  }

  lemma SameVerdict(a: Urb<Key, nat>, b: Urb<string, string>, n: nat, k: Key)
    requires UrbRenders(a, b) && k in a.pending && Apart(KeyText, a.pending, k)
    requires forall x :: x in a.delivered ==> x in a.pending
    ensures KeyText(k) in b.delivered <==> k in a.delivered
    ensures CanDeliver(b, n, KeyText(k)) <==> CanDeliver(a, n, k)
  {
  }

  /** A pass over the pending texts hands over the texts of what a pass over the structured keys does. */
  lemma {:induction false} HandOversRefine(a: Urb<Key, nat>, b: Urb<string, string>, n: nat, i: nat)
    requires UrbRenders(a, b) && i <= |a.pending| && (forall k :: k in a.delivered ==> k in a.pending)
    requires forall k :: k in a.pending ==> Apart(KeyText, a.pending, k)
    ensures HandOvers(b, n, i) == KeyTexts(HandOvers(a, n, i))
    decreases |a.pending| - i
  {
    if i < |a.pending| {
      var k := a.pending[i];
      assert b.pending[i] == KeyText(k) && Apart(KeyText, a.pending, k);
      SameVerdict(a, b, n, k);
      if CanDeliver(a, n, k) && k !in a.delivered {
        var a1, b1 := a.(delivered := a.delivered + {k}), b.(delivered := b.delivered + {KeyText(k)});
        DeliverRefines(a, b, k);
        HandOversRefine(a1, b1, n, i + 1);
        EachCons(KeyText, k, HandOvers(a1, n, i + 1));
      } else {
        HandOversRefine(a, b, n, i + 1);
      }
    }
  }

  // ---------- what the invariant gives ----------

  lemma ContentIsReal(s: U.Sys, p: nat, c: Content)
    requires U.Inv(s) && p < |s.procs| && c in s.procs[p].calls
    ensures RealContent(s, p, c)
  {
    assert U.Own(s.procs[p], p, |s.procs|);
    if c.Relay? { assert Key(c.origin, c.m) in s.procs[p].urb.pending; }
  }

  lemma PendingIsReal(s: U.Sys, p: nat, k: Key)
    requires U.Inv(s) && p < |s.procs| && k in s.procs[p].urb.pending
    ensures RealKey(s, p, k)
  {
    assert U.Own(s.procs[p], p, |s.procs|);
    if k.Bare? { assert U.OriginAt(s.procs[p].urb.pending, s.procs[p].calls, p, k.m); }
  }

  lemma NoVotesYet(s: U.Sys, p: nat, k: Key)
    requires U.Inv(s) && p < |s.procs| && k !in s.procs[p].urb.pending
    ensures Filed(s.procs[p].urb.ack, k) == []
  {
    assert U.Own(s.procs[p], p, |s.procs|);
    assert U.Votes(s.procs[p].got, k) == {};
  }

  /** Nothing broadcast in s is missing from t. */
  ghost predicate Later(s: U.Sys, t: U.Sys) {
    |s.procs| == |t.procs| && forall p :: 0 <= p < |s.procs| ==> s.procs[p].calls <= t.procs[p].calls
  }

  lemma KeysApart(s: U.Sys, t: U.Sys, p: nat, k: Key)
    requires U.Inv(s) && Later(s, t) && CleanCalls(t) && p < |s.procs| && RealKey(t, p, k)
    ensures Apart(KeyText, s.procs[p].urb.pending, k)
  {
    forall x | x in s.procs[p].urb.pending && KeyText(x) == KeyText(k) ensures x == k {
      PendingIsReal(s, p, x);
      KeyTextInjective(t, p, x, k);
    }
  }

  lemma DataApart(s: U.Sys, p: nat, q: nat, c: Content)
    requires U.Inv(s) && CleanCalls(s) && p < |s.procs| && q < |s.procs| && RealContent(s, p, c)
    ensures Apart(DataFor(p, q), s.procs[p].out[q], c)
  {
    forall x | x in s.procs[p].out[q] && DataText(p, q, x) == DataText(p, q, c) ensures x == c {
      assert U.Own(s.procs[p], p, |s.procs|);
      ContentIsReal(s, p, x);
      PacketReads('0', p, q, x);
      PacketReads('0', p, q, c);
      ContentTextInjective(s, p, x, c);
    }
  }

  lemma NotYetSeen(s: U.Sys, p: nat, x: (nat, Content), y: (nat, Content))
    requires U.Inv(s) && CleanCalls(s) && p < |s.procs| && x.0 < |s.procs| && RealContent(s, x.0, x.1)
    requires y in s.procs[p].got
    requires Tail(y.0, p, y.1) == Tail(x.0, p, x.1) || DataText(y.0, p, y.1) == DataText(x.0, p, x.1)
    ensures x == y
  {
    ContentIsReal(s, y.0, y.1);
    PacketReads('0', x.0, p, x.1);
    PacketReads('0', y.0, p, y.1);
    TailInjective(s, p, x, y);
  }

  /** A content was received before exactly when its text is listed by the receiver... */
  lemma Unreceived(s: U.Sys, p: nat, x: (nat, Content), seen: seq<string>)
    requires U.Inv(s) && CleanCalls(s) && p < |s.procs| && x.0 < |s.procs| && RealContent(s, x.0, x.1)
    requires Lists(seen, TailFor(p), s.procs[p].got)
    ensures Tail(x.0, p, x.1) in seen <==> x in s.procs[p].got
  {
    forall y | y in s.procs[p].got && TailFor(p)(y) == TailFor(p)(x) ensures y == x {
      NotYetSeen(s, p, x, y);
    }
    InLists(seen, TailFor(p), s.procs[p].got, x);
  }

  /** ... and by best-effort broadcast. */
  lemma Unseen(s: U.Sys, p: nat, x: (nat, Content), seen: seq<string>)
    requires U.Inv(s) && CleanCalls(s) && p < |s.procs| && x.0 < |s.procs| && RealContent(s, x.0, x.1)
    requires Lists(seen, SeenFor(p), s.procs[p].beb)
    ensures DataText(x.0, p, x.1) in seen <==> x in s.procs[p].got
  {
    assert U.Own(s.procs[p], p, |s.procs|);
    forall y | y in s.procs[p].beb && SeenFor(p)(y) == SeenFor(p)(x) ensures y == x {
      NotYetSeen(s, p, x, y);
    }
    InLists(seen, SeenFor(p), s.procs[p].beb, x);
  }

  // ---------- the handlers ----------

  /** URB's handler, for a text whose key is that of a structured content. */
  lemma UrbHandlerAt(a: U.Process, p: nat, sender: nat, c: Content, core: N.Core, msg: string)
    requires |msg| >= 7 && msg[1..4] == IdText(sender) && UrbKey(msg[1..4], msg[7..]) == Some(KeyText(KeyOf(sender, c)))
    requires Apart(KeyText, a.urb.pending, KeyOf(sender, c))
    requires KeyOf(sender, c) !in a.urb.pending ==> Filed(a.urb.ack, KeyOf(sender, c)) == []
    requires OutRenders(a.out, p, core.queues) && UrbRenders(a.urb, core.urb)
    ensures var b, r := U.UrbDeliver(a, p, sender, c), N.UrbStep(core, p + 1, msg);
            r.Some? && OutRenders(b.out, p, r.value.queues) && UrbRenders(b.urb, r.value.urb)
  {
    var k := KeyOf(sender, c);
    InEach(KeyText, a.urb.pending, k);
    ReceiveRefines(a.urb, core.urb, k, sender);
    if k !in a.urb.pending {
      RelayTextIs(k.origin, k.m);
      FanRefines(a.(urb := Receive(a.urb, k, sender)), p, Relay(k.origin, k.m), core.queues);
    }
  }

  /** What the process's lists make of a content's text: it has the text of its key, its key clashes with no
      other, and it counts as seen exactly when it was. */
  ghost predicate Recognized(a: U.Process, p: nat, sender: nat, c: Content, st: N.State) {
    var k, x := KeyOf(sender, c), (sender, c);
    && UrbKey(IdText(sender), ContentText(c)) == Some(KeyText(k)) && Apart(KeyText, a.urb.pending, k)
    && (k !in a.urb.pending ==> Filed(a.urb.ack, k) == [])
    && (Tail(sender, p, c) in st.received <==> x in a.got) && (DataText(sender, p, c) in st.beb <==> x in a.beb)
    && a.beb == a.got
  }

  lemma Recognize(s: U.Sys, p: nat, sender: nat, c: Content, st: N.State)
    requires U.Inv(s) && CleanCalls(s) && p < |s.procs| && sender < |s.procs| && c in s.procs[sender].calls
    requires Renders(s.procs[p], p, st)
    ensures Recognized(s.procs[p], p, sender, c, st)
  {
    assert U.Own(s.procs[p], p, |s.procs|);
    ContentIsReal(s, sender, c);
    UrbKeyIs(s, sender, c);
    KeysApart(s, s, p, KeyOf(sender, c));
    Unreceived(s, p, (sender, c), st.received);
    Unseen(s, p, (sender, c), st.beb);
    if KeyOf(sender, c) !in s.procs[p].urb.pending {
      NoVotesYet(s, p, KeyOf(sender, c));
    }
  }

  /** The process after a first receipt, before the acknowledgement is queued. */
  lemma FirstReceiptRefines(a: U.Process, p: nat, sender: nat, c: Content, st: N.State)
    requires Recognized(a, p, sender, c, st) && Renders(a, p, st) && (sender, c) !in a.got && p < 999 && sender < 999
    ensures |DataText(sender, p, c)| >= 7
    ensures var r := N.DataStep(st, p + 1, DataText(sender, p, c));
            r.Some? && Renders(U.FirstReceipt(a, p, sender, c), p, r.value)
  {
    var x, msg := (sender, c), DataText(sender, p, c);
    PacketReads('0', sender, p, c);
    UrbHandlerAt(a.(got := a.got + {x}, beb := a.beb + {x}), p, sender, c, st.core, msg);
    ListsAdd(st.received, TailFor(p), a.got, x);
    ListsAdd(st.beb, SeenFor(p), a.beb, x);
    assert TailFor(p)(x) == msg[1..] && SeenFor(p)(x) == msg;
  }

  /** The process before the acknowledgement is queued. */
  function Taken(a: U.Process, p: nat, sender: nat, c: Content): U.Process {
    if (sender, c) in a.got then a else U.BebDeliver(a.(got := a.got + {(sender, c)}), p, sender, c)
  }

  lemma DataRefines(a: U.Process, p: nat, sender: nat, c: Content, st: N.State)
    requires Recognized(a, p, sender, c, st) && Renders(a, p, st) && p < 999 && sender < 999
    ensures |DataText(sender, p, c)| >= 7
    ensures var r := N.DataStep(st, p + 1, DataText(sender, p, c));
            r.Some? && Renders(Taken(a, p, sender, c), p, r.value)
  {
    PacketReads('0', sender, p, c);
    if (sender, c) !in a.got {
      FirstReceiptRefines(a, p, sender, c, st);
    }
  }

  lemma QueueAckRefines(acks: seq<seq<Content>>, me: nat, texts: seq<seq<string>>, sender: nat, c: Content)
    requires AcksRender(acks, me, texts) && sender < |acks| && sender != me
    ensures AcksRender(acks[sender := acks[sender] + [c]], me,
              N.QueueAck(texts, me + 1, sender + 1, AckText(sender, me, c)))
  {
    EachSnoc(AckFor(sender, me), acks[sender], c);
  }

  lemma AcknowledgeRefines(b: U.Process, p: nat, t: N.State, sender: nat, c: Content)
    requires Renders(b, p, t) && sender < |b.acks| && sender != p
    ensures Renders(b.(acks := b.acks[sender := b.acks[sender] + [c]]), p,
              t.(acks := N.QueueAck(t.acks, p + 1, sender + 1, AckText(sender, p, c))))
  {
    QueueAckRefines(b.acks, p, t.acks, sender, c);
  }

  /** A data packet, read by the thread of any link. */
  lemma ReceiveDataRefines(a: U.Process, p: nat, sender: nat, c: Content, st: N.State, via: nat)
    requires Recognized(a, p, sender, c, st) && Renders(a, p, st) && p < 999 && sender < 999
    requires sender < |a.acks| && sender != p && 0 < via <= |st.core.queues|
    ensures var r := N.ReceiveStep(st, p + 1, via, DataText(sender, p, c));
            r.Some? && Renders(U.LinkDeliver(a, p, sender, c), p, r.value)
  {
    PacketReads('0', sender, p, c);
    PacketReads('1', sender, p, c);
    DataRefines(a, p, sender, c, st);
    AcknowledgeRefines(Taken(a, p, sender, c), p, N.DataStep(st, p + 1, DataText(sender, p, c)).value, sender, c);
  }

  lemma DropRefines(out: seq<seq<Content>>, me: nat, queues: seq<seq<string>>, q: nat, c: Content)
    requires OutRenders(out, me, queues) && q < |out| && Apart(DataFor(me, q), out[q], c)
    ensures OutRenders(out[q := Remove(out[q], c)], me, queues[q := Remove(queues[q], DataText(me, q, c))])
  {
    RemoveEach(DataFor(me, q), out[q], c);
  }

  /** An acknowledgement, read by the thread of the right link or of another one. */
  lemma ReceiveAckRefines(a: U.Process, p: nat, via: nat, target: nat, c: Content, st: N.State)
    requires Renders(a, p, st) && via < |a.out| && Apart(DataFor(p, via), a.out[via], c) && p < 999 && target < 999
    ensures |st.core.queues| == |a.out|
    ensures var r := N.ReceiveStep(st, p + 1, via + 1, AckText(p, target, c));
            && r.Some?
            && Renders(if target == via then a.(out := a.out[via := Remove(a.out[via], c)]) else a, p, r.value)
  {
    PacketReads('1', p, target, c);
    PacketReads('0', p, target, c);
    if target == via {
      DropRefines(a.out, p, st.core.queues, via, c);
    }
  }

  lemma NewKey(s: U.Sys, p: nat, k: Key)
    requires U.Inv(s) && p < |s.procs| && Direct(k.m) !in s.procs[p].calls && (k.Key? ==> k.origin == p)
    ensures k !in s.procs[p].urb.pending
  {
    assert U.Own(s.procs[p], p, |s.procs|);
    assert U.OriginAt(s.procs[p].urb.pending, s.procs[p].calls, p, k.m);
  }

  lemma BroadcastRefines(a: U.Process, p: nat, m: Stamped, addId: bool, st: N.State)
    requires Renders(a, p, st)
    requires var k := if addId then Key(p, m) else Bare(m);
             k !in a.urb.pending && Apart(KeyText, a.urb.pending, k) && Filed(a.urb.ack, k) == []
    ensures Renders(U.UrbBroadcast(a, p, m, addId), p,
              st.(core := N.BroadcastStep(st.core, p + 1, MessageText(m), addId)))
  {
    var k := if addId then Key(p, m) else Bare(m);
    PendingSnoc(a.urb, st.core.urb, k);
    FanRefines(a.(urb := a.urb.(pending := a.urb.pending + [k])), p, Direct(m), st.core.queues);
  }

  lemma FlushRefines(a: U.Process, p: nat, st: N.State, q: nat)
    requires Renders(a, p, st) && q < |a.acks|
    ensures |st.acks| == |a.acks| && Renders(a.(acks := a.acks[q := []]), p, st.(acks := st.acks[q := []]))
  {
  }

  /** What a packet on the wire says of its two ends. */
  lemma PacketIsReal(s: U.Sys, pkt: Packet)
    requires U.Inv(s) && pkt in s.net
    ensures pkt.sender < |s.procs| && pkt.target < |s.procs| && pkt.sender != pkt.target
    ensures pkt.content in s.procs[pkt.sender].calls
  {
  }

  // ---------- steps and runs ----------

  /** The step of process e.p on its texts; None where the program throws. */
  function TextStep(st: N.State, e: U.Step): Option<N.State> {
    match e
    case Broadcast(p, m, addId) => Some(st.(core := N.BroadcastStep(st.core, p + 1, MessageText(m), addId)))
    case ReceiveData(p, pkt) =>
      if pkt.sender < |st.core.queues|
      then N.ReceiveStep(st, p + 1, pkt.sender + 1, DataText(pkt.sender, pkt.target, pkt.content))
      else None
    case ReceiveAck(p, via, pkt) =>
      if via < |st.core.queues| then N.ReceiveStep(st, p + 1, via + 1, AckText(pkt.sender, pkt.target, pkt.content))
      else None
    case FlushAcks(_, q) => if q < |st.acks| then Some(st.(acks := st.acks[q := []])) else None
    case HandOver(_, k) =>
      var u := st.core.urb;
      Some(st.(core := st.core.(urb := u.(delivered := u.delivered + {KeyText(k)}))))
    case Send(_, _, _) => Some(st)
    case Crash(_) => Some(st)
  }

  /** The handlers take the step on the texts, and do not throw. */
  ghost predicate Follows(s: U.Sys, e: U.Step, st: N.State)
    requires U.Shape(s) && U.Enabled(s, e)
  {
    var r := TextStep(st, e);
    r.Some? && Renders(U.Local(s, e), e.p, r.value)
  }

  lemma BroadcastFollows(s: U.Sys, e: U.Step, st: N.State)
    requires U.Inv(s) && U.Enabled(s, e) && e.Broadcast? && Renders(s.procs[e.p], e.p, st)
    requires CleanCalls(U.Next(s, e)) && Later(s, U.Next(s, e))
    ensures Follows(s, e, st)
  {
    var k := if e.addId then Key(e.p, e.m) else Bare(e.m);
    NewKey(s, e.p, k);
    NoVotesYet(s, e.p, k);
    NewKeyApart(s, e, k);
    BroadcastRefines(s.procs[e.p], e.p, e.m, e.addId, st);
  }

  lemma NewKeyApart(s: U.Sys, e: U.Step, k: Key)
    requires U.Inv(s) && U.Enabled(s, e) && e.Broadcast? && CleanCalls(U.Next(s, e)) && Later(s, U.Next(s, e))
    requires k.m == e.m && (k.Key? ==> k.origin == e.p)
    ensures Apart(KeyText, s.procs[e.p].urb.pending, k)
  {
    var t := U.Next(s, e);
    assert Direct(e.m) in t.procs[e.p].calls;
    KeysApart(s, t, e.p, k);
  }

  lemma DataIsStep(s: U.Sys, e: U.Step, st: N.State)
    requires U.Shape(s) && U.Enabled(s, e) && e.ReceiveData? && Renders(s.procs[e.p], e.p, st) && |s.procs| <= 999
    requires Recognized(s.procs[e.p], e.p, e.pkt.sender, e.pkt.content, st) && e.pkt.sender != e.p
    ensures Follows(s, e, st)
  {
    ReceiveDataRefines(s.procs[e.p], e.p, e.pkt.sender, e.pkt.content, st, e.pkt.sender + 1);
  }

  lemma DataFollows(s: U.Sys, e: U.Step, st: N.State)
    requires U.Inv(s) && U.Enabled(s, e) && e.ReceiveData? && Renders(s.procs[e.p], e.p, st) && CleanCalls(s)
    ensures Follows(s, e, st)
  {
    PacketIsReal(s, e.pkt);
    Recognize(s, e.p, e.pkt.sender, e.pkt.content, st);
    DataIsStep(s, e, st);
  }

  lemma AckIsStep(s: U.Sys, e: U.Step, st: N.State)
    requires U.Shape(s) && U.Enabled(s, e) && e.ReceiveAck? && Renders(s.procs[e.p], e.p, st) && |s.procs| <= 999
    requires Apart(DataFor(e.p, e.via), s.procs[e.p].out[e.via], e.pkt.content) && e.pkt.target < |s.procs|
    ensures Follows(s, e, st)
  {
    ReceiveAckRefines(s.procs[e.p], e.p, e.via, e.pkt.target, e.pkt.content, st);
  }

  lemma AckFollows(s: U.Sys, e: U.Step, st: N.State)
    requires U.Inv(s) && U.Enabled(s, e) && e.ReceiveAck? && Renders(s.procs[e.p], e.p, st) && CleanCalls(s)
    ensures Follows(s, e, st)
  {
    PacketIsReal(s, e.pkt);
    ContentIsReal(s, e.p, e.pkt.content);
    DataApart(s, e.p, e.via, e.pkt.content);
    AckIsStep(s, e, st);
  }

  lemma OtherFollows(s: U.Sys, e: U.Step, st: N.State)
    requires U.Shape(s) && U.Enabled(s, e) && Renders(s.procs[e.p], e.p, st)
    requires !e.Broadcast? && !e.ReceiveData? && !e.ReceiveAck?
    ensures Follows(s, e, st)
  {
    match e
    case FlushAcks(p, q) => FlushRefines(s.procs[p], p, st, q);
    case HandOver(p, k) => DeliverRefines(s.procs[p].urb, st.core.urb, k);
    case Send(_, _, _) =>
    case Crash(_) =>
  }

  /** Every step of the structured system is what the handlers do on the texts, and they never throw. */
  lemma StepRefines(s: U.Sys, e: U.Step, st: N.State)
    requires U.Inv(s) && U.Enabled(s, e) && CleanCalls(s) && CleanCalls(U.Next(s, e)) && Later(s, U.Next(s, e))
    requires Renders(s.procs[e.p], e.p, st)
    ensures Follows(s, e, st)
  {
    match e
    case Broadcast(_, _, _) => BroadcastFollows(s, e, st);
    case ReceiveData(_, _) => DataFollows(s, e, st);
    case ReceiveAck(_, _, _) => AckFollows(s, e, st);
    case _ => OtherFollows(s, e, st);
  }

  // ---------- runs ----------

  function StartState(n: nat): N.State {
    N.State(N.Core(seq(n, i => []), Urb([], map[], {})), seq(n, i => []), [], [])
  }

  lemma StartRenders(n: nat, p: nat)
    requires p < n
    ensures Renders(U.Init(n).procs[p], p, StartState(n))
  {
  }

  /** The texts of process p after the steps es, starting from nothing; None if a handler throws on the way. */
  function TextRun(n: nat, es: seq<U.Step>, p: nat): Option<N.State> {
    if es == [] then Some(StartState(n))
    else
      match TextRun(n, es[..|es| - 1], p)
      case None => None
      case Some(st) => if es[|es| - 1].p == p then TextStep(st, es[|es| - 1]) else Some(st)
  }

  lemma OneGrows(s: U.Sys, p: nat, b: U.Process, t: U.Sys)
    requires p < |s.procs| && t.procs == s.procs[p := b] && U.Grows(s.procs[p], b)
    ensures Later(s, t)
  {
  }

  lemma CallsGrow(s: U.Sys, e: U.Step)
    requires U.Inv(s) && U.Enabled(s, e)
    ensures Later(s, U.Next(s, e))
  {
    U.StepGood(s, e);
    OneGrows(s, e.p, U.Local(s, e), U.Next(s, e));
  }

  lemma CleanEarlier(s: U.Sys, t: U.Sys)
    requires Later(s, t) && CleanCalls(t)
    ensures CleanCalls(s)
  {
    assert forall p, m :: 0 <= p < |s.procs| && Direct(m) in s.procs[p].calls ==> Direct(m) in t.procs[p].calls;
  }

  /** In every run with clean broadcasts, no handler throws, and the texts each process holds are those of its
      structured state. */
  lemma {:induction false} RunRefines(n: nat, es: seq<U.Step>, t: U.Sys, p: nat)
    requires Runs.Reaches(n, es, t) && CleanCalls(t) && p < n
    ensures |t.procs| == n
    ensures var r := TextRun(n, es, p); r.Some? && Renders(t.procs[p], p, r.value)
  {
    if es == [] {
      StartRenders(n, p);
    } else {
      var init, e := es[..|es| - 1], es[|es| - 1];
      var s := Runs.After(n, init).s;
      Runs.ReachableInv(n, init, s);
      CallsGrow(s, e);
      CleanEarlier(s, t);
      RunRefines(n, init, s, p);
      if e.p == p {
        StepRefines(s, e, TextRun(n, init, p).value);
      }
    }
  }

  /** What a process of a run writes to the network and hands upwards: a retransmission pass sends the data texts
      of its queue, a flush the acknowledgement texts of its list without repetitions in a row, and a pass over the
      pending texts hands over the texts of what a pass over the structured keys does. */
  lemma OutputsRefine(n: nat, es: seq<U.Step>, t: U.Sys, p: nat, q: nat)
    requires Runs.Reaches(n, es, t) && CleanCalls(t) && p < n && q < n && |t.procs| == n && U.Shape(t)
    ensures TextRun(n, es, p).Some?
    ensures var st := TextRun(n, es, p).value;
            && |st.core.queues| == |st.acks| == n
            && st.core.queues[q] == Each(DataFor(p, q), t.procs[p].out[q])
            && Unique(st.acks[q]) == Each(AckFor(q, p), Unique(t.procs[p].acks[q]))
            && HandOvers(st.core.urb, n, 0) == KeyTexts(HandOvers(t.procs[p].urb, n, 0))
  {
    Runs.ReachableInv(n, es, t);
    RunRefines(n, es, t, p);
    AcksApart(t, p, q);
    UniqueEach(AckFor(q, p), t.procs[p].acks[q]);
    PendingApart(t, p);
    HandOversRefine(t.procs[p].urb, TextRun(n, es, p).value.core.urb, n, 0);
  }

  lemma AcksApart(s: U.Sys, p: nat, q: nat)
    requires U.Inv(s) && CleanCalls(s) && p < |s.procs| && q < |s.procs|
    ensures forall c :: c in s.procs[p].acks[q] ==> Apart(AckFor(q, p), s.procs[p].acks[q], c)
  {
    assert U.Own(s.procs[p], p, |s.procs|);
    forall c, x | c in s.procs[p].acks[q] && x in s.procs[p].acks[q] && AckText(q, p, x) == AckText(q, p, c)
      ensures x == c
    {
      assert (q, c) in s.procs[p].got && (q, x) in s.procs[p].got;
      ContentIsReal(s, q, c);
      ContentIsReal(s, q, x);
      PacketReads('1', q, p, x);
      PacketReads('1', q, p, c);
      ContentTextInjective(s, q, x, c);
    }
  }

  lemma PendingApart(s: U.Sys, p: nat)
    requires U.Inv(s) && CleanCalls(s) && p < |s.procs|
    ensures forall k :: k in s.procs[p].urb.pending ==> Apart(KeyText, s.procs[p].urb.pending, k)
    ensures forall k :: k in s.procs[p].urb.delivered ==> k in s.procs[p].urb.pending
  {
    assert U.Own(s.procs[p], p, |s.procs|);
    forall k | k in s.procs[p].urb.pending ensures Apart(KeyText, s.procs[p].urb.pending, k) {
      PendingIsReal(s, p, k);
      KeysApart(s, s, p, k);
    }
  }
}
