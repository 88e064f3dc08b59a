/** How often the messages of a run are queued for the network. */
module Traffic {
  import opened Messages
  import opened StdList
  import opened UrbProtocol
  import opened UrbSystem
  import opened UrbTheorems

  /** How often the first `up` processes asked BEB to broadcast a content of message k. */
  function CallsFor(s: Sys, k: Key, up: nat): nat
    requires k.Key? && up <= |s.procs|
  {
    if up == 0 then 0 else CallsFor(s, k, up - 1) + CallsBy(s.procs[up - 1], up - 1, k)
  }

  function CallsBy(p: Process, me: nat, k: Key): nat
    requires k.Key?
  {
    p.calls[Relay(k.origin, k.m)] + if me == k.origin then p.calls[Direct(k.m)] else 0
  }

  /** How many copies of c were appended to one queue. */
  function Grown(a: seq<Content>, b: seq<Content>, c: Content): nat {
    if multiset(b)[c] > multiset(a)[c] then multiset(b)[c] - multiset(a)[c] else 0
  }

  /** How many copies of c were appended to the first `up` queues of a process. */
  function Appends(a: seq<seq<Content>>, b: seq<seq<Content>>, c: Content, up: nat): nat
    requires up <= |a| == |b|
  {
    if up == 0 then 0 else Appends(a, b, c, up - 1) + Grown(a[up - 1], b[up - 1], c)
  }

  /** How many contents of message k process p, going from a to b, has appended to its queues. */
  function AppendsBy(a: Process, b: Process, p: nat, k: Key): nat
    requires k.Key? && |a.out| == |b.out|
  {
    Appends(a.out, b.out, Relay(k.origin, k.m), |a.out|)
    + if p == k.origin then Appends(a.out, b.out, Direct(k.m), |a.out|) else 0
  }

  /** How many contents of message k were appended to retransmission lists in the whole run. */
  function RunAppends(n: nat, es: seq<Step>, k: Key): nat
    requires k.Key?
  {
    if es == [] then 0
    else
      match (After(n, es[..|es| - 1]), After(n, es))
      case (At(s), At(t)) => RunAppends(n, es[..|es| - 1], k) + StepAppends(s, t, es[|es| - 1].p, k)
      case _ => RunAppends(n, es[..|es| - 1], k)
  }

  function StepAppends(s: Sys, t: Sys, p: nat, k: Key): nat
    requires k.Key?
  {
    if p < |s.procs| == |t.procs| && |s.procs[p].out| == |t.procs[p].out|
    then AppendsBy(s.procs[p], t.procs[p], p, k) else 0
  }

  /** From a to b, c was either asked for once and appended once on each link, or not at all. */
  ghost predicate AtMostOnce(a: Process, b: Process, c: Content) {
    && |b.out| == |a.out|
    && var added := Appends(a.out, b.out, c, |a.out|);
       (b.calls[c] == a.calls[c] && added == 0) || (b.calls[c] == a.calls[c] + 1 && added == |a.out| - 1)
  }

  /** Each queue but that of `me` grew by `one`. */
  lemma {:induction false} SumUp(a: seq<seq<Content>>, b: seq<seq<Content>>, c: Content, me: nat, one: nat, up: nat)
    requires up <= |a| == |b| && one <= 1
    requires forall q :: 0 <= q < |a| ==> Grown(a[q], b[q], c) == if q != me then one else 0
    ensures Appends(a, b, c, up) == if one == 0 then 0 else up - (if me < up then 1 else 0)
  {
    if up > 0 {
      SumUp(a, b, c, me, one, up - 1);
    }
  }

  lemma FanoutOnce(a: Process, p: Process, me: nat, x: Content, c: Content)
    requires p.out == a.out && p.calls == a.calls && me < |a.out|
    ensures AtMostOnce(a, Fanout(p, me, x), c)
  {
    var b := Fanout(p, me, x);
    var one := if c == x then 1 else 0;
    forall q | 0 <= q < |a.out| ensures Grown(a.out[q], b.out[q], c) == if q != me then one else 0 {
    }
    SumUp(a.out, b.out, c, me, one, |a.out|);
  }

  lemma NothingNew(a: Process, b: Process, c: Content)
    requires |a.out| == |b.out| && b.calls == a.calls
    requires forall q :: 0 <= q < |a.out| ==> multiset(b.out[q])[c] <= multiset(a.out[q])[c]
    ensures AtMostOnce(a, b, c)
  {
    SumUp(a.out, b.out, c, |a.out|, 0, |a.out|);
  }

  lemma {:induction false} RemoveGrows(cs: seq<Content>, x: Content, c: Content)
    ensures multiset(Remove(cs, x))[c] <= multiset(cs)[c]
  {
    if cs != [] {
      assert cs == [cs[0]] + cs[1..];
      RemoveGrows(cs[1..], x, c);
      if cs[0] != x {
        assert Remove(cs, x) == [cs[0]] + Remove(cs[1..], x);
      }
    }
  }

  lemma DeliverOnce(a: Process, p: Process, me: nat, sender: nat, x: Content, c: Content)
    requires p.out == a.out && p.calls == a.calls && me < |a.out|
    ensures AtMostOnce(a, UrbDeliver(p, me, sender, x), c)
  {
    var k := KeyOf(sender, x);
    if k in p.urb.pending {
      NothingNew(a, UrbDeliver(p, me, sender, x), c);
    } else {
      FanoutOnce(a, p.(urb := Receive(p.urb, k, sender)), me, Relay(k.origin, k.m), c);
    }
  }

  lemma LinkOnce(a: Process, me: nat, sender: nat, x: Content, c: Content)
    requires me < |a.out| && sender < |a.acks|
    ensures AtMostOnce(a, LinkDeliver(a, me, sender, x), c)
  {
    if (sender, x) !in a.got && (sender, x) !in a.beb {
      DeliverOnce(a, a.(got := a.got + {(sender, x)}, beb := a.beb + {(sender, x)}), me, sender, x, c);
    } else {
      NothingNew(a, LinkDeliver(a, me, sender, x), c);
    }
  }

  lemma AckOnce(a: Process, via: nat, x: Content, c: Content)
    requires via < |a.out|
    ensures AtMostOnce(a, a.(out := a.out[via := Remove(a.out[via], x)]), c)
  {
    RemoveGrows(a.out[via], x, c);
    NothingNew(a, a.(out := a.out[via := Remove(a.out[via], x)]), c);
  }

  lemma BroadcastOnce(a: Process, me: nat, m: Stamped, addId: bool, c: Content)
    requires me < |a.out|
    ensures AtMostOnce(a, UrbBroadcast(a, me, m, addId), c)
  {
    var p := a.(urb := a.urb.(pending := a.urb.pending + [if addId then Key(me, m) else Bare(m)]));
    FanoutOnce(a, p, me, Direct(m), c);
  }

  /** Every append belongs to a call: a step appends a content once on each link of its process if it asks for it. */
  lemma LocalOnce(s: Sys, e: Step, c: Content)
    requires Shape(s) && Enabled(s, e)
    ensures AtMostOnce(s.procs[e.p], Local(s, e), c)
  {
    var a := s.procs[e.p];
    match e
    case Broadcast(p, m, addId) => BroadcastOnce(a, p, m, addId, c);
    case ReceiveData(p, pkt) => LinkOnce(a, p, pkt.sender, pkt.content, c);
    case ReceiveAck(p, via, pkt) =>
      AckOnce(a, via, pkt.content, c);
      NothingNew(a, a, c);
    case _ => NothingNew(a, Local(s, e), c);
  }

  lemma {:induction false} CallsUpdate(s: Sys, t: Sys, p: nat, k: Key, up: nat)
    requires k.Key? && up <= |s.procs| && p < |s.procs| && |t.procs| == |s.procs| && t.procs == s.procs[p := t.procs[p]]
    ensures CallsFor(t, k, up) - CallsFor(s, k, up)
         == if p < up then CallsBy(t.procs[p], p, k) - CallsBy(s.procs[p], p, k) else 0
  {
    if up > 0 {
      CallsUpdate(s, t, p, k, up - 1);
    }
  }

  lemma AppendsByCalls(a: Process, b: Process, p: nat, k: Key, links: nat)
    requires k.Key? && |a.out| == links + 1 && AtMostOnce(a, b, Relay(k.origin, k.m)) && AtMostOnce(a, b, Direct(k.m))
    ensures 0 <= CallsBy(b, p, k) - CallsBy(a, p, k) <= 2
    ensures AppendsBy(a, b, p, k) == Times(CallsBy(b, p, k) - CallsBy(a, p, k), links)
  {
    assert Times(0, links) == 0 && Times(1, links) == links && Times(2, links) == Times(1, links) + links;
  }

  /** The product x * z, as a sum. */
  function Times(x: nat, z: nat): nat {
    if x == 0 then 0 else Times(x - 1, z) + z
  }

  lemma {:induction false} TimesIsProduct(x: nat, z: nat)
    ensures Times(x, z) == x * z
  {
    if x > 0 {
      TimesIsProduct(x - 1, z);
      assert x * z == (x - 1) * z + z;
    }
  }

  lemma {:induction false} TimesAdds(x: nat, y: nat, z: nat)
    ensures Times(x + y, z) == Times(x, z) + Times(y, z)
  {
    if y > 0 {
      TimesAdds(x, y - 1, z);
    }
  }

  lemma StepCounted(s: Sys, t: Sys, e: Step, k: Key, links: nat)
    requires Shape(s) && Enabled(s, e) && k.Key? && t == Next(s, e) && |s.procs| == links + 1
    ensures |t.procs| == |s.procs| && CallsFor(t, k, links + 1) >= CallsFor(s, k, links + 1)
    ensures StepAppends(s, t, e.p, k) == Times(CallsFor(t, k, links + 1) - CallsFor(s, k, links + 1), links)
  {
    LocalOnce(s, e, Relay(k.origin, k.m));
    LocalOnce(s, e, Direct(k.m));
    assert t.procs == s.procs[e.p := Local(s, e)];
    CallsUpdate(s, t, e.p, k, |s.procs|);
    AppendsByCalls(s.procs[e.p], t.procs[e.p], e.p, k, links);
  }

  lemma {:induction false} NoCalls(n: nat, k: Key, up: nat)
    requires k.Key? && up <= n
    ensures CallsFor(Init(n), k, up) == 0
  {
    if up > 0 {
      NoCalls(n, k, up - 1);
    }
  }

  /** The last step of a run. */
  lemma LastStep(n: nat, es: seq<Step>, t: Sys) returns (s: Sys)
    requires Reaches(n, es, t) && es != []
    ensures Reaches(n, es[..|es| - 1], s) && Shape(s) && Enabled(s, es[|es| - 1]) && t == Next(s, es[|es| - 1])
    ensures |s.procs| == n
  {
    s := After(n, es[..|es| - 1]).s;
    ReachableInv(n, es[..|es| - 1], s);
  }

  lemma RunAppendsLast(n: nat, es: seq<Step>, s: Sys, t: Sys, k: Key)
    requires k.Key? && es != [] && Reaches(n, es[..|es| - 1], s) && Reaches(n, es, t)
    ensures RunAppends(n, es, k) == RunAppends(n, es[..|es| - 1], k) + StepAppends(s, t, es[|es| - 1].p, k)
  {
  }

  /** In every run, the number of contents of a message appended to retransmission lists is the number of calls
      that asked for them times the number of links of a process. */
  lemma {:induction false} AppendsCounted(n: nat, es: seq<Step>, t: Sys, k: Key, links: nat)
    requires Reaches(n, es, t) && k.Key? && n == links + 1
    ensures |t.procs| == n && RunAppends(n, es, k) == Times(CallsFor(t, k, n), links)
  {
    if es == [] {
      NoCalls(n, k, n);
    } else {
      var s := LastStep(n, es, t);
      AppendsCounted(n, es[..|es| - 1], s, k, links);
      AppendsStep(s, t, es[|es| - 1], k, links, RunAppends(n, es[..|es| - 1], k));
      RunAppendsLast(n, es, s, t, k);
    }
  }

  lemma AppendsStep(s: Sys, t: Sys, e: Step, k: Key, links: nat, before: nat)
    requires k.Key? && |s.procs| == links + 1 && Shape(s) && Enabled(s, e) && t == Next(s, e)
    requires before == Times(CallsFor(s, k, links + 1), links)
    ensures |t.procs| == links + 1 && before + StepAppends(s, t, e.p, k) == Times(CallsFor(t, k, links + 1), links)
  {
    StepCounted(s, t, e, k, links);
    TimesAdds(CallsFor(s, k, links + 1), CallsFor(t, k, links + 1) - CallsFor(s, k, links + 1), links);
  }

  lemma CallsByOne(p: Process, me: nat, k: Key)
    requires CallInv(p) && k.Key? && OriginAt(p.urb.pending, p.calls, me, k.m)
    ensures CallsBy(p, me, k) <= 1 + if me == k.origin && Bare(k.m) in p.urb.pending then 1 else 0
  {
    assert Direct(k.m) in p.calls ==> p.calls[Direct(k.m)] == 1;
    assert Relay(k.origin, k.m) in p.calls ==> p.calls[Relay(k.origin, k.m)] == 1;
  }

  lemma CallsAt(n: nat, es: seq<Step>, s: Sys, p: nat, k: Key)
    requires Reaches(n, es, s) && k.Key? && p < n == |s.procs|
    ensures CallsBy(s.procs[p], p, k) <= 1 + if p == k.origin && Bare(k.m) in s.procs[p].urb.pending then 1 else 0
  {
    ReachableInv(n, es, s);
    assert Own(s.procs[p], p, n);
    assert OriginAt(s.procs[p].urb.pending, s.procs[p].calls, p, k.m);
    CallsByOne(s.procs[p], p, k);
  }

  lemma {:induction false} CallsUpTo(n: nat, es: seq<Step>, s: Sys, k: Key, up: nat)
    requires Reaches(n, es, s) && k.Key? && up <= n == |s.procs| && k.origin < n
    ensures CallsFor(s, k, up) <= up + if k.origin < up && Bare(k.m) in s.procs[k.origin].urb.pending then 1 else 0
  {
    if up > 0 {
      CallsUpTo(n, es, s, k, up - 1);
      CallsAt(n, es, s, up - 1, k);
    }
  }

  /** A message costs at most n^2 - 1 appends to retransmission lists over any run, and at most n(n - 1) when it
      was broadcast with its origin-prefixed text. */
  lemma QuadraticTraffic(n: nat, es: seq<Step>, s: Sys, k: Key)
    requires Reaches(n, es, s) && |s.procs| == n && k.Key? && k.origin < n
    ensures RunAppends(n, es, k) <= n * n - 1
    ensures Bare(k.m) !in s.procs[k.origin].urb.pending ==> RunAppends(n, es, k) <= n * (n - 1)
  {
    AppendsCounted(n, es, s, k, n - 1);
    CallsUpTo(n, es, s, k, n);
    Bounds(CallsFor(s, k, n), n);
  }

  lemma {:induction false} TimesMonotone(x: nat, y: nat, z: nat)
    requires x <= y
    ensures Times(x, z) <= Times(y, z)
    decreases y
  {
    if x < y {
      TimesMonotone(x, y - 1, z);
    }
  }

  lemma Bounds(calls: nat, n: nat)
    requires calls <= n + 1 && n > 0
    ensures Times(calls, n - 1) <= n * n - 1
    ensures calls <= n ==> Times(calls, n - 1) <= n * (n - 1)
  {
    TimesMonotone(calls, n + 1, n - 1);
    TimesIsProduct(n, n - 1);
    assert Times(n + 1, n - 1) == Times(n, n - 1) + (n - 1);
    if calls <= n {
      TimesMonotone(calls, n, n - 1);
    }
  }
}
