/** What holds in every reachable state of the link and reliable-broadcast system. */
module UrbTheorems {
  import opened Messages
  import opened UrbProtocol
  import opened UrbSystem

  datatype Outcome = Stuck | At(s: Sys)

  /** Where the run `es` of n processes leads. */
  function After(n: nat, es: seq<Step>): Outcome {
    if es == [] then At(Init(n))
    else
      match After(n, es[..|es| - 1])
      case Stuck => Stuck
      case At(s) => if Shape(s) && Enabled(s, es[|es| - 1]) then At(Next(s, es[|es| - 1])) else Stuck
  }

  ghost predicate Reaches(n: nat, es: seq<Step>, s: Sys) {
    After(n, es) == At(s)
  }

  lemma {:induction false} ReachableInv(n: nat, es: seq<Step>, t: Sys)
    requires Reaches(n, es, t)
    ensures Inv(t) && |t.procs| == n
  {
    if es == [] {
      InitInv(n);
    } else {
      var s := After(n, es[..|es| - 1]).s;
      ReachableInv(n, es[..|es| - 1], s);
      NextInv(s, es[|es| - 1]);
    }
  }

  lemma Extend(n: nat, es: seq<Step>, s: Sys, e: Step)
    requires Reaches(n, es, s) && Shape(s) && Enabled(s, e)
    ensures Reaches(n, es + [e], Next(s, e))
  {
    assert (es + [e])[..|es + [e]| - 1] == es;
  }

  // ---------- counting ----------

  lemma {:induction false} InjectionCard<X, Y>(a: set<X>, b: set<Y>, f: X -> Y)
    requires forall x :: x in a ==> f(x) in b
    requires forall x, y :: x in a && y in a && f(x) == f(y) ==> x == y
    ensures |a| <= |b|
  {
    if a != {} {
      var x :| x in a;
      InjectionCard(a - {x}, b - {f(x)}, f);
    }
  }

  lemma {:induction false} UpTo(n: nat) returns (all: set<nat>)
    ensures forall x: nat :: x in all <==> x < n
    ensures |all| == n
  {
    if n == 0 {
      all := {};
    } else {
      var less := UpTo(n - 1);
      all := less + {n - 1};
    }
  }

  /** Two sets of processes that together number more than n have a common member. */
  lemma Overlap(a: set<nat>, b: set<nat>, n: nat) returns (x: nat)
    requires forall y :: y in a || y in b ==> y < n
    requires |a| + |b| > n
    ensures x in a && x in b
  {
    var all := UpTo(n);
    if a * b == {} {
      assert |a + b| == |a| + |b|;
      InjectionCard(a + b, all, (y: nat) => y);
      assert false;
    }
    x :| x in a * b;
  }

  // ---------- perfect links ----------

  /** A content given to a link is in its retransmission list until the target has received it, an
      acknowledgement in a queue or on the wire means that the packet was received, and nothing is received
      that was not sent. */
  lemma PerfectLinks(n: nat, es: seq<Step>, s: Sys, p: nat, q: nat, c: Content)
    requires Reaches(n, es, s) && p < n && q < n && p != q
    ensures Inv(s) && |s.procs| == n
    ensures c in s.procs[p].calls ==> c in s.procs[p].out[q] || (p, c) in s.procs[q].got
    ensures c in s.procs[q].acks[p] || Packet(true, p, q, c) in s.net ==> (p, c) in s.procs[q].got
    ensures (p, c) in s.procs[q].got ==> c in s.procs[p].calls
  {
    ReachableInv(n, es, s);
    assert Own(s.procs[q], q, n);
  }

  // ---------- majority-held delivery ----------

  /** The processes that hold a message: its origin once it broadcast it, and those that have it pending. */
  function Holders(s: Sys, k: Key): set<nat>
    requires k.Key?
  {
    set q: nat | q < |s.procs| && (k in s.procs[q].urb.pending || (q == k.origin && Direct(k.m) in s.procs[q].calls))
  }

  /** Each vote at p is charged to a holder: a relay to its sender, the direct copy to p itself. */
  lemma VotesAreHeld(s: Sys, p: nat, k: Key)
    requires Inv(s) && p < |s.procs| && k.Key? && k in s.procs[p].urb.pending
    ensures |Votes(s.procs[p].got, k)| <= |Holders(s, k)|
  {
    var f := (x: (nat, Content)) => if x.1.Direct? then p else x.0;
    forall x | x in Votes(s.procs[p].got, k)
      ensures f(x) in Holders(s, k)
    {
      assert Own(s.procs[x.0], x.0, |s.procs|);
    }
    InjectionCard(Votes(s.procs[p].got, k), Holders(s, k), f);
  }

  /** Whatever any process, crashed or not, has delivered is held by more than half of all processes and was
      broadcast by its origin, even though the origin may be counted twice among the acknowledgements. */
  lemma MajorityHeld(n: nat, es: seq<Step>, s: Sys, p: nat, k: Key)
    requires Reaches(n, es, s) && p < n && |s.procs| == n && k in s.procs[p].urb.delivered
    ensures k.Key? && k.origin < n && Direct(k.m) in s.procs[k.origin].calls
    ensures 2 * |Holders(s, k)| > n
  {
    ReachableInv(n, es, s);
    assert Own(s.procs[p], p, n);
    var votes := Votes(s.procs[p].got, k);
    assert |votes| > n / 2;
    assert votes != {};
    var x :| x in votes;
    VotesAreHeld(s, p, k);
  }

  /** The URB contract towards the upper layer: each message is handed over at most once, and only if its
      origin broadcast it. */
  lemma NoDuplicationNoCreation(n: nat, es: seq<Step>, s: Sys, p: nat)
    requires Reaches(n, es, s) && p < n && |s.procs| == n
    ensures forall i, j :: 0 <= i < j < |s.procs[p].handed| ==> s.procs[p].handed[i] != s.procs[p].handed[j]
    ensures forall k :: k in s.procs[p].handed ==> k.Key? && k.origin < n && Direct(k.m) in s.procs[k.origin].calls
  {
    ReachableInv(n, es, s);
    assert Own(s.procs[p], p, n);
    forall k | k in s.procs[p].handed
      ensures k.Key? && k.origin < n && Direct(k.m) in s.procs[k.origin].calls
    {
      MajorityHeld(n, es, s, p, k);
    }
  }

  // ---------- agreement at quiescence ----------

  function Live(s: Sys): set<nat> {
    set q: nat | q < |s.procs| && q !in s.crashed
  }

  /** Nothing is left to retransmit between live processes, and each has scanned its pending messages. */
  ghost predicate Quiescent(s: Sys)
    requires Shape(s)
  {
    && (forall p, q :: p in Live(s) && q in Live(s) && p != q ==> s.procs[p].out[q] == [])
    && (forall p, k :: p in Live(s) && k in s.procs[p].urb.pending && CanDeliver(s.procs[p].urb, |s.procs|, k) ==>
         k in s.procs[p].urb.delivered)
  }

  /** p has put the message on its links, as the origin or as a relay. */
  ghost predicate Shared(s: Sys, p: nat, k: Key)
    requires p < |s.procs| && k.Key?
  {
    (p == k.origin && Direct(k.m) in s.procs[p].calls) || Relay(k.origin, k.m) in s.procs[p].calls
  }

  lemma SharedReaches(s: Sys, p: nat, q: nat, k: Key) returns (c: Content)
    requires Inv(s) && Quiescent(s) && p in Live(s) && q in Live(s) && p != q && k.Key? && Shared(s, p, k)
    ensures (p, c) in Votes(s.procs[q].got, k)
    ensures k in s.procs[q].urb.pending && Shared(s, q, k)
  {
    c := if Relay(k.origin, k.m) in s.procs[p].calls then Relay(k.origin, k.m) else Direct(k.m);
    assert s.procs[p].out[q] == [];
    assert (p, c) in s.procs[q].got;
  }

  /** At quiescence, if one live process shared the message, every live process did... */
  lemma AllShare(s: Sys, h: nat, k: Key)
    requires Inv(s) && Quiescent(s) && h in Live(s) && k.Key? && Shared(s, h, k)
    ensures forall q :: q in Live(s) ==> Shared(s, q, k)
  {
    forall q | q in Live(s) ensures Shared(s, q, k) {
      if q != h { var _ := SharedReaches(s, h, q, k); }
    }
  }

  /** ... and each live process hears it from every other one. */
  lemma AllVote(s: Sys, q: nat, k: Key)
    requires Inv(s) && Quiescent(s) && q in Live(s) && k.Key? && |Live(s)| > 1
    requires forall r :: r in Live(s) ==> Shared(s, r, k)
    ensures k in s.procs[q].urb.pending && |Votes(s.procs[q].got, k)| >= |Live(s)| - 1
  {
    var votes := Votes(s.procs[q].got, k);
    var others := Live(s) - {q};
    var voters := set x | x in votes :: x.0;
    forall r | r in others ensures r in voters && k in s.procs[q].urb.pending {
      var c := SharedReaches(s, r, q, k);
      assert (r, c).0 == r;
    }
    ImageCard(votes);
    InjectionCard(others, voters, (r: nat) => r);
    assert |others| == |Live(s)| - 1 > 0;
    var r :| r in others;
  }

  lemma {:induction false} ImageCard(a: set<(nat, Content)>)
    ensures |set x | x in a :: x.0| <= |a|
  {
    if a != {} {
      var y :| y in a;
      var less := set x | x in a - {y} :: x.0;
      ImageCard(a - {y});
      assert (set x | x in a :: x.0) == less + {y.0};
    }
  }

  /** At quiescence a message that any process delivered is shared by a live one, if the live ones are a majority. */
  lemma DeliveredIsShared(n: nat, es: seq<Step>, s: Sys, p: nat, k: Key) returns (h: nat)
    requires Reaches(n, es, s) && Inv(s) && |s.procs| == n && p < n && k in s.procs[p].urb.delivered
    requires 2 * |Live(s)| >= n
    ensures k.Key? && h in Live(s) && Shared(s, h, k)
  {
    MajorityHeld(n, es, s, p, k);
    h := Overlap(Holders(s, k), Live(s), n);
  }

  /** Uniform agreement: with C live processes and C - 1 > n / 2, every live process has delivered each message
      that a live process broadcast or that any process, even one that crashed since, delivered. */
  lemma UniformAgreement(n: nat, es: seq<Step>, s: Sys, k: Key)
    requires Reaches(n, es, s) && Shape(s) && |s.procs| == n && Quiescent(s)
    requires |Live(s)| - 1 > n / 2
    requires || (k.Key? && k.origin in Live(s) && Direct(k.m) in s.procs[k.origin].calls)
             || (exists p :: 0 <= p < n && k in s.procs[p].urb.delivered)
    ensures forall q :: q in Live(s) ==> k in s.procs[q].urb.delivered
  {
    ReachableInv(n, es, s);
    var h: nat;
    if k.Key? && k.origin in Live(s) && Direct(k.m) in s.procs[k.origin].calls {
      h := k.origin;
    } else {
      var p :| 0 <= p < n && k in s.procs[p].urb.delivered;
      h := DeliveredIsShared(n, es, s, p, k);
    }
    AllShare(s, h, k);
    forall q | q in Live(s) ensures k in s.procs[q].urb.delivered {
      AllVote(s, q, k);
      assert Own(s.procs[q], q, n);
    }
  }

  // ---------- the bound is exact ----------

  /** The crashed processes whose relay of o's message m reached o. */
  function LateRelayers(s: Sys, o: nat, m: Stamped): set<nat>
    requires o < |s.procs|
  {
    set x | x in s.crashed && (x, Relay(o, m)) in s.procs[o].got
  }

  /** An origin hears the relay of each other process at most once, and nothing else counts for its message. */
  lemma OriginHears(s: Sys, o: nat, m: Stamped, x: (nat, Content))
    requires Inv(s) && o < |s.procs| && x in Votes(s.procs[o].got, Key(o, m))
    ensures x.1 == Relay(o, m) && x.0 < |s.procs| && x.0 != o
    ensures x.0 in Live(s) - {o} || x.0 in LateRelayers(s, o, m)
  {
  }

  lemma LiveRelays(s: Sys, o: nat, m: Stamped, q: nat)
    requires Inv(s) && Quiescent(s) && o in Live(s) && q in Live(s) && q != o && Direct(m) in s.procs[o].calls
    ensures (q, Relay(o, m)) in s.procs[o].got
  {
    AllShare(s, o, Key(o, m));
    assert Shared(s, q, Key(o, m));
    assert s.procs[q].out[o] == [];
  }

  /** At quiescence an origin has counted the relays of the other live processes, and those that crashed ones
      got through to it. */
  lemma OriginVotes(s: Sys, m: Stamped, o: nat)
    requires Inv(s) && Quiescent(s) && o in Live(s) && Direct(m) in s.procs[o].calls
    ensures |Votes(s.procs[o].got, Key(o, m))| == |Live(s)| - 1 + |LateRelayers(s, o, m)|
  {
    var votes, late := Votes(s.procs[o].got, Key(o, m)), LateRelayers(s, o, m);
    var others := Live(s) - {o};
    forall x | x in votes ensures x.1 == Relay(o, m) && x.0 in others + late {
      OriginHears(s, o, m, x);
    }
    forall q | q in others + late ensures (q, Relay(o, m)) in votes {
      if q in others { LiveRelays(s, o, m, q); }
    }
    InjectionCard(votes, others + late, (x: (nat, Content)) => x.0);
    InjectionCard(others + late, votes, (q: nat) => (q, Relay(o, m)));
    assert others !! late && |others| == |Live(s)| - 1;
  }

  /** A live origin delivers its own message if and only if the other live processes, and the crashed ones whose
      relay reached it, are more than half of all: it never acknowledges itself. */
  lemma OriginDelivers(n: nat, es: seq<Step>, s: Sys, o: nat, m: Stamped)
    requires Reaches(n, es, s) && Shape(s) && |s.procs| == n && Quiescent(s)
    requires o in Live(s) && Direct(m) in s.procs[o].calls
    ensures Key(o, m) in s.procs[o].urb.delivered <==> |Live(s)| - 1 + |LateRelayers(s, o, m)| > n / 2
  {
    ReachableInv(n, es, s);
    assert Own(s.procs[o], o, n);
    OriginVotes(s, m, o);
    var votes := Votes(s.procs[o].got, Key(o, m));
    if |votes| > n / 2 {
      assert votes != {};
      var x :| x in votes;
      assert Key(o, m) in s.procs[o].urb.pending && CanDeliver(s.procs[o].urb, n, Key(o, m));
    }
  }

  lemma Heard(s: Sys, r: nat, q: nat, c: Content)
    requires Inv(s) && Quiescent(s) && r in Live(s) && q in Live(s) && r != q && c in s.procs[r].calls
    ensures (r, c) in s.procs[q].got
  {
    assert s.procs[r].out[q] == [];
  }

  /** Once the origin has relayed its own message, another live process counts all live ones: the relay of
      each other one, and the origin's direct copy besides. */
  lemma DoubleCount(s: Sys, q: nat, k: Key)
    requires Inv(s) && Quiescent(s) && q in Live(s) && k.Key? && k.origin in Live(s) && q != k.origin
    requires forall r :: r in Live(s) ==> Shared(s, r, k)
    requires Direct(k.m) in s.procs[k.origin].calls && Relay(k.origin, k.m) in s.procs[k.origin].calls
    ensures |Votes(s.procs[q].got, k)| >= |Live(s)|
  {
    var votes := Votes(s.procs[q].got, k);
    var f := (r: nat) => if r == q then (k.origin, Direct(k.m)) else (r, Relay(k.origin, k.m));
    forall r | r in Live(s) ensures f(r) in votes {
      Heard(s, if r == q then k.origin else r, q, f(r).1);
    }
    InjectionCard(Live(s), votes, f);
  }

  /** At quiescence an origin that broadcast with the bare text has got its message back and relayed it. */
  lemma OriginRelayed(s: Sys, o: nat, q: nat, m: Stamped)
    requires Inv(s) && Quiescent(s) && o in Live(s) && q in Live(s) && q != o && Bare(m) in s.procs[o].urb.pending
    ensures Direct(m) in s.procs[o].calls && Relay(o, m) in s.procs[o].calls
  {
    assert Own(s.procs[o], o, |s.procs|);
    assert OriginAt(s.procs[o].urb.pending, s.procs[o].calls, o, m);
    AllShare(s, o, Key(o, m));
    var _ := SharedReaches(s, q, o, Key(o, m));
  }

  /** With the bare-text broadcast every other live process counts the origin twice, so it delivers already
      when C > n / 2. */
  lemma OthersDeliver(n: nat, es: seq<Step>, s: Sys, o: nat, q: nat, m: Stamped)
    requires Reaches(n, es, s) && Shape(s) && |s.procs| == n && Quiescent(s)
    requires o in Live(s) && q in Live(s) && q != o && Bare(m) in s.procs[o].urb.pending
    requires |Live(s)| > n / 2
    ensures Key(o, m) in s.procs[q].urb.delivered
  {
    ReachableInv(n, es, s);
    assert Own(s.procs[q], q, n);
    OriginRelayed(s, o, q, m);
    AllShare(s, o, Key(o, m));
    DoubleCount(s, q, Key(o, m));
    var _ := SharedReaches(s, o, q, Key(o, m));
  }

  /** Agreement therefore breaks in every such run with C > n / 2 in which the origin counts no more than n / 2: all
      other live processes deliver the message of a live origin, and the origin itself does not. */
  lemma AgreementBreaks(n: nat, es: seq<Step>, s: Sys, o: nat, m: Stamped)
    requires Reaches(n, es, s) && Shape(s) && |s.procs| == n && Quiescent(s)
    requires o in Live(s) && Bare(m) in s.procs[o].urb.pending
    requires |Live(s)| > n / 2 >= |Live(s)| - 1 + |LateRelayers(s, o, m)|
    ensures Key(o, m) !in s.procs[o].urb.delivered
    ensures forall q :: q in Live(s) && q != o ==> Key(o, m) in s.procs[q].urb.delivered
  {
    ReachableInv(n, es, s);
    assert Own(s.procs[o], o, n);
    assert OriginAt(s.procs[o].urb.pending, s.procs[o].calls, o, m);
    OriginDelivers(n, es, s, o, m);
    forall q | q in Live(s) && q != o ensures Key(o, m) in s.procs[q].urb.delivered {
      OthersDeliver(n, es, s, o, q, m);
    }
  }

  // ---------- a pass over the pending messages ----------

  /** What a pass has changed once it has handed over ks. */
  function HandedAll(s: Sys, p: nat, ks: seq<Key>): Sys
    requires p < |s.procs|
  {
    var a := s.procs[p];
    var urb := a.urb.(delivered := a.urb.delivered + set k | k in ks);
    s.(procs := s.procs[p := a.(urb := urb, handed := a.handed + ks)])
  }

  lemma HandedOne(s: Sys, p: nat, k: Key, ks: seq<Key>)
    requires Shape(s) && p < |s.procs| && Enabled(s, HandOver(p, k))
    ensures HandedAll(Next(s, HandOver(p, k)), p, ks) == HandedAll(s, p, [k] + ks)
  {
    var a := s.procs[p];
    assert a.handed + [k] + ks == a.handed + ([k] + ks);
    assert (a.urb.delivered + {k}) + (set x | x in ks) == a.urb.delivered + set x | x in [k] + ks;
  }

  lemma HandedNone(s: Sys, p: nat)
    requires p < |s.procs|
    ensures HandedAll(s, p, []) == s
  {
    var a := s.procs[p];
    assert a.handed + [] == a.handed && a.urb.delivered + (set k | k in []) == a.urb.delivered;
    assert s.procs[p := a] == s.procs;
  }

  lemma Regroup(n: nat, es: seq<Step>, e: Step, rest: seq<Step>, t: Sys)
    requires Reaches(n, es + [e] + rest, t)
    ensures Reaches(n, es + ([e] + rest), t)
  {
    assert es + [e] + rest == es + ([e] + rest);
  }

  lemma PassStep(s: Sys, n: nat, p: nat, i: nat)
    requires Shape(s) && |s.procs| == n && p < n && p !in s.crashed && i < |s.procs[p].urb.pending|
    requires var u, k := s.procs[p].urb, s.procs[p].urb.pending[i]; CanDeliver(u, n, k) && k !in u.delivered
    ensures var e := HandOver(p, s.procs[p].urb.pending[i]);
            && Enabled(s, e) && Shape(Next(s, e)) && Next(s, e).crashed == s.crashed && |Next(s, e).procs| == n
            && Next(s, e).procs[p].urb.pending == s.procs[p].urb.pending
            && HandedAll(Next(s, e), p, HandOvers(Next(s, e).procs[p].urb, n, i + 1))
               == HandedAll(s, p, HandOvers(s.procs[p].urb, n, i))
  {
    var e := HandOver(p, s.procs[p].urb.pending[i]);
    HandedOne(s, p, e.k, HandOvers(Next(s, e).procs[p].urb, n, i + 1));
  }

  /** One pass of the delivery loop from position i on is a sequence of single hand-overs. */
  lemma {:induction false} PassIsARun(n: nat, es: seq<Step>, s: Sys, p: nat, i: nat) returns (more: seq<Step>)
    requires Reaches(n, es, s) && Shape(s) && |s.procs| == n && p < n && p !in s.crashed
    requires i <= |s.procs[p].urb.pending|
    ensures Reaches(n, es + more, HandedAll(s, p, HandOvers(s.procs[p].urb, n, i)))
    ensures forall e :: e in more ==> e.HandOver? && e.p == p
    decreases |s.procs[p].urb.pending| - i
  {
    if i == |s.procs[p].urb.pending| {
      HandedNone(s, p);
      more := [];
      assert es + more == es;
    } else {
      var u, k := s.procs[p].urb, s.procs[p].urb.pending[i];
      if CanDeliver(u, n, k) && k !in u.delivered {
        var e := HandOver(p, k);
        PassStep(s, n, p, i);
        Extend(n, es, s, e);
        var rest := PassIsARun(n, es + [e], Next(s, e), p, i + 1);
        Regroup(n, es, e, rest, HandedAll(s, p, HandOvers(u, n, i)));
        more := [e] + rest;
      } else {
        more := PassIsARun(n, es, s, p, i + 1);
      }
    }
  }
}
