/** The delivery rule of localized causal broadcast at one process, as functions on values: the clock, the
    messages waiting with their clocks, and the scan over them. Generic in how a waiting message is written. */
module LcbProtocol {

  type Clock = map<nat, nat>

  /** An absent entry reads as zero. */
  function At(vc: Clock, r: nat): nat {
    if r in vc then vc[r] else 0
  }

  function Bump(vc: Clock, r: nat): Clock {
    vc[r := At(vc, r) + 1]
  }

  predicate Inferior(w: Clock, vc: Clock) {
    forall r :: r in w ==> w[r] <= At(vc, r)
  }

  /** The clock that a list of written entries denotes: the last entry of a process wins. */
  function ClockOf(stamp: seq<(nat, nat)>): Clock {
    if stamp == [] then map[]
    else ClockOf(stamp[..|stamp| - 1])[stamp[|stamp| - 1].0 := stamp[|stamp| - 1].1]
  }

  /** One clock entry per dependency, in list order. */
  function Entries(vc: Clock, deps: seq<nat>): seq<(nat, nat)> {
    if deps == [] then []
    else Entries(vc, deps[..|deps| - 1]) + [(deps[|deps| - 1], At(vc, deps[|deps| - 1]))]
  }

  /** An entry that no later one of its process follows is what the clock holds, and there is no other entry. */
  lemma {:induction false} ClockOfReads(stamp: seq<(nat, nat)>, i: nat)
    requires i < |stamp| && forall j :: i < j < |stamp| ==> stamp[j].0 != stamp[i].0
    ensures stamp[i].0 in ClockOf(stamp) && ClockOf(stamp)[stamp[i].0] == stamp[i].1
  {
    if i < |stamp| - 1 {
      ClockOfReads(stamp[..|stamp| - 1], i);
    }
  }

  lemma {:induction false} ClockOfKeys(stamp: seq<(nat, nat)>, r: nat)
    ensures r in ClockOf(stamp) <==> exists i :: 0 <= i < |stamp| && stamp[i].0 == r
  {
    if stamp != [] {
      ClockOfKeys(stamp[..|stamp| - 1], r);
      assert stamp == stamp[..|stamp| - 1] + [stamp[|stamp| - 1]];
    }
  }

  lemma {:induction false} EntriesRead(vc: Clock, deps: seq<nat>)
    ensures |Entries(vc, deps)| == |deps|
    ensures forall i :: 0 <= i < |deps| ==> Entries(vc, deps)[i] == (deps[i], At(vc, deps[i]))
  {
    if deps != [] {
      EntriesRead(vc, deps[..|deps| - 1]);
    }
  }

  /** The clock and the waiting messages. */
  datatype Inbox<K> = Inbox(vc: Clock, pairs: map<K, Clock>)

  predicate Deliverable<K>(b: Inbox<K>, k: K) {
    k in b.pairs && Inferior(b.pairs[k], b.vc)
  }

  predicate Stuck<K>(b: Inbox<K>) {
    forall k :: k in b.pairs ==> !Deliverable(b, k)
  }

  function Deliver<K>(b: Inbox<K>, k: K, origin: K -> nat): Inbox<K> {
    Inbox(Bump(b.vc, origin(k)), b.pairs - {k})
  }

  /** What one scan delivers when it visits the waiting messages in the given order. */
  function Scan<K>(b: Inbox<K>, order: seq<K>, origin: K -> nat): seq<K>
    decreases |order|
  {
    if order == [] then []
    else if Deliverable(b, order[0]) then [order[0]] + Scan(Deliver(b, order[0], origin), order[1..], origin)
    else Scan(b, order[1..], origin)
  }

  function DeliverAll<K>(b: Inbox<K>, ks: seq<K>, origin: K -> nat): Inbox<K>
    decreases |ks|
  {
    if ks == [] then b else DeliverAll(Deliver(b, ks[0], origin), ks[1..], origin)
  }

  /** Each message of ks is deliverable when its turn comes. */
  predicate Allowed<K>(b: Inbox<K>, ks: seq<K>, origin: K -> nat)
    decreases |ks|
  {
    ks != [] ==> Deliverable(b, ks[0]) && Allowed(Deliver(b, ks[0], origin), ks[1..], origin)
  }

  /** A scan is a sequence of allowed deliveries. */
  lemma {:induction false} ScanAllowed<K>(b: Inbox<K>, order: seq<K>, origin: K -> nat)
    ensures Allowed(b, Scan(b, order, origin), origin)
    decreases |order|
  {
    if order != [] {
      if Deliverable(b, order[0]) {
        ScanAllowed(Deliver(b, order[0], origin), order[1..], origin);
        assert ([order[0]] + Scan(Deliver(b, order[0], origin), order[1..], origin))[1..]
            == Scan(Deliver(b, order[0], origin), order[1..], origin);
      } else {
        ScanAllowed(b, order[1..], origin);
      }
    }
  }

  lemma {:induction false} DeliverAllSnoc<K>(b: Inbox<K>, ks: seq<K>, k: K, origin: K -> nat)
    ensures DeliverAll(b, ks + [k], origin) == Deliver(DeliverAll(b, ks, origin), k, origin)
    decreases |ks|
  {
    if ks == [] {
      assert [k][1..] == [];
    } else {
      assert (ks + [k])[1..] == ks[1..] + [k];
      DeliverAllSnoc(Deliver(b, ks[0], origin), ks[1..], k, origin);
    }
  }

  /** The next message of the order is released exactly when it is deliverable after what was released before it. */
  lemma {:induction false} ScanSnoc<K>(b: Inbox<K>, order: seq<K>, k: K, origin: K -> nat)
    ensures Scan(b, order + [k], origin) == Scan(b, order, origin)
      + if Deliverable(DeliverAll(b, Scan(b, order, origin), origin), k) then [k] else []
    decreases |order|
  {
    if order == [] {
      assert [k][1..] == [];
    } else {
      assert (order + [k])[1..] == order[1..] + [k];
      if Deliverable(b, order[0]) {
        ScanSnoc(Deliver(b, order[0], origin), order[1..], k, origin);
        assert Scan(b, order, origin)[1..] == Scan(Deliver(b, order[0], origin), order[1..], origin);
      } else {
        ScanSnoc(b, order[1..], k, origin);
      }
    }
  }

  // ---------- what a sequence of deliveries does ----------

  function From<K>(ks: seq<K>, r: nat, origin: K -> nat): set<K> {
    set k | k in ks && origin(k) == r
  }

  /** The delivered messages leave `pairs`. */
  lemma {:induction false} PairsLeft<K>(b: Inbox<K>, ks: seq<K>, origin: K -> nat)
    requires Allowed(b, ks, origin)
    ensures forall k :: k in ks ==> k in b.pairs
    ensures DeliverAll(b, ks, origin).pairs == b.pairs - (set k | k in ks)
    decreases |ks|
  {
    if ks != [] {
      PairsLeft(Deliver(b, ks[0], origin), ks[1..], origin);
      assert ks == [ks[0]] + ks[1..];
    }
  }

  lemma FromHead<K>(ks: seq<K>, r: nat, origin: K -> nat)
    requires ks != [] && ks[0] !in ks[1..]
    ensures |From(ks, r, origin)| == |From(ks[1..], r, origin)| + if origin(ks[0]) == r then 1 else 0
  {
    assert ks == [ks[0]] + ks[1..];
    if origin(ks[0]) == r {
      assert From(ks, r, origin) == From(ks[1..], r, origin) + {ks[0]};
    } else {
      assert From(ks, r, origin) == From(ks[1..], r, origin);
    }
  }

  /** Each delivered message adds one to its origin's entry. */
  lemma {:induction false} EntryAfter<K>(b: Inbox<K>, ks: seq<K>, r: nat, origin: K -> nat)
    requires Allowed(b, ks, origin)
    ensures At(DeliverAll(b, ks, origin).vc, r) == At(b.vc, r) + |From(ks, r, origin)|
    decreases |ks|
  {
    if ks == [] {
      assert From(ks, r, origin) == {};
    } else {
      PairsLeft(Deliver(b, ks[0], origin), ks[1..], origin);
      FromHead(ks, r, origin);
      EntryAfter(Deliver(b, ks[0], origin), ks[1..], r, origin);
    }
  }

  ghost function Origins<K>(ks: seq<K>, origin: K -> nat): set<nat> {
    set k | k in ks :: origin(k)
  }

  lemma {:induction false} ClockKeys<K>(b: Inbox<K>, ks: seq<K>, origin: K -> nat)
    ensures DeliverAll(b, ks, origin).vc.Keys == b.vc.Keys + Origins(ks, origin)
    decreases |ks|
  {
    if ks != [] {
      ClockKeys(Deliver(b, ks[0], origin), ks[1..], origin);
      assert ks == [ks[0]] + ks[1..];
      assert Origins(ks, origin) == {origin(ks[0])} + Origins(ks[1..], origin);
    }
  }

  lemma {:induction false} SubsetCard<K>(a: set<K>, b: set<K>)
    requires a <= b
    ensures |a| <= |b|
  {
    if a != {} {
      var x :| x in a;
      SubsetCard(a - {x}, b - {x});
    }
  }

  // ---------- confluence ----------

  lemma AllowedPrefix<K>(b: Inbox<K>, ks: seq<K>, i: nat, origin: K -> nat)
    requires Allowed(b, ks, origin) && i <= |ks|
    ensures Allowed(b, ks[..i], origin)
    ensures i < |ks| ==> Deliverable(DeliverAll(b, ks[..i], origin), ks[i])
    decreases i
  {
    if i > 0 {
      var b1 := Deliver(b, ks[0], origin);
      AllowedPrefix(b1, ks[1..], i - 1, origin);
      assert ks[..i][1..] == ks[1..][..i - 1];
    }
  }

  /** What can be delivered with fewer messages delivered can still be delivered with more. */
  lemma StillDeliverable<K>(b: Inbox<K>, less: seq<K>, more: seq<K>, k: K, origin: K -> nat)
    requires Allowed(b, less, origin) && Allowed(b, more, origin) && (forall x :: x in less ==> x in more)
    requires Deliverable(DeliverAll(b, less, origin), k) && k !in more
    ensures Deliverable(DeliverAll(b, more, origin), k)
  {
    var now, fin := DeliverAll(b, less, origin), DeliverAll(b, more, origin);
    PairsLeft(b, less, origin);
    PairsLeft(b, more, origin);
    forall r | r in now.pairs[k] ensures now.pairs[k][r] <= At(fin.vc, r) {
      EntryAfter(b, less, r, origin);
      EntryAfter(b, more, r, origin);
      SubsetCard(From(less, r, origin), From(more, r, origin));
    }
  }

  /** A maximal sequence of deliveries contains every allowed sequence. */
  lemma {:induction false} MaximalContains<K>(b: Inbox<K>, a: seq<K>, c: seq<K>, i: nat, origin: K -> nat)
    requires Allowed(b, a, origin) && Stuck(DeliverAll(b, a, origin)) && Allowed(b, c, origin) && i <= |c|
    ensures forall j :: 0 <= j < i ==> c[j] in a
  {
    if i > 0 {
      MaximalContains(b, a, c, i - 1, origin);
      AllowedPrefix(b, c, i - 1, origin);
      if c[i - 1] !in a {
        StillDeliverable(b, c[..i - 1], a, c[i - 1], origin);
        assert false;
      }
    }
  }

  lemma SameDelivered<K>(b: Inbox<K>, a: seq<K>, c: seq<K>, origin: K -> nat)
    requires Allowed(b, a, origin) && Allowed(b, c, origin) && forall k :: k in a <==> k in c
    ensures DeliverAll(b, a, origin) == DeliverAll(b, c, origin)
  {
    PairsLeft(b, a, origin);
    PairsLeft(b, c, origin);
    ClockKeys(b, a, origin);
    ClockKeys(b, c, origin);
    assert Origins(a, origin) == Origins(c, origin);
    var x, y := DeliverAll(b, a, origin).vc, DeliverAll(b, c, origin).vc;
    forall r | r in x ensures x[r] == y[r] {
      EntryAfter(b, a, r, origin);
      EntryAfter(b, c, r, origin);
      assert From(a, r, origin) == From(c, r, origin);
    }
    assert x == y;
  }

  /** Draining until nothing is deliverable gives one result, whatever order each scan visits the messages in:
      the same messages delivered, the same left waiting, and the same clock. */
  lemma DrainConfluence<K>(b: Inbox<K>, a: seq<K>, c: seq<K>, origin: K -> nat)
    requires Allowed(b, a, origin) && Stuck(DeliverAll(b, a, origin))
    requires Allowed(b, c, origin) && Stuck(DeliverAll(b, c, origin))
    ensures (set k | k in a) == (set k | k in c)
    ensures DeliverAll(b, a, origin) == DeliverAll(b, c, origin)
  {
    MaximalContains(b, a, c, |c|, origin);
    MaximalContains(b, c, a, |a|, origin);
    SameDelivered(b, a, c, origin);
  }

  // ---------- several scans ----------

  lemma {:induction false} DeliverAllAppend<K>(b: Inbox<K>, a: seq<K>, c: seq<K>, origin: K -> nat)
    ensures DeliverAll(b, a + c, origin) == DeliverAll(DeliverAll(b, a, origin), c, origin)
    decreases |a|
  {
    if a == [] {
      assert a + c == c;
    } else {
      assert (a + c)[0] == a[0] && (a + c)[1..] == a[1..] + c;
      DeliverAllAppend(Deliver(b, a[0], origin), a[1..], c, origin);
    }
  }

  lemma {:induction false} AllowedAppend<K>(b: Inbox<K>, a: seq<K>, c: seq<K>, origin: K -> nat)
    requires Allowed(b, a, origin) && Allowed(DeliverAll(b, a, origin), c, origin)
    ensures Allowed(b, a + c, origin)
    decreases |a|
  {
    if a == [] {
      assert a + c == c;
    } else {
      assert (a + c)[0] == a[0] && (a + c)[1..] == a[1..] + c;
      AllowedAppend(Deliver(b, a[0], origin), a[1..], c, origin);
    }
  }

  /** The inbox after one scan per given order. */
  function Scans<K>(b: Inbox<K>, orders: seq<seq<K>>, origin: K -> nat): Inbox<K>
    decreases |orders|
  {
    if orders == [] then b
    else Scans(DeliverAll(b, Scan(b, orders[0], origin), origin), orders[1..], origin)
  }

  /** What these scans deliver, one after the other. */
  function Scanned<K>(b: Inbox<K>, orders: seq<seq<K>>, origin: K -> nat): seq<K>
    decreases |orders|
  {
    if orders == [] then []
    else
      var ks := Scan(b, orders[0], origin);
      ks + Scanned(DeliverAll(b, ks, origin), orders[1..], origin)
  }

  /** Several scans are one sequence of allowed deliveries. */
  lemma {:induction false} ScansAllowed<K>(b: Inbox<K>, orders: seq<seq<K>>, origin: K -> nat)
    ensures Allowed(b, Scanned(b, orders, origin), origin)
    ensures Scans(b, orders, origin) == DeliverAll(b, Scanned(b, orders, origin), origin)
    decreases |orders|
  {
    if orders != [] {
      var ks := Scan(b, orders[0], origin);
      var more := Scanned(DeliverAll(b, ks, origin), orders[1..], origin);
      ScanAllowed(b, orders[0], origin);
      ScansAllowed(DeliverAll(b, ks, origin), orders[1..], origin);
      AllowedAppend(b, ks, more, origin);
      DeliverAllAppend(b, ks, more, origin);
    }
  }

  /** Scanning until nothing is deliverable ends with the same clock, the same delivered set and the same messages
      left, however many scans it takes and whatever order each of them visits the messages in. */
  lemma ScansConfluence<K>(b: Inbox<K>, x: seq<seq<K>>, y: seq<seq<K>>, origin: K -> nat)
    requires Stuck(Scans(b, x, origin)) && Stuck(Scans(b, y, origin))
    ensures Scans(b, x, origin) == Scans(b, y, origin)
    ensures (set k | k in Scanned(b, x, origin)) == (set k | k in Scanned(b, y, origin))
  {
    ScansAllowed(b, x, origin);
    ScansAllowed(b, y, origin);
    DrainConfluence(b, Scanned(b, x, origin), Scanned(b, y, origin), origin);
  }

  // ---------- progress ----------

  ghost predicate Covers<K>(order: seq<K>, b: Inbox<K>) {
    forall k :: k in b.pairs ==> k in order
  }

  /** A scan that visits a deliverable message delivers something. */
  lemma {:induction false} ScanProgress<K>(b: Inbox<K>, order: seq<K>, k: K, origin: K -> nat)
    requires Deliverable(b, k) && k in order
    ensures Scan(b, order, origin) != []
  {
    if !Deliverable(b, order[0]) {
      ScanProgress(b, order[1..], k, origin);
    }
  }

  /** The waiting messages of r that come before the given time. */
  function Earlier<K>(b: Inbox<K>, r: nat, before: nat, time: K -> nat, origin: K -> nat): set<K> {
    set k | k in b.pairs && origin(k) == r && time(k) < before
  }

  /** Nothing is missing: each entry of a waiting message's clock is made up by what was delivered already and
      by earlier messages that are waiting too. */
  ghost predicate Complete<K>(b: Inbox<K>, time: K -> nat, origin: K -> nat) {
    forall k, r :: k in b.pairs && r in b.pairs[k] ==>
      b.pairs[k][r] <= At(b.vc, r) + |Earlier(b, r, time(k), time, origin)|
  }

  lemma {:induction false} Earliest<K>(ks: set<K>, time: K -> nat) returns (k: K)
    requires ks != {}
    ensures k in ks && forall x :: x in ks ==> time(k) <= time(x)
  {
    k :| k in ks;
    if ks != {k} {
      var x := Earliest(ks - {k}, time);
      if time(x) < time(k) { k := x; }
    }
  }

  lemma CompleteProgress<K>(b: Inbox<K>, time: K -> nat, origin: K -> nat) returns (k: K)
    requires Complete(b, time, origin) && b.pairs != map[]
    ensures Deliverable(b, k)
  {
    assert b.pairs.Keys != {};
    k := Earliest(b.pairs.Keys, time);
    forall r | r in b.pairs[k] ensures b.pairs[k][r] <= At(b.vc, r) {
      assert Earlier(b, r, time(k), time, origin) == {};
    }
  }

  lemma CompleteKept<K>(b: Inbox<K>, d: K, time: K -> nat, origin: K -> nat)
    requires Complete(b, time, origin) && d in b.pairs
    ensures Complete(Deliver(b, d, origin), time, origin)
  {
    var b1 := Deliver(b, d, origin);
    forall k, r | k in b1.pairs && r in b1.pairs[k]
      ensures b1.pairs[k][r] <= At(b1.vc, r) + |Earlier(b1, r, time(k), time, origin)|
    {
      var was, now := Earlier(b, r, time(k), time, origin), Earlier(b1, r, time(k), time, origin);
      assert b1.pairs[k] == b.pairs[k];
      assert b.pairs[k][r] <= At(b.vc, r) + |was|;
      assert At(b1.vc, r) == At(b.vc, r) + if origin(d) == r then 1 else 0;
      assert now == was - {d};
      if d in was {
        assert |now| == |was| - 1;
      } else {
        assert now == was;
      }
    }
  }

  lemma {:induction false} CompleteKeptAll<K>(b: Inbox<K>, ks: seq<K>, time: K -> nat, origin: K -> nat)
    requires Complete(b, time, origin) && Allowed(b, ks, origin)
    ensures Complete(DeliverAll(b, ks, origin), time, origin)
    decreases |ks|
  {
    if ks != [] {
      CompleteKept(b, ks[0], time, origin);
      CompleteKeptAll(Deliver(b, ks[0], origin), ks[1..], time, origin);
    }
  }

  /** A scan of a complete inbox leaves fewer messages waiting. */
  lemma ScanShrinks<K>(b: Inbox<K>, order: seq<K>, time: K -> nat, origin: K -> nat)
    requires Complete(b, time, origin) && Covers(order, b)
    ensures var b1 := DeliverAll(b, Scan(b, order, origin), origin);
            && Complete(b1, time, origin) && b1.pairs.Keys <= b.pairs.Keys
            && (b.pairs != map[] ==> |b1.pairs| < |b.pairs|)
  {
    var ks := Scan(b, order, origin);
    var b1 := DeliverAll(b, ks, origin);
    ScanAllowed(b, order, origin);
    PairsLeft(b, ks, origin);
    CompleteKeptAll(b, ks, time, origin);
    if b.pairs != map[] {
      var k := CompleteProgress(b, time, origin);
      ScanProgress(b, order, k, origin);
      SubsetCard(b1.pairs.Keys, b.pairs.Keys - {ks[0]});
    }
  }

  /** When nothing is missing, as many scans as there are waiting messages deliver them all. */
  lemma {:induction false} DrainsCompletely<K>(b: Inbox<K>, orders: seq<seq<K>>, time: K -> nat, origin: K -> nat)
    requires Complete(b, time, origin) && |b.pairs| <= |orders|
    requires forall i :: 0 <= i < |orders| ==> Covers(orders[i], b)
    ensures Scans(b, orders, origin).pairs == map[]
    decreases |orders|
  {
    if orders != [] {
      assert Covers(orders[0], b);
      ScanShrinks(b, orders[0], time, origin);
      var b1 := DeliverAll(b, Scan(b, orders[0], origin), origin);
      forall i | 0 <= i < |orders[1..]| ensures Covers(orders[1..][i], b1) {
        assert Covers(orders[i + 1], b);
      }
      DrainsCompletely(b1, orders[1..], time, origin);
    }
  }
}
