/** The causal layer on texts does what the moves of the stack do: clocks by identifier and waiting messages as
    texts stand for clocks by process number and structured keys. */
module CausalRefinement {
  import opened Messages
  import opened StdList
  import opened Text
  import opened Codec
  import opened LcbProtocol
  import opened Rendering
  import opened Causal
  import R = Refinement
  import S = Stack

  // ---------- clocks ----------

  /** The clock w with identifiers instead of process numbers. */
  ghost predicate SameClock(tw: Clock, w: Clock) {
    0 !in tw && forall r: nat :: (r + 1 in tw <==> r in w) && (r in w ==> tw[r + 1] == w[r])
  }

  ghost predicate SameCounts(tvc: Clock, vc: Clock) {
    forall r: nat :: At(tvc, r + 1) == At(vc, r)
  }

  lemma {:induction false} ClockOfIds(es: seq<(nat, nat)>)
    ensures SameClock(ClockOf(Ids(es)), ClockOf(es))
  {
    if es != [] {
      var init := es[..|es| - 1];
      ClockOfIds(init);
      assert Ids(es)[..|es| - 1] == Ids(init);
    }
  }

  lemma SameTest(tw: Clock, w: Clock, tvc: Clock, vc: Clock)
    requires SameClock(tw, w) && SameCounts(tvc, vc)
    ensures Inferior(tw, tvc) <==> Inferior(w, vc)
  {
    if Inferior(w, vc) {
      forall r | r in tw ensures tw[r] <= At(tvc, r) {
        var z: nat := r - 1;
        assert z + 1 in tw && At(tvc, z + 1) == At(vc, z);
      }
    } else {
      var r :| r in w && w[r] > At(vc, r);
      assert r + 1 in tw;
    }
  }

  // ---------- waiting messages ----------

  /** The keys in `keys` have clean messages and different texts. */
  ghost predicate Distinguished(keys: set<Key>) {
    && (forall k :: k in keys ==> k.Key? && k.origin < 999 && CleanMessage(k.m))
    && forall k, x :: k in keys && x in keys && KeyText(k) == KeyText(x) ==> k == x
  }

  ghost predicate IsTextOf(t: string, pairs: map<Key, Clock>) {
    exists k :: k in pairs && KeyText(k) == t
  }

  ghost predicate Stands(k: Key, w: Clock, texts: map<string, Clock>) {
    KeyText(k) in texts && SameClock(texts[KeyText(k)], w)
  }

  ghost predicate PairsRender(pairs: map<Key, Clock>, texts: map<string, Clock>) {
    (forall k :: k in pairs ==> Stands(k, pairs[k], texts)) && forall t :: t in texts ==> IsTextOf(t, pairs)
  }

  ghost predicate InboxRenders(b: Inbox<Key>, t: Inbox<string>) {
    SameCounts(t.vc, b.vc) && PairsRender(b.pairs, t.pairs)
  }

  lemma OriginIs(k: Key)
    requires k.Key? && k.origin < 999
    ensures OriginOf(KeyText(k)) == S.Origin(k) + 1
  {
    FirstThree(k.origin + 1);
    assert Sub(KeyText(k), 0, 3) == Pad3(k.origin + 1);
    assert Pad3(k.origin + 1)[..3] == Pad3(k.origin + 1);
  }

  lemma WaitsIff(keys: set<Key>, pairs: map<Key, Clock>, texts: map<string, Clock>, k: Key)
    requires Distinguished(keys) && pairs.Keys <= keys && k in keys && PairsRender(pairs, texts)
    ensures KeyText(k) in texts <==> k in pairs
  {
    if k in pairs {
      assert Stands(k, pairs[k], texts);
    }
    if KeyText(k) in texts {
      assert IsTextOf(KeyText(k), pairs);
      var x :| x in pairs && KeyText(x) == KeyText(k);
    }
  }

  lemma DeliverableIff(keys: set<Key>, b: Inbox<Key>, t: Inbox<string>, k: Key)
    requires Distinguished(keys) && b.pairs.Keys <= keys && k in keys && InboxRenders(b, t)
    ensures Deliverable(t, KeyText(k)) <==> Deliverable(b, k)
  {
    WaitsIff(keys, b.pairs, t.pairs, k);
    if k in b.pairs {
      assert Stands(k, b.pairs[k], t.pairs);
      SameTest(t.pairs[KeyText(k)], b.pairs[k], t.vc, b.vc);
    }
  }

  lemma BumpRefines(tvc: Clock, vc: Clock, r: nat)
    requires SameCounts(tvc, vc)
    ensures SameCounts(Bump(tvc, r + 1), Bump(vc, r))
  {
    forall z: nat ensures At(Bump(tvc, r + 1), z + 1) == At(Bump(vc, r), z) {
      assert At(tvc, z + 1) == At(vc, z);
    }
  }

  lemma OthersStand(k: Key, w: Clock, texts: map<string, Clock>, t: string, tw: Clock)
    requires Stands(k, w, texts) && t != KeyText(k)
    ensures Stands(k, w, texts - {t}) && Stands(k, w, texts[t := tw])
  {
  }

  lemma TextsDiffer(keys: set<Key>, k: Key)
    requires Distinguished(keys) && k in keys
    ensures forall x :: x in keys && x != k ==> KeyText(x) != KeyText(k)
  {
  }

  lemma TakeRefines(pairs: map<Key, Clock>, texts: map<string, Clock>, k: Key)
    requires PairsRender(pairs, texts) && forall x :: x in pairs && x != k ==> KeyText(x) != KeyText(k)
    ensures PairsRender(pairs - {k}, texts - {KeyText(k)})
  {
    var p1, t1 := pairs - {k}, texts - {KeyText(k)};
    forall x | x in p1 ensures Stands(x, p1[x], t1) {
      OthersStand(x, pairs[x], texts, KeyText(k), map[]);
    }
    forall t | t in t1 ensures IsTextOf(t, p1) {
      assert IsTextOf(t, pairs);
      var x :| x in pairs && KeyText(x) == t;
      assert x in p1;
    }
  }

  lemma DeliverRefines(keys: set<Key>, b: Inbox<Key>, t: Inbox<string>, k: Key)
    requires Distinguished(keys) && b.pairs.Keys <= keys && k in keys && InboxRenders(b, t)
    ensures InboxRenders(Deliver(b, k, S.Origin), Deliver(t, KeyText(k), OriginOf))
  {
    OriginIs(k);
    BumpRefines(t.vc, b.vc, S.Origin(k));
    TextsDiffer(keys, k);
    TakeRefines(b.pairs, t.pairs, k);
  }

  /** A scan over the texts delivers the texts of what the scan over the structured keys, in the same order,
      delivers. */
  lemma {:induction false} ScanRefines(keys: set<Key>, b: Inbox<Key>, t: Inbox<string>, order: seq<Key>)
    requires Distinguished(keys) && b.pairs.Keys <= keys && (forall k :: k in order ==> k in keys) && InboxRenders(b, t)
    ensures Scan(t, R.KeyTexts(order), OriginOf) == R.KeyTexts(Scan(b, order, S.Origin))
    decreases |order|
  {
    if order != [] {
      var k, rest := order[0], order[1..];
      assert order == [k] + rest;
      EachCons(KeyText, k, rest);
      assert R.KeyTexts(order)[0] == KeyText(k) && R.KeyTexts(order)[1..] == R.KeyTexts(rest);
      DeliverableIff(keys, b, t, k);
      if Deliverable(b, k) {
        DeliverRefines(keys, b, t, k);
        ScanRefines(keys, Deliver(b, k, S.Origin), Deliver(t, KeyText(k), OriginOf), rest);
        EachCons(KeyText, k, Scan(Deliver(b, k, S.Origin), rest, S.Origin));
      } else {
        ScanRefines(keys, b, t, rest);
      }
    }
  }

  /** And it leaves the clock and the waiting texts that stand for the structured ones. */
  lemma {:induction false} DeliverAllRefines(keys: set<Key>, b: Inbox<Key>, t: Inbox<string>, ks: seq<Key>)
    requires Distinguished(keys) && b.pairs.Keys <= keys && (forall k :: k in ks ==> k in keys) && InboxRenders(b, t)
    ensures InboxRenders(DeliverAll(b, ks, S.Origin), DeliverAll(t, R.KeyTexts(ks), OriginOf))
    decreases |ks|
  {
    if ks != [] {
      assert ks == [ks[0]] + ks[1..];
      EachCons(KeyText, ks[0], ks[1..]);
      assert R.KeyTexts(ks)[0] == KeyText(ks[0]) && R.KeyTexts(ks)[1..] == R.KeyTexts(ks[1..]);
      DeliverRefines(keys, b, t, ks[0]);
      DeliverAllRefines(keys, Deliver(b, ks[0], S.Origin), Deliver(t, KeyText(ks[0]), OriginOf), ks[1..]);
    }
  }

  // ---------- filing, stamping, logging ----------

  lemma KeyTextIsLcbText(o: nat, m: Stamped)
    ensures KeyText(Key(o, m)) == LcbText(o + 1, m.body, Ids(m.stamp))
  {
    Associative(Pad3(o + 1), m.body, ClockText(Ids(m.stamp)));
  }

  lemma FileNew(pairs: map<Key, Clock>, texts: map<string, Clock>, k: Key, w: Clock, tw: Clock)
    requires PairsRender(pairs, texts) && SameClock(tw, w)
    requires forall x :: x in pairs && x != k ==> KeyText(x) != KeyText(k)
    ensures PairsRender(pairs[k := w], texts[KeyText(k) := tw])
  {
    var p1, t1 := pairs[k := w], texts[KeyText(k) := tw];
    forall x | x in p1 ensures Stands(x, p1[x], t1) {
      if x != k {
        OthersStand(x, pairs[x], texts, KeyText(k), tw);
      }
    }
    forall t | t in t1 ensures IsTextOf(t, p1) {
      if t == KeyText(k) {
        assert k in p1;
      } else {
        assert IsTextOf(t, pairs);
        var x :| x in pairs && KeyText(x) == t;
        assert x in p1;
      }
    }
  }

  lemma EmptyClock(tw: Clock, w: Clock)
    requires SameClock(tw, w)
    ensures tw == map[] <==> w == map[]
  {
    if tw != map[] {
      var r :| r in tw;
      assert r - 1 in w;
    }
    if w != map[] {
      var r :| r in w;
      assert r + 1 in tw;
    }
  }

  /** The clock can be read off the text of a key. */
  lemma KeyTextReads(k: Key)
    requires k.Key? && CleanMessage(k.m)
    ensures var t := KeyText(k);
            Find(t, 'v', 0).Some? && ReadClock(t[Find(t, 'v', 0).value..]) == Some(ClockOf(Ids(k.m.stamp)))
  {
    KeyTextIsLcbText(k.origin, k.m);
    StampRoundTrip(k.origin + 1, k.m.body, Ids(k.m.stamp));
  }

  /** The text URB hands over is filed with the clock that stands for the message's. */
  lemma FileRefines(keys: set<Key>, t: S.Top, texts: map<string, Clock>, k: Key)
    requires Distinguished(keys) && t.inbox.pairs.Keys <= keys && k in keys && PairsRender(t.inbox.pairs, texts)
    ensures var r := FileText(texts, KeyText(k)); r.Some? && PairsRender(S.File(t, k).inbox.pairs, r.value)
  {
    WaitsIff(keys, t.inbox.pairs, texts, k);
    if k in t.inbox.pairs {
      assert Stands(k, t.inbox.pairs[k], texts);
      EmptyClock(texts[KeyText(k)], t.inbox.pairs[k]);
    }
    FiledText(texts, k);
    ClockOfIds(k.m.stamp);
    TextsDiffer(keys, k);
    FileNew(t.inbox.pairs, texts, k, ClockOf(k.m.stamp), ClockOf(Ids(k.m.stamp)));
  }

  lemma FiledText(texts: map<string, Clock>, k: Key)
    requires k.Key? && CleanMessage(k.m)
    ensures FileText(texts, KeyText(k)) ==
      Some(if KeyText(k) in texts && texts[KeyText(k)] != map[] then texts
           else texts[KeyText(k) := ClockOf(Ids(k.m.stamp))])
  {
    KeyTextReads(k);
  }

  function DepIds(deps: seq<nat>): seq<nat> {
    seq(|deps|, i requires 0 <= i < |deps| => deps[i] + 1)
  }

  lemma IdsSnoc(es: seq<(nat, nat)>, r: nat, n: nat)
    ensures Ids(es + [(r, n)]) == Ids(es) + [(r + 1, n)]
  {
  }

  lemma {:induction false} EntriesIds(tvc: Clock, vc: Clock, deps: seq<nat>)
    requires SameCounts(tvc, vc)
    ensures Entries(tvc, DepIds(deps)) == Ids(Entries(vc, deps))
  {
    if deps != [] {
      var init, d := deps[..|deps| - 1], deps[|deps| - 1];
      EntriesIds(tvc, vc, init);
      assert DepIds(deps)[..|deps| - 1] == DepIds(init) && DepIds(deps)[|deps| - 1] == d + 1;
      assert At(tvc, d + 1) == At(vc, d);
      IdsSnoc(Entries(vc, init), d, At(vc, d));
      assert Entries(vc, deps) == Entries(vc, init) + [(d, At(vc, d))];
    }
  }

  /** The text with the stamp that the object writes is the text of the stack's new message. */
  lemma StampRefines(t: S.Top, tvc: Clock, me: nat, deps: seq<nat>, body: string)
    requires SameCounts(tvc, t.inbox.vc)
    ensures body + ClockText(Entries(tvc, DepIds(deps)) + [(me + 1, t.lsn)])
         == MessageText(Stamped(body, S.Stamp(t, me, deps)))
  {
    EntriesIds(tvc, t.inbox.vc, deps);
    IdsSnoc(Entries(t.inbox.vc, deps), me, t.lsn);
  }

  lemma Cut(a: string, b: string)
    requires |a| == 3
    ensures Sub(a + b, 0, 3) == a && (if |a + b| <= 3 then "" else (a + b)[3..]) == b
  {
  }

  /** A delivery is logged as `d`, origin, target and body. */
  lemma LoggedRefines(o: nat, m: Stamped)
    requires o < 999 && CleanMessage(m)
    ensures DeliveredText(KeyText(Key(o, m))) == "d" + Pad3(o + 1) + "000" + m.body
  {
    FirstThree(o + 1);
    KeyTextIsLcbText(o, m);
    BodyRoundTrip(o + 1, m.body, Ids(m.stamp));
    Cut(Pad3(o + 1), m.body);
  }
}
