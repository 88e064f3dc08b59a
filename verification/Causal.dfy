/** The causal layer of one process: the object with its clock and its waiting messages as texts. */
module Causal {
  import opened Text
  import opened StdList
  import opened Codec
  import opened LcbProtocol
  import opened Node

  /** The identifier a message text starts with. */
  function OriginOf(text: string): nat {
    match Stoi(Sub(text, 0, 3))
    case None => 0
    case Some(id) => id
  }

  /** The log entry of a delivery: `d`, origin, target 000, and the text up to the clock. */
  function DeliveredText(text: string): string {
    var t := Logged(text);
    "d" + Sub(t, 0, 3) + "000" + if |t| <= 3 then "" else t[3..]
  }

  /** The waiting messages after `deliver`; None where the source throws. */
  function FileText(pairs: map<string, Clock>, text: string): Option<map<string, Clock>> {
    if text in pairs && pairs[text] != map[] then Some(pairs)
    else
      match Find(text, 'v', 0)
      case None => None
      case Some(i) =>
        match ReadClock(text[i..])
        case None => None
        case Some(w) => Some(pairs[text := w])
  }

  /** `deliver` throws exactly when the text is not waiting with its clock already, and there is no clock in it or
      one that cannot be read. */
  lemma FileThrowsIff(pairs: map<string, Clock>, text: string)
    ensures FileText(pairs, text).None? <==>
      && (text in pairs ==> pairs[text] == map[])
      && ('v' !in text || exists i :: FirstIn(text, 'v', i) && ReadClock(text[i..]).None?)
  {
    var f := Find(text, 'v', 0);
    assert text[0..] == text;
    if f.Some? {
      assert text[0..f.value] == text[..f.value];
      assert FirstIn(text, 'v', f.value);
      forall i | FirstIn(text, 'v', i) ensures i == f.value {}
    }
  }

  predicate FirstIn(text: string, c: char, i: int) {
    0 <= i < |text| && text[i] == c && forall j :: 0 <= j < i ==> text[j] != c
  }

  /** The clock of a process that has delivered nothing. */
  function Zeros(n: nat): Clock {
    if n == 0 then map[] else Zeros(n - 1)[n := 0]
  }

  lemma {:induction false} ZerosRead(n: nat)
    ensures forall r: nat :: At(Zeros(n), r) == 0 && (r in Zeros(n) <==> 1 <= r <= n)
  {
    if n > 0 {
      ZerosRead(n - 1);
      forall r: nat ensures At(Zeros(n), r) == 0 && (r in Zeros(n) <==> 1 <= r <= n) {
        assert At(Zeros(n - 1), r) == 0;
      }
    }
  }

  /** The log after the deliveries of ks. */
  function LogDeliveries(log: seq<string>, ks: seq<string>): seq<string> {
    PushAll(log, Each(DeliveredText, ks))
  }

  lemma LogStep(log: seq<string>, ks: seq<string>, k: string)
    ensures LogDeliveries(log, ks + [k]) == PushNew(LogDeliveries(log, ks), DeliveredText(k))
  {
    EachSnoc(DeliveredText, ks, k);
    PushAllSnoc(log, Each(DeliveredText, ks), DeliveredText(k));
  }

  class LocalizedCausalBroadcast {
    const receiver: Receiver
    const urb: UniformReliableBroadcast
    const rank: nat
    const dependencies: seq<nat>
    var lsn: nat
    var vc: Clock
    var pairs: map<string, Clock>

    constructor (receiver: Receiver, urb: UniformReliableBroadcast, n: nat, dependencies: seq<nat>)
      ensures this.receiver == receiver && this.urb == urb && rank == receiver.id && this.dependencies == dependencies
      ensures lsn == 0 && pairs == map[] && vc == Zeros(n)
    {
      this.receiver, this.urb, this.rank, this.dependencies := receiver, urb, receiver.id, dependencies;
      var zeros: Clock := map[];
      for i: nat := 1 to n + 1
        invariant zeros == Zeros(i - 1)
      {
        zeros := zeros[i := 0];
      }
      lsn, vc, pairs := 0, zeros, map[];
    }

    /** One entry per dependency, then the own number. */
    method WriteStamp() returns (w: string)
      ensures w == ClockText(Entries(vc, dependencies) + [(rank, lsn)])
    {
      w := "";
      for i := 0 to |dependencies|
        invariant w == ClockText(Entries(vc, dependencies[..i]))
      {
        var d := dependencies[i];
        EntriesStep(vc, dependencies, i);
        ClockTextAdd(Entries(vc, dependencies[..i]), d, At(vc, d));
        w := w + ("v" + Pad3(d) + Decimal(At(vc, d)));
      }
      assert dependencies[..|dependencies|] == dependencies;
      ClockTextAdd(Entries(vc, dependencies), rank, lsn);
      w := w + ("v" + Pad3(rank) + Decimal(lsn));
    }

    /** Stamp a message, log it, and hand it to reliable broadcast. */
    method BroadcastMessage(msg: string)
      requires LinksOf(urb.beb.links, urb.beb.me)
      modifies this`lsn, receiver`log, urb, urb.beb.links
      ensures lsn == old(lsn) + 1
      ensures receiver.log == PushNew(old(receiver.log), "b" + msg)
      ensures urb.CoreOf() == BroadcastStep(old(urb.CoreOf()), urb.beb.me,
                                            msg + ClockText(Entries(vc, dependencies) + [(rank, old(lsn))]), false)
      ensures Acks(urb.beb.links) == old(Acks(urb.beb.links))
    {
      ghost var core, acks := urb.CoreOf(), Acks(urb.beb.links);
      var w := WriteStamp();
      CountSent(msg);
      assert urb.CoreOf() == core && Acks(urb.beb.links) == acks;
      urb.BroadcastMessage(msg + w);
      assert urb.CoreOf() == BroadcastStep(core, urb.beb.me, msg + w, false) && Acks(urb.beb.links) == acks;
    }

    method CountSent(msg: string)
      modifies this`lsn, receiver`log
      ensures lsn == old(lsn) + 1 && receiver.log == PushNew(old(receiver.log), "b" + msg)
      ensures urb.CoreOf() == old(urb.CoreOf()) && Acks(urb.beb.links) == old(Acks(urb.beb.links))
    {
      lsn := lsn + 1;
      receiver.AddMessageLog("b" + msg);
    }

    /** False where the source throws, after looking the text up, which leaves it waiting with an empty clock. */
    method Deliver(text: string) returns (ok: bool)
      modifies this`pairs
      ensures ok <==> FileText(old(pairs), text).Some?
      ensures pairs == if ok then FileText(old(pairs), text).value else old(pairs)[text := map[]]
    {
      if text !in pairs {
        pairs := pairs[text := map[]];
      }
      if pairs[text] == map[] {
        var i := Find(text, 'v', 0);
        if i.None? {
          return false;
        }
        var w := ConstructVC(text[i.value..]);
        if w.None? {
          return false;
        }
        pairs := pairs[text := w.value];
      }
      return true;
    }

    method IsInferior(w: Clock) returns (b: bool)
      ensures b <==> Inferior(w, vc)
    {
      var todo := w.Keys;
      while todo != {}
        invariant todo <= w.Keys && forall r :: r in w && r !in todo ==> w[r] <= At(vc, r)
      {
        var r :| r in todo;
        if w[r] > At(vc, r) {
          return false;
        }
        todo := todo - {r};
      }
      return true;
    }

    /** One scan of the waiting messages. The source visits them in the order of their texts; here the order is
        arbitrary, and returned: any order of the keys without repetition. */
    method DeliverPending() returns (ghost order: seq<string>, delivered: seq<string>)
      modifies this`vc, this`pairs, receiver`log
      ensures forall k :: k in old(pairs) <==> k in order
      ensures forall i, j :: 0 <= i < j < |order| ==> order[i] != order[j]
      ensures delivered == Scan(old(Inbox(vc, pairs)), order, OriginOf)
      ensures Inbox(vc, pairs) == DeliverAll(old(Inbox(vc, pairs)), delivered, OriginOf)
      ensures receiver.log == LogDeliveries(old(receiver.log), delivered)
      ensures old(receiver.log) <= receiver.log
      ensures AllNew(old(receiver.log), Each(DeliveredText, delivered)) ==>
        receiver.log == old(receiver.log) + Each(DeliveredText, delivered)
    {
      order, delivered := [], [];
      var todo := pairs.Keys;
      ghost var start, log := Inbox(vc, pairs), receiver.log;
      while todo != {}
        invariant todo <= pairs.Keys && Visited(start.pairs.Keys, todo, order)
        invariant Passed(start, log, order, delivered, Inbox(vc, pairs), receiver.log)
      {
        var k :| k in todo;
        VisitNext(start.pairs.Keys, todo, order, k);
        todo := todo - {k};
        Visit(start, log, order, delivered, Inbox(vc, pairs), receiver.log, k);
        order := order + [k];
        var b := IsInferior(pairs[k]);
        if b {
          vc := Bump(vc, OriginOf(k));
          receiver.AddMessageLog(DeliveredText(k));
          pairs := pairs - {k};
          delivered := delivered + [k];
        }
      }
      PushAllKeeps(log, Each(DeliveredText, delivered));
      if AllNew(log, Each(DeliveredText, delivered)) {
        PushAllNew(log, Each(DeliveredText, delivered));
      }
    }
  }

  /** What is not in `todo` any more has been visited, once. */
  ghost predicate Visited(all: set<string>, todo: set<string>, order: seq<string>) {
    && todo <= all && (forall k :: k in all && k !in todo <==> k in order)
    && forall i, j :: 0 <= i < j < |order| ==> order[i] != order[j]
  }

  lemma VisitNext(all: set<string>, todo: set<string>, order: seq<string>, k: string)
    requires Visited(all, todo, order) && k in todo
    ensures Visited(all, todo - {k}, order + [k])
  {
  }

  /** Having visited `order`, the pass has delivered ks and left the inbox b and the log as they are. */
  ghost predicate Passed(start: Inbox<string>, log: seq<string>, order: seq<string>, ks: seq<string>, b: Inbox<string>,
                         now: seq<string>) {
    && ks == Scan(start, order, OriginOf) && b == DeliverAll(start, ks, OriginOf) && now == LogDeliveries(log, ks)
  }

  lemma Visit(start: Inbox<string>, log: seq<string>, order: seq<string>, ks: seq<string>, b: Inbox<string>,
              now: seq<string>, k: string)
    requires Passed(start, log, order, ks, b, now)
    ensures if Deliverable(b, k)
            then Passed(start, log, order + [k], ks + [k], Deliver(b, k, OriginOf), PushNew(now, DeliveredText(k)))
            else Passed(start, log, order + [k], ks, b, now)
  {
    ScanSnoc(start, order, k, OriginOf);
    DeliverAllSnoc(start, ks, k, OriginOf);
    LogStep(log, ks, k);
  }

  lemma EntriesStep(vc: Clock, deps: seq<nat>, i: nat)
    requires i < |deps|
    ensures Entries(vc, deps[..i + 1]) == Entries(vc, deps[..i]) + [(deps[i], At(vc, deps[i]))]
  {
    assert deps[..i + 1][..i] == deps[..i];
  }

  lemma ClockTextAdd(es: seq<(nat, nat)>, id: nat, n: nat)
    ensures ClockText(es + [(id, n)]) == ClockText(es) + ("v" + Pad3(id) + Decimal(n))
  {
    var all := es + [(id, n)];
    ClockTextSnoc(all);
    assert all[..|all| - 1] == es;
    Associative(ClockText(es), "v" + Pad3(id), Decimal(n));
    Associative(ClockText(es), "v", Pad3(id));
  }
}
