/** What FIFO broadcast logs, over any sequence of its calls, and the output file that the log becomes. */
module FifoFiles {
  import opened Text
  import opened StdList
  import opened Batching
  import opened Output
  import opened Fifo
  import N = Node
  import E = EndToEnd
  import S = Stack
  import V = Validator

  // ---------- one entry ----------

  /** The lines of the messages ms delivered from process `id`. */
  function DeliveryLines(id: nat, ms: seq<string>): seq<string> {
    seq(|ms|, i requires 0 <= i < |ms| => "d " + Decimal(id) + " " + ms[i])
  }

  lemma {:induction false} LinesOf(id: nat, ms: seq<string>)
    requires id < 1000
    ensures OutputLines(WithHeader("d" + Pad3(id) + "000", ms)) == Some(DeliveryLines(id, ms))
  {
    if ms == [] {
      assert WithHeader("d" + Pad3(id) + "000", ms) == [];
    } else {
      var h, init, m := "d" + Pad3(id) + "000", ms[..|ms| - 1], ms[|ms| - 1];
      var all := WithHeader(h, ms);
      assert ms == init + [m];
      LinesOf(id, init);
      WithHeaderSnoc(h, init, m);
      assert all[..|all| - 1] == WithHeader(h, init) && all[|all| - 1] == h + m;
      E.DeliveryOutput(id, m);
      assert DeliveryLines(id, ms) == DeliveryLines(id, init) + ["d " + Decimal(id) + " " + m];
    }
  }

  /** The entry of a delivered batch becomes one line for each of its messages, with the sender and the message. */
  lemma DeliveredLines(t: Message, ms: seq<string>)
    requires t.sender < 1000 && |ms| < 100 && t.body == BatchText(ms) && Clean(ms)
    ensures FileOf([EntryOf(t)]) == Some(DeliveryLines(t.sender, ms))
  {
    var h := "d" + Pad3(t.sender) + "000";
    BatchRoundTrip(h, ms);
    OneEntry(EntryOf(t));
    LinesOf(t.sender, ms);
  }

  // ---------- calls in any order ----------

  /** `startBroadcast` with messages waiting, or `deliver` of a message. */
  datatype Call = Start(messages: seq<string>) | Arrive(m: Message)

  /** The fields of the object with the receiver's log, and what it broadcasts with. */
  datatype Fields = Fields(store: Store, lsn: nat, core: N.Core)

  ghost predicate FromSenders(cs: seq<Call>, n: nat) {
    forall c :: c in cs && c.Arrive? ==> 0 < c.m.sender <= n
  }

  function AfterCall(b: Fields, me: nat, c: Call): Fields
    requires c.Arrive? ==> 0 < c.m.sender <= |b.store.next|
  {
    match c
    case Start(messages) =>
      var o := SendAll(Outgoing(b.lsn, b.store.log, b.core), me, messages);
      Fields(b.store.(log := o.log), o.lsn, o.core)
    case Arrive(m) => b.(store := DeliverOne(b.store, m))
  }

  /** The fields after the calls cs of process `me`, one of n, from a start with an empty log. */
  function AfterCalls(n: nat, me: nat, core: N.Core, cs: seq<Call>): (b: Fields)
    requires FromSenders(cs, n)
    ensures |b.store.next| == n
  {
    if cs == [] then Fields(DeliverEach(n, []), 0, core)
    else AfterCall(AfterCalls(n, me, core, cs[..|cs| - 1]), me, cs[|cs| - 1])
  }

  /** The messages that arrived, in order. */
  function Arrivals(cs: seq<Call>): seq<Message> {
    if cs == [] then []
    else Arrivals(cs[..|cs| - 1]) + if cs[|cs| - 1].Arrive? then [cs[|cs| - 1].m] else []
  }

  /** The messages broadcast, in order. */
  function Started(cs: seq<Call>): seq<string> {
    if cs == [] then []
    else Started(cs[..|cs| - 1]) + if cs[|cs| - 1].Start? then cs[|cs| - 1].messages else []
  }

  lemma {:induction false} ArrivalsFrom(cs: seq<Call>, n: nat)
    requires FromSenders(cs, n)
    ensures forall m :: m in Arrivals(cs) ==> 0 < m.sender <= n
  {
    if cs != [] {
      ArrivalsFrom(cs[..|cs| - 1], n);
    }
  }

  ghost predicate SameButLog(a: Store, b: Store) {
    a.next == b.next && a.pending == b.pending && a.out == b.out
  }

  /** Broadcasting does not touch what deliveries depend on. */
  lemma {:induction false} DeliveriesApart(n: nat, me: nat, core: N.Core, cs: seq<Call>)
    requires FromSenders(cs, n)
    ensures forall m :: m in Arrivals(cs) ==> 0 < m.sender <= n
    ensures SameButLog(AfterCalls(n, me, core, cs).store, DeliverEach(n, Arrivals(cs)))
  {
    ArrivalsFrom(cs, n);
    if cs != [] {
      var init, c := cs[..|cs| - 1], cs[|cs| - 1];
      DeliveriesApart(n, me, core, init);
      var b := AfterCalls(n, me, core, init);
      match c
      case Start(_) => assert Arrivals(init) + [] == Arrivals(init);
      case Arrive(m) =>
        assert Arrivals(cs)[..|Arrivals(init)|] == Arrivals(init);
        SameButLogStep(b.store, DeliverEach(n, Arrivals(init)), m);
    }
  }

  lemma SameButLogStep(a: Store, b: Store, m: Message)
    requires SameButLog(a, b) && 0 < m.sender <= |a.next|
    ensures SameButLog(DeliverOne(a, m), DeliverOne(b, m))
  {
  }

  // ---------- what is logged ----------

  /** The entries that start with h. */
  function Starting(log: seq<string>, h: string): seq<string> {
    if log == [] then []
    else Starting(log[..|log| - 1], h) + if h <= log[|log| - 1] then [log[|log| - 1]] else []
  }

  lemma StartingSnoc(log: seq<string>, x: string, h: string)
    ensures Starting(log + [x], h) == Starting(log, h) + if h <= x then [x] else []
  {
    assert (log + [x])[..|log|] == log;
  }

  lemma {:induction false} StartingIn(log: seq<string>, h: string, x: string)
    ensures x in Starting(log, h) <==> x in log && h <= x
  {
    if log != [] {
      StartingIn(log[..|log| - 1], h, x);
      assert log == log[..|log| - 1] + [log[|log| - 1]];
    }
  }

  lemma {:induction false} StartingNone(log: seq<string>, h: string)
    requires forall i :: 0 <= i < |log| ==> !(h <= log[i])
    ensures Starting(log, h) == []
  {
    if log != [] {
      StartingNone(log[..|log| - 1], h);
    }
  }

  /** Adding what is new, and keeping what starts with h, can be done in either order. */
  lemma {:induction false} StartingPushed(log: seq<string>, xs: seq<string>, h: string)
    ensures Starting(PushAll(log, xs), h) == PushAll(Starting(log, h), Starting(xs, h))
  {
    if xs != [] {
      var init, x := xs[..|xs| - 1], xs[|xs| - 1];
      assert xs == init + [x];
      StartingPushed(log, init, h);
      StartingSnoc(init, x, h);
      StartingIn(PushAll(log, init), h, x);
      StartingSnoc(PushAll(log, init), x, h);
      if h <= x {
        PushAllSnoc(Starting(log, h), Starting(init, h), x);
      } else {
        assert Starting(init, h) + [] == Starting(init, h);
      }
    }
  }

  function HeaderOf(s: nat): string {
    "d" + Pad3(s) + "000"
  }

  lemma HeadersDiffer(s: nat, t: Message)
    requires s < 1000 && t.sender < 1000
    ensures HeaderOf(s) <= EntryOf(t) <==> t.sender == s
  {
    assert EntryOf(t)[..7] == HeaderOf(t.sender);
    if HeaderOf(s) == HeaderOf(t.sender) {
      assert Pad3(s) == HeaderOf(s)[1..4] == HeaderOf(t.sender)[1..4] == Pad3(t.sender);
      E.PadInjective(s, t.sender);
    }
  }

  lemma {:induction false} EntriesOfSender(out: seq<Message>, s: nat)
    requires s < 1000 && forall t :: t in out ==> t.sender < 1000
    ensures Starting(Each(EntryOf, out), HeaderOf(s)) == Each(EntryOf, FromSender(out, s))
  {
    if out != [] {
      var init, t := out[..|out| - 1], out[|out| - 1];
      assert out == init + [t];
      EntriesOfSender(init, s);
      EachSnoc(EntryOf, init, t);
      StartingSnoc(Each(EntryOf, init), EntryOf(t), HeaderOf(s));
      HeadersDiffer(s, t);
      if t.sender == s { EachSnoc(EntryOf, FromSender(init, s), t); }
    }
  }

  lemma EntriesStartD(out: seq<Message>)
    ensures Starting(Each(EntryOf, out), "b") == []
  {
    forall i | 0 <= i < |out| ensures !("b" <= Each(EntryOf, out)[i]) {
      assert Each(EntryOf, out)[i] == EntryOf(out[i]) && EntryOf(out[i])[0] == 'd';
    }
    StartingNone(Each(EntryOf, out), "b");
  }

  lemma SentStartB(messages: seq<string>, s: nat)
    ensures Starting(WithHeader("b", messages), HeaderOf(s)) == []
  {
    forall i | 0 <= i < |messages| ensures !(HeaderOf(s) <= WithHeader("b", messages)[i]) {
      assert WithHeader("b", messages)[i][0] == 'b' && HeaderOf(s)[0] == 'd';
    }
    StartingNone(WithHeader("b", messages), HeaderOf(s));
  }

  lemma {:induction false} AllStart(xs: seq<string>, h: string)
    requires forall i :: 0 <= i < |xs| ==> h <= xs[i]
    ensures Starting(xs, h) == xs
  {
    if xs != [] {
      AllStart(xs[..|xs| - 1], h);
      assert xs == xs[..|xs| - 1] + [xs[|xs| - 1]];
    }
  }

  /** The log of some deliveries and some broadcasts, in any order of each other. */
  ghost predicate Logs(log: seq<string>, out: seq<Message>, sent: seq<string>) {
    && Starting(log, "b") == PushAll([], WithHeader("b", sent))
    && forall s :: 0 < s < 1000 ==> Starting(log, HeaderOf(s)) == PushAll([], Each(EntryOf, FromSender(out, s)))
  }

  lemma SentLogs(log: seq<string>, out: seq<Message>, sent: seq<string>, messages: seq<string>)
    requires Logs(log, out, sent)
    ensures Logs(PushAll(log, WithHeader("b", messages)), out, sent + messages)
  {
    var more := WithHeader("b", messages);
    StartingPushed(log, more, "b");
    AllStart(more, "b");
    WithHeaderAppend("b", sent, messages);
    PushAllAppend([], WithHeader("b", sent), more);
    forall s | 0 < s < 1000
      ensures Starting(PushAll(log, more), HeaderOf(s)) == PushAll([], Each(EntryOf, FromSender(out, s)))
    {
      StartingPushed(log, more, HeaderOf(s));
      SentStartB(messages, s);
    }
  }

  lemma DeliveredLogs(log: seq<string>, out: seq<Message>, sent: seq<string>, run: seq<Message>)
    requires Logs(log, out, sent) && forall t :: t in run ==> t.sender < 1000
    ensures Logs(LogRun(log, run), out + run, sent)
  {
    StartingPushed(log, Each(EntryOf, run), "b");
    EntriesStartD(run);
    forall s | 0 < s < 1000
      ensures Starting(LogRun(log, run), HeaderOf(s)) == PushAll([], Each(EntryOf, FromSender(out + run, s)))
    {
      StartingPushed(log, Each(EntryOf, run), HeaderOf(s));
      EntriesOfSender(run, s);
      FromSenderAppend(out, run, s);
      EachAppend(EntryOf, FromSender(out, s), FromSender(run, s));
      PushAllAppend([], Each(EntryOf, FromSender(out, s)), Each(EntryOf, FromSender(run, s)));
    }
  }

  /** After any calls, the broadcast entries of the log are those of the messages broadcast, in order, and the
      delivery entries of each sender those of the messages delivered from it, in order; equal entries once. */
  lemma {:induction false} CallsLog(n: nat, me: nat, core: N.Core, cs: seq<Call>)
    requires FromSenders(cs, n) && n < 1000
    ensures Logs(AfterCalls(n, me, core, cs).store.log, AfterCalls(n, me, core, cs).store.out, Started(cs))
    ensures forall t :: t in AfterCalls(n, me, core, cs).store.pending ==> 0 < t.sender <= n
  {
    if cs == [] {
      assert WithHeader("b", []) == [];
    } else {
      var init, c := cs[..|cs| - 1], cs[|cs| - 1];
      var b := AfterCalls(n, me, core, init);
      CallsLog(n, me, core, init);
      match c
      case Start(messages) =>
        SentLog(Outgoing(b.lsn, b.store.log, b.core), me, messages);
        SentLogs(b.store.log, b.store.out, Started(init), messages);
      case Arrive(m) =>
        assert Started(init) + [] == Started(init);
        CallLogs(b.store, m, Started(init), n);
    }
  }

  lemma {:induction false} WaitingFrom(pending: seq<Message>, s: nat, limit: nat, k: nat)
    ensures forall j :: j in WaitingOf(pending, s, limit) ==> WaitingOf(pending, s, limit)[j] in pending
  {
    if pending != [] {
      WaitingFrom(pending[..|pending| - 1], s, limit, k);
      assert pending == pending[..|pending| - 1] + [pending[|pending| - 1]];
    }
  }

  lemma {:induction false} RunFrom(w: map<nat, Message>, k: nat, pending: seq<Message>)
    requires forall j :: j in w ==> w[j] in pending
    ensures forall t :: t in Run(w, k) ==> t in pending
    decreases Above(w, k)
  {
    if k in w {
      assert k in Above(w, k) && k !in Above(w, k + 1) && Above(w, k + 1) <= Above(w, k);
      RunFrom(w, k + 1, pending);
    }
  }

  lemma CallLogs(a: Store, m: Message, sent: seq<string>, n: nat)
    requires 0 < m.sender <= |a.next| == n < 1000 && (forall t :: t in a.pending ==> 0 < t.sender <= n)
    requires Logs(a.log, a.out, sent)
    ensures Logs(DeliverOne(a, m).log, DeliverOne(a, m).out, sent)
    ensures forall t :: t in DeliverOne(a, m).pending ==> 0 < t.sender <= n
  {
    var k, all := a.next[m.sender - 1], PushNew(a.pending, m);
    var run := Completed(a.next, a.pending, m);
    WaitingFrom(all, m.sender, |TextOf(m)|, k);
    RunFrom(Waiting(a.pending, m), k, all);
    RemoveAllIs(all, run);
    DeliveredLogs(a.log, a.out, sent, run);
  }

  /** When no two entries of a sender are equal, the log has one for each message delivered from it, in order. */
  lemma SenderLog(n: nat, me: nat, core: N.Core, cs: seq<Call>, s: nat)
    requires FromSenders(cs, n) && n < 1000 && 0 < s < 1000
    requires NoRepeats(Each(EntryOf, FromSender(AfterCalls(n, me, core, cs).store.out, s)))
    ensures var a := AfterCalls(n, me, core, cs).store;
            Starting(a.log, HeaderOf(s)) == Each(EntryOf, FromSender(a.out, s))
  {
    var entries := Each(EntryOf, FromSender(AfterCalls(n, me, core, cs).store.out, s));
    CallsLog(n, me, core, cs);
    PushAllNew([], entries);
    assert [] + entries == entries;
  }

  // ---------- the file ----------

  /** The event of a delivery. */
  function EventOf(t: Message): S.Event
    requires t.sender > 0 && t.number > 0
  {
    S.D(t.sender - 1, t.number - 1)
  }

  /** t is a message of a process that broadcasts the batches of its numbers. */
  ghost predicate IsBatch(ms: seq<nat>, t: Message) {
    && 0 < t.sender <= |ms| <= 999 && t.number > 0 && 15 * (t.number - 1) < ms[t.sender - 1]
    && t.body == BatchText(E.Group(ms[t.sender - 1], t.number - 1))
  }

  /** The events es are in turn, and the log is theirs. */
  ghost predicate LogOfEvents(ms: seq<nat>, p: nat, es: seq<S.Event>, log: seq<string>) {
    E.AllFit(ms, p, es) && E.InTurn(es) && log == E.LogOf(ms, p, es)
  }

  lemma OneEvent(ms: seq<nat>, p: nat, es: seq<S.Event>, log: seq<string>, e: S.Event)
    requires LogOfEvents(ms, p, es, log) && S.TurnOf(es, e) && E.Fits(ms, p, e)
    ensures LogOfEvents(ms, p, es + [e], PushNew(log, E.EventText(ms, p, e)))
  {
    var all := es + [e];
    assert all[..|all| - 1] == es;
    forall j | 0 <= j < |all| ensures S.TurnOf(all[..j], all[j]) {
      assert j < |es| ==> all[..j] == es[..j];
    }
  }

  lemma DeliveryText(ms: seq<nat>, p: nat, o: nat, i: nat)
    requires o < |ms| <= 999 && 15 * i < ms[o]
    ensures E.Fits(ms, p, S.D(o, i))
    ensures E.EventText(ms, p, S.D(o, i)) == HeaderOf(o + 1) + BatchText(E.Group(ms[o], i))
  {
  }

  lemma EntryIsText(ms: seq<nat>, p: nat, t: Message)
    requires IsBatch(ms, t)
    ensures E.Fits(ms, p, EventOf(t)) && EntryOf(t) == E.EventText(ms, p, EventOf(t))
  {
    DeliveryText(ms, p, t.sender - 1, t.number - 1);
    assert EntryOf(t) == HeaderOf(t.sender) + t.body;
  }

  /** Delivering the next messages of a sender in turn. */
  lemma {:induction false} RunEvents(ms: seq<nat>, p: nat, es: seq<S.Event>, log: seq<string>, s: nat,
                                     run: seq<Message>)
      returns (all: seq<S.Event>)
    requires LogOfEvents(ms, p, es, log) && s > 0 && IsRun(run, s, S.NumD(es, s - 1) + 1)
    requires forall t :: t in run ==> IsBatch(ms, t)
    ensures LogOfEvents(ms, p, all, LogRun(log, run)) && S.NumB(all) == S.NumB(es)
    ensures forall o :: S.NumD(all, o) == S.NumD(es, o) + if o == s - 1 then |run| else 0
  {
    if run == [] {
      all := es;
    } else {
      var init, t := run[..|run| - 1], run[|run| - 1];
      assert run == init + [t];
      var less := RunEvents(ms, p, es, log, s, init);
      EntryIsText(ms, p, t);
      OneEvent(ms, p, less, LogRun(log, init), EventOf(t));
      all := less + [EventOf(t)];
      RunSnoc([], log, init, t);
      forall o ensures S.NumD(all, o) == S.NumD(less, o) + if o == s - 1 then 1 else 0 {
        E.CountsSnoc(less, EventOf(t), o);
      }
      E.CountsSnoc(less, EventOf(t), 0);
    }
  }

  lemma StartOne(ms: seq<nat>, p: nat, es: seq<S.Event>, log: seq<string>, m: string)
    requires LogOfEvents(ms, p, es, log) && p < |ms| <= 999
    requires S.NumB(es) < |Batches(Numbers(ms[p]))| && m == Batches(Numbers(ms[p]))[S.NumB(es)]
    ensures var all := es + [S.B(S.NumB(es))];
            && LogOfEvents(ms, p, all, PushNew(log, "b" + m))
            && S.NumB(all) == S.NumB(es) + 1 && forall o :: S.NumD(all, o) == S.NumD(es, o)
  {
    var e := S.B(S.NumB(es));
    E.BatchOfNumbers(ms[p], e.i);
    assert E.EventText(ms, p, e) == "b" + m;
    OneEvent(ms, p, es, log, e);
    E.CountsSnoc(es, e, 0);
    forall o ensures S.NumD(es + [e], o) == S.NumD(es, o) {
      E.CountsSnoc(es, e, o);
    }
  }

  /** The messages are the next batches of the list after the first `from`. */
  ghost predicate NextBatches(bodies: seq<string>, from: nat, messages: seq<string>) {
    from + |messages| <= |bodies| && forall i :: 0 <= i < |messages| ==> messages[i] == bodies[from + i]
  }

  lemma NextBatchesInit(bodies: seq<string>, from: nat, messages: seq<string>)
    requires NextBatches(bodies, from, messages) && messages != []
    ensures NextBatches(bodies, from, messages[..|messages| - 1])
    ensures from + |messages| - 1 < |bodies| && messages[|messages| - 1] == bodies[from + |messages| - 1]
  {
  }

  /** From es, the broadcasts of the messages lead to the events `all`. */
  ghost predicate Broadcasted(ms: seq<nat>, p: nat, es: seq<S.Event>, log: seq<string>, messages: seq<string>,
                              all: seq<S.Event>) {
    && LogOfEvents(ms, p, all, PushAll(log, WithHeader("b", messages)))
    && S.NumB(all) == S.NumB(es) + |messages| && forall o :: S.NumD(all, o) == S.NumD(es, o)
  }

  lemma StartMore(ms: seq<nat>, p: nat, es: seq<S.Event>, log: seq<string>, messages: seq<string>,
                  less: seq<S.Event>)
    requires p < |ms| <= 999 && messages != [] && Broadcasted(ms, p, es, log, messages[..|messages| - 1], less)
    requires S.NumB(less) < |Batches(Numbers(ms[p]))|
    requires messages[|messages| - 1] == Batches(Numbers(ms[p]))[S.NumB(less)]
    ensures Broadcasted(ms, p, es, log, messages, less + [S.B(S.NumB(less))])
  {
    var init, m := messages[..|messages| - 1], messages[|messages| - 1];
    StartOne(ms, p, less, PushAll(log, WithHeader("b", init)), m);
    PushedSnoc(log, messages);
  }

  /** Broadcasting the next batches. */
  lemma {:induction false} StartEvents(ms: seq<nat>, p: nat, es: seq<S.Event>, log: seq<string>, messages: seq<string>)
      returns (all: seq<S.Event>)
    requires LogOfEvents(ms, p, es, log) && p < |ms| <= 999
    requires NextBatches(Batches(Numbers(ms[p])), S.NumB(es), messages)
    ensures Broadcasted(ms, p, es, log, messages, all)
  {
    if messages == [] {
      all := es;
      assert WithHeader("b", messages) == [];
    } else {
      NextBatchesInit(Batches(Numbers(ms[p])), S.NumB(es), messages);
      var less := StartEvents(ms, p, es, log, messages[..|messages| - 1]);
      StartMore(ms, p, es, log, messages, less);
      all := less + [S.B(S.NumB(less))];
    }
  }

  lemma PushedSnoc(log: seq<string>, messages: seq<string>)
    requires messages != []
    ensures PushAll(log, WithHeader("b", messages)) ==
      PushNew(PushAll(log, WithHeader("b", messages[..|messages| - 1])), "b" + messages[|messages| - 1])
  {
    var init, m := messages[..|messages| - 1], messages[|messages| - 1];
    assert messages == init + [m];
    WithHeaderSnoc("b", init, m);
    PushAllSnoc(log, WithHeader("b", init), "b" + m);
  }

  /** A process broadcasts the batches of its own numbers, and receives batches of the others', numbered by FIFO. */
  ghost predicate MainCalls(ms: seq<nat>, p: nat, cs: seq<Call>) {
    && p < |ms| <= 999 && Started(cs) <= Batches(Numbers(ms[p]))
    && forall m :: m in Arrivals(cs) ==> IsBatch(ms, m)
  }

  lemma MainCallsBefore(ms: seq<nat>, p: nat, cs: seq<Call>)
    requires MainCalls(ms, p, cs) && cs != []
    ensures MainCalls(ms, p, cs[..|cs| - 1])
    ensures Range(Arrivals(cs))
         == Range(Arrivals(cs[..|cs| - 1])) + if cs[|cs| - 1].Arrive? then {cs[|cs| - 1].m} else {}
  {
    var init := cs[..|cs| - 1];
    assert Started(init) <= Started(cs);
    if cs[|cs| - 1].Arrive? {
      RangeSnoc(Arrivals(init), cs[|cs| - 1].m);
    } else {
      assert Arrivals(cs) == Arrivals(init);
    }
    forall m | m in Arrivals(init) ensures IsBatch(ms, m) {
      assert m in Arrivals(cs);
    }
  }

  lemma RangeSnoc(ms: seq<Message>, m: Message)
    ensures Range(ms + [m]) == Range(ms) + {m}
  {
  }

  lemma SameBatch(ms: seq<nat>, t: Message, u: Message)
    requires IsBatch(ms, t) && IsBatch(ms, u) && t.sender == u.sender && t.number == u.number
    ensures t == u
  {
    assert t.body == u.body;
  }

  lemma MainIsNumbered(ms: seq<nat>, p: nat, cs: seq<Call>)
    requires MainCalls(ms, p, cs)
    ensures Numbered(Range(Arrivals(cs)), |ms|)
  {
    forall t, u | t in Arrivals(cs) && u in Arrivals(cs) && t.sender == u.sender && t.number == u.number
      ensures t == u
    {
      SameBatch(ms, t, u);
    }
    forall t | t in Arrivals(cs) ensures 0 < t.sender <= |ms| && t.number > 0 {
      assert IsBatch(ms, t);
    }
  }

  lemma {:induction false} ArriveIn(cs: seq<Call>, c: Call)
    requires c in cs && c.Arrive?
    ensures c.m in Arrivals(cs)
  {
    if c != cs[|cs| - 1] {
      assert cs == cs[..|cs| - 1] + [cs[|cs| - 1]];
      ArriveIn(cs[..|cs| - 1], c);
    }
  }

  lemma MainSenders(ms: seq<nat>, p: nat, cs: seq<Call>)
    requires MainCalls(ms, p, cs)
    ensures FromSenders(cs, |ms|)
  {
    forall c | c in cs && c.Arrive? ensures 0 < c.m.sender <= |ms| {
      ArriveIn(cs, c);
    }
  }

  /** The fields stand for the events: numbers and next numbers are their counts. */
  ghost predicate Stands(ms: seq<nat>, p: nat, es: seq<S.Event>, b: Fields) {
    && LogOfEvents(ms, p, es, b.store.log) && S.NumB(es) == b.lsn
    && forall o :: 0 <= o < |b.store.next| ==> b.store.next[o] == S.NumD(es, o) + 1
  }

  lemma StartStands(ms: seq<nat>, p: nat, es: seq<S.Event>, b: Fields, messages: seq<string>)
      returns (all: seq<S.Event>)
    requires Stands(ms, p, es, b) && p < |ms| <= 999
    requires NextBatches(Batches(Numbers(ms[p])), b.lsn, messages)
    ensures Stands(ms, p, all, AfterCall(b, p + 1, Start(messages)))
    ensures AfterCall(b, p + 1, Start(messages)).lsn == b.lsn + |messages|
  {
    var o := Outgoing(b.lsn, b.store.log, b.core);
    SentLog(o, p + 1, messages);
    SentKeys(o, p + 1, messages);
    all := StartEvents(ms, p, es, b.store.log, messages);
  }

  lemma RunStands(ms: seq<nat>, p: nat, es: seq<S.Event>, b: Fields, m: Message, run: seq<Message>)
      returns (all: seq<S.Event>)
    requires Stands(ms, p, es, b) && 0 < m.sender <= |b.store.next|
    requires IsRun(run, m.sender, b.store.next[m.sender - 1]) && forall t :: t in run ==> IsBatch(ms, t)
    ensures Stands(ms, p, all, b.(store := Handed(b.store, m, run)))
  {
    all := RunEvents(ms, p, es, b.store.log, m.sender, run);
  }

  lemma ArriveStands(ms: seq<nat>, p: nat, es: seq<S.Event>, b: Fields, m: Message, received: set<Message>)
      returns (all: seq<S.Event>)
    requires Stands(ms, p, es, b) && StoreInv(received, b.store) && Sound(received + {m}, |b.store.next|)
    requires 0 < m.sender <= |b.store.next| && forall t :: t in received + {m} ==> IsBatch(ms, t)
    ensures Stands(ms, p, all, AfterCall(b, p + 1, Arrive(m)))
  {
    CallCompletes(received, b.store, m);
    all := RunStands(ms, p, es, b, m, Completed(b.store.next, b.store.pending, m));
  }

  /** The state after calls of a process: its events, what arrived, and what was broadcast. */
  ghost predicate Standing(ms: seq<nat>, p: nat, es: seq<S.Event>, b: Fields, cs: seq<Call>) {
    && |b.store.next| == |ms| && Stands(ms, p, es, b) && StoreInv(Range(Arrivals(cs)), b.store)
    && b.lsn == |Started(cs)|
  }

  lemma CallsSnoc(cs: seq<Call>, c: Call)
    ensures Arrivals(cs + [c]) == if c.Arrive? then Arrivals(cs) + [c.m] else Arrivals(cs)
    ensures Started(cs + [c]) == if c.Start? then Started(cs) + c.messages else Started(cs)
  {
    assert (cs + [c])[..|cs|] == cs;
  }

  lemma PrefixIsNext(bodies: seq<string>, sent: seq<string>, messages: seq<string>)
    requires sent + messages <= bodies
    ensures NextBatches(bodies, |sent|, messages)
  {
    forall i | 0 <= i < |messages| ensures messages[i] == bodies[|sent| + i] {
      assert (sent + messages)[|sent| + i] == messages[i];
    }
  }

  lemma StartStanding(ms: seq<nat>, p: nat, es: seq<S.Event>, b: Fields, init: seq<Call>, messages: seq<string>)
      returns (all: seq<S.Event>)
    requires Standing(ms, p, es, b, init) && MainCalls(ms, p, init + [Start(messages)])
    ensures Standing(ms, p, all, AfterCall(b, p + 1, Start(messages)), init + [Start(messages)])
  {
    CallsSnoc(init, Start(messages));
    PrefixIsNext(Batches(Numbers(ms[p])), Started(init), messages);
    all := StartStands(ms, p, es, b, messages);
    assert AfterCall(b, p + 1, Start(messages)).store.next == b.store.next;
  }

  lemma ArriveStanding(ms: seq<nat>, p: nat, es: seq<S.Event>, b: Fields, init: seq<Call>, m: Message)
      returns (all: seq<S.Event>)
    requires Standing(ms, p, es, b, init) && MainCalls(ms, p, init + [Arrive(m)])
    requires NoOvertake(Range(Arrivals(init + [Arrive(m)])))
    ensures 0 < m.sender <= |b.store.next|
    ensures Standing(ms, p, all, AfterCall(b, p + 1, Arrive(m)), init + [Arrive(m)])
  {
    CallsSnoc(init, Arrive(m));
    RangeSnoc(Arrivals(init), m);
    MainIsNumbered(ms, p, init + [Arrive(m)]);
    assert m in Arrivals(init + [Arrive(m)]) && IsBatch(ms, m);
    all := ArriveStands(ms, p, es, b, m, Range(Arrivals(init)));
    DeliverStep(Range(Arrivals(init)), b.store, m);
  }

  lemma NothingStands(ms: seq<nat>, p: nat, core: N.Core)
    ensures Standing(ms, p, [], AfterCalls(|ms|, p + 1, core, []), [])
  {
    assert Range(Arrivals([])) == {};
    StartInv(|ms|);
  }

  lemma EarlierSafe(ms: seq<nat>, p: nat, cs: seq<Call>)
    requires MainCalls(ms, p, cs) && NoOvertake(Range(Arrivals(cs))) && cs != []
    ensures MainCalls(ms, p, cs[..|cs| - 1]) && NoOvertake(Range(Arrivals(cs[..|cs| - 1])))
  {
    MainCallsBefore(ms, p, cs);
    MainIsNumbered(ms, p, cs);
    SoundPart(Range(Arrivals(cs[..|cs| - 1])), Range(Arrivals(cs)), |ms|);
  }

  lemma {:induction false} CallsStand(ms: seq<nat>, p: nat, core: N.Core, cs: seq<Call>) returns (es: seq<S.Event>)
    requires MainCalls(ms, p, cs) && NoOvertake(Range(Arrivals(cs)))
    ensures FromSenders(cs, |ms|) && Standing(ms, p, es, AfterCalls(|ms|, p + 1, core, cs), cs)
  {
    MainSenders(ms, p, cs);
    if cs == [] {
      es := [];
      NothingStands(ms, p, core);
    } else {
      var init, c := cs[..|cs| - 1], cs[|cs| - 1];
      assert cs == init + [c];
      EarlierSafe(ms, p, cs);
      var less := CallsStand(ms, p, core, init);
      var b := AfterCalls(|ms|, p + 1, core, init);
      match c
      case Start(messages) => es := StartStanding(ms, p, less, b, init, messages);
      case Arrive(m) => es := ArriveStanding(ms, p, less, b, init, m);
    }
  }

  lemma {:induction false} TurnsDiffer(es: seq<S.Event>)
    requires E.InTurn(es)
    ensures NoRepeats(es)
    ensures forall e :: e in es ==> if e.B? then e.i < S.NumB(es) else e.i < S.NumD(es, e.origin)
  {
    if es != [] {
      var init, e := es[..|es| - 1], es[|es| - 1];
      assert es == init + [e];
      forall j | 0 <= j < |init| ensures S.TurnOf(init[..j], init[j]) {
        assert init[..j] == es[..j];
        assert S.TurnOf(es[..j], es[j]);
      }
      TurnsDiffer(init);
      assert S.TurnOf(es[..|init|], e);
      forall x | x in es ensures if x.B? then x.i < S.NumB(es) else x.i < S.NumD(es, x.origin) {
        E.CountsSnoc(init, e, if x.B? then 0 else x.origin);
      }
    }
  }

  /** End-to-end FIFO for the FIFO layer: whatever calls a process makes and whatever arrives, in any order and with
      repetitions, as long as nothing can be overtaken, the file of its log is accepted by the validator. */
  lemma FifoFilesAreAccepted(ms: seq<nat>, p: nat, core: N.Core, cs: seq<Call>)
    requires MainCalls(ms, p, cs) && NoOvertake(Range(Arrivals(cs)))
    ensures FromSenders(cs, |ms|)
    ensures var f := FileOf(AfterCalls(|ms|, p + 1, core, cs).store.log);
            f.Some? && V.Check(V.ReadLines(f.value), 1, map[]) == V.Accepted
  {
    var es := CallsStand(ms, p, core, cs);
    TurnsDiffer(es);
    E.FileLines(ms, p, es);
    E.LinesOrdered(ms, p, es);
    E.OrderedAccepted(ms, p, es, E.Lines(ms, p, es));
  }
}
