/** Runs of the stack on texts: the causal layer's fields and the log of every process, at every point of every
    run, are the texts of its structured state, so what is proved of the structured runs holds of the texts. */
module StackRefinement {
  import opened Messages
  import opened StdList
  import opened Text
  import opened Codec
  import opened LcbProtocol
  import opened Rendering
  import opened CausalRefinement
  import Causal
  import R = Refinement
  import S = Stack
  import T = StackTheorems
  import U = UrbSystem
  import Runs = UrbTheorems
  import E = EndToEnd
  import Output
  import V = Validator

  // ---------- clean runs ----------

  predicate CleanBody(body: string) {
    'v' !in body && (body != "" ==> body[0] != 'r')
  }

  /** Three-digit identifiers, no `v` in a text and no `r` at its start. */
  ghost predicate CleanRun(s: S.State, deps: seq<seq<nat>>) {
    && |deps| <= 999 && (forall p, d :: 0 <= p < |deps| && d in deps[p] ==> d < 999)
    && forall p, m :: 0 <= p < |s.sent| && m in s.sent[p] ==> CleanBody(m.body)
  }

  lemma SentIsClean(m: Stamped, p: nat, i: nat, deps: seq<nat>)
    requires S.IsStamped(m, p, i, deps) && CleanBody(m.body) && p < 999 && forall d :: d in deps ==> d < 999
    ensures CleanMessage(m) && Last(m) == (p, i)
  {
    forall j | 0 <= j < |Ids(m.stamp)| ensures Ids(m.stamp)[j].0 < 1000 {
      ClockOfKeys(m.stamp, m.stamp[j].0);
    }
  }

  lemma CallIsSent(s: S.State, deps: seq<seq<nat>>, p: nat, m: Stamped) returns (i: nat)
    requires S.Shape(s, deps) && S.SentInv(s, deps) && CleanRun(s, deps)
    requires p < |deps| && Direct(m) in s.net.procs[p].calls
    ensures i < |s.sent[p]| && s.sent[p][i] == m && CleanMessage(m) && Last(m) == (p, i)
  {
    assert S.SentAt(s.sent[p], s.top[p].lsn, s.net.procs[p].calls, p, deps[p]);
    i :| 0 <= i < |s.sent[p]| && s.sent[p][i] == m;
    SentIsClean(m, p, i, deps[p]);
  }

  lemma CallsDiffer(s: S.State, deps: seq<seq<nat>>, p: nat, m: Stamped, w: Stamped)
    requires S.Shape(s, deps) && S.SentInv(s, deps) && CleanRun(s, deps) && p < |deps|
    requires Direct(m) in s.net.procs[p].calls && Direct(w) in s.net.procs[p].calls
    ensures CleanMessage(m) && CleanMessage(w) && Last(m).0 == p && (Last(m) == Last(w) ==> m == w)
  {
    var i := CallIsSent(s, deps, p, m);
    var j := CallIsSent(s, deps, p, w);
  }

  lemma RunIsClean(s: S.State, deps: seq<seq<nat>>)
    requires S.Shape(s, deps) && S.SentInv(s, deps) && CleanRun(s, deps)
    ensures CleanCalls(s.net)
  {
    forall p, m, w | 0 <= p < |s.net.procs| && Direct(m) in s.net.procs[p].calls && Direct(w) in s.net.procs[p].calls
      ensures CleanMessage(m) && CleanMessage(w) && Last(m).0 == p && (Last(m) == Last(w) ==> m == w)
    {
      CallsDiffer(s, deps, p, m, w);
    }
  }

  /** The messages that may wait at a process. */
  function HandedKeys(n: U.Sys, p: nat): set<Key>
    requires p < |n.procs|
  {
    set k | k in n.procs[p].handed
  }

  lemma HandedIsReal(n: U.Sys, p: nat, k: Key)
    requires U.Inv(n) && p < |n.procs| && k in n.procs[p].handed
    ensures k.Key? && RealKey(n, p, k)
  {
    assert U.Own(n.procs[p], p, |n.procs|);
    S.HandedAreKeys(n, p, k);
    R.PendingIsReal(n, p, k);
  }

  lemma HandedDistinguished(n: U.Sys, p: nat)
    requires U.Inv(n) && CleanCalls(n) && p < |n.procs|
    ensures Distinguished(HandedKeys(n, p))
  {
    forall k | k in HandedKeys(n, p) ensures k.Key? && k.origin < 999 && CleanMessage(k.m) {
      HandedIsReal(n, p, k);
      CallsAreClean(n, k.origin, k.m, k.origin, k.m);
    }
    forall k, x | k in HandedKeys(n, p) && x in HandedKeys(n, p) && KeyText(k) == KeyText(x) ensures k == x {
      HandedIsReal(n, p, k);
      HandedIsReal(n, p, x);
      KeyTextInjective(n, p, k, x);
    }
  }

  // ---------- the causal layer and the log ----------

  /** The fields of the causal layer, and the receiver's log. */
  datatype TopText = TopText(lsn: nat, inbox: Inbox<string>, log: seq<string>)

  /** The log entry of an event of process p. */
  function Entry(sent: seq<seq<Stamped>>, p: nat, e: S.Event): string {
    match e
    case B(i) => if p < |sent| && i < |sent[p]| then "b" + sent[p][i].body else ""
    case D(o, i) => if o < |sent| && i < |sent[o]| then "d" + Pad3(o + 1) + "000" + sent[o][i].body else ""
  }

  function EventLog(sent: seq<seq<Stamped>>, p: nat, es: seq<S.Event>): seq<string> {
    if es == [] then [] else PushNew(EventLog(sent, p, es[..|es| - 1]), Entry(sent, p, es[|es| - 1]))
  }

  ghost predicate TopRenders(sent: seq<seq<Stamped>>, p: nat, t: S.Top, st: TopText) {
    st.lsn == t.lsn && InboxRenders(t.inbox, st.inbox) && st.log == EventLog(sent, p, t.events)
  }

  /** A move of process p on its texts; None where the source throws. */
  function TopStep(st: TopText, v: S.Move): Option<TopText> {
    match v
    case Bcast(_, body, _) => Some(st.(lsn := st.lsn + 1, log := PushNew(st.log, "b" + body)))
    case Under(_) => Some(st)
    case Up(_, k) =>
      (match Causal.FileText(st.inbox.pairs, KeyText(k))
       case None => None
       case Some(pairs) => Some(st.(inbox := st.inbox.(pairs := pairs))))
    case Release(_, k) =>
      Some(st.(inbox := Deliver(st.inbox, KeyText(k), Causal.OriginOf),
               log := PushNew(st.log, Causal.DeliveredText(KeyText(k)))))
  }

  predicate Moves(v: S.Move, p: nat) {
    match v
    case Bcast(q, _, _) => q == p
    case Under(_) => false
    case Up(q, _) => q == p
    case Release(q, _) => q == p
  }

  /** The texts of process p, one of n, after the moves vs. */
  function TopRun(n: nat, vs: seq<S.Move>, p: nat): Option<TopText> {
    if vs == [] then Some(TopText(0, Inbox(Causal.Zeros(n), map[]), []))
    else
      match TopRun(n, vs[..|vs| - 1], p)
      case None => None
      case Some(st) => if Moves(vs[|vs| - 1], p) then TopStep(st, vs[|vs| - 1]) else Some(st)
  }

  lemma {:induction false} LogGrows(a: seq<seq<Stamped>>, b: seq<seq<Stamped>>, p: nat, es: seq<S.Event>)
    requires p < |a| && S.Extends(a, b) && S.AllInTurn(a, p, es)
    ensures EventLog(b, p, es) == EventLog(a, p, es)
  {
    if es != [] {
      S.TurnPrefix(a, p, es);
      LogGrows(a, b, p, es[..|es| - 1]);
    }
  }

  lemma LogSnoc(sent: seq<seq<Stamped>>, p: nat, es: seq<S.Event>, e: S.Event)
    ensures EventLog(sent, p, es + [e]) == PushNew(EventLog(sent, p, es), Entry(sent, p, e))
  {
    assert (es + [e])[..|es|] == es;
  }

  lemma SentGrows(s: S.State, deps: seq<seq<nat>>, v: S.Move)
    requires S.Shape(s, deps) && S.Enabled(s, deps, v)
    ensures S.Extends(s.sent, S.Next(s, deps, v).sent)
  {
  }

  /** What a process has logged does not depend on what is broadcast later. */
  lemma LogKept(s: S.State, deps: seq<seq<nat>>, v: S.Move, p: nat)
    requires S.Inv(s, deps) && S.Enabled(s, deps, v) && p < |deps|
    ensures EventLog(S.Next(s, deps, v).sent, p, s.top[p].events) == EventLog(s.sent, p, s.top[p].events)
  {
    assert S.TopInv(s, deps, p);
    SentGrows(s, deps, v);
    S.LogInTurn(s.sent, deps, p, s.top[p].events);
    LogGrows(s.sent, S.Next(s, deps, v).sent, p, s.top[p].events);
  }

  ghost predicate Follows(s: S.State, deps: seq<seq<nat>>, v: S.Move, p: nat, st: TopText)
    requires S.Shape(s, deps) && S.Enabled(s, deps, v) && p < |deps|
  {
    var t, r := S.Next(s, deps, v), if Moves(v, p) then TopStep(st, v) else Some(st);
    r.Some? && TopRenders(t.sent, p, t.top[p], r.value)
  }

  lemma BcastFollows(s: S.State, deps: seq<seq<nat>>, v: S.Move, p: nat, st: TopText)
    requires S.Inv(s, deps) && S.Enabled(s, deps, v) && p < |deps| && v.Bcast? && v.p == p
    requires TopRenders(s.sent, p, s.top[p], st)
    ensures Follows(s, deps, v, p, st)
  {
    var t := S.Next(s, deps, v);
    LogKept(s, deps, v, p);
    assert S.SentAt(s.sent[p], s.top[p].lsn, s.net.procs[p].calls, p, deps[p]);
    assert t.sent[p][s.top[p].lsn].body == v.body;
    LogSnoc(t.sent, p, s.top[p].events, S.B(s.top[p].lsn));
  }

  lemma WaitingAreHanded(s: S.State, deps: seq<seq<nat>>, p: nat)
    requires S.Inv(s, deps) && p < |deps|
    ensures s.top[p].inbox.pairs.Keys <= HandedKeys(s.net, p)
  {
    assert S.TopInv(s, deps, p);
  }

  lemma HandedGrows(s: S.State, deps: seq<seq<nat>>, p: nat, k: Key)
    requires S.Shape(s, deps) && S.Enabled(s, deps, S.Up(p, k)) && p < |deps|
    ensures HandedKeys(S.Next(s, deps, S.Up(p, k)).net, p) == HandedKeys(s.net, p) + {k}
  {
    S.UnderFrame(s.net, U.HandOver(p, k), p);
  }

  lemma UpRefines(keys: set<Key>, sent: seq<seq<Stamped>>, p: nat, t: S.Top, k: Key, st: TopText)
    requires Distinguished(keys) && t.inbox.pairs.Keys <= keys && k in keys && TopRenders(sent, p, t, st)
    ensures var r := TopStep(st, S.Up(p, k)); r.Some? && TopRenders(sent, p, S.File(t, k), r.value)
  {
    FileRefines(keys, t, st.inbox.pairs, k);
  }

  lemma UpFollows(s: S.State, deps: seq<seq<nat>>, v: S.Move, p: nat, st: TopText)
    requires S.Inv(s, deps) && S.Enabled(s, deps, v) && p < |deps| && v.Up? && v.p == p
    requires S.Inv(S.Next(s, deps, v), deps) && CleanRun(S.Next(s, deps, v), deps)
    requires TopRenders(s.sent, p, s.top[p], st)
    ensures Follows(s, deps, v, p, st)
  {
    var t := S.Next(s, deps, v);
    MayWait(t, deps, p);
    HandedGrows(s, deps, p, v.k);
    WaitingAreHanded(s, deps, p);
    UpRefines(HandedKeys(t.net, p), s.sent, p, s.top[p], v.k, st);
  }

  lemma MayWait(s: S.State, deps: seq<seq<nat>>, p: nat)
    requires S.Inv(s, deps) && CleanRun(s, deps) && p < |deps|
    ensures Distinguished(HandedKeys(s.net, p))
  {
    RunIsClean(s, deps);
    HandedDistinguished(s.net, p);
  }

  lemma ReleaseRefines(keys: set<Key>, sent: seq<seq<Stamped>>, p: nat, t: S.Top, k: Key, st: TopText)
    requires Distinguished(keys) && t.inbox.pairs.Keys <= keys && k in keys
    requires S.Known(sent, k) && TopRenders(sent, p, t, st)
    ensures var r := TopStep(st, S.Release(p, k)); r.Some? && TopRenders(sent, p, S.ReleaseOne(t, k), r.value)
  {
    DeliverRefines(keys, t.inbox, st.inbox, k);
    LoggedRefines(k.origin, k.m);
    LogSnoc(sent, p, t.events, S.D(k.origin, S.Number(k.m)));
  }

  lemma ReleaseFollows(s: S.State, deps: seq<seq<nat>>, v: S.Move, p: nat, st: TopText)
    requires S.Inv(s, deps) && S.Enabled(s, deps, v) && p < |deps| && v.Release? && v.p == p && CleanRun(s, deps)
    requires TopRenders(s.sent, p, s.top[p], st)
    ensures Follows(s, deps, v, p, st)
  {
    MayWait(s, deps, p);
    WaitingAreHanded(s, deps, p);
    S.ReleaseIsNext(s, deps, p, v.k);
    ReleaseRefines(HandedKeys(s.net, p), s.sent, p, s.top[p], v.k, st);
  }

  lemma MoveRefines(s: S.State, deps: seq<seq<nat>>, v: S.Move, p: nat, st: TopText)
    requires S.Inv(s, deps) && S.Enabled(s, deps, v) && p < |deps| && CleanRun(s, deps)
    requires S.Inv(S.Next(s, deps, v), deps) && CleanRun(S.Next(s, deps, v), deps)
    requires TopRenders(s.sent, p, s.top[p], st)
    ensures Follows(s, deps, v, p, st)
  {
    if !Moves(v, p) {
      LogKept(s, deps, v, p);
    } else if v.Bcast? {
      BcastFollows(s, deps, v, p, st);
    } else if v.Up? {
      UpFollows(s, deps, v, p, st);
    } else {
      ReleaseFollows(s, deps, v, p, st);
    }
  }

  lemma CleanEarlier(s: S.State, t: S.State, deps: seq<seq<nat>>)
    requires S.Extends(s.sent, t.sent) && CleanRun(t, deps)
    ensures CleanRun(s, deps)
  {
    forall p, m | 0 <= p < |s.sent| && m in s.sent[p] ensures CleanBody(m.body) {
      assert m in t.sent[p];
    }
  }

  /** In every clean run the causal layer never throws, and its clock, its waiting texts and the log are those of
      the structured state. */
  lemma {:induction false} TopRunRefines(deps: seq<seq<nat>>, vs: seq<S.Move>, t: S.State, p: nat)
    requires T.Reaches(deps, vs, t) && CleanRun(t, deps) && p < |deps|
    ensures |t.top| == |deps|
    ensures var r := TopRun(|deps|, vs, p); r.Some? && TopRenders(t.sent, p, t.top[p], r.value)
  {
    T.ReachableInv(deps, vs, t);
    if vs == [] {
      Causal.ZerosRead(|deps|);
    } else {
      var s, v := T.After(deps, vs[..|vs| - 1]).s, vs[|vs| - 1];
      T.ReachableInv(deps, vs[..|vs| - 1], s);
      SentGrows(s, deps, v);
      CleanEarlier(s, t, deps);
      TopRunRefines(deps, vs[..|vs| - 1], s, p);
      MoveRefines(s, deps, v, p, TopRun(|deps|, vs[..|vs| - 1], p).value);
    }
  }

  /** All objects of a process: at every point of a clean run their fields are the texts of the structured state,
      and the text that a broadcast would hand down is the text of the stack's new message. */
  lemma ProcessRefines(deps: seq<seq<nat>>, vs: seq<S.Move>, t: S.State, p: nat, body: string) returns (es: seq<U.Step>)
    requires T.Reaches(deps, vs, t) && CleanRun(t, deps) && p < |deps|
    ensures Runs.Reaches(|deps|, es, t.net) && |t.net.procs| == |t.top| == |deps|
    ensures var r := R.TextRun(|deps|, es, p); r.Some? && R.Renders(t.net.procs[p], p, r.value)
    ensures var r := TopRun(|deps|, vs, p);
            && r.Some? && TopRenders(t.sent, p, t.top[p], r.value)
            && body + ClockText(Entries(r.value.inbox.vc, DepIds(deps[p])) + [(p + 1, r.value.lsn)])
               == MessageText(S.NewMessage(t, deps, p, body))
  {
    es := T.Projection(deps, vs, t);
    T.ReachableInv(deps, vs, t);
    RunIsClean(t, deps);
    R.RunRefines(|deps|, es, t.net, p);
    TopRunRefines(deps, vs, t, p);
    StampRefines(t.top[p], TopRun(|deps|, vs, p).value.inbox.vc, p, deps[p], body);
  }

  // ---------- a pass of the causal layer ----------

  /** The fields that `DeliverPending` leaves when it delivers `texts`. */
  function Passed(st: TopText, texts: seq<string>): TopText {
    TopText(st.lsn, DeliverAll(st.inbox, texts, Causal.OriginOf), Causal.LogDeliveries(st.log, texts))
  }

  lemma PassedSnoc(st: TopText, texts: seq<string>, text: string)
    ensures Passed(st, texts + [text]) == TopText(st.lsn, Deliver(Passed(st, texts).inbox, text, Causal.OriginOf),
              PushNew(Passed(st, texts).log, Causal.DeliveredText(text)))
  {
    DeliverAllSnoc(st.inbox, texts, text, Causal.OriginOf);
    Causal.LogStep(st.log, texts, text);
  }

  lemma MoreReleases(vs: seq<S.Move>, p: nat, ks: seq<Key>, k: Key)
    ensures vs + T.Releases(p, ks + [k]) == vs + T.Releases(p, ks) + [S.Release(p, k)]
  {
    EachSnoc((x: Key) => S.Release(p, x), ks, k);
  }

  lemma OneMoreMove(n: nat, vs: seq<S.Move>, p: nat, v: S.Move)
    requires Moves(v, p) && TopRun(n, vs, p).Some?
    ensures TopRun(n, vs + [v], p) == TopStep(TopRun(n, vs, p).value, v)
  {
    assert (vs + [v])[..|vs|] == vs;
  }

  /** The moves of a run that release ks leave the clock, the waiting texts and the log that one pass delivering
      their texts leaves. */
  lemma {:induction false} PassIsMoves(n: nat, vs: seq<S.Move>, p: nat, ks: seq<Key>)
    requires TopRun(n, vs, p).Some?
    ensures TopRun(n, vs + T.Releases(p, ks), p) == Some(Passed(TopRun(n, vs, p).value, R.KeyTexts(ks)))
  {
    var st := TopRun(n, vs, p).value;
    if ks == [] {
      assert vs + T.Releases(p, ks) == vs && R.KeyTexts(ks) == [];
    } else {
      var init, k := ks[..|ks| - 1], ks[|ks| - 1];
      assert ks == init + [k];
      PassIsMoves(n, vs, p, init);
      EachSnoc(KeyText, init, k);
      PassedSnoc(st, R.KeyTexts(init), KeyText(k));
      MoreReleases(vs, p, init, k);
      OneMoreMove(n, vs + T.Releases(p, init), p, S.Release(p, k));
    }
  }

  lemma {:induction false} KeysOf(keys: set<Key>, b: Inbox<Key>, t: Inbox<string>, order: seq<string>)
      returns (ks: seq<Key>)
    requires InboxRenders(b, t) && b.pairs.Keys <= keys && forall x :: x in order ==> x in t.pairs
    ensures R.KeyTexts(ks) == order && forall k :: k in ks ==> k in b.pairs
  {
    if order == [] {
      ks := [];
    } else {
      var init, x := order[..|order| - 1], order[|order| - 1];
      assert order == init + [x];
      var less := KeysOf(keys, b, t, init);
      assert IsTextOf(x, b.pairs);
      var k :| k in b.pairs && KeyText(k) == x;
      ks := less + [k];
      EachSnoc(KeyText, less, k);
    }
  }

  /** A pass of `DeliverPending` in a clean run, whatever order it visits the waiting texts in, is a continuation of
      the run: what it delivers are the texts of released messages, and clock, waiting texts and log are those of
      the longer run. */
  lemma PassContinues(deps: seq<seq<nat>>, vs: seq<S.Move>, s: S.State, p: nat, order: seq<string>)
      returns (ks: seq<Key>, t: S.State)
    requires T.Reaches(deps, vs, s) && CleanRun(s, deps) && p < |deps| && p !in s.net.crashed
    requires TopRun(|deps|, vs, p).Some? && forall x :: x in order ==> x in TopRun(|deps|, vs, p).value.inbox.pairs
    ensures T.Reaches(deps, vs + T.Releases(p, ks), t) && CleanRun(t, deps)
    ensures R.KeyTexts(ks) == Scan(TopRun(|deps|, vs, p).value.inbox, order, Causal.OriginOf)
    ensures TopRun(|deps|, vs + T.Releases(p, ks), p) == Some(Passed(TopRun(|deps|, vs, p).value, R.KeyTexts(ks)))
  {
    var st := TopRun(|deps|, vs, p).value;
    T.ReachableInv(deps, vs, s);
    TopRunRefines(deps, vs, s, p);
    MayWait(s, deps, p);
    WaitingAreHanded(s, deps, p);
    var b, keys := s.top[p].inbox, HandedKeys(s.net, p);
    var visit := KeysOf(keys, b, st.inbox, order);
    ks := Scan(b, visit, S.Origin);
    ScanRefines(keys, b, st.inbox, visit);
    ScanAllowed(b, visit, S.Origin);
    t := T.ScanIsAMove(deps, vs, s, p, ks);
    PassIsMoves(|deps|, vs, p, ks);
  }

  // ---------- end to end ----------

  lemma {:induction false} LogsAgree(ms: seq<nat>, sent: seq<seq<Stamped>>, p: nat, es: seq<S.Event>)
    requires E.AllFit(ms, p, es)
    requires forall j :: 0 <= j < |es| ==> Entry(sent, p, es[j]) == E.EventText(ms, p, es[j])
    ensures EventLog(sent, p, es) == E.LogOf(ms, p, es)
  {
    if es != [] {
      LogsAgree(ms, sent, p, es[..|es| - 1]);
    }
  }

  lemma MainLog(deps: seq<seq<nat>>, ms: seq<nat>, vs: seq<S.Move>, s: S.State, p: nat)
    requires T.Reaches(deps, vs, s) && E.MainRun(ms, vs) && p < |deps| == |ms| <= 999 && S.Shape(s, deps)
    requires E.AllFit(ms, p, s.top[p].events)
    ensures EventLog(s.sent, p, s.top[p].events) == E.LogOf(ms, p, s.top[p].events)
  {
    var es := s.top[p].events;
    forall j | 0 <= j < |es| ensures Entry(s.sent, p, es[j]) == E.EventText(ms, p, es[j]) {
      assert es[j] in es;
      E.LogTexts(deps, ms, vs, s, p, es[j]);
    }
    LogsAgree(ms, s.sent, p, es);
  }

  /** What the loop of `main` broadcasts is clean. */
  lemma MainIsClean(deps: seq<seq<nat>>, ms: seq<nat>, vs: seq<S.Move>, s: S.State)
    requires T.Reaches(deps, vs, s) && E.MainRun(ms, vs) && |deps| == |ms| <= 999
    requires forall p, d :: 0 <= p < |deps| && d in deps[p] ==> d < 999
    ensures CleanRun(s, deps)
  {
    forall p, m | 0 <= p < |s.sent| && m in s.sent[p] ensures CleanBody(m.body) {
      T.ReachableInv(deps, vs, s);
      E.BodiesAreBatches(deps, ms, vs, s, p);
      var i :| 0 <= i < |s.sent[p]| && s.sent[p][i] == m;
      E.BatchOfNumbers(ms[p], i);
      E.BatchHasNoV(ms[p], i);
      E.BatchStarts(ms[p], i);
    }
  }

  /** End-to-end FIFO on texts: in every run in which each process broadcasts its numbers through the loop of
      `main`, at any point, the file written from the log that the objects of a process have collected is
      accepted by the validator. */
  lemma WrittenFilesAreAccepted(deps: seq<seq<nat>>, ms: seq<nat>, vs: seq<S.Move>, s: S.State, p: nat)
    requires T.Reaches(deps, vs, s) && E.MainRun(ms, vs) && p < |deps| == |ms| <= 999
    requires forall q, d :: 0 <= q < |deps| && d in deps[q] ==> d < 999
    ensures TopRun(|deps|, vs, p).Some?
    ensures var f := Output.FileOf(TopRun(|deps|, vs, p).value.log);
            f.Some? && V.Check(V.ReadLines(f.value), 1, map[]) == V.Accepted
  {
    T.ReachableInv(deps, vs, s);
    MainIsClean(deps, ms, vs, s);
    TopRunRefines(deps, vs, s, p);
    E.FilesAreAccepted(deps, ms, vs, s, p);
    MainLog(deps, ms, vs, s, p);
  }
  lemma {:induction false} StillMain(bodies: seq<seq<string>>, vs: seq<S.Move>, p: nat, ks: seq<Key>)
    requires E.Follows(bodies, vs)
    ensures E.Follows(bodies, vs + T.Releases(p, ks))
  {
    var moves := vs + T.Releases(p, ks);
    if ks == [] {
      assert moves == vs;
    } else {
      var init := ks[..|ks| - 1];
      StillMain(bodies, vs, p, init);
      assert moves[..|moves| - 1] == vs + T.Releases(p, init) && moves[|moves| - 1] == S.Release(p, ks[|ks| - 1]);
    }
  }

  /** The same for the log that a pass of `DeliverPending` leaves, whatever order it visits the waiting texts in. */
  lemma PassedFilesAreAccepted(deps: seq<seq<nat>>, ms: seq<nat>, vs: seq<S.Move>, s: S.State, p: nat,
                               order: seq<string>)
    requires T.Reaches(deps, vs, s) && E.MainRun(ms, vs) && p < |deps| == |ms| <= 999 && p !in s.net.crashed
    requires forall q, d :: 0 <= q < |deps| && d in deps[q] ==> d < 999
    requires TopRun(|deps|, vs, p).Some? && forall x :: x in order ==> x in TopRun(|deps|, vs, p).value.inbox.pairs
    ensures var st := TopRun(|deps|, vs, p).value;
            var f := Output.FileOf(Causal.LogDeliveries(st.log, Scan(st.inbox, order, Causal.OriginOf)));
            f.Some? && V.Check(V.ReadLines(f.value), 1, map[]) == V.Accepted
  {
    MainIsClean(deps, ms, vs, s);
    var ks, t := PassContinues(deps, vs, s, p, order);
    StillMain(E.MainBodies(ms), vs, p, ks);
    WrittenFilesAreAccepted(deps, ms, vs + T.Releases(p, ks), t, p);
  }
}
