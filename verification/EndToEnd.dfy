/** From runs of the whole stack, with every process running the loop of `main`, to accepted output files. */
module EndToEnd {
  import opened Messages
  import opened StdList
  import opened Text
  import opened Batching
  import opened Output
  import opened Validator
  import S = Stack
  import T = StackTheorems
  import C = Codec

  // ---------- what main broadcasts ----------

  /** The numbers in batch i of m messages are First(i), First(i) + 1, ..., Last(m, i). */
  function FirstOf(i: nat): nat {
    15 * i + 1
  }

  function LastOf(m: nat, i: nat): nat {
    if 15 * i + 15 <= m then 15 * i + 15 else m
  }

  /** How many messages the first i batches hold. */
  function Upto(m: nat, i: nat): nat {
    if 15 * i <= m then 15 * i else m
  }

  function Group(m: nat, i: nat): seq<string>
    requires 15 * i < m
  {
    seq(LastOf(m, i) - 15 * i, j requires 0 <= j < LastOf(m, i) - 15 * i => Decimal(FirstOf(i) + j))
  }

  /** The messages of batch i of a list. */
  function Slice(ms: seq<string>, i: nat): seq<string>
    requires 15 * i < |ms|
  {
    ms[15 * i..LastOf(|ms|, i)]
  }

  lemma SliceOfRest(ms: seq<string>, i: nat)
    requires i > 0 && 15 * i < |ms|
    ensures 15 * (i - 1) < |Rest(ms)| && Slice(Rest(ms), i - 1) == Slice(ms, i)
  {
  }

  lemma {:induction false} BatchesIndex(ms: seq<string>, i: nat)
    ensures i < |Batches(ms)| <==> 15 * i < |ms|
    ensures 15 * i < |ms| ==> Batches(ms)[i] == BatchText(Slice(ms, i))
    decreases i
  {
    if ms != [] {
      if i == 0 {
        assert Slice(ms, 0) == First(ms);
      } else {
        BatchesIndex(Rest(ms), i - 1);
        assert 15 * (i - 1) < |Rest(ms)| <==> 15 * i < |ms|;
        if 15 * i < |ms| {
          SliceOfRest(ms, i);
        }
      }
    }
  }

  lemma GroupIsSlice(m: nat, i: nat)
    requires 15 * i < m
    ensures Slice(Numbers(m), i) == Group(m, i)
  {
    var slice := Slice(Numbers(m), i);
    forall j | 0 <= j < |slice| ensures slice[j] == Group(m, i)[j] {
      assert slice[j] == Numbers(m)[15 * i + j] == Decimal(15 * i + j + 1);
      assert Group(m, i)[j] == Decimal(FirstOf(i) + j);
    }
  }

  lemma BatchOfNumbers(m: nat, i: nat)
    ensures i < |Batches(Numbers(m))| <==> 15 * i < m
    ensures 15 * i < m ==> Batches(Numbers(m))[i] == BatchText(Group(m, i))
  {
    BatchesIndex(Numbers(m), i);
    if 15 * i < m {
      GroupIsSlice(m, i);
    }
  }

  // ---------- the log ----------

  /** What is logged for an event of process p; ids are process numbers plus one. */
  function Header(e: S.Event): string {
    match e
    case B(_) => "b"
    case D(o, _) => "d" + Pad3(o + 1) + "000"
  }

  /** The broadcast that an event of process p is about. */
  function About(p: nat, e: S.Event): (nat, nat) {
    match e
    case B(i) => (p, i)
    case D(o, i) => (o, i)
  }

  /** The entry for an event, when process o broadcasts 1..ms[o]. */
  function EventText(ms: seq<nat>, p: nat, e: S.Event): string
    requires Fits(ms, p, e)
  {
    Header(e) + BatchText(Group(ms[About(p, e).0], About(p, e).1))
  }

  predicate Fits(ms: seq<nat>, p: nat, e: S.Event) {
    About(p, e).0 < |ms| && |ms| <= 999 && 15 * About(p, e).1 < ms[About(p, e).0]
  }

  predicate AllFit(ms: seq<nat>, p: nat, es: seq<S.Event>) {
    forall j :: 0 <= j < |es| ==> Fits(ms, p, es[j])
  }

  function LogOf(ms: seq<nat>, p: nat, es: seq<S.Event>): seq<string>
    requires AllFit(ms, p, es)
  {
    if es == [] then [] else PushNew(LogOf(ms, p, es[..|es| - 1]), EventText(ms, p, es[|es| - 1]))
  }

  lemma GroupIsClean(m: nat, i: nat)
    requires 15 * i < m
    ensures Clean(Group(m, i))
  {
    forall j | 0 <= j < |Group(m, i)| ensures NoInnerSeparator(Group(m, i)[j]) && Group(m, i)[j] != "" {
      assert Group(m, i)[j] == Decimal(FirstOf(i) + j);
      C.DigitsHaveNoLetter(Group(m, i)[j], 's');
    }
  }

  lemma HeaderOf(e: S.Event)
    requires e.D? ==> e.origin + 1 < 1000
    ensures IsHeader(Header(e))
  {
  }

  lemma EventMessages(ms: seq<nat>, p: nat, e: S.Event)
    requires Fits(ms, p, e)
    ensures var g := Group(ms[About(p, e).0], About(p, e).1);
            EntryMessages(EventText(ms, p, e)) == Some(WithHeader(Header(e), g)) && g != []
  {
    var g := Group(ms[About(p, e).0], About(p, e).1);
    HeaderOf(e);
    GroupIsClean(ms[About(p, e).0], About(p, e).1);
    BatchRoundTrip(Header(e), g);
  }

  lemma PadInjective(a: nat, b: nat)
    requires Pad3(a) == Pad3(b)
    ensures a == b
  {
    ValueOfPadded(a);
    ValueOfPadded(b);
  }

  lemma DecimalInjective(a: nat, b: nat)
    requires Decimal(a) == Decimal(b)
    ensures a == b
  {
    ValueOfDecimal(a);
    ValueOfDecimal(b);
  }

  /** Header and number can be read off a message of the log. */
  lemma FirstMessage(a: S.Event, x: nat, b: S.Event, y: nat)
    requires Header(a) + Decimal(x) == Header(b) + Decimal(y)
    requires (a.D? ==> a.origin < 999) && (b.D? ==> b.origin < 999)
    ensures a.B? <==> b.B?
    ensures x == y && (a.D? ==> a.origin == b.origin)
  {
    HeaderOf(a);
    HeaderOf(b);
    assert (Header(a) + Decimal(x))[0] == Header(a)[0] && (Header(b) + Decimal(y))[0] == Header(b)[0];
    assert |Header(a)| == |Header(b)|;
    assert Header(a) == (Header(a) + Decimal(x))[..|Header(a)|] == Header(b);
    assert Decimal(x) == (Header(a) + Decimal(x))[|Header(a)|..] == Decimal(y);
    DecimalInjective(x, y);
    if a.D? {
      assert Pad3(a.origin + 1) == Header(a)[1..4] == Header(b)[1..4] == Pad3(b.origin + 1);
      PadInjective(a.origin + 1, b.origin + 1);
    }
  }

  lemma FirstOfEntry(ms: seq<nat>, p: nat, e: S.Event)
    requires Fits(ms, p, e)
    ensures var r := EntryMessages(EventText(ms, p, e));
            r.Some? && r.value != [] && r.value[0] == Header(e) + Decimal(FirstOf(About(p, e).1))
  {
    var (o, i) := About(p, e);
    EventMessages(ms, p, e);
    GroupStarts(ms[o], i);
    HeaderFirst(Header(e), Group(ms[o], i));
  }

  lemma GroupStarts(m: nat, i: nat)
    requires 15 * i < m
    ensures Group(m, i) != [] && Group(m, i)[0] == Decimal(FirstOf(i))
  {
    assert FirstOf(i) + 0 == FirstOf(i);
  }

  lemma HeaderFirst(h: string, ms: seq<string>)
    requires ms != []
    ensures WithHeader(h, ms) != [] && WithHeader(h, ms)[0] == h + ms[0]
  {
  }

  /** Different events have different entries. */
  lemma EventTextInjective(ms: seq<nat>, p: nat, a: S.Event, b: S.Event)
    requires Fits(ms, p, a) && Fits(ms, p, b) && EventText(ms, p, a) == EventText(ms, p, b)
    ensures a == b
  {
    FirstOfEntry(ms, p, a);
    FirstOfEntry(ms, p, b);
    FirstMessage(a, FirstOf(About(p, a).1), b, FirstOf(About(p, b).1));
  }

  ghost predicate LogIs(ms: seq<nat>, p: nat, es: seq<S.Event>, log: seq<string>)
    requires AllFit(ms, p, es)
  {
    |log| == |es| && forall j :: 0 <= j < |es| ==> log[j] == EventText(ms, p, es[j])
  }

  lemma NewText(ms: seq<nat>, p: nat, es: seq<S.Event>, log: seq<string>, e: S.Event)
    requires AllFit(ms, p, es) && LogIs(ms, p, es, log) && Fits(ms, p, e) && e !in es
    ensures EventText(ms, p, e) !in log
  {
    forall j | 0 <= j < |log| ensures log[j] != EventText(ms, p, e) {
      assert es[j] in es;
      if log[j] == EventText(ms, p, e) { EventTextInjective(ms, p, es[j], e); }
    }
  }

  /** No entry is dropped from the log, because no event happens twice. */
  lemma {:induction false} LogKeepsAll(ms: seq<nat>, p: nat, es: seq<S.Event>)
    requires AllFit(ms, p, es) && NoRepeats(es)
    ensures LogIs(ms, p, es, LogOf(ms, p, es))
  {
    if es != [] {
      var init, e := es[..|es| - 1], es[|es| - 1];
      LogKeepsAll(ms, p, init);
      NewText(ms, p, init, LogOf(ms, p, init), e);
      assert LogOf(ms, p, es) == LogOf(ms, p, init) + [EventText(ms, p, e)];
      LogIsSnoc(ms, p, es, LogOf(ms, p, init), LogOf(ms, p, es));
    }
  }

  lemma LogIsSnoc(ms: seq<nat>, p: nat, es: seq<S.Event>, log: seq<string>, more: seq<string>)
    requires es != [] && AllFit(ms, p, es) && LogIs(ms, p, es[..|es| - 1], log)
    requires more == log + [EventText(ms, p, es[|es| - 1])]
    ensures LogIs(ms, p, es, more)
  {
    forall j | 0 <= j < |es| ensures more[j] == EventText(ms, p, es[j]) {
      if j < |es| - 1 { assert log[j] == EventText(ms, p, es[..|es| - 1][j]); }
    }
  }

  // ---------- the file ----------

  /** The line that message n of an event becomes. */
  function LineOf(e: S.Event, n: nat): Line {
    match e
    case B(_) => BLine(n)
    case D(o, _) => DLine(o + 1, n)
  }

  function EventLines(ms: seq<nat>, p: nat, e: S.Event): seq<Line>
    requires Fits(ms, p, e)
  {
    LinesFrom(e, FirstOf(About(p, e).1), |Group(ms[About(p, e).0], About(p, e).1)|)
  }

  function Lines(ms: seq<nat>, p: nat, es: seq<S.Event>): seq<Line>
    requires AllFit(ms, p, es)
  {
    if es == [] then [] else Lines(ms, p, es[..|es| - 1]) + EventLines(ms, p, es[|es| - 1])
  }

  lemma {:induction false} WordRunOf(w: string, rest: string)
    requires (forall c :: c in w ==> !IsBlank(c)) && (rest == "" || IsBlank(rest[0]))
    ensures WordRun(w + rest) == |w|
  {
    if w == "" {
      assert w + rest == rest;
    } else {
      assert (w + rest)[1..] == w[1..] + rest;
      WordRunOf(w[1..], rest);
    }
  }

  lemma FirstWord(w: string, rest: string)
    requires w != "" && (forall c :: c in w ==> !IsBlank(c)) && (rest == "" || IsBlank(rest[0]))
    ensures Words(w + rest) == [w] + Words(rest)
  {
    WordRunOf(w, rest);
    assert (w + rest)[..|w|] == w && (w + rest)[|w|..] == rest;
  }

  lemma DecimalWord(n: nat)
    ensures Words(Decimal(n)) == [Decimal(n)] && Int(Decimal(n)) == Some(n)
  {
    FirstWord(Decimal(n), "");
    assert Decimal(n) + "" == Decimal(n);
    ValueOfDecimal(n);
    SignedDigits(Decimal(n));
  }

  lemma BroadcastLine(n: nat)
    ensures OutputLine("b" + Decimal(n)) == Some(["b " + Decimal(n)]) && ReadLine("b " + Decimal(n)) == BLine(n)
  {
    var m := "b" + Decimal(n);
    assert m[1..] == Decimal(n);
    FirstWord("b", " " + Decimal(n));
    BlankSkipped(' ', Decimal(n));
    DecimalWord(n);
    assert "b" + (" " + Decimal(n)) == "b " + Decimal(n);
  }

  lemma DeliveryOutput(id: nat, text: string)
    requires id < 1000
    ensures OutputLine("d" + Pad3(id) + "000" + text) == Some(["d " + Decimal(id) + " " + text])
  {
    var m := "d" + Pad3(id) + "000" + text;
    assert m[1..4] == Pad3(id) && m[4..7] == "000" && m[7..] == text;
    C.ThreeDigits(Pad3(id));
    C.ThreeDigits("000");
    ValueOfPadded(id);
  }

  ghost predicate IsWord(w: string) {
    w != "" && forall c :: c in w ==> !IsBlank(c)
  }

  lemma ThreeWords(a: string, b: string, c: string)
    requires IsWord(a) && IsWord(b) && Words(c) == [c]
    ensures Words(a + " " + b + " " + c) == [a, b, c]
  {
    var tail := " " + c;
    BlankSkipped(' ', c);
    FirstWord(b, tail);
    BlankSkipped(' ', b + tail);
    FirstWord(a, " " + (b + tail));
    C.Associative(a, " ", b + tail);
    C.Associative(a + " ", b, tail);
    C.Associative(a + " " + b, " ", c);
  }

  lemma DeliveryLine(id: nat, n: nat)
    ensures ReadLine("d " + Decimal(id) + " " + Decimal(n)) == DLine(id, n)
  {
    DecimalWord(id);
    DecimalWord(n);
    ThreeWords("d", Decimal(id), Decimal(n));
    assert "d" + " " == "d ";
  }

  lemma MessageLine(e: S.Event, n: nat)
    requires e.D? ==> e.origin < 999
    ensures var o := OutputLine(Header(e) + Decimal(n)); o.Some? && ReadLines(o.value) == [LineOf(e, n)]
  {
    match e
    case B(_) => BroadcastLine(n);
    case D(o, _) =>
      DeliveryOutput(o + 1, Decimal(n));
      DeliveryLine(o + 1, n);
  }

  function Texts(e: S.Event, from: nat, count: nat): seq<string> {
    seq(count, j requires 0 <= j < count => Header(e) + Decimal(from + j))
  }

  function LinesFrom(e: S.Event, from: nat, count: nat): seq<Line> {
    seq(count, j requires 0 <= j < count => LineOf(e, from + j))
  }

  lemma TextsSnoc(e: S.Event, from: nat, count: nat)
    requires count > 0
    ensures Texts(e, from, count)[..count - 1] == Texts(e, from, count - 1)
    ensures Texts(e, from, count)[count - 1] == Header(e) + Decimal(from + count - 1)
    ensures LinesFrom(e, from, count) == LinesFrom(e, from, count - 1) + [LineOf(e, from + count - 1)]
  {
  }

  /** The lines of `count` messages from number `from` on. */
  lemma {:induction false} MessageLines(e: S.Event, from: nat, count: nat)
    requires e.D? ==> e.origin < 999
    ensures var o := OutputLines(Texts(e, from, count)); o.Some? && ReadLines(o.value) == LinesFrom(e, from, count)
    decreases count
  {
    if count > 0 {
      TextsSnoc(e, from, count);
      MessageLines(e, from, count - 1);
      MessageLine(e, from + count - 1);
      ReadLinesAppend(OutputLines(Texts(e, from, count - 1)).value, OutputLine(Texts(e, from, count)[count - 1]).value);
    }
  }

  lemma ReadLinesAppend(a: seq<string>, b: seq<string>)
    ensures ReadLines(a + b) == ReadLines(a) + ReadLines(b)
  {
  }

  lemma EventTexts(ms: seq<nat>, p: nat, e: S.Event)
    requires Fits(ms, p, e)
    ensures var (o, i) := About(p, e);
            EntryMessages(EventText(ms, p, e)) == Some(Texts(e, FirstOf(i), |Group(ms[o], i)|))
  {
    var (o, i) := About(p, e);
    EventMessages(ms, p, e);
    assert WithHeader(Header(e), Group(ms[o], i)) == Texts(e, FirstOf(i), |Group(ms[o], i)|);
  }

  lemma EventFile(ms: seq<nat>, p: nat, e: S.Event)
    requires Fits(ms, p, e)
    ensures var f := FileOf([EventText(ms, p, e)]); f.Some? && ReadLines(f.value) == EventLines(ms, p, e)
  {
    var (o, i) := About(p, e);
    EventTexts(ms, p, e);
    OneEntry(EventText(ms, p, e));
    MessageLines(e, FirstOf(i), |Group(ms[o], i)|);
  }

  lemma FileAppend(a: seq<string>, b: seq<string>)
    requires FileOf(a).Some? && FileOf(b).Some?
    ensures FileOf(a + b) == Some(FileOf(a).value + FileOf(b).value)
  {
    DeconcatAppend(a, b);
    OutputAppend(Deconcat(a).value, Deconcat(b).value);
  }

  /** The file written for a log reads as the lines of its events, in order. */
  lemma {:induction false} FileLines(ms: seq<nat>, p: nat, es: seq<S.Event>)
    requires AllFit(ms, p, es) && NoRepeats(es)
    ensures var f := FileOf(LogOf(ms, p, es)); f.Some? && ReadLines(f.value) == Lines(ms, p, es)
  {
    if es != [] {
      var init, e := es[..|es| - 1], es[|es| - 1];
      FileLines(ms, p, init);
      EventFile(ms, p, e);
      LogKeepsAll(ms, p, init);
      LogKeepsAll(ms, p, es);
      assert LogOf(ms, p, es) == LogOf(ms, p, init) + [EventText(ms, p, e)];
      FileAppend(LogOf(ms, p, init), [EventText(ms, p, e)]);
      ReadLinesAppend(FileOf(LogOf(ms, p, init)).value, FileOf([EventText(ms, p, e)]).value);
    }
  }

  // ---------- the lines are in order ----------

  lemma {:induction false} BroadcastsAppend(a: seq<Line>, b: seq<Line>)
    ensures Broadcasts(a + b) == Broadcasts(a) + Broadcasts(b)
    decreases |a|
  {
    if a == [] {
      assert a + b == b;
    } else {
      assert (a + b)[1..] == a[1..] + b && (a + b)[0] == a[0];
      BroadcastsAppend(a[1..], b);
      var head := if a[0].BLine? then [a[0].n] else [];
      assert head + (Broadcasts(a[1..]) + Broadcasts(b)) == (head + Broadcasts(a[1..])) + Broadcasts(b);
    }
  }

  lemma {:induction false} DeliveriesAppend(a: seq<Line>, b: seq<Line>, s: int)
    ensures Deliveries(a + b, s) == Deliveries(a, s) + Deliveries(b, s)
    decreases |a|
  {
    if a == [] {
      assert a + b == b;
    } else {
      assert (a + b)[1..] == a[1..] + b && (a + b)[0] == a[0];
      DeliveriesAppend(a[1..], b, s);
      var head := if a[0].DLine? && a[0].sender == s then [a[0].n] else [];
      assert head + (Deliveries(a[1..], s) + Deliveries(b, s)) == (head + Deliveries(a[1..], s)) + Deliveries(b, s);
    }
  }

  /** The numbers `from`, `from` + 1, ..., count of them. */
  function Run(from: nat, count: nat): seq<int> {
    seq(count, j requires 0 <= j < count => from + j)
  }

  lemma LinesHead(e: S.Event, from: nat, count: nat)
    requires count > 0
    ensures LinesFrom(e, from, count) == [LineOf(e, from)] + LinesFrom(e, from + 1, count - 1)
    ensures Run(from, count) == [from] + Run(from + 1, count - 1)
  {
  }

  /** Lines of one event, `count` of them from number `from` on. */
  lemma {:induction false} BroadcastsOfEvent(e: S.Event, from: nat, count: nat)
    ensures Broadcasts(LinesFrom(e, from, count)) == if e.B? then Run(from, count) else []
    ensures Bad !in LinesFrom(e, from, count)
    decreases count
  {
    if count > 0 {
      LinesHead(e, from, count);
      BroadcastsOfEvent(e, from + 1, count - 1);
      BroadcastsAppend([LineOf(e, from)], LinesFrom(e, from + 1, count - 1));
    }
  }

  lemma {:induction false} DeliveriesOfEvent(e: S.Event, from: nat, count: nat, s: int)
    ensures Deliveries(LinesFrom(e, from, count), s) == if e.D? && s == e.origin + 1 then Run(from, count) else []
    decreases count
  {
    if count > 0 {
      LinesHead(e, from, count);
      DeliveriesOfEvent(e, from + 1, count - 1, s);
      DeliveriesAppend([LineOf(e, from)], LinesFrom(e, from + 1, count - 1), s);
    }
  }

  ghost predicate InTurn(es: seq<S.Event>) {
    forall j :: 0 <= j < |es| ==> S.TurnOf(es[..j], es[j])
  }

  /** What the deliveries of sender s must be after the events es. */
  function Expected(ms: seq<nat>, es: seq<S.Event>, s: int): seq<int> {
    if 0 < s <= |ms| then Run(1, Upto(ms[s - 1], S.NumD(es, s - 1))) else []
  }

  ghost predicate Ordered(ms: seq<nat>, p: nat, es: seq<S.Event>, ls: seq<Line>)
    requires p < |ms|
  {
    && Bad !in ls
    && Broadcasts(ls) == Run(1, Upto(ms[p], S.NumB(es)))
    && forall s: int :: Deliveries(ls, s) == Expected(ms, es, s)
  }

  lemma RunJoin(m: nat, i: nat)
    requires 15 * i < m
    ensures Run(1, Upto(m, i)) + Run(FirstOf(i), |Group(m, i)|) == Run(1, Upto(m, i + 1))
  {
  }

  lemma CountsSnoc(es: seq<S.Event>, e: S.Event, o: nat)
    ensures S.NumB(es + [e]) == S.NumB(es) + if e.B? then 1 else 0
    ensures S.NumD(es + [e], o) == S.NumD(es, o) + if e.D? && e.origin == o then 1 else 0
  {
    assert (es + [e])[..|es + [e]| - 1] == es;
  }

  lemma BroadcastOrdered(ms: seq<nat>, p: nat, es: seq<S.Event>, e: S.Event, ls: seq<Line>)
    requires p < |ms| && Fits(ms, p, e) && S.TurnOf(es, e)
    requires Broadcasts(ls) == Run(1, Upto(ms[p], S.NumB(es)))
    ensures Broadcasts(ls + EventLines(ms, p, e)) == Run(1, Upto(ms[p], S.NumB(es + [e])))
  {
    var (o, i) := About(p, e);
    CountsSnoc(es, e, 0);
    BroadcastsOfEvent(e, FirstOf(i), |Group(ms[o], i)|);
    BroadcastsAppend(ls, EventLines(ms, p, e));
    if e.B? { RunJoin(ms[o], i); } else { assert Broadcasts(ls) + [] == Broadcasts(ls); }
  }

  lemma DeliveryOrdered(ms: seq<nat>, p: nat, es: seq<S.Event>, e: S.Event, ls: seq<Line>, s: int)
    requires p < |ms| && Fits(ms, p, e) && S.TurnOf(es, e) && Deliveries(ls, s) == Expected(ms, es, s)
    ensures Deliveries(ls + EventLines(ms, p, e), s) == Expected(ms, es + [e], s)
  {
    var (o, i) := About(p, e);
    if s > 0 { CountsSnoc(es, e, s - 1); }
    DeliveriesOfEvent(e, FirstOf(i), |Group(ms[o], i)|, s);
    DeliveriesAppend(ls, EventLines(ms, p, e), s);
    if e.D? && s == o + 1 { RunJoin(ms[o], i); } else { assert Deliveries(ls, s) + [] == Deliveries(ls, s); }
  }

  lemma EventOrdered(ms: seq<nat>, p: nat, es: seq<S.Event>, e: S.Event, ls: seq<Line>)
    requires p < |ms| && Fits(ms, p, e) && S.TurnOf(es, e) && Ordered(ms, p, es, ls)
    ensures Ordered(ms, p, es + [e], ls + EventLines(ms, p, e))
  {
    BroadcastOrdered(ms, p, es, e, ls);
    BroadcastsOfEvent(e, FirstOf(About(p, e).1), |Group(ms[About(p, e).0], About(p, e).1)|);
    forall s: int ensures Deliveries(ls + EventLines(ms, p, e), s) == Expected(ms, es + [e], s) {
      assert Deliveries(ls, s) == Expected(ms, es, s);
      DeliveryOrdered(ms, p, es, e, ls, s);
    }
  }

  lemma {:induction false} LinesOrdered(ms: seq<nat>, p: nat, es: seq<S.Event>)
    requires AllFit(ms, p, es) && InTurn(es) && p < |ms|
    ensures Ordered(ms, p, es, Lines(ms, p, es))
  {
    if es != [] {
      var init, e := es[..|es| - 1], es[|es| - 1];
      forall j | 0 <= j < |init| ensures S.TurnOf(init[..j], init[j]) {
        assert init[..j] == es[..j];
        assert S.TurnOf(es[..j], es[j]);
      }
      LinesOrdered(ms, p, init);
      assert S.TurnOf(init, e);
      EventOrdered(ms, p, init, e, Lines(ms, p, init));
      assert es == init + [e];
    }
  }

  lemma OrderedAccepted(ms: seq<nat>, p: nat, es: seq<S.Event>, ls: seq<Line>)
    requires p < |ms| && Ordered(ms, p, es, ls)
    ensures Check(ls, 1, map[]) == Accepted
  {
    forall s: int ensures Counts(Deliveries(ls, s), 1) {
      assert Deliveries(ls, s) == Expected(ms, es, s);
    }
    AcceptedIff(ls);
  }

  // ---------- runs in which every process runs main ----------

  function Bcasts(vs: seq<S.Move>, p: nat): nat {
    if vs == [] then 0 else Bcasts(vs[..|vs| - 1], p) + if vs[|vs| - 1].Bcast? && vs[|vs| - 1].p == p then 1 else 0
  }

  /** Process p's i-th broadcast has the body bodies[p][i]. */
  ghost predicate Follows(bodies: seq<seq<string>>, vs: seq<S.Move>) {
    vs != [] ==>
      var v := vs[|vs| - 1];
      && Follows(bodies, vs[..|vs| - 1])
      && (v.Bcast? ==>
           && v.p < |bodies| && Bcasts(vs[..|vs| - 1], v.p) < |bodies[v.p]|
           && v.body == bodies[v.p][Bcasts(vs[..|vs| - 1], v.p)])
  }

  /** What the loop of `main` hands over at each process, when process p is to send 1..ms[p]. */
  function MainBodies(ms: seq<nat>): seq<seq<string>> {
    seq(|ms|, p requires 0 <= p < |ms| => Batches(Numbers(ms[p])))
  }

  ghost predicate MainRun(ms: seq<nat>, vs: seq<S.Move>) {
    Follows(MainBodies(ms), vs)
  }

  lemma SentStep(s: S.State, deps: seq<seq<nat>>, v: S.Move, p: nat)
    requires S.Shape(s, deps) && S.Enabled(s, deps, v) && p < |deps|
    ensures var t := S.Next(s, deps, v);
            && |t.sent| == |s.sent|
            && t.sent[p] == s.sent[p] + if v.Bcast? && v.p == p then [S.NewMessage(s, deps, p, v.body)] else []
  {
  }

  ghost predicate BodiesOf(sent: seq<Stamped>, bodies: seq<string>) {
    |sent| <= |bodies| && forall i :: 0 <= i < |sent| ==> sent[i].body == bodies[i]
  }

  lemma {:induction false} SentFollows(deps: seq<seq<nat>>, bodies: seq<seq<string>>, vs: seq<S.Move>,
                                       t: S.State, p: nat)
    requires T.Reaches(deps, vs, t) && Follows(bodies, vs) && p < |deps| == |bodies|
    ensures |t.sent| == |deps| && |t.sent[p]| == Bcasts(vs, p) && BodiesOf(t.sent[p], bodies[p])
  {
    if vs != [] {
      var s := T.After(deps, vs[..|vs| - 1]).s;
      SentFollows(deps, bodies, vs[..|vs| - 1], s, p);
      SentStep(s, deps, vs[|vs| - 1], p);
    }
  }

  /** In a run of `main` the bodies are the batches. */
  lemma BodiesAreBatches(deps: seq<seq<nat>>, ms: seq<nat>, vs: seq<S.Move>, t: S.State, p: nat)
    requires T.Reaches(deps, vs, t) && MainRun(ms, vs) && p < |deps| == |ms|
    ensures |t.sent| == |deps| && |t.sent[p]| <= |Batches(Numbers(ms[p]))|
    ensures forall i :: 0 <= i < |t.sent[p]| ==> t.sent[p][i].body == Batches(Numbers(ms[p]))[i]
  {
    SentFollows(deps, MainBodies(ms), vs, t, p);
  }

  lemma EventsFit(deps: seq<seq<nat>>, ms: seq<nat>, vs: seq<S.Move>, s: S.State, p: nat)
    requires T.Reaches(deps, vs, s) && MainRun(ms, vs) && p < |deps| == |ms| <= 999 && S.Shape(s, deps)
    ensures AllFit(ms, p, s.top[p].events) && NoRepeats(s.top[p].events) && InTurn(s.top[p].events)
  {
    T.ReachableInv(deps, vs, s);
    assert S.TopInv(s, deps, p);
    var es := s.top[p].events;
    forall j | 0 <= j < |es|
      ensures Fits(ms, p, es[j]) && S.TurnOf(es[..j], es[j])
      ensures es[j] !in es[..j]
    {
      assert S.GoodEvent(s.sent, deps, p, es[..j], es[j]);
      var (o, i) := About(p, es[j]);
      BodiesAreBatches(deps, ms, vs, s, o);
      BatchOfNumbers(ms[o], i);
      S.GoodPrefix(s.sent, deps, p, es, j);
      S.BroadcastUpTo(s.sent, deps, p, es[..j], i);
      S.DeliveredUpTo(s.sent, deps, p, es[..j], o, i);
    }
    forall i, j | 0 <= i < j < |es| ensures es[i] != es[j] {
      assert es[..j][i] == es[i];
    }
  }

  lemma EventIsSent(s: S.State, deps: seq<seq<nat>>, p: nat, e: S.Event)
    requires S.Inv(s, deps) && p < |deps| && e in s.top[p].events
    ensures About(p, e).0 < |s.sent| && About(p, e).1 < |s.sent[About(p, e).0]|
  {
    assert S.TopInv(s, deps, p);
    var j :| 0 <= j < |s.top[p].events| && s.top[p].events[j] == e;
    assert S.GoodEvent(s.sent, deps, p, s.top[p].events[..j], e);
  }

  /** The entries of the log are the texts the layers produce: `b` and the text of the broadcast, or the
      delivered message with its stamp cut off and its first character replaced. */
  lemma LogTexts(deps: seq<seq<nat>>, ms: seq<nat>, vs: seq<S.Move>, s: S.State, p: nat, e: S.Event)
    requires T.Reaches(deps, vs, s) && MainRun(ms, vs) && p < |deps| == |ms| <= 999 && S.Shape(s, deps)
    requires e in s.top[p].events
    ensures Fits(ms, p, e) && About(p, e).1 < |s.sent[About(p, e).0]|
    ensures EventText(ms, p, e) == Header(e) + s.sent[About(p, e).0][About(p, e).1].body
    ensures 'v' !in s.sent[About(p, e).0][About(p, e).1].body
  {
    EventsFit(deps, ms, vs, s, p);
    T.ReachableInv(deps, vs, s);
    EventIsSent(s, deps, p, e);
    var (o, i) := About(p, e);
    BodiesAreBatches(deps, ms, vs, s, o);
    BatchOfNumbers(ms[o], i);
    BatchHasNoV(ms[o], i);
  }

  lemma {:induction false} SeparatedHasNoV(ms: seq<string>)
    requires forall i :: 0 <= i < |ms| ==> 'v' !in ms[i]
    ensures 'v' !in Separated(ms)
  {
    if ms != [] {
      SeparatedHasNoV(ms[..|ms| - 1]);
    }
  }

  /** A batch starts with a digit. */
  lemma BatchStarts(m: nat, i: nat)
    requires 15 * i < m
    ensures BatchText(Group(m, i)) != "" && BatchText(Group(m, i))[0] != 'r'
  {
    C.DigitsHaveNoLetter(Pad2(|Group(m, i)|), 'r');
    assert BatchText(Group(m, i))[0] == Pad2(|Group(m, i)|)[0];
  }

  lemma BatchHasNoV(m: nat, i: nat)
    requires 15 * i < m
    ensures 'v' !in BatchText(Group(m, i))
  {
    var g := Group(m, i);
    forall j | 0 <= j < |g| ensures 'v' !in g[j] {
      assert g[j] == Decimal(FirstOf(i) + j);
      C.DigitsHaveNoLetter(g[j], 'v');
    }
    SeparatedHasNoV(g[..|g| - 1]);
    C.DigitsHaveNoLetter(Pad2(|g|), 'v');
  }

  /** End-to-end FIFO: whatever the network loses, duplicates and reorders and whoever crashes, at any point of
      a run in which every process broadcasts its numbers through the loop of `main`, the output file written
      from a process's log is accepted by the validator. */
  lemma FilesAreAccepted(deps: seq<seq<nat>>, ms: seq<nat>, vs: seq<S.Move>, s: S.State, p: nat)
    requires T.Reaches(deps, vs, s) && MainRun(ms, vs) && p < |deps| == |ms| <= 999 && S.Shape(s, deps)
    ensures AllFit(ms, p, s.top[p].events)
    ensures var f := FileOf(LogOf(ms, p, s.top[p].events));
            f.Some? && Check(ReadLines(f.value), 1, map[]) == Accepted
  {
    var es := s.top[p].events;
    EventsFit(deps, ms, vs, s, p);
    FileLines(ms, p, es);
    LinesOrdered(ms, p, es);
    OrderedAccepted(ms, p, es, Lines(ms, p, es));
  }
}
