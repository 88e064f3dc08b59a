/** How the structured messages, keys and packets of the step systems are written as texts, and why different
    ones have different texts. Process p has identifier p + 1. */
module Rendering {
  import opened Messages
  import opened Text
  import opened Codec
  import U = UrbSystem

  // ---------- the texts ----------

  /** The clock entries with identifiers instead of process numbers. */
  function Ids(es: seq<(nat, nat)>): seq<(nat, nat)> {
    seq(|es|, i requires 0 <= i < |es| => (es[i].0 + 1, es[i].1))
  }

  /** What LCB hands to URB: the text and its clock. */
  function MessageText(m: Stamped): string {
    m.body + ClockText(Ids(m.stamp))
  }

  function KeyText(k: Key): string {
    match k
    case Key(o, m) => DirectKey(o + 1, MessageText(m))
    case Bare(m) => MessageText(m)
  }

  function ContentText(c: Content): string {
    match c
    case Direct(m) => MessageText(m)
    case Relay(o, m) => RelayText(DirectKey(o + 1, MessageText(m)))
  }

  /** A packet but for its first character, by which data and acknowledgement differ. */
  function Tail(sender: nat, target: nat, c: Content): string {
    Pad3(sender + 1) + (Pad3(target + 1) + ContentText(c))
  }

  function DataText(sender: nat, target: nat, c: Content): string {
    PacketText(Fields('0', sender + 1, target + 1, ContentText(c)))
  }

  function AckText(sender: nat, target: nat, c: Content): string {
    PacketText(Fields('1', sender + 1, target + 1, ContentText(c)))
  }

  // ---------- what is assumed of broadcasts ----------

  /** No clock letter in the text, no `r` at its start, and a clock of three-digit identifiers. */
  ghost predicate CleanMessage(m: Stamped) {
    && 'v' !in m.body && (m.body != "" ==> m.body[0] != 'r')
    && m.stamp != [] && ShortIds(Ids(m.stamp))
  }

  function Last(m: Stamped): (nat, nat)
    requires m.stamp != []
  {
    m.stamp[|m.stamp| - 1]
  }

  /** Every process broadcast clean messages only, with its own entry last, and different ones each time. */
  ghost predicate CleanCalls(s: U.Sys) {
    && |s.procs| <= 999
    && (forall p, m :: 0 <= p < |s.procs| && Direct(m) in s.procs[p].calls ==> CleanMessage(m) && Last(m).0 == p)
    && forall p, m, w :: 0 <= p < |s.procs| && Direct(m) in s.procs[p].calls && Direct(w) in s.procs[p].calls ==>
         m.stamp != [] && w.stamp != [] && (Last(m) == Last(w) ==> m == w)
  }

  /** k is filed for a message that was broadcast; a bare text is only filed by its origin. */
  ghost predicate RealKey(s: U.Sys, me: nat, k: Key) {
    match k
    case Key(o, m) => o < |s.procs| && Direct(m) in s.procs[o].calls
    case Bare(m) => me < |s.procs| && Direct(m) in s.procs[me].calls
  }

  ghost predicate RealContent(s: U.Sys, sender: nat, c: Content) {
    match c
    case Direct(m) => sender < |s.procs| && Direct(m) in s.procs[sender].calls
    case Relay(o, m) => o < |s.procs| && Direct(m) in s.procs[o].calls
  }

  // ---------- different things have different texts ----------

  lemma Suffix(s: string, head: string, rest: string, end: nat)
    requires s == head + rest && |s| == end + |rest|
    ensures s[end..] == rest
  {
  }

  lemma FirstOfClock(es: seq<(nat, nat)>)
    requires es != [] && ShortIds(es)
    ensures var s, end := ClockText(es), 4 + |Decimal(es[0].1)|;
            && end <= |s| && s[end..] == ClockText(es[1..])
            && EntryAt(s, 0) == Some(Entry(es[0].0, es[0].1, if es[1..] == [] then None else Some(end)))
  {
    var rest := ClockText(es[1..]);
    FirstEntry("", es);
    EntryReads("", es[0], rest);
    assert "" + ClockText(es) == ClockText(es);
    Suffix(ClockText(es), "" + "v" + Pad3(es[0].0) + Decimal(es[0].1), rest, 4 + |Decimal(es[0].1)|);
  }

  lemma {:induction false} ClockTextInjective(xs: seq<(nat, nat)>, ys: seq<(nat, nat)>)
    requires ShortIds(xs) && ShortIds(ys) && ClockText(xs) == ClockText(ys)
    ensures xs == ys
    decreases |xs|
  {
    if xs != [] && ys != [] {
      FirstOfClock(xs);
      FirstOfClock(ys);
      ClockTextInjective(xs[1..], ys[1..]);
      assert xs == [xs[0]] + xs[1..] && ys == [ys[0]] + ys[1..];
    }
  }

  lemma IdsInjective(xs: seq<(nat, nat)>, ys: seq<(nat, nat)>)
    requires Ids(xs) == Ids(ys)
    ensures xs == ys
  {
    assert |xs| == |Ids(xs)| == |Ids(ys)| == |ys|;
    forall i | 0 <= i < |xs| ensures xs[i] == ys[i] {
      assert Ids(xs)[i] == Ids(ys)[i];
    }
  }

  /** The clock starts at the first `v`. */
  lemma ClockStarts(a: string, es: seq<(nat, nat)>)
    requires 'v' !in a && es != []
    ensures var s := a + ClockText(es); Find(s, 'v', 0) == Some(|a|) && s[..|a|] == a && s[|a|..] == ClockText(es)
  {
    var s := a + ClockText(es);
    assert s[|a|] == 'v' && s[0..|a|] == a;
    FindAt(s, 'v', 0, |a|);
  }

  lemma MessageTextInjective(a: Stamped, b: Stamped)
    requires CleanMessage(a) && CleanMessage(b) && MessageText(a) == MessageText(b)
    ensures a == b
  {
    ClockStarts(a.body, Ids(a.stamp));
    ClockStarts(b.body, Ids(b.stamp));
    ClockTextInjective(Ids(a.stamp), Ids(b.stamp));
    IdsInjective(a.stamp, b.stamp);
  }

  /** A message text starts neither with `r` nor with nothing. */
  lemma MessageTextStarts(m: Stamped)
    requires CleanMessage(m)
    ensures MessageText(m) != "" && MessageText(m)[0] != 'r'
  {
  }

  lemma SamePrefixed(o: nat, a: Stamped, q: nat, b: Stamped)
    requires o < 999 && q < 999 && CleanMessage(a) && CleanMessage(b)
    requires DirectKey(o + 1, MessageText(a)) == DirectKey(q + 1, MessageText(b))
    ensures o == q && a == b
  {
    KeyInjective(o + 1, MessageText(a), q + 1, MessageText(b));
    MessageTextInjective(a, b);
  }

  /** A bare text is never the key of a message: both would end with the same clock entry, so they would be the
      same message, with and without its origin in front. */
  lemma BareIsNoKey(o: nat, a: Stamped, b: Stamped)
    requires CleanMessage(a) && CleanMessage(b) && (Last(a) == Last(b) ==> a == b)
    ensures DirectKey(o + 1, MessageText(a)) != MessageText(b)
  {
    if DirectKey(o + 1, MessageText(a)) == MessageText(b) {
      Associative(Pad3(o + 1), a.body, ClockText(Ids(a.stamp)));
      var x, y := Ids(a.stamp), Ids(b.stamp);
      assert x[|x| - 1] == (Last(a).0 + 1, Last(a).1) && y[|y| - 1] == (Last(b).0 + 1, Last(b).1);
      SameLastEntry(Pad3(o + 1) + a.body, x, b.body, y);
      assert false;
    }
  }

  lemma CallsAreClean(s: U.Sys, p: nat, m: Stamped, q: nat, w: Stamped)
    requires CleanCalls(s) && p < |s.procs| && Direct(m) in s.procs[p].calls
    requires q < |s.procs| && Direct(w) in s.procs[q].calls
    ensures p < 999 && q < 999 && CleanPair(m, w)
  {
  }

  ghost predicate CleanPair(m: Stamped, w: Stamped) {
    CleanMessage(m) && CleanMessage(w) && (Last(m) == Last(w) ==> m == w)
  }

  lemma KeysByText(a: Key, b: Key)
    requires CleanPair(a.m, b.m) && (a.Key? ==> a.origin < 999) && (b.Key? ==> b.origin < 999)
    requires KeyText(a) == KeyText(b)
    ensures a == b
  {
    match (a, b)
    case (Key(o, m), Key(q, w)) => SamePrefixed(o, m, q, w);
    case (Bare(m), Bare(w)) => MessageTextInjective(m, w);
    case (Key(o, m), Bare(w)) => BareIsNoKey(o, m, w);
    case (Bare(m), Key(q, w)) => BareIsNoKey(q, w, m);
  }

  lemma KeyTextInjective(s: U.Sys, me: nat, a: Key, b: Key)
    requires CleanCalls(s) && RealKey(s, me, a) && RealKey(s, me, b) && KeyText(a) == KeyText(b)
    ensures a == b
  {
    CallsAreClean(s, if a.Key? then a.origin else me, a.m, if b.Key? then b.origin else me, b.m);
    KeysByText(a, b);
  }

  lemma RelayTextInjective(a: string, b: string)
    requires RelayText(a) == RelayText(b)
    ensures a == b
  {
    assert a == RelayText(a)[1..] == RelayText(b)[1..] == b;
  }

  lemma ContentsByText(a: Content, b: Content)
    requires CleanPair(a.m, b.m) && (a.Relay? ==> a.origin < 999) && (b.Relay? ==> b.origin < 999)
    requires ContentText(a) == ContentText(b)
    ensures a == b
  {
    match (a, b)
    case (Direct(m), Direct(w)) => MessageTextInjective(m, w);
    case (Relay(o, m), Relay(q, w)) =>
      RelayTextInjective(DirectKey(o + 1, MessageText(m)), DirectKey(q + 1, MessageText(w)));
      SamePrefixed(o, m, q, w);
    case (Direct(m), Relay(_, _)) => MessageTextStarts(m);
    case (Relay(_, _), Direct(w)) => MessageTextStarts(w);
  }

  lemma ContentTextInjective(s: U.Sys, p: nat, a: Content, b: Content)
    requires CleanCalls(s) && RealContent(s, p, a) && RealContent(s, p, b) && ContentText(a) == ContentText(b)
    ensures a == b
  {
    CallsAreClean(s, if a.Relay? then a.origin else p, a.m, if b.Relay? then b.origin else p, b.m);
    ContentsByText(a, b);
  }

  lemma ThreeAndThree(a: string, b: string, c: string)
    requires |a| == 3 && |b| == 3
    ensures var t := a + (b + c); |t| >= 6 && t[..3] == a && t[3..6] == b && t[6..] == c
  {
  }

  lemma TailParts(sender: nat, target: nat, c: Content)
    requires sender < 999 && target < 999
    ensures |Pad3(sender + 1)| == |Pad3(target + 1)| == 3
    ensures var t := Tail(sender, target, c);
            |t| >= 6 && t[..3] == Pad3(sender + 1) && t[3..6] == Pad3(target + 1) && t[6..] == ContentText(c)
    ensures Stoi(Pad3(sender + 1)) == Some(sender + 1)
  {
    FirstThree(sender + 1);
    FirstThree(target + 1);
    assert Pad3(sender + 1)[..3] == Pad3(sender + 1);
    ThreeAndThree(Pad3(sender + 1), Pad3(target + 1), ContentText(c));
  }

  lemma TailInjective(s: U.Sys, me: nat, x: (nat, Content), y: (nat, Content))
    requires CleanCalls(s) && x.0 < |s.procs| && y.0 < |s.procs| && me < |s.procs|
    requires RealContent(s, x.0, x.1) && RealContent(s, y.0, y.1) && Tail(x.0, me, x.1) == Tail(y.0, me, y.1)
    ensures x == y
  {
    TailParts(x.0, me, x.1);
    TailParts(y.0, me, y.1);
    ContentTextInjective(s, x.0, x.1, y.1);
  }

  // ---------- reading the texts ----------

  lemma PacketReads(ack: char, sender: nat, target: nat, c: Content)
    requires sender < 999 && target < 999
    ensures var f := Fields(ack, sender + 1, target + 1, ContentText(c));
            var t := PacketText(f);
            && |t| >= 7 && t[1..] == Tail(sender, target, c) && t == [ack] + Tail(sender, target, c)
            && ReadPacket(t) == Some(f) && t[1..4] == Pad3(sender + 1) && t[7..] == ContentText(c)
  {
    var f := Fields(ack, sender + 1, target + 1, ContentText(c));
    PacketRoundTrip(f);
    TailParts(sender, target, c);
    Associative([ack], Pad3(sender + 1), Pad3(target + 1) + ContentText(c));
    Associative([ack] + Pad3(sender + 1), Pad3(target + 1), ContentText(c));
    var t, u := PacketText(f), Tail(sender, target, c);
    assert t == [ack] + u && t[1..] == u && t[1..4] == u[..3] && t[7..] == u[6..];
  }

  /** The key URB computes for a received content is the text of its structured key. */
  lemma UrbKeyIs(s: U.Sys, sender: nat, c: Content)
    requires CleanCalls(s) && RealContent(s, sender, c)
    ensures UrbKey(Pad3(sender + 1), ContentText(c)) == Some(KeyText(KeyOf(sender, c)))
  {
    match c
    case Direct(m) => MessageTextStarts(m);
    case Relay(o, m) => RelayKeepsKey(Pad3(sender + 1), DirectKey(o + 1, MessageText(m)));
  }

  /** What a process relays for a key. */
  lemma RelayTextIs(o: nat, m: Stamped)
    ensures RelayText(KeyText(Key(o, m))) == ContentText(Relay(o, m))
  {
  }
}
