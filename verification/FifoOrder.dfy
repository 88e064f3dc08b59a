/** Exactly when FIFO keeps its promise although numbers are read with a limit: for a set of received messages, every
    order of arrival is delivered in order if and only if no message whose number is read short can be reached. */
module FifoOrder {
  import opened Text
  import opened StdList
  import opened Codec
  import opened Fifo

  // ---------- the promise ----------

  ghost predicate Kept(received: set<Message>, out: seq<Message>, s: nat) {
    exists k :: DeliversFrom(received, out, s, k)
  }

  ghost predicate Senders(ms: seq<Message>, n: nat) {
    forall m :: m in ms ==> 0 < m.sender <= n
  }

  /** After the calls for ms, each sender's longest run of received numbers has been delivered, in order. */
  ghost predicate KeepsOrder(n: nat, ms: seq<Message>) {
    Senders(ms, n) && forall s :: 0 < s <= n ==> Kept(Range(ms), DeliverEach(n, ms).out, s)
  }

  lemma SoundKeepsOrder(n: nat, ms: seq<Message>)
    requires Sound(Range(ms), n)
    ensures KeepsOrder(n, ms)
  {
    AnyArrival(n, ms);
    var b := DeliverEach(n, ms);
    forall s | 0 < s <= n ensures Kept(Range(ms), b.out, s) {
      assert InOrder(Range(ms), b.next, b.out, s);
    }
  }

  // ---------- digits ----------

  lemma {:induction false} DecimalMonotone(a: nat, b: nat)
    requires a <= b
    ensures |Decimal(a)| <= |Decimal(b)|
  {
    if a >= 10 {
      DecimalMonotone(a / 10, b / 10);
    }
  }

  /** A prefix of a positive number's digits is the number it denotes, written out. */
  lemma {:induction false} PrefixIsDecimal(n: nat, i: nat)
    requires n > 0 && 0 < i <= |Decimal(n)|
    ensures Decimal(Value(Decimal(n)[..i])) == Decimal(n)[..i]
  {
    if i == |Decimal(n)| {
      assert Decimal(n)[..i] == Decimal(n);
      ValueOfDecimal(n);
    } else {
      assert Decimal(n)[..i] == Decimal(n / 10)[..i];
      PrefixIsDecimal(n / 10, i);
    }
  }

  /** The number read short has as many digits as the limit, so it is larger than the number of the short text. */
  lemma ShortReadDigits(t: Message, u: Message)
    requires t.number > 0 && !Readable(t, u)
    ensures |Decimal(NumberRead(t, |TextOf(u)|))| == |TextOf(u)|
    ensures u.number < NumberRead(t, |TextOf(u)|) < t.number
  {
    var limit := |TextOf(u)|;
    var v := NumberRead(t, limit);
    ShortRead(t, limit);
    PrefixIsDecimal(t.number, limit);
    if v <= u.number { DecimalMonotone(v, u.number); }
  }

  // ---------- a run that fails ----------

  /** After the calls for ms: `waiting` waits, `out` was delivered, and k is the next number of s. */
  ghost predicate At(n: nat, ms: seq<Message>, s: nat, k: nat, waiting: seq<Message>, out: seq<Message>) {
    && 0 < s <= n && Senders(ms, n)
    && DeliverEach(n, ms).next[s - 1] == k && DeliverEach(n, ms).pending == waiting && DeliverEach(n, ms).out == out
  }

  lemma OneMore(n: nat, ms: seq<Message>, m: Message)
    requires Senders(ms, n) && 0 < m.sender <= n
    ensures Senders(ms + [m], n) && DeliverEach(n, ms + [m]) == DeliverOne(DeliverEach(n, ms), m)
  {
    assert (ms + [m])[..|ms|] == ms;
  }

  lemma NothingYet(waiting: seq<Message>, s: nat, limit: nat, k: nat)
    requires forall x :: x in waiting ==> x.number > 0 && x.number != k && |Decimal(x.number)| <= limit
    ensures Run(WaitingOf(waiting, s, limit), k) == []
  {
    WaitingIs(waiting, s, limit, k);
  }

  /** A message that is not the next one, and is delivered with a text that covers all waiting numbers, waits. */
  lemma HoldOne(n: nat, ms: seq<Message>, m: Message, s: nat, k: nat, waiting: seq<Message>, out: seq<Message>)
    requires At(n, ms, s, k, waiting, out) && m.sender == s && m !in waiting
    requires forall x :: x in waiting + [m] ==> x.number > 0 && x.number != k && |Decimal(x.number)| <= |TextOf(m)|
    ensures At(n, ms + [m], s, k, waiting + [m], out)
  {
    OneMore(n, ms, m);
    NothingYet(waiting + [m], s, |TextOf(m)|, k);
    assert out + [] == out;
  }

  lemma OnlyOne(m: Message)
    requires m.number > 0
    ensures Run(WaitingOf([m], m.sender, |TextOf(m)|), m.number) == [m] && RemoveAll([m], [m]) == []
  {
    NumberWithinIff(m.number, |TextOf(m)|);
    assert [m][..0] == [] && [m][1..] == [];
    assert Remove([m], m) == Remove([m][1..], m) == [];
    assert RemoveAll([m], [m]) == Remove(RemoveAll([m], []), m);
    assert WaitingOf([m], m.sender, |TextOf(m)|) == map[m.number := m];
    assert Run(map[m.number := m], m.number + 1) == [];
  }

  /** Messages arriving in order are delivered at once. */
  lemma {:induction false} Straight(n: nat, row: seq<Message>, s: nat)
    requires 0 < s <= n && IsRun(row, s, 1)
    ensures At(n, row, s, |row| + 1, [], row)
  {
    if row != [] {
      var init, m := row[..|row| - 1], row[|row| - 1];
      assert row == init + [m];
      Straight(n, init, s);
      OneMore(n, init, m);
      OnlyOne(m);
      assert [] + [m] == [m];
    }
  }

  lemma LastIsLongest(later: seq<Message>, s: nat, k: nat)
    requires later != [] && IsRun(later, s, k + 1)
    ensures var m := later[|later| - 1];
            && m.sender == s && m !in later[..|later| - 1]
            && forall x :: x in later ==> x.number > 0 && x.number != k && |Decimal(x.number)| <= |TextOf(m)|
  {
    forall x | x in later ensures |Decimal(x.number)| <= |TextOf(later[|later| - 1])| {
      DecimalMonotone(x.number, later[|later| - 1].number);
    }
  }

  /** Messages behind a gap wait, when they arrive in order. */
  lemma {:induction false} HeldBack(n: nat, first: seq<Message>, later: seq<Message>, s: nat)
    requires 0 < s <= n && IsRun(first, s, 1) && IsRun(later, s, |first| + 2)
    ensures At(n, first + later, s, |first| + 1, later, first)
    decreases |later|
  {
    if later == [] {
      assert first + later == first;
      Straight(n, first, s);
    } else {
      var init, m := later[..|later| - 1], later[|later| - 1];
      assert init + [m] == later && first + init + [m] == first + later;
      HeldBack(n, first, init, s);
      LastIsLongest(later, s, |first| + 1);
      HoldOne(n, first + init, m, s, |first| + 1, init, first);
    }
  }

  lemma {:induction false} RunReaches(w: map<nat, Message>, k: nat, v: nat)
    requires k <= v && forall j :: k <= j <= v ==> j in w
    ensures |Run(w, k)| > v - k && Run(w, k)[v - k] == w[v]
    decreases v - k
  {
    if k < v {
      RunReaches(w, k + 1, v);
    }
  }

  lemma {:induction false} WaitingSender(waiting: seq<Message>, s: nat, limit: nat)
    ensures forall k :: k in WaitingOf(waiting, s, limit) ==> WaitingOf(waiting, s, limit)[k].sender == s
  {
    if waiting != [] {
      WaitingSender(waiting[..|waiting| - 1], s, limit);
    }
  }

  lemma {:induction false} RunSender(w: map<nat, Message>, s: nat, k: nat)
    requires forall j :: j in w ==> w[j].sender == s
    ensures forall x :: x in Run(w, k) ==> x.sender == s
    decreases Above(w, k)
  {
    if k in w {
      assert k in Above(w, k) && k !in Above(w, k + 1) && Above(w, k + 1) <= Above(w, k);
      RunSender(w, s, k + 1);
    }
  }

  lemma LastTwo(later: seq<Message>, t: Message, u: Message, s: nat, limit: nat)
    requires t.sender == u.sender == s
    ensures WaitingOf(later + [t] + [u], s, limit)
         == WaitingOf(later, s, limit)[NumberRead(t, limit) := t][NumberRead(u, limit) := u]
  {
    assert (later + [t])[..|later|] == later;
    assert (later + [t] + [u])[..|later + [t]|] == later + [t];
  }

  lemma LaterWaits(later: seq<Message>, s: nat, limit: nat, k: nat, v: nat)
    requires IsRun(later, s, k + 1) && v == k + 1 + |later| && |Decimal(v)| == limit
    ensures forall j :: k < j < v ==> j in WaitingOf(later, s, limit)
  {
    AllShort(later, s, limit, k, v);
    WaitingIs(later, s, limit, v);
    forall j | k < j < v ensures j in WaitingOf(later, s, limit) {
      var x := later[j - k - 1];
      assert x in later && x.number == j;
    }
  }

  lemma AllShort(later: seq<Message>, s: nat, limit: nat, k: nat, v: nat)
    requires IsRun(later, s, k + 1) && v == k + 1 + |later| && |Decimal(v)| == limit
    ensures forall x :: x in later ==> HarmlessAt(x, limit, v)
  {
    forall x | x in later ensures HarmlessAt(x, limit, v) {
      DecimalMonotone(x.number, v);
    }
  }

  /** What is waiting when u closes the gap: the numbers up to v, with t in the place of v. */
  lemma GapCloses(later: seq<Message>, t: Message, u: Message, s: nat, v: nat)
    requires IsRun(later, s, u.number + 1) && v == u.number + 1 + |later| && t.sender == u.sender == s && u.number > 0
    requires t.number > v && !Readable(t, u) && NumberRead(t, |TextOf(u)|) == v
    ensures var w := WaitingOf(later + [t] + [u], s, |TextOf(u)|);
            (forall j :: u.number <= j <= v ==> j in w) && w[v] == t
  {
    var limit := |TextOf(u)|;
    ShortReadDigits(t, u);
    LaterWaits(later, s, limit, u.number, v);
    OwnNumber(u);
    LastTwo(later, t, u, s, limit);
    FilledIn(WaitingOf(later, s, limit), u.number, v, t, u, WaitingOf(later + [t] + [u], s, limit));
  }

  lemma FilledIn(w: map<nat, Message>, k: nat, v: nat, t: Message, u: Message, all: map<nat, Message>)
    requires k < v && (forall j :: k < j < v ==> j in w) && all == w[v := t][k := u]
    ensures (forall j :: k <= j <= v ==> j in all) && all[v] == t
  {
  }

  lemma OwnNumber(u: Message)
    requires u.number > 0
    ensures NumberRead(u, |TextOf(u)|) == u.number
  {
    NumberWithinIff(u.number, |TextOf(u)|);
  }

  /** The call for u hands on t in the place of number v. */
  lemma Overtaken(n: nat, ms: seq<Message>, later: seq<Message>, t: Message, u: Message, s: nat, v: nat,
                  out: seq<Message>)
    requires At(n, ms, s, u.number, later + [t], out) && u !in later + [t] && |out| == u.number - 1
    requires IsRun(later, s, u.number + 1) && v == u.number + 1 + |later| && t.sender == u.sender == s && u.number > 0
    requires t.number > v && !Readable(t, u) && NumberRead(t, |TextOf(u)|) == v
    ensures Senders(ms + [u], n)
    ensures var b := DeliverEach(n, ms + [u]);
            && |b.out| >= v && b.out[v - 1] == t && b.out[..|out|] == out
            && forall x :: x in b.out[|out|..] ==> x.sender == s
  {
    var w := WaitingOf(later + [t] + [u], s, |TextOf(u)|);
    OneMore(n, ms, u);
    GapCloses(later, t, u, s, v);
    RunReaches(w, u.number, v);
    WaitingSender(later + [t] + [u], s, |TextOf(u)|);
    RunSender(w, s, u.number);
  }

  lemma OneGrows(a: Store, m: Message)
    requires 0 < m.sender <= |a.next|
    ensures a.out <= DeliverOne(a, m).out
  {
  }

  lemma {:induction false} OutGrows(n: nat, ms: seq<Message>, more: seq<Message>)
    requires Senders(ms, n) && Senders(more, n)
    ensures Senders(ms + more, n) && DeliverEach(n, ms).out <= DeliverEach(n, ms + more).out
    decreases |more|
  {
    if more == [] {
      assert ms + more == ms;
    } else {
      var init, m := more[..|more| - 1], more[|more| - 1];
      assert ms + init + [m] == ms + more;
      OutGrows(n, ms, init);
      OneMore(n, ms + init, m);
      OneGrows(DeliverEach(n, ms + init), m);
    }
  }

  /** A message out of its place cannot be mended by what arrives later. */
  lemma OutOfPlace(n: nat, ms: seq<Message>, more: seq<Message>, s: nat, v: nat)
    requires Senders(ms, n) && Senders(more, n) && 0 < s <= n && 0 < v <= |DeliverEach(n, ms).out|
    requires forall x :: x in DeliverEach(n, ms).out ==> x.sender == s
    requires DeliverEach(n, ms).out[v - 1].number != v
    ensures !KeepsOrder(n, ms + more)
  {
    OutGrows(n, ms, more);
    WrongForever(Range(ms + more), DeliverEach(n, ms).out, DeliverEach(n, ms + more).out, s, v);
  }

  lemma WrongForever(received: set<Message>, a: seq<Message>, b: seq<Message>, s: nat, v: nat)
    requires a <= b && 0 < v <= |a| && (forall x :: x in a ==> x.sender == s) && a[v - 1].number != v
    ensures !Kept(received, b, s)
  {
    assert b == a + b[|a|..];
    FromSenderAppend(a, b[|a|..], s);
    FromSenderAll(a, s, s);
    assert FromSender(b, s)[v - 1] == a[v - 1];
  }

  /** The messages of s numbered from 1 to v - 1. */
  lemma {:induction false} Row(received: set<Message>, s: nat, v: nat) returns (row: seq<Message>)
    requires v > 0 && forall j :: 0 < j < v ==> Has(received, s, j)
    ensures |row| == v - 1 && IsRun(row, s, 1) && AllFrom(row, received)
  {
    if v == 1 {
      row := [];
    } else {
      row := Row(received, s, v - 1);
      assert Has(received, s, v - 1);
      var t :| t in received && t.sender == s && t.number == v - 1;
      row := row + [t];
    }
  }

  lemma {:induction false} Listed(rest: set<Message>) returns (ms: seq<Message>)
    ensures Range(ms) == rest && NoRepeats(ms)
  {
    if rest == {} {
      ms := [];
    } else {
      var m :| m in rest;
      var less := Listed(rest - {m});
      assert m !in Range(less);
      ms := less + [m];
      assert Range(ms) == Range(less) + {m};
    }
  }

  /** A row of s with the short text u taken out of it, and a long number t that u reads as the row's end. */
  ghost predicate Trap(first: seq<Message>, later: seq<Message>, t: Message, u: Message, s: nat, v: nat) {
    && IsRun(first, s, 1) && u.number == |first| + 1 && IsRun(later, s, u.number + 1) && v == u.number + 1 + |later|
    && t.sender == u.sender == s && t.number > 0 && !Readable(t, u) && NumberRead(t, |TextOf(u)|) == v
  }

  lemma LongWaits(later: seq<Message>, t: Message, k: nat)
    requires IsRun(later, t.sender, k + 1) && t.number > k + 1 + |later|
    ensures t !in later
    ensures forall x :: x in later + [t] ==> x.number > 0 && x.number != k && |Decimal(x.number)| <= |TextOf(t)|
  {
    forall x | x in later + [t] ensures |Decimal(x.number)| <= |TextOf(t)| {
      DecimalMonotone(x.number, t.number);
    }
  }

  /** The row arrives in order except for u, then t, then u: t is delivered in the place of number v. */
  lemma TrapSprings(n: nat, first: seq<Message>, later: seq<Message>, t: Message, u: Message, s: nat, v: nat)
    requires 0 < s <= n && Trap(first, later, t, u, s, v)
    ensures var ms := first + later + [t] + [u];
            && Senders(ms, n) && 0 < v <= |DeliverEach(n, ms).out| && DeliverEach(n, ms).out[v - 1] == t && t.number > v
            && forall x :: x in DeliverEach(n, ms).out ==> x.sender == s
  {
    ShortReadDigits(t, u);
    HeldBack(n, first, later, s);
    LongWaits(later, t, u.number);
    HoldOne(n, first + later, t, s, u.number, later, first);
    Overtaken(n, first + later + [t], later, t, u, s, v, first);
    var out := DeliverEach(n, first + later + [t] + [u]).out;
    assert out == out[..|first|] + out[|first|..];
  }

  lemma TrapDistinct(first: seq<Message>, later: seq<Message>, t: Message, u: Message, s: nat, v: nat)
    requires Trap(first, later, t, u, s, v)
    ensures NoRepeats(first + later + [t] + [u])
  {
    ShortReadDigits(t, u);
    var ms := first + later + [t] + [u];
    forall i, j | 0 <= i < j < |ms| ensures ms[i].number != ms[j].number {
    }
  }

  /** Where something can be overtaken, there is a trap among the received messages. */
  lemma FindTrap(received: set<Message>, n: nat)
      returns (first: seq<Message>, later: seq<Message>, t: Message, u: Message)
    requires Numbered(received, n) && !NoOvertake(received)
    ensures 0 < t.sender <= n && Trap(first, later, t, u, t.sender, NumberRead(t, |TextOf(u)|))
    ensures Range(first + later + [t] + [u]) <= received
  {
    t, u :| t in received && u in received && t.sender == u.sender && !Readable(t, u)
            && !Blocked(received, t.sender, NumberRead(t, |TextOf(u)|));
    var v := NumberRead(t, |TextOf(u)|);
    ShortReadDigits(t, u);
    var row := Row(received, t.sender, v);
    assert row[u.number - 1] in row;
    first, later := row[..u.number - 1], row[u.number..];
    assert AllFrom(row, received);
  }

  /** Where something can be overtaken, some order of arrival, without any repetition, breaks the promise. */
  lemma FailingRun(received: set<Message>, n: nat) returns (ms: seq<Message>)
    requires Numbered(received, n) && !NoOvertake(received)
    ensures Range(ms) == received && NoRepeats(ms) && !KeepsOrder(n, ms)
  {
    var first, later, t, u := FindTrap(received, n);
    var v := NumberRead(t, |TextOf(u)|);
    var trap := first + later + [t] + [u];
    TrapSprings(n, first, later, t, u, t.sender, v);
    TrapDistinct(first, later, t, u, t.sender, v);
    var rest := Listed(received - Range(trap));
    JoinDistinct(trap, rest);
    ms := trap + rest;
    assert forall m :: m in rest ==> m in Range(ms);
    OutOfPlace(n, trap, rest, t.sender, v);
  }

  lemma JoinDistinct(a: seq<Message>, b: seq<Message>)
    requires NoRepeats(a) && NoRepeats(b) && Range(a) !! Range(b)
    ensures NoRepeats(a + b) && Range(a + b) == Range(a) + Range(b)
  {
    var ms := a + b;
    forall i, j | 0 <= i < j < |ms| ensures ms[i] != ms[j] {
      if i < |a| <= j {
        assert ms[i] in Range(a) && ms[j] in Range(b);
      }
    }
  }

  // ---------- the exact condition ----------

  /** FIFO keeps its promise for every order of arrival of a set of messages, with or without repetitions, if and
      only if no message of it can be overtaken by one whose number is read short. */
  lemma OrderIff(received: set<Message>, n: nat)
    requires Numbered(received, n)
    ensures (forall ms :: Range(ms) == received ==> KeepsOrder(n, ms)) <==> NoOvertake(received)
    ensures (forall ms :: Range(ms) == received && NoRepeats(ms) ==> KeepsOrder(n, ms)) <==> NoOvertake(received)
  {
    if NoOvertake(received) {
      forall ms | Range(ms) == received ensures KeepsOrder(n, ms) {
        SoundKeepsOrder(n, ms);
      }
    } else {
      var ms := FailingRun(received, n);
    }
  }

  /** Every text has at least five characters, so numbers below 100000 are always read in full. */
  lemma ShortNumbersAreSafe(received: set<Message>, n: nat)
    requires Numbered(received, n) && forall t :: t in received ==> t.number < 100000
    ensures NoOvertake(received)
  {
    forall t, u | t in received && u in received ensures Readable(t, u) {
      DecimalMonotone(t.number, 99999);
      FiveDigits();
    }
  }

  lemma FiveDigits()
    ensures |Decimal(99999)| == 5 && |Decimal(100000)| == 6
  {
    DecimalLength(99);
    DecimalLength(100);
    assert |Decimal(9999)| == |Decimal(999)| + 1 && |Decimal(999)| == |Decimal(99)| + 1;
    assert |Decimal(10000)| == |Decimal(1000)| + 1 && |Decimal(1000)| == |Decimal(100)| + 1;
  }

  // ---------- an input ----------

  /** The message of process 1 with number k and an empty body. */
  function Plain(k: nat): Message {
    Message(1, "", k)
  }

  function PlainRow(from: nat, count: nat): seq<Message> {
    seq(count, i requires 0 <= i < count => Plain(from + i))
  }

  /** The numbers 2 to 9999, then 100000, then 1 arrive from one process, each once, with empty bodies. While 1 is
      delivered 100000 is read as 10000, and it is delivered although 10000 never arrived. */
  lemma HundredThousandOvertakes()
    ensures var ms := PlainRow(2, 9998) + [Plain(100000)] + [Plain(1)];
            && NoRepeats(ms) && Senders(ms, 1) && !KeepsOrder(1, ms)
            && |DeliverEach(1, ms).out| >= 10000 && DeliverEach(1, ms).out[9999] == Plain(100000)
  {
    var later, t, u := PlainRow(2, 9998), Plain(100000), Plain(1);
    PlainTrap();
    TrapSprings(1, [], later, t, u, 1, 10000);
    TrapDistinct([], later, t, u, 1, 10000);
    var ms := later + [t] + [u];
    assert [] + later == later;
    OutOfPlace(1, ms, [], 1, 10000);
    assert ms + [] == ms;
  }

  lemma PlainTrap()
    ensures Trap([], PlainRow(2, 9998), Plain(100000), Plain(1), 1, 10000)
  {
    FiveDigits();
    PlainTexts();
    PlainRead();
    assert IsRun(PlainRow(2, 9998), 1, 2);
  }

  lemma PlainRead()
    ensures NumberRead(Plain(100000), 5) == 10000
  {
    FiveDigits();
    ShortRead(Plain(100000), 5);
    assert Decimal(100000)[..5] == Decimal(10000);
    ValueOfDecimal(10000);
  }

  lemma PlainTexts()
    ensures |TextOf(Plain(1))| == 5
  {
    FirstThree(1);
    DecimalLength(1);
  }
}
