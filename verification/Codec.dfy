/** The text formats: link packets, relayed messages and their URB keys, clocks and FIFO numbers. */
module Codec {
  import opened Text
  import opened LcbProtocol

  /** std::string::substr(i, n) for i within the text. */
  function Sub(s: string, i: nat, n: nat): string
    requires i <= |s|
  {
    if i + n <= |s| then s[i..i + n] else s[i..]
  }

  // ---------- link packets ----------

  datatype Fields = Fields(ack: char, sender: nat, target: nat, payload: string)

  function PacketText(f: Fields): string {
    [f.ack] + Pad3(f.sender) + Pad3(f.target) + f.payload
  }

  /** What the receive thread reads from a packet; None where the program throws. */
  function ReadPacket(s: string): Option<Fields> {
    if |s| < 7 then None
    else
      match (Stoi(s[1..4]), Stoi(s[4..7]))
      case (Some(from), Some(to)) => Some(Fields(s[0], from, to, s[7..]))
      case _ => None
  }

  lemma LastDigit(s: string)
    requires s != [] && AllDigits(s)
    ensures AllDigits(s[..|s| - 1]) && Value(s) <= 10 * Value(s[..|s| - 1]) + 9
  {
    assert IsDigit(s[|s| - 1]);
  }

  lemma ThreeDigits(s: string)
    requires |s| == 3 && AllDigits(s)
    ensures Stoi(s) == Some(Value(s)) && Value(s) < 1000
  {
    StoiExact(s);
    LastDigit(s);
    LastDigit(s[..2]);
    assert s[..2][..1] == s[..1];
    LastDigit(s[..1]);
    assert s[..1][..0] == [];
  }

  lemma PacketParts(ack: char, from: string, to: string, payload: string)
    requires |from| >= 3 && |to| >= 3
    ensures var s := [ack] + from + to + payload;
            && s[1..4] == from[..3]
            && (|from| == 3 ==> s[4..7] == to[..3] && (|to| == 3 ==> s[7..] == payload))
  {
  }

  /** The first three characters of a padded identifier denote it exactly when there are no more. */
  lemma FirstThree(n: nat)
    ensures var d := Pad3(n)[..3];
            && AllDigits(d) && Stoi(d) == Some(Value(d)) && Value(d) < 1000
            && (n < 1000 ==> |Pad3(n)| == 3 && Value(d) == n)
  {
    ThreeDigits(Pad3(n)[..3]);
    if n < 1000 {
      ValueOfPadded(n);
      assert Pad3(n)[..3] == Pad3(n);
    }
  }

  /** A packet reads back exactly when both identifiers have at most three digits. */
  lemma PacketRoundTrip(f: Fields)
    ensures ReadPacket(PacketText(f)) == Some(f) <==> f.sender < 1000 && f.target < 1000
  {
    PacketParts(f.ack, Pad3(f.sender), Pad3(f.target), f.payload);
    FirstThree(f.sender);
    FirstThree(f.target);
  }

  /** Where the parts of a packet are, for identifiers below 1000. */
  lemma PacketLayout(f: Fields)
    requires f.sender < 1000 && f.target < 1000
    ensures var s := PacketText(f);
            && |s| == 7 + |f.payload| && s[0] == f.ack && s[7..] == f.payload
            && AllDigits(s[1..4]) && Value(s[1..4]) == f.sender && AllDigits(s[4..7]) && Value(s[4..7]) == f.target
  {
    PacketParts(f.ack, Pad3(f.sender), Pad3(f.target), f.payload);
    assert Pad3(f.sender)[..3] == Pad3(f.sender) && Pad3(f.target)[..3] == Pad3(f.target);
    ValueOfPadded(f.sender);
    ValueOfPadded(f.target);
  }

  /** The receive thread throws on a packet exactly when it is too short or an identifier starts with no digit. */
  lemma PacketThrowsIff(s: string)
    ensures ReadPacket(s).None? <==> |s| < 7 || !IsDigit(s[1]) || !IsDigit(s[4])
  {
    if |s| >= 7 {
      StoiNoneIff(s[1..4]);
      StoiNoneIff(s[4..7]);
    }
  }

  // ---------- URB keys ----------

  /** The key under which URB files a payload received from a sender; None where `substr` throws. */
  function UrbKey(sender: string, payload: string): Option<string> {
    if payload == "" || payload[0] != 'r' then Some(sender + payload)
    else if |payload| < 4 then None
    else Some(payload[1..4] + payload[4..])
  }

  /** What a process puts on its links when it relays the message of a key. */
  function RelayText(key: string): string {
    "r" + key
  }

  function DirectKey(id: nat, text: string): string {
    Pad3(id) + text
  }

  /** A direct copy is filed under its origin and text exactly when the text does not start with `r`. */
  lemma DirectKeyIff(id: nat, text: string)
    ensures UrbKey(Pad3(id), text) == Some(DirectKey(id, text)) <==> text == "" || text[0] != 'r'
  {
    if text != "" && text[0] == 'r' && |text| >= 4 {
      assert |text[1..4] + text[4..]| < |DirectKey(id, text)|;
    }
  }

  /** A payload is refused exactly when it starts with `r` and is too short to name an origin. */
  lemma KeyThrowsIff(sender: string, payload: string)
    ensures UrbKey(sender, payload).None? <==> payload != "" && payload[0] == 'r' && |payload| < 4
  {
  }

  /** The relays of a message, whoever sends them and however often it is relayed, have the key of the message. */
  lemma RelayKeepsKey(sender: string, key: string)
    requires |key| >= 3
    ensures UrbKey(sender, RelayText(key)) == Some(key)
  {
    var p := RelayText(key);
    assert p[1..4] + p[4..] == p[1..] == key;
  }

  /** Keys determine origin and text. */
  lemma KeyInjective(a: nat, s: string, b: nat, t: string)
    requires a < 1000 && b < 1000 && DirectKey(a, s) == DirectKey(b, t)
    ensures a == b && s == t
  {
    assert Pad3(a) == DirectKey(a, s)[..3] == DirectKey(b, t)[..3] == Pad3(b);
    ValueOfPadded(a);
    ValueOfPadded(b);
    assert s == DirectKey(a, s)[3..] == DirectKey(b, t)[3..] == t;
  }

  // ---------- clocks ----------

  /** The entries a broadcast writes after its text. */
  function ClockText(es: seq<(nat, nat)>): string {
    if es == [] then "" else "v" + Pad3(es[0].0) + Decimal(es[0].1) + ClockText(es[1..])
  }

  /** One entry and where the next one starts. */
  datatype Entry = Entry(id: nat, n: nat, next: Option<nat>)

  /** The entry at position i of the text; None where the program throws. */
  function EntryAt(s: string, i: nat): (r: Option<Entry>)
    requires i < |s|
    ensures r.Some? && r.value.next.Some? ==> i + 4 <= r.value.next.value < |s|
  {
    if i + 4 > |s| then None
    else
      var next := Find(s, 'v', i + 4);
      match (Stoi(Sub(s, i + 1, 3)), Stoi(s[i + 4..if next.Some? then next.value else |s|]))
      case (Some(id), Some(n)) => Some(Entry(id, n, next))
      case _ => None
  }

  /** The entries from position i of the text, added to w. */
  function ClockFrom(s: string, i: nat, w: Clock): Option<Clock>
    requires i < |s|
    decreases |s| - i
  {
    match EntryAt(s, i)
    case None => None
    case Some(e) => if e.next.None? then Some(w[e.id := e.n]) else ClockFrom(s, e.next.value, w[e.id := e.n])
  }

  function ReadClock(s: string): Option<Clock> {
    var start := Find(s, 'v', 0);
    if start.None? then Some(map[]) else ClockFrom(s, start.value, map[])
  }

  method ReadEntry(text: string, i: nat) returns (e: Option<Entry>)
    requires i < |text|
    ensures e == EntryAt(text, i)
  {
    var id := Stoi(Sub(text, i + 1, 3));
    if id.None? || i + 4 > |text| {
      return None;
    }
    var next := Find(text, 'v', i + 4);
    var n := if next.Some? then Stoi(text[i + 4..next.value]) else Stoi(text[i + 4..]);
    assert text[i + 4..|text|] == text[i + 4..];
    return if n.None? then None else Some(Entry(id.value, n.value, next));
  }

  method ConstructVC(text: string) returns (w: Option<Clock>)
    ensures w == ReadClock(text)
  {
    var clock: Clock := map[];
    var idx := Find(text, 'v', 0);
    while idx.Some?
      invariant idx.Some? ==> idx.value < |text|
      invariant ReadClock(text) == if idx.Some? then ClockFrom(text, idx.value, clock) else Some(clock)
      decreases if idx.Some? then |text| - idx.value else 0
    {
      var entry := ReadEntry(text, idx.value);
      if entry.None? {
        return None;
      }
      clock := clock[entry.value.id := entry.value.n];
      idx := entry.value.next;
    }
    return Some(clock);
  }

  /** Adding entries one after the other: a later entry replaces an earlier one of the same process. */
  function AddAll(w: Clock, es: seq<(nat, nat)>): Clock
    decreases |es|
  {
    if es == [] then w else AddAll(w[es[0].0 := es[0].1], es[1..])
  }

  lemma {:induction false} AddAllSnoc(w: Clock, es: seq<(nat, nat)>, e: (nat, nat))
    ensures AddAll(w, es + [e]) == AddAll(w, es)[e.0 := e.1]
    decreases |es|
  {
    if es == [] {
      assert [e][1..] == [];
    } else {
      assert (es + [e])[1..] == es[1..] + [e];
      AddAllSnoc(w[es[0].0 := es[0].1], es[1..], e);
    }
  }

  lemma {:induction false} AddAllIsClockOf(es: seq<(nat, nat)>)
    ensures AddAll(map[], es) == ClockOf(es)
  {
    if es != [] {
      var init := es[..|es| - 1];
      AddAllIsClockOf(init);
      AddAllSnoc(map[], init, es[|es| - 1]);
      assert es == init + [es[|es| - 1]];
    }
  }

  ghost predicate ShortIds(es: seq<(nat, nat)>) {
    forall i :: 0 <= i < |es| ==> es[i].0 < 1000
  }

  lemma DigitsHaveNoLetter(d: string, c: char)
    requires AllDigits(d) && !IsDigit(c)
    ensures c !in d
  {
  }

  lemma EntryParts(pre: string, id: string, d: string, rest: string)
    requires |id| == 3 && AllDigits(d) && d != [] && (rest != "" ==> rest[0] == 'v')
    ensures var s := pre + "v" + id + d + rest;
            var end := |pre| + 4 + |d|;
            && |s| == end + |rest| && Sub(s, |pre| + 1, 3) == id && s[|pre| + 4..end] == d
            && Find(s, 'v', |pre| + 4) == (if rest == "" then None else Some(end))
  {
    var s := pre + "v" + id + d + rest;
    var at, end := |pre| + 4, |pre| + 4 + |d|;
    assert s[at..end] == d;
    DigitsHaveNoLetter(d, 'v');
    if rest == "" {
      assert s[at..] == d;
      FindNone(s, 'v', at);
    } else {
      FindAt(s, 'v', at, end);
    }
  }

  lemma EntryIs(s: string, i: nat, id: string, d: string, next: Option<nat>)
    requires i + 4 <= |s| && Sub(s, i + 1, 3) == id && Find(s, 'v', i + 4) == next
    requires s[i + 4..if next.Some? then next.value else |s|] == d && Stoi(id).Some? && Stoi(d).Some?
    ensures EntryAt(s, i) == Some(Entry(Stoi(id).value, Stoi(d).value, next))
  {
  }

  lemma EntryReadsParts(pre: string, id: string, d: string, rest: string)
    requires |id| == 3 && AllDigits(d) && d != [] && (rest != "" ==> rest[0] == 'v')
    requires Stoi(id).Some? && Stoi(d).Some?
    ensures var s := pre + "v" + id + d + rest;
            var end := |pre| + 4 + |d|;
            && |s| == end + |rest|
            && EntryAt(s, |pre|) == Some(Entry(Stoi(id).value, Stoi(d).value, if rest == "" then None else Some(end)))
  {
    var s, end := pre + "v" + id + d + rest, |pre| + 4 + |d|;
    EntryParts(pre, id, d, rest);
    EntryIs(s, |pre|, id, d, if rest == "" then None else Some(end));
  }

  /** One entry: its three-digit identifier, and its number up to the next entry or the end. */
  lemma EntryReads(pre: string, e: (nat, nat), rest: string)
    requires e.0 < 1000 && (rest != "" ==> rest[0] == 'v')
    ensures var s := pre + "v" + Pad3(e.0) + Decimal(e.1) + rest;
            var end := |pre| + 4 + |Decimal(e.1)|;
            && |s| == end + |rest|
            && EntryAt(s, |pre|) == Some(Entry(e.0, e.1, if rest == "" then None else Some(end)))
  {
    ValueOfPadded(e.0);
    ThreeDigits(Pad3(e.0));
    ValueOfDecimal(e.1);
    StoiExact(Decimal(e.1));
    EntryReadsParts(pre, Pad3(e.0), Decimal(e.1), rest);
  }

  lemma FirstEntry(pre: string, es: seq<(nat, nat)>)
    requires es != []
    ensures var e := es[0];
            && pre + ClockText(es) == pre + "v" + Pad3(e.0) + Decimal(e.1) + ClockText(es[1..])
            && (ClockText(es[1..]) != "" <==> es[1..] != [])
            && (es[1..] != [] ==> ClockText(es[1..])[0] == 'v')
  {
    var e, rest := es[0], ClockText(es[1..]);
    Associative(pre, "v" + Pad3(e.0) + Decimal(e.1), rest);
    Associative(pre, "v" + Pad3(e.0), Decimal(e.1));
    Associative(pre, "v", Pad3(e.0));
  }

  lemma {:induction false} ClockFromText(pre: string, es: seq<(nat, nat)>, w: Clock)
    requires es != [] && ShortIds(es)
    ensures ClockFrom(pre + ClockText(es), |pre|, w) == Some(AddAll(w, es))
    decreases |es|
  {
    var e, rest := es[0], ClockText(es[1..]);
    FirstEntry(pre, es);
    EntryReads(pre, e, rest);
    if es[1..] != [] {
      ClockFromText(pre + "v" + Pad3(e.0) + Decimal(e.1), es[1..], w[e.0 := e.1]);
    }
  }

  /** A clock reads back from its text: every entry with its value, the last one winning for a repeated process. */
  lemma ClockRoundTrip(es: seq<(nat, nat)>)
    requires ShortIds(es)
    ensures ReadClock(ClockText(es)) == Some(ClockOf(es))
  {
    AddAllIsClockOf(es);
    if es != [] {
      FindAt(ClockText(es), 'v', 0, 0);
      ClockFromText("", es, map[]);
      assert "" + ClockText(es) == ClockText(es);
    }
  }

  /** An entry cannot be read exactly when its identifier or its number starts with no digit. */
  lemma ClockEntryThrowsIff(s: string, i: nat)
    requires i < |s|
    ensures EntryAt(s, i).None? <==> i + 4 >= |s| || !IsDigit(s[i + 1]) || !IsDigit(s[i + 4])
  {
    if i + 4 <= |s| {
      var next := Find(s, 'v', i + 4);
      StoiNoneIff(Sub(s, i + 1, 3));
      StoiNoneIff(s[i + 4..if next.Some? then next.value else |s|]);
    }
  }

  lemma {:induction false} ClockFromThrows(pre: string, es: seq<(nat, nat)>, tail: string, w: Clock)
    requires ShortIds(es) && tail != "" && tail[0] == 'v' && EntryAt(tail, 0).None?
    ensures ClockFrom(pre + (ClockText(es) + tail), |pre|, w).None?
    decreases |es|
  {
    if es == [] {
      assert ClockText(es) + tail == tail;
      ClockEntryThrowsIff(tail, 0);
      ClockEntryThrowsIff(pre + tail, |pre|);
    } else {
      var e, rest := es[0], ClockText(es[1..]) + tail;
      EntryReads(pre, e, rest);
      ClockSplit(pre, es, tail);
      ClockFromThrows(pre + "v" + Pad3(e.0) + Decimal(e.1), es[1..], tail, w[e.0 := e.1]);
    }
  }

  lemma ClockSplit(pre: string, es: seq<(nat, nat)>, tail: string)
    requires es != []
    ensures pre + (ClockText(es) + tail)
         == pre + "v" + Pad3(es[0].0) + Decimal(es[0].1) + (ClockText(es[1..]) + tail)
    ensures ClockText(es[1..]) + tail != "" && tail != "" ==> (ClockText(es[1..]) + tail)[0] in {'v', tail[0]}
  {
    var e, rest := es[0], ClockText(es[1..]);
    Associative(pre, ClockText(es), tail);
    FirstEntry(pre, es);
    Associative(pre + "v" + Pad3(e.0) + Decimal(e.1), rest, tail);
  }

  /** One unreadable entry after any readable ones, and the whole clock cannot be read. */
  lemma ClockThrows(es: seq<(nat, nat)>, tail: string)
    requires ShortIds(es) && tail != "" && tail[0] == 'v' && EntryAt(tail, 0).None?
    ensures ReadClock(ClockText(es) + tail).None?
  {
    var s := ClockText(es) + tail;
    assert s[0] == 'v' by { if es != [] { FirstEntry("", es); assert "" + ClockText(es) == ClockText(es); } }
    FindAt(s, 'v', 0, 0);
    ClockFromThrows("", es, tail, map[]);
    assert "" + s == s;
  }

  // ---------- stamped messages ----------

  /** The key text of a stamped message as LCB receives it: origin, text, clock entries. */
  function LcbText(id: nat, body: string, es: seq<(nat, nat)>): string {
    Pad3(id) + body + ClockText(es)
  }

  /** What LCB logs of a delivered message: the text before the first `v`. */
  function Logged(text: string): string {
    var i := Find(text, 'v', 0);
    if i.Some? then text[..i.value] else text
  }

  lemma LoggedHead(head: string, rest: string)
    requires rest != "" && rest[0] == 'v'
    ensures Logged(head + rest) == head <==> 'v' !in head
  {
    var s := head + rest;
    assert s[..|head|] == head && s[|head|] == 'v';
    if 'v' !in head {
      FindAt(s, 'v', 0, |head|);
    } else {
      var j :| 0 <= j < |head| && head[j] == 'v';
      FindBefore(s, 'v', 0, j);
    }
  }

  /** The body survives exactly when it contains no `v`... */
  lemma BodyRoundTrip(id: nat, body: string, es: seq<(nat, nat)>)
    requires es != []
    ensures Logged(LcbText(id, body, es)) == Pad3(id) + body <==> 'v' !in body
  {
    DigitsHaveNoLetter(Pad3(id), 'v');
    LoggedHead(Pad3(id) + body, ClockText(es));
  }

  /** `find` stops at or before any occurrence. */
  lemma {:induction false} FindBefore(s: string, c: char, from: nat, i: nat)
    requires from <= i < |s| && s[i] == c
    ensures Find(s, c, from).Some? && Find(s, c, from).value <= i
    decreases i - from
  {
    if s[from] != c {
      FindBefore(s, c, from + 1, i);
    }
  }

  /** ... and then so does the clock. */
  lemma StampRoundTrip(id: nat, body: string, es: seq<(nat, nat)>)
    requires es != [] && ShortIds(es) && 'v' !in body
    ensures var s := LcbText(id, body, es);
            Find(s, 'v', 0).Some? && ReadClock(s[Find(s, 'v', 0).value..]) == Some(ClockOf(es))
  {
    var s := LcbText(id, body, es);
    var i := |Pad3(id)| + |body|;
    DigitsHaveNoLetter(Pad3(id), 'v');
    FindAt(s, 'v', 0, i);
    assert s[i..] == ClockText(es);
    ClockRoundTrip(es);
  }

  lemma {:induction false} ClockTextSnoc(es: seq<(nat, nat)>)
    requires es != []
    ensures var e := es[|es| - 1]; ClockText(es) == ClockText(es[..|es| - 1]) + "v" + Pad3(e.0) + Decimal(e.1)
  {
    if |es| > 1 {
      var e, x, y := es[|es| - 1], es[0], es[..|es| - 1];
      var c := ClockText(y[1..]);
      ClockTextSnoc(es[1..]);
      assert es[1..][..|es| - 2] == y[1..];
      Associative("v" + Pad3(x.0) + Decimal(x.1), c + "v" + Pad3(e.0), Decimal(e.1));
      Associative("v" + Pad3(x.0) + Decimal(x.1), c + "v", Pad3(e.0));
      Associative("v" + Pad3(x.0) + Decimal(x.1), c, "v");
    } else {
      assert es[1..] == [] && es[..0] == [];
      Associative("", "v", Pad3(es[0].0));
    }
  }

  /** The last marked part of a text can be read off it. */
  lemma LastMark(s: string, pre: string, c: char, d: string)
    requires c !in d && s == pre + [c] + d
    ensures RFind(s, c) == Some(|pre|) && s[..|pre|] == pre && s[|pre| + 1..] == d
  {
    assert s[|pre| + 1..] == d;
    RFindAt(s, c, |pre|);
  }

  lemma LastEntry(pre: string, e: (nat, nat))
    requires e.0 < 1000
    ensures var s := pre + "v" + Pad3(e.0) + Decimal(e.1);
            RFind(s, 'v') == Some(|pre|) && s[|pre| + 1..|pre| + 4] == Pad3(e.0) && s[|pre| + 4..] == Decimal(e.1)
  {
    var id, d := Pad3(e.0), Decimal(e.1);
    DigitsHaveNoLetter(id, 'v');
    DigitsHaveNoLetter(d, 'v');
    Associative(pre + "v", id, d);
    LastMark(pre + "v" + id + d, pre, 'v', id + d);
    assert (id + d)[..3] == id && (id + d)[3..] == d;
  }

  lemma SameEnd(p: string, a: (nat, nat), q: string, b: (nat, nat))
    requires a.0 < 1000 && b.0 < 1000
    requires p + "v" + Pad3(a.0) + Decimal(a.1) == q + "v" + Pad3(b.0) + Decimal(b.1)
    ensures a == b
  {
    LastEntry(p, a);
    LastEntry(q, b);
    ValueOfPadded(a.0);
    ValueOfPadded(b.0);
    ValueOfDecimal(a.1);
    ValueOfDecimal(b.1);
  }

  /** Equal texts end with the same entry, whatever precedes their clocks. */
  lemma SameLastEntry(x: string, xs: seq<(nat, nat)>, y: string, ys: seq<(nat, nat)>)
    requires xs != [] && ys != [] && xs[|xs| - 1].0 < 1000 && ys[|ys| - 1].0 < 1000
    requires x + ClockText(xs) == y + ClockText(ys)
    ensures xs[|xs| - 1] == ys[|ys| - 1]
  {
    var p, q := x + ClockText(xs[..|xs| - 1]), y + ClockText(ys[..|ys| - 1]);
    EndsWithLast(x, xs);
    EndsWithLast(y, ys);
    SameEnd(p, xs[|xs| - 1], q, ys[|ys| - 1]);
  }

  lemma EndsWithLast(x: string, es: seq<(nat, nat)>)
    requires es != []
    ensures var e := es[|es| - 1];
            x + ClockText(es) == (x + ClockText(es[..|es| - 1])) + "v" + Pad3(e.0) + Decimal(e.1)
  {
    var e := es[|es| - 1];
    var c := ClockText(es[..|es| - 1]);
    ClockTextSnoc(es);
    Associative(x, c + "v" + Pad3(e.0), Decimal(e.1));
    Associative(x, c + "v", Pad3(e.0));
    Associative(x, c, "v");
  }

  lemma Associative(a: string, b: string, c: string)
    ensures a + (b + c) == (a + b) + c
  {
  }

  // ---------- FIFO numbers ----------

  function FifoText(id: nat, body: string, sn: nat): string {
    Pad3(id) + body + "l" + Decimal(sn)
  }

  /** The number and the text of a FIFO message read back for every body, even one that contains `l`. */
  lemma FifoRoundTrip(id: nat, body: string, sn: nat)
    ensures var s, p := FifoText(id, body, sn), DirectKey(id, body);
            RFind(s, 'l') == Some(|p|) && s[..|p|] == p && Stoi(s[|p| + 1..]) == Some(sn)
  {
    DigitsHaveNoLetter(Decimal(sn), 'l');
    LastMark(FifoText(id, body, sn), DirectKey(id, body), 'l', Decimal(sn));
    StoiExact(Decimal(sn));
    ValueOfDecimal(sn);
  }

  lemma {:induction false} RFindAt(s: string, c: char, i: nat)
    requires i < |s| && s[i] == c && c !in s[i + 1..]
    ensures RFind(s, c) == Some(i)
  {
    if i < |s| - 1 {
      var init := s[..|s| - 1];
      assert s[i + 1..] == init[i + 1..] + [s[|s| - 1]];
      RFindAt(init, c, i);
    }
  }
  // ---------- examples ----------

  lemma PacketExample()
    ensures PacketText(Fields('0', 2, 13, "abc")) == "0002013abc"
  {
    assert Decimal(13) == "13";
  }

  lemma KeyExample()
    ensures DirectKey(7, "abc") == "007abc" && RelayText("007abc") == "r007abc"
  {
  }

  lemma ClockExample()
    ensures ClockText([(3, 41), (2, 0)]) == "v00341v0020"
  {
    assert Decimal(41) == "41";
    assert [(3, 41), (2, 0)][1..] == [(2, 0)] && [(2, 0)][1..] == [];
    assert ClockText([(2, 0)]) == "v0020";
  }

  lemma LcbExample()
    ensures LcbText(2, "a", [(3, 41), (2, 0)]) == "002av00341v0020"
  {
    ClockExample();
  }

  lemma FifoExample()
    ensures FifoText(12, "abc", 105) == "012abcl105"
  {
    assert Decimal(12) == "12";
    assert Decimal(105) == Decimal(10) + "5" && Decimal(10) == "10";
  }
}
