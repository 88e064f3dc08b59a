/** The output validator: its verdict on a file, and what the files it accepts look like. */
module Validator {
  import opened Text
  import opened StdList

  // ---------- reading a line ----------

  predicate IsBlank(c: char) {
    c == ' ' || '\t' <= c <= '\r' || '\U{1C}' <= c <= '\U{1F}'
  }

  /** How many characters precede the first blank. */
  function WordRun(s: string): (n: nat)
    ensures n <= |s| && (n < |s| ==> IsBlank(s[n])) && forall i :: 0 <= i < n ==> !IsBlank(s[i])
  {
    if s == "" || IsBlank(s[0]) then 0 else 1 + WordRun(s[1..])
  }

  /** str.split(): the maximal runs of characters that are not blank. */
  function Words(s: string): seq<string>
    decreases |s|
  {
    if s == "" then []
    else if IsBlank(s[0]) then Words(s[1..])
    else [s[..WordRun(s)]] + Words(s[WordRun(s)..])
  }

  lemma BlankSkipped(c: char, rest: string)
    requires c in [' ', '\t', '\n', '\U{0B}', '\U{0C}', '\r', '\U{1C}', '\U{1D}', '\U{1E}', '\U{1F}']
    ensures Words([c] + rest) == Words(rest)
  {
    assert IsBlank(c) && ([c] + rest)[1..] == rest;
  }

  /** Digits, with single underscores allowed between them; None for anything else. */
  function Digits(s: string): (d: Option<string>)
    ensures d.Some? ==> AllDigits(d.value)
    decreases |s|
  {
    if s == "" || !IsDigit(s[0]) then None
    else if |s| == 1 then Some(s)
    else
      match Digits(if s[1] == '_' then s[2..] else s[1..])
      case None => None
      case Some(d) => Some([s[0]] + d)
  }

  /** int() of a word: an optional sign and digits; None where it raises ValueError. */
  function Int(s: string): Option<int> {
    match Digits(if s != "" && (s[0] == '+' || s[0] == '-') then s[1..] else s)
    case None => None
    case Some(d) =>
      var v: int := Value(d);
      Some(if s[0] == '-' then -v else v)
  }

  lemma {:induction false} PlainDigits(s: string)
    requires s != "" && AllDigits(s)
    ensures Digits(s) == Some(s)
  {
    if |s| > 1 {
      assert IsDigit(s[1]);
      PlainDigits(s[1..]);
      assert s == [s[0]] + s[1..];
    }
  }

  /** Any number of digits is read as the number they denote, and a sign in front changes only its sign. */
  lemma SignedDigits(s: string)
    requires s != "" && AllDigits(s)
    ensures var v: int := Value(s); Int(s) == Int("+" + s) == Some(v) && Int("-" + s) == Some(-v)
  {
    var plus, minus := "+" + s, "-" + s;
    PlainDigits(s);
    assert plus[0] == '+' && plus[1..] == s && minus[0] == '-' && minus[1..] == s;
    assert IsDigit(s[0]) && s[0] != '+' && s[0] != '-';
  }

  /** What int() takes after the sign: digits at both ends, and underscores only between digits. */
  predicate WellFormed(s: string) {
    && s != "" && IsDigit(s[0]) && IsDigit(s[|s| - 1])
    && (forall i :: 0 <= i < |s| ==> IsDigit(s[i]) || s[i] == '_')
    && forall i :: 0 < i < |s| ==> s[i - 1] != '_' || s[i] != '_'
  }

  lemma WellFormedTail(s: string)
    requires |s| > 1 && IsDigit(s[0])
    ensures var tail := if s[1] == '_' then s[2..] else s[1..];
            && (WellFormed(s) <==> WellFormed(tail))
            && Remove(s, '_') == [s[0]] + Remove(tail, '_')
  {
    var at := if s[1] == '_' then 2 else 1;
    var tail := s[at..];
    if WellFormed(tail) {
      forall i | 0 <= i < |s| ensures IsDigit(s[i]) || s[i] == '_' {
        if i >= at { assert s[i] == tail[i - at]; }
      }
      forall i | 0 < i < |s| ensures s[i - 1] != '_' || s[i] != '_' {
        if i > at { assert s[i] == tail[i - at] && s[i - 1] == tail[i - 1 - at]; }
        if i == at { assert s[i] == tail[0]; }
      }
    }
    if WellFormed(s) {
      assert s[1] != '_' || s[2] != '_';
      forall i | 0 < i < |tail| ensures tail[i - 1] != '_' || tail[i] != '_' {
        assert s[i + at - 1] != '_' || s[i + at] != '_';
      }
    }
    assert s[1..][0] == s[1];
    if s[1] == '_' { assert s[1..][1..] == s[2..]; }
  }

  /** Exactly the well-formed texts are read, as their digits without the underscores. */
  lemma {:induction false} DigitsIff(s: string)
    ensures Digits(s) == if WellFormed(s) then Some(Remove(s, '_')) else None
    decreases |s|
  {
    if s != "" && IsDigit(s[0]) {
      if |s| == 1 {
        assert s == [s[0]] && WellFormed(s);
        RemoveAbsent(s, '_');
      } else {
        var tail := if s[1] == '_' then s[2..] else s[1..];
        WellFormedTail(s);
        DigitsIff(tail);
        assert Digits(s) == match Digits(tail) case None => None case Some(d) => Some([s[0]] + d);
      }
    }
  }

  datatype Line = BLine(n: int) | DLine(sender: int, n: int) | Other | Bad

  /** What a line says; Bad where reading it raises an exception. */
  function ReadLine(s: string): Line {
    var ws := Words(s);
    if ws == [] then Bad
    else if ws[0] == "b" then
      if |ws| < 2 || Int(ws[1]).None? then Bad else BLine(Int(ws[1]).value)
    else if ws[0] == "d" then
      if |ws| < 3 || Int(ws[1]).None? || Int(ws[2]).None? then Bad else DLine(Int(ws[1]).value, Int(ws[2]).value)
    else Other
  }

  /** A line with n numbers after its first word. */
  ghost predicate HasNumbers(ws: seq<string>, n: nat) {
    |ws| > n && forall i :: 1 <= i <= n ==> Int(ws[i]).Some?
  }

  /** What a line counts as goes by its first word, and what follows the numbers that this word needs is ignored;
      a blank line, or one without these numbers, cannot be read. */
  lemma LineReads(s: string)
    ensures var ws, l := Words(s), ReadLine(s);
            && (l == Bad <==> ws == [] || (ws[0] == "b" && !HasNumbers(ws, 1)) || (ws[0] == "d" && !HasNumbers(ws, 2)))
            && (l == Other <==> ws != [] && ws[0] !in ["b", "d"])
            && (l.BLine? ==> HasNumbers(ws, 1) && ws[0] == "b" && Int(ws[1]) == Some(l.n))
            && (l.DLine? ==>
                  HasNumbers(ws, 2) && ws[0] == "d" && Int(ws[1]) == Some(l.sender) && Int(ws[2]) == Some(l.n))
  {
  }

  function ReadLines(ss: seq<string>): seq<Line> {
    seq(|ss|, i requires 0 <= i < |ss| => ReadLine(ss[i]))
  }

  // ---------- the check ----------

  datatype Verdict = Accepted | Rejected | Raised

  /** defaultdict(lambda: 1) */
  function NextOf(next: map<int, int>, sender: int): int {
    if sender in next then next[sender] else 1
  }

  /** The verdict on the lines, when broadcast i and next[s] of each sender s are expected. */
  function Check(ls: seq<Line>, i: int, next: map<int, int>): Verdict
    decreases |ls|
  {
    if ls == [] then Accepted
    else
      match ls[0]
      case BLine(n) => if n != i then Rejected else Check(ls[1..], i + 1, next)
      case DLine(s, n) => if n != NextOf(next, s) then Rejected else Check(ls[1..], i, next[s := n + 1])
      case Other => Check(ls[1..], i, next)
      case Bad => Raised
  }

  method CheckProcess(file: seq<string>) returns (v: Verdict)
    ensures v == Check(ReadLines(file), 1, map[])
  {
    var i := 1;
    var next: map<int, int> := map[];
    ghost var ls := ReadLines(file);
    for k := 0 to |file|
      invariant Check(ls, 1, map[]) == Check(ls[k..], i, next)
    {
      assert ls[k] == ReadLine(file[k]) && ls[k..][1..] == ls[k + 1..];
      match ReadLine(file[k])
      case BLine(msg) =>
        if msg != i {
          return Rejected;
        }
        i := i + 1;
      case DLine(sender, msg) =>
        if msg != NextOf(next, sender) {
          return Rejected;
        }
        next := next[sender := msg + 1];
      case Other =>
      case Bad =>
        return Raised;
    }
    return Accepted;
  }

  // ---------- what is accepted ----------

  /** The numbers of the broadcast lines, in order. */
  function Broadcasts(ls: seq<Line>): seq<int> {
    if ls == [] then [] else (if ls[0].BLine? then [ls[0].n] else []) + Broadcasts(ls[1..])
  }

  /** The numbers of the delivery lines of one sender, in order. */
  function Deliveries(ls: seq<Line>, s: int): seq<int> {
    if ls == [] then []
    else (if ls[0].DLine? && ls[0].sender == s then [ls[0].n] else []) + Deliveries(ls[1..], s)
  }

  /** from, from + 1, from + 2, ... */
  predicate Counts(ns: seq<int>, from: int) {
    forall j :: 0 <= j < |ns| ==> ns[j] == from + j
  }

  lemma CountsCons(n: int, ns: seq<int>, from: int)
    ensures Counts([n] + ns, from) <==> n == from && Counts(ns, from + 1)
  {
    if Counts([n] + ns, from) {
      assert ([n] + ns)[0] == n;
      forall j | 0 <= j < |ns| ensures ns[j] == from + 1 + j {
        assert ([n] + ns)[j + 1] == ns[j];
      }
    }
  }

  ghost predicate InOrder(ls: seq<Line>, i: int, next: map<int, int>) {
    && Bad !in ls && Counts(Broadcasts(ls), i)
    && forall s: int :: Counts(Deliveries(ls, s), NextOf(next, s))
  }

  lemma BroadcastFirst(n: int, ls: seq<Line>, i: int, next: map<int, int>)
    ensures InOrder([BLine(n)] + ls, i, next) <==> n == i && InOrder(ls, i + 1, next)
  {
    var all := [BLine(n)] + ls;
    assert all[1..] == ls && (Bad in all <==> Bad in ls);
    CountsCons(n, Broadcasts(ls), i);
    assert forall s: int :: Deliveries(all, s) == Deliveries(ls, s);
  }

  lemma DeliveryFirst(sender: int, n: int, ls: seq<Line>, i: int, next: map<int, int>)
    ensures InOrder([DLine(sender, n)] + ls, i, next) <==>
      n == NextOf(next, sender) && InOrder(ls, i, next[sender := n + 1])
  {
    var all := [DLine(sender, n)] + ls;
    assert all[1..] == ls && (Bad in all <==> Bad in ls) && Broadcasts(all) == Broadcasts(ls);
    CountsCons(n, Deliveries(ls, sender), NextOf(next, sender));
    assert Deliveries(all, sender) == [n] + Deliveries(ls, sender);
    assert forall s: int :: s != sender ==> Deliveries(all, s) == Deliveries(ls, s);
    if n == NextOf(next, sender) {
      forall s: int
        ensures Counts(Deliveries(all, s), NextOf(next, s))
           <==> Counts(Deliveries(ls, s), NextOf(next[sender := n + 1], s))
      {
      }
    } else {
      assert !Counts(Deliveries(all, sender), NextOf(next, sender));
    }
  }

  lemma InOrderCons(l: Line, ls: seq<Line>, i: int, next: map<int, int>)
    ensures InOrder([l] + ls, i, next) <==>
      match l
      case BLine(n) => n == i && InOrder(ls, i + 1, next)
      case DLine(s, n) => n == NextOf(next, s) && InOrder(ls, i, next[s := n + 1])
      case Other => InOrder(ls, i, next)
      case Bad => false
  {
    match l
    case BLine(n) => BroadcastFirst(n, ls, i, next);
    case DLine(s, n) => DeliveryFirst(s, n, ls, i, next);
    case Other =>
      assert ([l] + ls)[1..] == ls && (Bad in [l] + ls <==> Bad in ls) && Broadcasts([l] + ls) == Broadcasts(ls);
      assert forall s: int :: Deliveries([l] + ls, s) == Deliveries(ls, s);
    case Bad =>
      assert ([l] + ls)[0] == Bad;
  }

  lemma {:induction false} CheckInOrder(ls: seq<Line>, i: int, next: map<int, int>)
    ensures Check(ls, i, next) == Accepted <==> InOrder(ls, i, next)
    decreases |ls|
  {
    if ls != [] {
      assert ls == [ls[0]] + ls[1..];
      InOrderCons(ls[0], ls[1..], i, next);
      match ls[0]
      case BLine(n) => CheckInOrder(ls[1..], i + 1, next);
      case DLine(s, n) => CheckInOrder(ls[1..], i, next[s := n + 1]);
      case Other => CheckInOrder(ls[1..], i, next);
      case Bad =>
    }
  }

  /** Each sender's deliveries are 1, 2, 3, ... */
  ghost predicate DeliveriesInOrder(ls: seq<Line>) {
    forall s: int :: Counts(Deliveries(ls, s), 1)
  }

  /** Both the broadcasts and each sender's deliveries count from 1. */
  ghost predicate CountsFromOne(ls: seq<Line>) {
    Counts(Broadcasts(ls), 1) && DeliveriesInOrder(ls)
  }

  /** A file is accepted exactly when every line can be read, its broadcasts are 1, 2, 3, ... and the
      deliveries of each sender are 1, 2, 3, ... */
  lemma AcceptedIff(ls: seq<Line>)
    ensures Check(ls, 1, map[]) == Accepted <==> Bad !in ls && CountsFromOne(ls)
  {
    CheckInOrder(ls, 1, map[]);
    assert InOrder(ls, 1, map[]) <==> Bad !in ls && CountsFromOne(ls) by {
      forall s: int ensures Counts(Deliveries(ls, s), NextOf(map[], s)) <==> Counts(Deliveries(ls, s), 1) {
      }
    }
  }
  // ---------- what is rejected, and what raises ----------

  /** The lines up to number j are accepted, and the next one cannot be read. */
  ghost predicate FirstUnreadable(ls: seq<Line>, i: int, next: map<int, int>, j: int) {
    0 <= j < |ls| && InOrder(ls[..j], i, next) && ls[j] == Bad
  }

  /** The lines up to number j are accepted, and the next one can be read and is out of order. */
  ghost predicate FirstOutOfOrder(ls: seq<Line>, i: int, next: map<int, int>, j: int) {
    0 <= j < |ls| && InOrder(ls[..j], i, next) && ls[j] != Bad && !InOrder(ls[..j + 1], i, next)
  }

  /** What is expected after the line l, which is in order. */
  function After(l: Line, i: int, next: map<int, int>): (int, map<int, int>) {
    match l
    case BLine(n) => (i + 1, next)
    case DLine(s, n) => (i, next[s := n + 1])
    case _ => (i, next)
  }

  predicate FirstFits(l: Line, i: int, next: map<int, int>) {
    match l
    case BLine(n) => n == i
    case DLine(s, n) => n == NextOf(next, s)
    case Other => true
    case Bad => false
  }

  lemma OrderedFirst(ls: seq<Line>, i: int, next: map<int, int>, j: nat)
    requires 0 < j <= |ls|
    ensures InOrder(ls[..j], i, next) <==>
      FirstFits(ls[0], i, next) && InOrder(ls[1..][..j - 1], After(ls[0], i, next).0, After(ls[0], i, next).1)
  {
    assert ls[..j] == [ls[0]] + ls[1..][..j - 1];
    InOrderCons(ls[0], ls[1..][..j - 1], i, next);
  }

  lemma OneInOrder(ls: seq<Line>, i: int, next: map<int, int>)
    requires ls != []
    ensures InOrder(ls[..0], i, next) && (InOrder(ls[..1], i, next) <==> FirstFits(ls[0], i, next))
  {
    OrderedFirst(ls, i, next, 1);
  }

  /** The place of the first line that is not in order moves with the lines. */
  lemma LaterPlace(ls: seq<Line>, i: int, next: map<int, int>, j: nat)
    requires ls != [] && FirstFits(ls[0], i, next) && j < |ls| - 1
    ensures var (i1, next1) := After(ls[0], i, next);
            && (FirstUnreadable(ls, i, next, j + 1) <==> FirstUnreadable(ls[1..], i1, next1, j))
            && (FirstOutOfOrder(ls, i, next, j + 1) <==> FirstOutOfOrder(ls[1..], i1, next1, j))
  {
    OrderedFirst(ls, i, next, j + 1);
    OrderedFirst(ls, i, next, j + 2);
  }

  /** The verdict is that of the first line that is not in order, if there is one. */
  lemma {:induction false} CheckFails(ls: seq<Line>, i: int, next: map<int, int>)
    ensures Check(ls, i, next) == Raised <==> exists j :: FirstUnreadable(ls, i, next, j)
    ensures Check(ls, i, next) == Rejected <==> exists j :: FirstOutOfOrder(ls, i, next, j)
    decreases |ls|
  {
    if ls != [] {
      OneInOrder(ls, i, next);
      if FirstFits(ls[0], i, next) {
        var (i1, next1) := After(ls[0], i, next);
        CheckFails(ls[1..], i1, next1);
        forall j: nat | j < |ls| - 1
          ensures FirstUnreadable(ls, i, next, j + 1) <==> FirstUnreadable(ls[1..], i1, next1, j)
          ensures FirstOutOfOrder(ls, i, next, j + 1) <==> FirstOutOfOrder(ls[1..], i1, next1, j)
        {
          LaterPlace(ls, i, next, j);
        }
        PlacesMove(ls, i, next, i1, next1);
      } else {
        NotLater(ls, i, next);
        assert FirstUnreadable(ls, i, next, 0) || FirstOutOfOrder(ls, i, next, 0);
      }
    }
  }

  lemma PlacesMove(ls: seq<Line>, i: int, next: map<int, int>, i1: int, next1: map<int, int>)
    requires ls != [] && FirstFits(ls[0], i, next) && (i1, next1) == After(ls[0], i, next)
    requires InOrder(ls[..1], i, next)
    requires forall j: nat :: j < |ls| - 1 ==>
      && (FirstUnreadable(ls, i, next, j + 1) <==> FirstUnreadable(ls[1..], i1, next1, j))
      && (FirstOutOfOrder(ls, i, next, j + 1) <==> FirstOutOfOrder(ls[1..], i1, next1, j))
    ensures (exists j :: FirstUnreadable(ls, i, next, j)) <==> exists j :: FirstUnreadable(ls[1..], i1, next1, j)
    ensures (exists j :: FirstOutOfOrder(ls, i, next, j)) <==> exists j :: FirstOutOfOrder(ls[1..], i1, next1, j)
  {
    forall j | FirstUnreadable(ls[1..], i1, next1, j) ensures FirstUnreadable(ls, i, next, j + 1) {}
    forall j | FirstOutOfOrder(ls[1..], i1, next1, j) ensures FirstOutOfOrder(ls, i, next, j + 1) {}
    forall j | FirstUnreadable(ls, i, next, j) ensures FirstUnreadable(ls[1..], i1, next1, j - 1) {}
    forall j | FirstOutOfOrder(ls, i, next, j) ensures FirstOutOfOrder(ls[1..], i1, next1, j - 1) {}
  }

  lemma NotLater(ls: seq<Line>, i: int, next: map<int, int>)
    requires ls != [] && !FirstFits(ls[0], i, next)
    ensures forall j: nat :: 0 < j <= |ls| ==> !InOrder(ls[..j], i, next)
  {
    forall j: nat | 0 < j <= |ls| ensures !InOrder(ls[..j], i, next) {
      OrderedFirst(ls, i, next, j);
    }
  }

  lemma UnreadableAt(ls: seq<Line>, j: int)
    requires 0 <= j < |ls|
    ensures FirstUnreadable(ls, 1, map[], j) <==> Check(ls[..j], 1, map[]) == Accepted && ls[j] == Bad
  {
    CheckInOrder(ls[..j], 1, map[]);
  }

  lemma OutOfOrderAt(ls: seq<Line>, j: int)
    requires 0 <= j < |ls|
    ensures FirstOutOfOrder(ls, 1, map[], j) <==>
      (Check(ls[..j], 1, map[]) == Accepted && ls[j] != Bad && !CountsFromOne(ls[..j + 1]))
  {
    var before, upTo := ls[..j], ls[..j + 1];
    CheckInOrder(before, 1, map[]);
    CheckInOrder(upTo, 1, map[]);
    AcceptedIff(before);
    AcceptedIff(upTo);
    assert upTo == before + [ls[j]];
  }

  /** A file raises exactly when a line that cannot be read comes after lines that are accepted, and is rejected
      exactly when a line that can be read is the first one out of order. */
  lemma VerdictIff(ls: seq<Line>)
    ensures Check(ls, 1, map[]) == Raised <==>
      exists j :: 0 <= j < |ls| && Check(ls[..j], 1, map[]) == Accepted && ls[j] == Bad
    ensures Check(ls, 1, map[]) == Rejected <==>
      exists j :: 0 <= j < |ls| && Check(ls[..j], 1, map[]) == Accepted && ls[j] != Bad && !CountsFromOne(ls[..j + 1])
  {
    CheckFails(ls, 1, map[]);
    forall j | 0 <= j < |ls|
      ensures FirstUnreadable(ls, 1, map[], j) <==> Check(ls[..j], 1, map[]) == Accepted && ls[j] == Bad
      ensures FirstOutOfOrder(ls, 1, map[], j) <==>
        (Check(ls[..j], 1, map[]) == Accepted && ls[j] != Bad && !CountsFromOne(ls[..j + 1]))
    {
      UnreadableAt(ls, j);
      OutOfOrderAt(ls, j);
    }
  }
}
