/** From a process's log to the lines of its output file. */
module Output {
  import opened Text
  import opened Codec
  import opened Batching

  // ---------- taking a batch apart ----------

  /** Up to n messages from `start` on, each ending before the next separator that is not its first character;
      None where the program throws because the text is used up. */
  function Pieces(text: string, start: nat, n: nat): Option<seq<string>>
    decreases n
  {
    if n == 0 then Some([])
    else if start > |text| then None
    else
      var end := PieceEnd(text, start);
      match Pieces(text, end + 1, n - 1)
      case None => None
      case Some(more) => Some([text[start..end]] + more)
  }

  function PieceEnd(text: string, start: nat): (end: nat)
    requires start <= |text|
    ensures start <= end <= |text|
  {
    var sep := Find(text, 's', start + 1);
    if sep.Some? then sep.value else |text|
  }

  /** A log entry: its header, how many messages it holds, and their text. */
  datatype LogEntry = LogEntry(header: string, count: nat, text: string)

  /** None where the program throws; an entry that is neither a broadcast nor a delivery holds nothing. */
  function ReadLog(msg: string): Option<LogEntry> {
    if msg == "" || (msg[0] != 'b' && msg[0] != 'd') then Some(LogEntry("", 0, ""))
    else
      var size := if msg[0] == 'b' then 1 else 7;
      if |msg| < size + 2 then None
      else
        match Stoi(msg[size..size + 2])
        case None => None
        case Some(n) => Some(LogEntry(msg[..size], n, msg[size + 2..]))
  }

  function WithHeader(header: string, ms: seq<string>): seq<string> {
    seq(|ms|, i requires 0 <= i < |ms| => header + ms[i])
  }

  lemma WithHeaderAppend(h: string, a: seq<string>, b: seq<string>)
    ensures WithHeader(h, a + b) == WithHeader(h, a) + WithHeader(h, b)
  {
  }

  lemma WithHeaderOne(h: string, m: string)
    ensures WithHeader(h, [m]) == [h + m]
  {
  }

  lemma WithHeaderSnoc(h: string, ms: seq<string>, m: string)
    ensures WithHeader(h, ms + [m]) == WithHeader(h, ms) + [h + m]
  {
    WithHeaderOne(h, m);
    WithHeaderAppend(h, ms, [m]);
  }

  function EntryMessages(msg: string): Option<seq<string>> {
    match ReadLog(msg)
    case None => None
    case Some(e) =>
      match Pieces(e.text, 0, e.count)
      case None => None
      case Some(ms) => Some(WithHeader(e.header, ms))
  }

  function Append<T>(a: Option<seq<T>>, b: Option<seq<T>>): Option<seq<T>> {
    if a.Some? && b.Some? then Some(a.value + b.value) else None
  }

  lemma AppendAssociative<T>(a: Option<seq<T>>, b: Option<seq<T>>, c: Option<seq<T>>)
    ensures Append(Append(a, b), c) == Append(a, Append(b, c))
  {
    if a.Some? && b.Some? && c.Some? {
      assert a.value + b.value + c.value == a.value + (b.value + c.value);
    }
  }

  function Deconcat(log: seq<string>): Option<seq<string>> {
    if log == [] then Some([])
    else Append(Deconcat(log[..|log| - 1]), EntryMessages(log[|log| - 1]))
  }

  /** What was taken off so far, and what the rest from `start` on gives, make up the whole. */
  ghost predicate SplitAt(text: string, total: nat, pieces: seq<string>, start: nat, n: nat) {
    Pieces(text, 0, total) == Append(Some(pieces), Pieces(text, start, n))
  }

  lemma SplitStart(text: string, total: nat)
    ensures SplitAt(text, total, [], 0, total)
  {
    AppendNothing(Pieces(text, 0, total));
  }

  lemma SplitStep(text: string, total: nat, pieces: seq<string>, start: nat, n: nat, end: nat, piece: string)
    requires SplitAt(text, total, pieces, start, n)
    requires n > 0 && start <= |text| && end == PieceEnd(text, start) && piece == text[start..end]
    ensures SplitAt(text, total, pieces + [piece], end + 1, n - 1)
  {
    AppendAssociative(Some(pieces), Some([piece]), Pieces(text, end + 1, n - 1));
  }

  lemma SplitEnd(text: string, total: nat, pieces: seq<string>, start: nat, n: nat)
    requires SplitAt(text, total, pieces, start, n)
    ensures n == 0 ==> Pieces(text, 0, total) == Some(pieces)
    ensures n > 0 && start > |text| ==> Pieces(text, 0, total) == None
  {
    AppendNothing(Some(pieces));
  }

  method SplitEntry(e: LogEntry) returns (r: Option<seq<string>>)
    ensures r == match Pieces(e.text, 0, e.count) case None => None case Some(ms) => Some(WithHeader(e.header, ms))
  {
    var messages: seq<string> := [];
    ghost var pieces: seq<string> := [];
    var start := 0;
    SplitStart(e.text, e.count);
    for i := 0 to e.count
      invariant messages == WithHeader(e.header, pieces)
      invariant SplitAt(e.text, e.count, pieces, start, e.count - i)
    {
      if start > |e.text| {
        SplitEnd(e.text, e.count, pieces, start, e.count - i);
        return None;
      }
      var sep := Find(e.text, 's', start + 1);
      var end := if sep.Some? then sep.value else |e.text|;
      var piece := e.text[start..end];
      SplitStep(e.text, e.count, pieces, start, e.count - i, end, piece);
      WithHeaderSnoc(e.header, pieces, piece);
      messages := messages + [e.header + piece];
      pieces := pieces + [piece];
      start := end + 1;
    }
    SplitEnd(e.text, e.count, pieces, start, 0);
    return Some(messages);
  }

  method DeconcatMessages(log: seq<string>) returns (r: Option<seq<string>>)
    ensures r == Deconcat(log)
  {
    var messages: seq<string> := [];
    for k := 0 to |log|
      invariant Deconcat(log[..k]) == Some(messages)
    {
      assert log[..k + 1][..k] == log[..k];
      var entry := ReadLog(log[k]);
      var more: Option<seq<string>> := None;
      if entry.Some? {
        more := SplitEntry(entry.value);
      }
      if more.None? {
        DeconcatThrows(log, k + 1);
        return None;
      }
      messages := messages + more.value;
    }
    assert log[..|log|] == log;
    return Some(messages);
  }

  lemma {:induction false} DeconcatThrows(log: seq<string>, k: nat)
    requires k <= |log| && Deconcat(log[..k]) == None
    ensures Deconcat(log) == None
    decreases |log| - k
  {
    if k < |log| {
      assert log[..k + 1][..k] == log[..k];
      DeconcatThrows(log, k + 1);
    } else {
      assert log[..k] == log;
    }
  }

  lemma AppendNothing<T>(a: Option<seq<T>>)
    ensures Append(a, Some([])) == a && Append(Some([]), a) == a
  {
    if a.Some? {
      assert a.value + [] == a.value && [] + a.value == a.value;
    }
  }

  lemma {:induction false} DeconcatAppend(a: seq<string>, b: seq<string>)
    ensures Deconcat(a + b) == Append(Deconcat(a), Deconcat(b))
  {
    if b == [] {
      assert a + b == a;
      AppendNothing(Deconcat(a));
    } else {
      assert (a + b)[..|a + b| - 1] == a + b[..|b| - 1];
      DeconcatAppend(a, b[..|b| - 1]);
      AppendAssociative(Deconcat(a), Deconcat(b[..|b| - 1]), EntryMessages(b[|b| - 1]));
    }
  }

  // ---------- the round trip ----------

  /** The separator may only be a message's first character. */
  predicate NoInnerSeparator(m: string) {
    m == "" || 's' !in m[1..]
  }

  /** What taking a batch apart needs of its messages: only the last may be empty. */
  predicate Clean(ms: seq<string>) {
    forall i :: 0 <= i < |ms| ==> NoInnerSeparator(ms[i]) && (ms[i] != "" || i == |ms| - 1)
  }

  lemma {:induction false} JoinHead(ms: seq<string>)
    requires |ms| > 1
    ensures Join(ms) == ms[0] + "s" + Join(ms[1..])
  {
    var last := |ms| - 1;
    SeparatedHead(ms[..last]);
    assert ms[..last][1..] == ms[1..][..last - 1];
    Associative(ms[0] + "s", Separated(ms[1..][..last - 1]), ms[last]);
  }

  lemma {:induction false} SeparatedHead(ms: seq<string>)
    requires ms != []
    ensures Separated(ms) == ms[0] + "s" + Separated(ms[1..])
  {
    if |ms| > 1 {
      SeparatedHead(ms[..|ms| - 1]);
      assert ms[..|ms| - 1][1..] == ms[1..][..|ms| - 2];
    } else {
      assert ms[..0] == [] && ms[1..] == [];
    }
  }

  /** Where the first message of a text ends. */
  lemma PieceEnds(pre: string, m: string, rest: string)
    requires rest == "" || rest[0] == 's'
    ensures var end := PieceEnd(pre + m + rest, |pre|);
            && ((m != "" || rest == "") && NoInnerSeparator(m) ==> end == |pre| + |m|)
            && (!((m != "" || rest == "") && NoInnerSeparator(m)) ==> end != |pre| + |m|)
  {
    var s := pre + m + rest;
    var end := |pre| + |m|;
    if m != "" && 's' in m[1..] {
      var j :| 0 <= j < |m[1..]| && m[1..][j] == 's';
      assert s[|pre| + 1 + j] == 's';
      FindBefore(s, 's', |pre| + 1, |pre| + 1 + j);
    } else if m != "" {
      assert s[|pre| + 1..end] == m[1..];
      if rest == "" {
        assert s[|pre| + 1..] == m[1..];
        FindNone(s, 's', |pre| + 1);
      } else {
        FindAt(s, 's', |pre| + 1, end);
      }
    }
  }

  lemma CleanOne(m: string)
    ensures Clean([m]) <==> NoInnerSeparator(m)
  {
    assert [m][0] == m;
  }

  lemma CleanTail(ms: seq<string>)
    requires |ms| > 1
    ensures Clean(ms) <==> ms[0] != "" && NoInnerSeparator(ms[0]) && Clean(ms[1..])
  {
    if ms[0] != "" && NoInnerSeparator(ms[0]) && Clean(ms[1..]) {
      forall i | 0 <= i < |ms| ensures NoInnerSeparator(ms[i]) && (ms[i] != "" || i == |ms| - 1) {
        if i > 0 { assert ms[i] == ms[1..][i - 1]; }
      }
    }
    if Clean(ms) {
      forall i | 0 <= i < |ms[1..]| ensures NoInnerSeparator(ms[1..][i]) && (ms[1..][i] != "" || i == |ms[1..]| - 1) {
        assert ms[1..][i] == ms[i + 1];
      }
    }
  }

  // ---------- every text ----------

  /** From `start` on the text holds the messages ms with separators between them, and then ends or goes on with
      another separator; only the last of them may be empty, and only at the end of the text. */
  predicate Spells(text: string, start: nat, ms: seq<string>) {
    && Clean(ms)
    && (ms == [] ||
        (start <= |text| && (text[start..] == Join(ms) || (ms[|ms| - 1] != "" && Separated(ms) <= text[start..]))))
  }

  predicate HeadFits(text: string, start: nat, m: string)
    requires start <= |text|
  {
    NoInnerSeparator(m) && (text[start..] == m || (m != "" && m + "s" <= text[start..]))
  }

  lemma PieceEndIff(text: string, start: nat, m: string)
    requires start <= |text|
    ensures HeadFits(text, start, m) <==>
      PieceEnd(text, start) == start + |m| && text[start..PieceEnd(text, start)] == m
  {
    var end := PieceEnd(text, start);
    if m <= text[start..] {
      var rest := text[start + |m|..];
      assert text == text[..start] + m + rest;
      if rest == "" || rest[0] == 's' {
        PieceEnds(text[..start], m, rest);
        assert rest != "" ==> text[start..][..|m| + 1] == m + "s";
        assert rest == "" ==> text[start..] == m;
      } else {
        assert text[start..][|m|] == rest[0];
        assert end < |text| ==> text[end] == 's';
      }
    }
  }

  lemma OneSpelled(text: string, start: nat, m: string)
    requires start <= |text|
    ensures Spells(text, start, [m]) <==> HeadFits(text, start, m)
  {
    CleanOne(m);
    assert [m][..0] == [];
    assert Join([m]) == m && Separated([m]) == m + "s";
  }

  lemma SuffixSpelled(text: string, start: nat, head: string, tail: string)
    requires start <= |text|
    ensures text[start..] == head + tail <==>
      head <= text[start..] && start + |head| <= |text| && text[start + |head|..] == tail
    ensures head + tail <= text[start..] <==>
      head <= text[start..] && start + |head| <= |text| && tail <= text[start + |head|..]
  {
    if start + |head| <= |text| {
      assert text[start..] == text[start..start + |head|] + text[start + |head|..];
      assert text[start..][..|head|] == text[start..start + |head|];
    }
    if head + tail <= text[start..] {
      assert text[start..][..|head|] == (head + tail)[..|head|] == head;
      assert text[start + |head|..][..|tail|] == (head + tail)[|head|..] == tail;
    }
    if text[start..] == head + tail {
      assert text[start + |head|..] == (head + tail)[|head|..] == tail;
    }
  }

  lemma MoreSpelled(text: string, start: nat, m: string, ms: seq<string>)
    requires start <= |text| && ms != []
    ensures Spells(text, start, [m] + ms) <==>
      m != "" && NoInnerSeparator(m) && m + "s" <= text[start..] && Spells(text, start + |m| + 1, ms)
  {
    var all := [m] + ms;
    assert all[0] == m && all[1..] == ms && all[|all| - 1] == ms[|ms| - 1];
    CleanTail(all);
    JoinHead(all);
    SeparatedHead(all);
    SuffixSpelled(text, start, m + "s", Join(ms));
    SuffixSpelled(text, start, m + "s", Separated(ms));
  }

  lemma {:induction false} PiecesCount(text: string, start: nat, n: nat)
    ensures Pieces(text, start, n).Some? ==> |Pieces(text, start, n).value| == n
    decreases n
  {
    if n > 0 && start <= |text| {
      PiecesCount(text, PieceEnd(text, start) + 1, n - 1);
    }
  }

  lemma SplitSpelled(text: string, start: nat, m: string, ms: seq<string>)
    requires start <= |text|
    ensures Spells(text, start, [m] + ms) <==> HeadFits(text, start, m) && Spells(text, start + |m| + 1, ms)
  {
    if ms == [] {
      assert [m] + ms == [m];
      OneSpelled(text, start, m);
    } else {
      MoreSpelled(text, start, m, ms);
      assert text[start..] == m ==> start + |m| == |text|;
    }
  }

  lemma PiecesStep(text: string, start: nat, n: nat, m: string, ms: seq<string>)
    requires n > 0 && start <= |text|
    requires var end := PieceEnd(text, start);
             Pieces(text, end + 1, n - 1) == Some(ms) <==> |ms| == n - 1 && Spells(text, end + 1, ms)
    ensures Pieces(text, start, n) == Some([m] + ms) <==> |ms| == n - 1 && Spells(text, start, [m] + ms)
  {
    var end := PieceEnd(text, start);
    PiecesSplit(text, start, n, m, ms);
    PieceEndIff(text, start, m);
    SplitSpelled(text, start, m, ms);
    if HeadFits(text, start, m) {
      assert text[start..end] == m && end + 1 == start + |m| + 1;
    } else {
      assert text[start..end] != m;
    }
  }

  /** What comes off a text is exactly what it spells, for every text and number of messages; where it spells no
      messages of that number, the program throws. */
  lemma {:induction false} PiecesIff(text: string, start: nat, n: nat, ms: seq<string>)
    ensures Pieces(text, start, n) == Some(ms) <==> |ms| == n && Spells(text, start, ms)
    decreases n
  {
    if |ms| != n {
      PiecesCount(text, start, n);
    } else if n > 0 && start <= |text| {
      assert ms == [ms[0]] + ms[1..];
      PiecesIff(text, PieceEnd(text, start) + 1, n - 1, ms[1..]);
      PiecesStep(text, start, n, ms[0], ms[1..]);
    }
  }

  lemma PiecesSplit(text: string, start: nat, n: nat, m: string, ms: seq<string>)
    requires n > 0 && start <= |text|
    ensures var end := PieceEnd(text, start);
            Pieces(text, start, n) == Some([m] + ms) <==>
              text[start..end] == m && Pieces(text, end + 1, n - 1) == Some(ms)
  {
    var end := PieceEnd(text, start);
    var more := Pieces(text, end + 1, n - 1);
    if more.Some? {
      assert ([text[start..end]] + more.value)[0] == text[start..end];
      assert ([text[start..end]] + more.value)[1..] == more.value;
      assert ([m] + ms)[0] == m && ([m] + ms)[1..] == ms;
    }
  }

  /** A batch taken apart is the original list exactly when the list is clean. */
  lemma PiecesOfJoin(pre: string, ms: seq<string>)
    ensures Pieces(pre + Join(ms), |pre|, |ms|) == Some(ms) <==> Clean(ms)
  {
    PiecesIff(pre + Join(ms), |pre|, |ms|, ms);
    assert (pre + Join(ms))[|pre|..] == Join(ms);
  }

  /** Reading an entry throws exactly when it starts with `b` or `d`, and its two-digit count is missing or does
      not start with a digit. */
  lemma EntryThrowsIff(msg: string)
    ensures ReadLog(msg).None? <==>
      && msg != "" && msg[0] in "bd"
      && (|msg| < (if msg[0] == 'b' then 3 else 9) || !IsDigit(msg[if msg[0] == 'b' then 1 else 7]))
  {
    if msg != "" {
      var size := if msg[0] == 'b' then 1 else 7;
      if |msg| >= size + 2 { StoiNoneIff(msg[size..size + 2]); }
    }
  }

  /** Any other entry is skipped. */
  lemma OthersSkipped(msg: string)
    requires msg == "" || msg[0] !in "bd"
    ensures EntryMessages(msg) == Some([]) && OutputLine(msg) == Some([])
  {
    assert WithHeader("", []) == [];
  }

  /** The line of a delivery throws exactly when one of the two identifiers does not start with a digit. */
  lemma LineThrowsIff(m: string)
    ensures OutputLine(m).None? <==> m != "" && m[0] == 'd' && (|m| < 7 || !IsDigit(m[1]) || !IsDigit(m[4]))
  {
    if |m| >= 7 {
      StoiNoneIff(m[1..4]);
      StoiNoneIff(m[4..7]);
    }
  }

  predicate IsHeader(h: string) {
    h == "b" || (|h| == 7 && h[0] == 'd')
  }

  lemma ReadEntry(h: string, d: string, n: nat, text: string)
    requires IsHeader(h) && |d| == 2 && Stoi(d) == Some(n)
    ensures ReadLog(h + (d + text)) == Some(LogEntry(h, n, text))
  {
    var s := h + (d + text);
    assert s[|h|..|h| + 2] == d && s[..|h|] == h && s[|h| + 2..] == text;
  }

  lemma ReadBack(h: string, n: nat, text: string)
    requires IsHeader(h) && n < 100
    ensures ReadLog(h + (Pad2(n) + text)) == Some(LogEntry(h, n, text))
  {
    StoiExact(Pad2(n));
    ValueOfPadded(n);
    DecimalLength(n);
    ReadEntry(h, Pad2(n), n, text);
  }

  lemma WithHeaderInjective(h: string, a: seq<string>, b: seq<string>)
    ensures WithHeader(h, a) == WithHeader(h, b) <==> a == b
  {
    if WithHeader(h, a) == WithHeader(h, b) {
      assert |a| == |b|;
      forall i | 0 <= i < |a| ensures a[i] == b[i] {
        assert WithHeader(h, a)[i] == WithHeader(h, b)[i];
        assert a[i] == (h + a[i])[|h|..] && b[i] == (h + b[i])[|h|..];
      }
    }
  }

  /** One logged batch comes apart into its messages, each with the header, exactly when they are clean. */
  lemma BatchRoundTrip(h: string, ms: seq<string>)
    requires IsHeader(h) && |ms| < 100
    ensures EntryMessages(h + BatchText(ms)) == Some(WithHeader(h, ms)) <==> Clean(ms)
  {
    ReadBack(h, |ms|, Join(ms));
    PiecesOfJoin("", ms);
    assert "" + Join(ms) == Join(ms);
    var p := Pieces(Join(ms), 0, |ms|);
    if p.Some? { WithHeaderInjective(h, p.value, ms); }
  }

  /** All batches of a list are clean. */
  predicate AllClean(ms: seq<string>)
    decreases |ms|
  {
    ms == [] || (Clean(First(ms)) && AllClean(Rest(ms)))
  }

  /** Batching any list, logging each batch and taking the log apart returns the list, in order and with the
      header, exactly when all its batches are clean; lists of non-empty messages without `s` always are. */
  lemma {:induction false} BatchingRoundTrip(h: string, ms: seq<string>)
    requires IsHeader(h)
    ensures Deconcat(WithHeader(h, Batches(ms))) == Some(WithHeader(h, ms)) <==> AllClean(ms)
    decreases |ms|
  {
    if ms != [] {
      var g, r := First(ms), Rest(ms);
      BatchingRoundTrip(h, r);
      BatchRoundTrip(h, g);
      FirstEntry(h, ms);
      EntryCount(h, g);
      SplitEqual(EntryMessages(h + BatchText(g)), Deconcat(WithHeader(h, Batches(r))),
        WithHeader(h, g), WithHeader(h, r));
    }
  }

  lemma FirstEntry(h: string, ms: seq<string>)
    requires ms != []
    ensures Deconcat(WithHeader(h, Batches(ms)))
         == Append(EntryMessages(h + BatchText(First(ms))), Deconcat(WithHeader(h, Batches(Rest(ms)))))
    ensures WithHeader(h, ms) == WithHeader(h, First(ms)) + WithHeader(h, Rest(ms))
  {
    var entry, more := h + BatchText(First(ms)), WithHeader(h, Batches(Rest(ms)));
    assert WithHeader(h, Batches(ms)) == [entry] + more by {
      WithHeaderOne(h, BatchText(First(ms)));
      WithHeaderAppend(h, [BatchText(First(ms))], Batches(Rest(ms)));
    }
    DeconcatAppend([entry], more);
    OneEntry(entry);
    assert ms == First(ms) + Rest(ms);
    WithHeaderAppend(h, First(ms), Rest(ms));
  }

  lemma EntryCount(h: string, g: seq<string>)
    requires IsHeader(h) && |g| < 100
    ensures var e := EntryMessages(h + BatchText(g)); e.Some? ==> |e.value| == |g|
  {
    ReadBack(h, |g|, Join(g));
    PiecesCount(Join(g), 0, |g|);
  }

  lemma OneEntry(msg: string)
    ensures Deconcat([msg]) == EntryMessages(msg)
  {
    assert [msg][..0] == [];
    if EntryMessages(msg).Some? { assert [] + EntryMessages(msg).value == EntryMessages(msg).value; }
  }

  lemma SplitEqual<T>(a: Option<seq<T>>, b: Option<seq<T>>, x: seq<T>, y: seq<T>)
    requires a.Some? ==> |a.value| == |x|
    ensures Append(a, b) == Some(x + y) <==> a == Some(x) && b == Some(y)
  {
    if a.Some? && b.Some? && a.value + b.value == x + y {
      assert a.value == (a.value + b.value)[..|x|] == x;
      assert b.value == (a.value + b.value)[|x|..] == y;
    }
  }

  lemma {:induction false} PlainIsClean(ms: seq<string>)
    requires forall m :: m in ms ==> m != "" && 's' !in m
    ensures AllClean(ms)
    decreases |ms|
  {
    if ms != [] {
      forall i | 0 <= i < |First(ms)| ensures First(ms)[i] != "" && NoInnerSeparator(First(ms)[i]) {
        assert First(ms)[i] == ms[i] && ms[i] in ms;
      }
      forall m | m in Rest(ms) ensures m in ms {
        assert ms == First(ms) + Rest(ms);
      }
      PlainIsClean(Rest(ms));
    }
  }

  // ---------- the output file ----------

  /** The lines written for one message of the log; None where the program throws. */
  function OutputLine(m: string): Option<seq<string>> {
    if m != "" && m[0] == 'd' then
      if |m| < 7 then None
      else
        match (Stoi(m[1..4]), Stoi(m[4..7]))
        case (Some(id), Some(_)) => Some(["d " + Decimal(id) + " " + m[7..]])
        case _ => None
    else if m != "" && m[0] == 'b' then Some(["b " + m[1..]])
    else Some([])
  }

  function OutputLines(ms: seq<string>): Option<seq<string>> {
    if ms == [] then Some([])
    else Append(OutputLines(ms[..|ms| - 1]), OutputLine(ms[|ms| - 1]))
  }

  /** The whole of `writeOutput` as a function of the log. */
  function FileOf(log: seq<string>): Option<seq<string>> {
    var ms := Deconcat(log);
    if ms.None? then None else OutputLines(ms.value)
  }

  lemma {:induction false} OutputThrows(ms: seq<string>, k: nat)
    requires k <= |ms| && OutputLines(ms[..k]) == None
    ensures OutputLines(ms) == None
    decreases |ms| - k
  {
    if k < |ms| {
      assert ms[..k + 1][..k] == ms[..k];
      OutputThrows(ms, k + 1);
    } else {
      assert ms[..k] == ms;
    }
  }

  method WriteOutput(log: seq<string>) returns (lines: Option<seq<string>>)
    ensures lines == FileOf(log)
  {
    var messages := DeconcatMessages(log);
    if messages.None? {
      return None;
    }
    var ms := messages.value;
    var output: seq<string> := [];
    for k := 0 to |ms|
      invariant OutputLines(ms[..k]) == Some(output)
    {
      assert ms[..k + 1][..k] == ms[..k];
      var line := OutputLine(ms[k]);
      if line.None? {
        OutputThrows(ms, k + 1);
        return None;
      }
      output := output + line.value;
    }
    assert ms[..|ms|] == ms;
    return Some(output);
  }

  lemma {:induction false} OutputAppend(a: seq<string>, b: seq<string>)
    ensures OutputLines(a + b) == Append(OutputLines(a), OutputLines(b))
  {
    if b == [] {
      assert a + b == a;
      AppendNothing(OutputLines(a));
    } else {
      assert (a + b)[..|a + b| - 1] == a + b[..|b| - 1];
      OutputAppend(a, b[..|b| - 1]);
      AppendAssociative(OutputLines(a), OutputLines(b[..|b| - 1]), OutputLine(b[|b| - 1]));
    }
  }
}
