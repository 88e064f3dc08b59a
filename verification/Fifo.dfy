/** FIFO broadcast, the alternative top layer: numbered broadcasts, and delivery of each sender's messages in
    number order. Messages are in parts here; Codec relates the parts to the texts. */
module Fifo {
  import opened Text
  import opened StdList
  import opened Batching
  import opened Output
  import opened Codec
  import N = Node

  datatype Message = Message(sender: nat, body: string, number: nat)

  // ---------- the number of a message text ----------

  /** A proper prefix of a positive number's digits denotes a smaller number. */
  lemma {:induction false} PrefixIsSmaller(n: nat, i: nat)
    requires n > 0 && i < |Decimal(n)|
    ensures Value(Decimal(n)[..i]) < n
  {
    if n >= 10 {
      var init := Decimal(n / 10);
      assert Decimal(n)[..i] == init[..i];
      if i < |init| {
        PrefixIsSmaller(n / 10, i);
      } else {
        assert init[..i] == init;
        ValueOfDecimal(n / 10);
      }
    } else {
      assert Decimal(n)[..i] == "";
    }
  }

  /** The source reads the number of a waiting message up to the length of the message just delivered: it
      reads the number itself exactly when that length covers its digits. */
  lemma NumberWithinIff(sn: nat, limit: nat)
    requires sn > 0
    ensures Stoi(Sub(Decimal(sn), 0, limit)) == Some(sn) <==> |Decimal(sn)| <= limit
  {
    var d := Decimal(sn);
    ValueOfDecimal(sn);
    if |d| <= limit {
      assert Sub(d, 0, limit) == d;
      StoiExact(d);
    } else {
      assert Sub(d, 0, limit) == d[..limit];
      if limit > 0 {
        StoiExact(d[..limit]);
        PrefixIsSmaller(sn, limit);
      }
    }
  }

  function TextOf(m: Message): string {
    FifoText(m.sender, m.body, m.number)
  }

  /** The number of a waiting message, as it is read while a message of length `limit` is being delivered. */
  function NumberRead(t: Message, limit: nat): nat {
    match Stoi(Sub(Decimal(t.number), 0, limit))
    case None => 0
    case Some(k) => k
  }

  /** Delivering u reads the whole number of t. */
  predicate Readable(t: Message, u: Message) {
    |Decimal(t.number)| <= |TextOf(u)|
  }

  /** A number that is read short is read as a smaller one, of as many digits as the limit. */
  lemma ShortRead(t: Message, limit: nat)
    requires t.number > 0 && |Decimal(t.number)| > limit
    ensures NumberRead(t, limit) < t.number
    ensures limit > 0 ==> NumberRead(t, limit) == Value(Decimal(t.number)[..limit])
  {
    assert Sub(Decimal(t.number), 0, limit) == Decimal(t.number)[..limit];
    if limit > 0 {
      StoiExact(Decimal(t.number)[..limit]);
    }
    PrefixIsSmaller(t.number, limit);
  }

  // ---------- one call of `deliver` on values ----------

  /** The waiting messages of sender s by number; of several with one number the last counts. */
  function WaitingOf(pending: seq<Message>, s: nat, limit: nat): map<nat, Message> {
    if pending == [] then map[]
    else
      var w := WaitingOf(pending[..|pending| - 1], s, limit);
      var t := pending[|pending| - 1];
      if t.sender == s then w[NumberRead(t, limit) := t] else w
  }

  /** Up to number `end`, each waiting message of s is filed under its own number, and none under `end`. */
  ghost predicate Indexed(w: map<nat, Message>, s: nat, pending: seq<Message>, end: nat) {
    && (forall k :: k in w && k < end ==> w[k] in pending && w[k].sender == s && w[k].number == k)
    && (forall t :: t in pending && t.sender == s && t.number < end ==> t.number in w)
    && end !in w
  }

  /** t is read in full, or as a number above `end`, which is not its number. */
  ghost predicate HarmlessAt(t: Message, limit: nat, end: nat) {
    && t.number > 0 && t.number != end
    && (|Decimal(t.number)| > limit ==> NumberRead(t, limit) > end)
  }

  lemma ReadHarmless(t: Message, limit: nat, end: nat)
    requires HarmlessAt(t, limit, end)
    ensures if t.number < end then NumberRead(t, limit) == t.number else NumberRead(t, limit) > end
  {
    NumberWithinIff(t.number, limit);
    if |Decimal(t.number)| > limit {
      ShortRead(t, limit);
    }
  }

  lemma {:induction false} WaitingIs(pending: seq<Message>, s: nat, limit: nat, end: nat)
    requires forall t :: t in pending && t.sender == s ==> HarmlessAt(t, limit, end)
    ensures Indexed(WaitingOf(pending, s, limit), s, pending, end)
  {
    if pending != [] {
      var last := pending[|pending| - 1];
      assert pending == pending[..|pending| - 1] + [last];
      WaitingIs(pending[..|pending| - 1], s, limit, end);
      if last.sender == s {
        ReadHarmless(last, limit, end);
      }
    }
  }

  function Above(w: map<nat, Message>, k: nat): set<nat> {
    set j | j in w.Keys && j >= k
  }

  /** The waiting messages numbered k, k + 1, ... up to the first gap. */
  function Run(w: map<nat, Message>, k: nat): seq<Message>
    decreases Above(w, k)
  {
    if k in w then
      assert k in Above(w, k) && k !in Above(w, k + 1) && Above(w, k + 1) <= Above(w, k);
      [w[k]] + Run(w, k + 1)
    else []
  }

  function RemoveAll(pending: seq<Message>, run: seq<Message>): seq<Message> {
    if run == [] then pending else Remove(RemoveAll(pending, run[..|run| - 1]), run[|run| - 1])
  }

  lemma {:induction false} RemoveAllIs(pending: seq<Message>, run: seq<Message>)
    ensures forall t :: t in RemoveAll(pending, run) <==> t in pending && t !in run
  {
    if run != [] {
      RemoveAllIs(pending, run[..|run| - 1]);
      assert run == run[..|run| - 1] + [run[|run| - 1]];
    }
  }

  /** What stays keeps its order and its number of occurrences. */
  lemma {:induction false} RemoveAllAppend(a: seq<Message>, b: seq<Message>, run: seq<Message>)
    ensures RemoveAll(a + b, run) == RemoveAll(a, run) + RemoveAll(b, run)
  {
    if run != [] {
      var init, t := run[..|run| - 1], run[|run| - 1];
      RemoveAllAppend(a, b, init);
      RemoveAppend(RemoveAll(a, init), RemoveAll(b, init), t);
    }
  }

  lemma {:induction false} RemoveAllAbsent(pending: seq<Message>, run: seq<Message>)
    requires forall t :: t in run ==> t !in pending
    ensures RemoveAll(pending, run) == pending
  {
    if run != [] {
      RemoveAllAbsent(pending, run[..|run| - 1]);
      RemoveAbsent(pending, run[|run| - 1]);
    }
  }

  // ---------- what has to be delivered ----------

  /** One message per sender and number, from senders 1..n. */
  ghost predicate Numbered(received: set<Message>, n: nat) {
    && (forall t :: t in received ==> 0 < t.sender <= n && t.number > 0)
    && forall t, u :: t in received && u in received && t.sender == u.sender && t.number == u.number ==> t == u
  }

  /** Some number of s below v is missing. */
  ghost predicate Blocked(received: set<Message>, s: nat, v: nat) {
    exists j :: 0 < j < v && !Has(received, s, j)
  }

  /** A message whose number is read short is out of reach: some number before the one read is missing. */
  ghost predicate NoOvertake(received: set<Message>) {
    forall t, u :: t in received && u in received && t.sender == u.sender && !Readable(t, u) ==>
      Blocked(received, t.sender, NumberRead(t, |TextOf(u)|))
  }

  ghost predicate Sound(received: set<Message>, n: nat) {
    Numbered(received, n) && NoOvertake(received)
  }

  ghost predicate Has(received: set<Message>, s: nat, k: nat) {
    exists t :: t in received && t.sender == s && t.number == k
  }

  /** The numbers 1, ..., k - 1 of s have been received, and k has not. */
  ghost predicate RunEnds(received: set<Message>, s: nat, k: nat) {
    k > 0 && !Has(received, s, k) && forall j :: 0 < j < k ==> Has(received, s, j)
  }

  /** The messages `from`, `from` + 1, ... of s. */
  predicate IsRun(out: seq<Message>, s: nat, from: nat) {
    forall j :: 0 <= j < |out| ==> out[j].sender == s && out[j].number == from + j
  }

  function FromSender(out: seq<Message>, s: nat): seq<Message> {
    if out == [] then []
    else FromSender(out[..|out| - 1], s) + if out[|out| - 1].sender == s then [out[|out| - 1]] else []
  }

  /** What FIFO promises of sender s: exactly the longest run 1, 2, ... of received numbers has been delivered,
      in order and without repetition; k is the first number missing. */
  ghost predicate DeliversFrom(received: set<Message>, out: seq<Message>, s: nat, k: nat) {
    RunEnds(received, s, k) && |FromSender(out, s)| == k - 1 && IsRun(FromSender(out, s), s, 1)
  }

  ghost predicate AllInOrder(received: set<Message>, next: seq<nat>, out: seq<Message>) {
    forall s :: 0 < s <= |next| ==> InOrder(received, next, out, s)
  }

  ghost predicate InOrder(received: set<Message>, next: seq<nat>, out: seq<Message>, s: nat)
    requires 0 < s <= |next|
  {
    DeliversFrom(received, out, s, next[s - 1])
  }

  /** Received messages wait until their turn comes. */
  ghost predicate Waits(received: set<Message>, next: seq<nat>, pending: seq<Message>) {
    forall t :: t in received && 0 < t.sender <= |next| && t.number >= next[t.sender - 1] ==> t in pending
  }

  ghost predicate AllFrom(ts: seq<Message>, received: set<Message>) {
    forall t :: t in ts ==> t in received
  }

  ghost predicate Inv(received: set<Message>, next: seq<nat>, pending: seq<Message>, out: seq<Message>) {
    && Sound(received, |next|) && AllFrom(out, received) && AllFrom(pending, received)
    && AllInOrder(received, next, out) && Waits(received, next, pending)
  }

  lemma {:induction false} FromSenderAppend(a: seq<Message>, b: seq<Message>, s: nat)
    ensures FromSender(a + b, s) == FromSender(a, s) + FromSender(b, s)
  {
    if b == [] {
      assert a + b == a;
    } else {
      assert (a + b)[..|a + b| - 1] == a + b[..|b| - 1];
      FromSenderAppend(a, b[..|b| - 1], s);
    }
  }

  lemma {:induction false} FromSenderAll(out: seq<Message>, r: nat, s: nat)
    requires forall t :: t in out ==> t.sender == r
    ensures FromSender(out, s) == if r == s then out else []
  {
    if out != [] {
      assert out == out[..|out| - 1] + [out[|out| - 1]];
      FromSenderAll(out[..|out| - 1], r, s);
    }
  }

  lemma {:induction false} RunIs(w: map<nat, Message>, s: nat, k: nat, pending: seq<Message>, end: nat)
    requires Indexed(w, s, pending, end) && k <= end
    ensures IsRun(Run(w, k), s, k) && k + |Run(w, k)| !in w && k + |Run(w, k)| <= end
    ensures forall t :: t in Run(w, k) ==> t.sender == s && t.number < k + |Run(w, k)| && t in pending
    decreases Above(w, k)
  {
    if k in w {
      assert k in Above(w, k) && k !in Above(w, k + 1) && Above(w, k + 1) <= Above(w, k);
      RunIs(w, s, k + 1, pending, end);
      assert Run(w, k) == [w[k]] + Run(w, k + 1);
    }
  }

  lemma ExtendRun(received: set<Message>, out: seq<Message>, run: seq<Message>, s: nat, k: nat)
    requires k > 0 && (forall j :: 0 < j < k ==> Has(received, s, j))
    requires |FromSender(out, s)| == k - 1 && IsRun(FromSender(out, s), s, 1)
    requires IsRun(run, s, k) && (forall t :: t in run ==> t in received && t.sender == s)
    requires !Has(received, s, k + |run|)
    ensures DeliversFrom(received, out + run, s, k + |run|)
  {
    FromSenderAppend(out, run, s);
    FromSenderAll(run, s, s);
    forall j | 0 < j < k + |run| ensures Has(received, s, j) {
      if j >= k { assert run[j - k] in run; }
    }
  }

  lemma MoreReceived(received: set<Message>, m: Message, s: nat, k: nat)
    requires forall j :: 0 < j < k ==> Has(received, s, j)
    ensures forall j :: 0 < j < k ==> Has(received + {m}, s, j)
  {
    forall j | 0 < j < k ensures Has(received + {m}, s, j) {
      assert Has(received, s, j);
    }
  }

  /** The messages of m's sender that wait while m is delivered. */
  function Waiting(pending: seq<Message>, m: Message): map<nat, Message> {
    WaitingOf(PushNew(pending, m), m.sender, |TextOf(m)|)
  }

  function NumberedFrom(received: set<Message>, k: nat): set<Message> {
    set t | t in received && t.number >= k
  }

  /** The first number that was not received. */
  lemma {:induction false} FirstMissing(received: set<Message>, s: nat, k: nat) returns (end: nat)
    requires k > 0 && forall j :: 0 < j < k ==> Has(received, s, j)
    ensures k <= end && RunEnds(received, s, end)
    decreases NumberedFrom(received, k)
  {
    if Has(received, s, k) {
      var t :| t in received && t.sender == s && t.number == k;
      assert t in NumberedFrom(received, k) && t !in NumberedFrom(received, k + 1);
      end := FirstMissing(received, s, k + 1);
    } else {
      end := k;
    }
  }

  lemma Harmless(received: set<Message>, n: nat, t: Message, m: Message, end: nat)
    requires Sound(received, n) && t in received && m in received && t.sender == m.sender
    requires RunEnds(received, t.sender, end)
    ensures HarmlessAt(t, |TextOf(m)|, end)
  {
    assert Has(received, t.sender, t.number);
    if !Readable(t, m) {
      assert Blocked(received, t.sender, NumberRead(t, |TextOf(m)|));
      var j :| 0 < j < NumberRead(t, |TextOf(m)|) && !Has(received, t.sender, j);
      assert j >= end;
    }
  }

  lemma NowWaiting(received: set<Message>, n: nat, pending: seq<Message>, m: Message, end: nat)
    requires AllFrom(pending, received) && Sound(received + {m}, n) && RunEnds(received + {m}, m.sender, end)
    ensures Indexed(Waiting(pending, m), m.sender, PushNew(pending, m), end)
    ensures AllFrom(PushNew(pending, m), received + {m})
  {
    forall t | t in PushNew(pending, m) && t.sender == m.sender ensures HarmlessAt(t, |TextOf(m)|, end) {
      Harmless(received + {m}, n, t, m, end);
    }
    WaitingIs(PushNew(pending, m), m.sender, |TextOf(m)|, end);
  }

  /** What one call of `deliver` hands on. */
  function Completed(next: seq<nat>, pending: seq<Message>, m: Message): seq<Message>
    requires 0 < m.sender <= |next|
  {
    Run(Waiting(pending, m), next[m.sender - 1])
  }

  /** The waiting messages of s from k on, up to the first number that was not received. */
  ghost predicate IsCompleted(received: set<Message>, s: nat, k: nat, run: seq<Message>) {
    && IsRun(run, s, k) && !Has(received, s, k + |run|) && AllFrom(run, received)
    && forall t :: t in run ==> t.sender == s && t.number < k + |run|
  }

  /** What is received and not yet delivered is waiting, so the first number that is not waiting is missing. */
  lemma RunCompletes(received: set<Message>, w: map<nat, Message>, s: nat, k: nat, pending: seq<Message>, end: nat)
    requires Indexed(w, s, pending, end) && AllFrom(pending, received) && RunEnds(received, s, end) && k <= end
    requires forall t :: t in received && t.sender == s && t.number >= k ==> t in pending
    ensures IsCompleted(received, s, k, Run(w, k))
  {
    RunIs(w, s, k, pending, end);
    forall t | t in received && t.sender == s && t.number >= k ensures t.number != k + |Run(w, k)| {
      assert t in pending && Has(received, s, t.number);
    }
  }

  lemma CompletedIs(received: set<Message>, next: seq<nat>, pending: seq<Message>, m: Message)
    requires AllFrom(pending, received) && Waits(received, next, pending)
    requires Sound(received + {m}, |next|) && 0 < m.sender <= |next| && RunEnds(received, m.sender, next[m.sender - 1])
    ensures IsCompleted(received + {m}, m.sender, next[m.sender - 1], Completed(next, pending, m))
  {
    var k := next[m.sender - 1];
    MoreReceived(received, m, m.sender, k);
    var end := FirstMissing(received + {m}, m.sender, k);
    NowWaiting(received, |next|, pending, m, end);
    RunCompletes(received + {m}, Waiting(pending, m), m.sender, k, PushNew(pending, m), end);
  }

  /** The sender of the new message: the run is extended as far as the received numbers reach. */
  lemma SenderStep(received: set<Message>, out: seq<Message>, m: Message, run: seq<Message>, k: nat)
    requires DeliversFrom(received, out, m.sender, k) && IsCompleted(received + {m}, m.sender, k, run)
    ensures DeliversFrom(received + {m}, out + run, m.sender, k + |run|)
  {
    MoreReceived(received, m, m.sender, k);
    ExtendRun(received + {m}, out, run, m.sender, k);
  }

  /** The other senders are not affected. */
  lemma OtherStep(received: set<Message>, out: seq<Message>, m: Message, run: seq<Message>, s: nat, k: nat)
    requires s != m.sender && DeliversFrom(received, out, s, k) && forall t :: t in run ==> t.sender == m.sender
    ensures DeliversFrom(received + {m}, out + run, s, k)
  {
    FromSenderAppend(out, run, s);
    FromSenderAll(run, m.sender, s);
    assert FromSender(out, s) + [] == FromSender(out, s);
    forall j | 0 < j < k ensures Has(received + {m}, s, j) {
      assert Has(received, s, j);
    }
  }

  lemma SendersStep(received: set<Message>, next: seq<nat>, out: seq<Message>, m: Message, run: seq<Message>,
                    next': seq<nat>, out': seq<Message>)
    requires AllInOrder(received, next, out) && 0 < m.sender <= |next|
    requires IsCompleted(received + {m}, m.sender, next[m.sender - 1], run)
    requires next' == next[m.sender - 1 := next[m.sender - 1] + |run|] && out' == out + run
    ensures AllInOrder(received + {m}, next', out')
  {
    forall s | 0 < s <= |next| ensures InOrder(received + {m}, next', out', s) {
      assert InOrder(received, next, out, s);
      if s == m.sender {
        SenderStep(received, out, m, run, next[s - 1]);
      } else {
        OtherStep(received, out, m, run, s, next[s - 1]);
      }
    }
  }

  lemma WaitsStep(received: set<Message>, next: seq<nat>, pending: seq<Message>, m: Message, run: seq<Message>)
    requires Waits(received, next, pending) && AllFrom(pending, received) && 0 < m.sender <= |next|
    requires forall t :: t in run ==> t.sender == m.sender && t.number < next[m.sender - 1] + |run|
    ensures Waits(received + {m}, next[m.sender - 1 := next[m.sender - 1] + |run|], RemoveAll(PushNew(pending, m), run))
    ensures AllFrom(RemoveAll(PushNew(pending, m), run), received + {m})
  {
    RemoveAllIs(PushNew(pending, m), run);
  }

  /** The log entry of a delivery. */
  function EntryOf(t: Message): string {
    "d" + Pad3(t.sender) + "000" + t.body
  }

  function LogRun(log: seq<string>, run: seq<Message>): seq<string> {
    PushAll(log, Each(EntryOf, run))
  }

  /** The fields that a drain changes, with the log. */
  datatype Store = Store(next: seq<nat>, pending: seq<Message>, out: seq<Message>, log: seq<string>)

  /** From a to b, exactly the messages of `run` have been delivered from s. */
  ghost predicate Drained(a: Store, s: nat, run: seq<Message>, b: Store) {
    && 0 < s <= |a.next| && b.next == a.next[s - 1 := a.next[s - 1] + |run|]
    && b.out == a.out + run && b.pending == RemoveAll(a.pending, run) && b.log == LogRun(a.log, run)
  }

  /** One call of `deliver`. */
  function DeliverOne(a: Store, m: Message): Store
    requires 0 < m.sender <= |a.next|
  {
    Handed(a, m, Completed(a.next, a.pending, m))
  }

  /** The new message is stored, and `run` is handed on. */
  function Handed(a: Store, m: Message, run: seq<Message>): Store
    requires 0 < m.sender <= |a.next|
  {
    Store(a.next[m.sender - 1 := a.next[m.sender - 1] + |run|], RemoveAll(PushNew(a.pending, m), run),
      a.out + run, LogRun(a.log, run))
  }

  lemma DrainedOnce(a: Store, m: Message, b: Store)
    requires 0 < m.sender <= |a.next|
    requires Drained(a.(pending := PushNew(a.pending, m)), m.sender, Completed(a.next, a.pending, m), b)
    ensures b == DeliverOne(a, m)
  {
  }

  lemma RunSnoc(pending: seq<Message>, log: seq<string>, run: seq<Message>, t: Message)
    ensures RemoveAll(pending, run + [t]) == Remove(RemoveAll(pending, run), t)
    ensures LogRun(log, run + [t]) == PushNew(LogRun(log, run), EntryOf(t))
  {
    assert (run + [t])[..|run|] == run;
    EachSnoc(EntryOf, run, t);
    PushAllSnoc(log, Each(EntryOf, run), EntryOf(t));
  }

  /** One message is handed on. */
  function HandOn(b: Store, s: nat, t: Message): Store
    requires 0 < s <= |b.next|
  {
    Store(b.next[s - 1 := b.next[s - 1] + 1], Remove(b.pending, t), b.out + [t], PushNew(b.log, EntryOf(t)))
  }

  lemma DrainedStep(a: Store, s: nat, run: seq<Message>, b: Store, t: Message)
    requires Drained(a, s, run, b)
    ensures Drained(a, s, run + [t], HandOn(b, s, t))
  {
    RunSnoc(a.pending, a.log, run, t);
    assert a.out + (run + [t]) == (a.out + run) + [t];
  }

  /** On the way from a through the run that is waiting, `run` has been handed on, and the rest is to come. */
  ghost predicate Draining(a: Store, s: nat, w: map<nat, Message>, run: seq<Message>, b: Store) {
    Drained(a, s, run, b) && Run(w, a.next[s - 1]) == run + Run(w, b.next[s - 1])
  }

  lemma DrainStart(a: Store, s: nat, w: map<nat, Message>)
    requires 0 < s <= |a.next|
    ensures Draining(a, s, w, [], a)
  {
    assert a.next[s - 1 := a.next[s - 1]] == a.next;
  }

  lemma DrainStep(a: Store, s: nat, w: map<nat, Message>, run: seq<Message>, b: Store)
    requires Draining(a, s, w, run, b) && b.next[s - 1] in w
    ensures Draining(a, s, w, run + [w[b.next[s - 1]]], HandOn(b, s, w[b.next[s - 1]]))
    ensures Above(w, b.next[s - 1] + 1) < Above(w, b.next[s - 1])
  {
    var k := b.next[s - 1];
    RunStep(w, k, run);
    DrainedStep(a, s, run, b, w[k]);
  }

  ghost predicate StoreInv(received: set<Message>, a: Store) {
    Inv(received, a.next, a.pending, a.out)
  }

  lemma InvStep(received: set<Message>, a: Store, m: Message, run: seq<Message>)
    requires StoreInv(received, a) && Sound(received + {m}, |a.next|) && 0 < m.sender <= |a.next|
    requires IsCompleted(received + {m}, m.sender, a.next[m.sender - 1], run)
    ensures StoreInv(received + {m}, Handed(a, m, run))
  {
    var b := Handed(a, m, run);
    SendersStep(received, a.next, a.out, m, run, b.next, b.out);
    WaitsStep(received, a.next, a.pending, m, run);
    assert AllFrom(b.out, received + {m});
  }

  lemma CallCompletes(received: set<Message>, a: Store, m: Message)
    requires StoreInv(received, a) && Sound(received + {m}, |a.next|) && 0 < m.sender <= |a.next|
    ensures IsCompleted(received + {m}, m.sender, a.next[m.sender - 1], Completed(a.next, a.pending, m))
  {
    assert InOrder(received, a.next, a.out, m.sender);
    CompletedIs(received, a.next, a.pending, m);
  }

  /** A call of `deliver`, for a new message or one received before, keeps what FIFO promises. */
  lemma DeliverStep(received: set<Message>, a: Store, m: Message)
    requires StoreInv(received, a) && Sound(received + {m}, |a.next|) && 0 < m.sender <= |a.next|
    ensures StoreInv(received + {m}, DeliverOne(a, m))
  {
    CallCompletes(received, a, m);
    InvStep(received, a, m, Completed(a.next, a.pending, m));
  }

  lemma {:induction false} FromSenderIn(out: seq<Message>, s: nat)
    ensures forall t :: t in FromSender(out, s) ==> t in out
  {
    if out != [] {
      assert out == out[..|out| - 1] + [out[|out| - 1]];
      FromSenderIn(out[..|out| - 1], s);
    }
  }

  /** What has been delivered from a sender depends only on which messages were received, not on the order or
      the number of times they arrived. */
  lemma ArrivalOrderIrrelevant(received: set<Message>, x: seq<nat>, p: seq<Message>, a: seq<Message>,
                               y: seq<nat>, q: seq<Message>, b: seq<Message>, s: nat)
    requires Inv(received, x, p, a) && Inv(received, y, q, b) && |x| == |y| && 0 < s <= |x|
    ensures x[s - 1] == y[s - 1] && FromSender(a, s) == FromSender(b, s)
  {
    assert InOrder(received, x, a, s) && InOrder(received, y, b, s);
    assert x[s - 1] == y[s - 1];
    FromSenderIn(a, s);
    FromSenderIn(b, s);
    var u, v := FromSender(a, s), FromSender(b, s);
    forall j | 0 <= j < |u| ensures u[j] == v[j] {
      assert u[j] in u && v[j] in v;
    }
  }

  function Range(ms: seq<Message>): set<Message> {
    set m | m in ms
  }

  /** The fields after the calls for ms, in order, from the start. */
  function DeliverEach(n: nat, ms: seq<Message>): (b: Store)
    requires forall m :: m in ms ==> 0 < m.sender <= n
    ensures |b.next| == n
  {
    if ms == [] then Store(seq(n, i => 1), [], [], [])
    else DeliverOne(DeliverEach(n, ms[..|ms| - 1]), ms[|ms| - 1])
  }

  lemma SoundPart(a: set<Message>, b: set<Message>, n: nat)
    requires Sound(b, n) && a <= b
    ensures Sound(a, n)
  {
    forall t, u | t in a && u in a && t.sender == u.sender && !Readable(t, u)
      ensures Blocked(a, t.sender, NumberRead(t, |TextOf(u)|))
    {
      assert Blocked(b, t.sender, NumberRead(t, |TextOf(u)|));
      var j :| 0 < j < NumberRead(t, |TextOf(u)|) && !Has(b, t.sender, j);
      assert !Has(a, t.sender, j);
    }
  }

  lemma StartInv(n: nat)
    ensures Inv({}, seq(n, i => 1), [], [])
  {
  }

  /** Whatever the order of arrival, and with repetitions, each sender's longest run of received numbers has
      been delivered, in order and without repetition. */
  lemma {:induction false} AnyArrival(n: nat, ms: seq<Message>)
    requires Sound(Range(ms), n)
    ensures StoreInv(Range(ms), DeliverEach(n, ms))
  {
    if ms == [] {
      assert Range(ms) == {};
      StartInv(n);
    } else {
      var init, m := ms[..|ms| - 1], ms[|ms| - 1];
      assert Range(ms) == Range(init) + {m};
      SoundPart(Range(init), Range(ms), n);
      AnyArrival(n, init);
      DeliverStep(Range(init), DeliverEach(n, init), m);
    }
  }

  /** What is delivered from a sender does not depend on the order of arrival, nor on repetitions. */
  lemma SameDeliveries(n: nat, ms: seq<Message>, ns: seq<Message>, s: nat)
    requires Sound(Range(ms), n) && Range(ms) == Range(ns) && 0 < s <= n
    ensures FromSender(DeliverEach(n, ms).out, s) == FromSender(DeliverEach(n, ns).out, s)
    ensures DeliverEach(n, ms).next[s - 1] == DeliverEach(n, ns).next[s - 1]
  {
    AnyArrival(n, ms);
    AnyArrival(n, ns);
    var a, b := DeliverEach(n, ms), DeliverEach(n, ns);
    ArrivalOrderIrrelevant(Range(ms), a.next, a.pending, a.out, b.next, b.pending, b.out, s);
  }

  /** What broadcasting changes: the numbering, the log, and reliable broadcast with its links. */
  datatype Outgoing = Outgoing(lsn: nat, log: seq<string>, core: N.Core)

  function SendNext(o: Outgoing, me: nat, message: string): Outgoing {
    Outgoing(o.lsn + 1, PushNew(o.log, "b" + message),
      N.BroadcastStep(o.core, me, message + ("l" + Decimal(o.lsn + 1)), true))
  }

  function SendAll(o: Outgoing, me: nat, messages: seq<string>): Outgoing {
    if messages == [] then o
    else SendNext(SendAll(o, me, messages[..|messages| - 1]), me, messages[|messages| - 1])
  }

  /** The texts of messages numbered from `from` on. */
  function NumberedTexts(me: nat, messages: seq<string>, from: nat): seq<string> {
    seq(|messages|, i requires 0 <= i < |messages| => FifoText(me, messages[i], from + i))
  }

  lemma NumberedSnoc(me: nat, messages: seq<string>, from: nat)
    requires messages != []
    ensures var last := |messages| - 1;
            NumberedTexts(me, messages, from) ==
              NumberedTexts(me, messages[..last], from) + [FifoText(me, messages[last], from + last)]
  {
  }

  lemma KeyIsText(me: nat, message: string, n: nat)
    ensures DirectKey(me, message + ("l" + Decimal(n))) == FifoText(me, message, n)
  {
    Associative(Pad3(me), message, "l" + Decimal(n));
    Associative(Pad3(me) + message, "l", Decimal(n));
  }

  /** The messages are filed under consecutive numbers, in order. */
  lemma {:induction false} SentKeys(o: Outgoing, me: nat, messages: seq<string>)
    ensures SendAll(o, me, messages).lsn == o.lsn + |messages|
    ensures SendAll(o, me, messages).core.urb.pending == o.core.urb.pending + NumberedTexts(me, messages, o.lsn + 1)
  {
    if messages == [] {
      assert o.core.urb.pending + [] == o.core.urb.pending;
    } else {
      var last := |messages| - 1;
      var key := FifoText(me, messages[last], o.lsn + 1 + last);
      SentKeys(o, me, messages[..last]);
      KeyIsText(me, messages[last], o.lsn + 1 + last);
      NumberedSnoc(me, messages, o.lsn + 1);
      assert o.core.urb.pending + (NumberedTexts(me, messages[..last], o.lsn + 1) + [key])
          == (o.core.urb.pending + NumberedTexts(me, messages[..last], o.lsn + 1)) + [key];
    }
  }

  /** The messages are logged as they were given, without their numbers. */
  lemma {:induction false} SentLog(o: Outgoing, me: nat, messages: seq<string>)
    ensures SendAll(o, me, messages).log == PushAll(o.log, WithHeader("b", messages))
  {
    if messages != [] {
      var init, last := messages[..|messages| - 1], messages[|messages| - 1];
      assert messages == init + [last];
      SentLog(o, me, init);
      WithHeaderSnoc("b", init, last);
      PushAllSnoc(o.log, WithHeader("b", init), "b" + last);
    }
  }

  /** When the batches of a list are broadcast and their entries are new, the log goes on with exactly them, and taking
      it apart gives what it gave before and then the messages of the list, in order. */
  lemma SentComesBack(o: Outgoing, me: nat, ms: seq<string>)
    requires AllNew(o.log, WithHeader("b", Batches(ms)))
    ensures SendAll(o, me, Batches(ms)).log == o.log + WithHeader("b", Batches(ms))
    ensures AllClean(ms) ==>
      Deconcat(SendAll(o, me, Batches(ms)).log) == Append(Deconcat(o.log), Some(WithHeader("b", ms)))
  {
    SentLog(o, me, Batches(ms));
    PushAllNew(o.log, WithHeader("b", Batches(ms)));
    DeconcatAppend(o.log, WithHeader("b", Batches(ms)));
    BatchingRoundTrip("b", ms);
  }

  /** The packets to process `target` with the messages numbered from `from` on. */
  function NumberedData(me: nat, target: nat, messages: seq<string>, from: nat): seq<string> {
    seq(|messages|, i requires 0 <= i < |messages| => N.Data(me, target, messages[i] + ("l" + Decimal(from + i))))
  }

  lemma NumberedDataSnoc(me: nat, target: nat, messages: seq<string>, from: nat)
    requires messages != []
    ensures var last := |messages| - 1;
            NumberedData(me, target, messages, from) ==
              NumberedData(me, target, messages[..last], from)
              + [N.Data(me, target, messages[last] + ("l" + Decimal(from + last)))]
  {
  }

  lemma OnePacket(o: Outgoing, me: nat, message: string, k: nat)
    requires k < |o.core.queues| && k + 1 != me
    ensures |SendNext(o, me, message).core.queues| == |o.core.queues|
    ensures SendNext(o, me, message).core.queues[k] ==
      o.core.queues[k] + [N.Data(me, k + 1, message + ("l" + Decimal(o.lsn + 1)))]
  {
  }

  /** Every link but the missing one queues the numbered texts, in order. */
  lemma {:induction false} SentPackets(o: Outgoing, me: nat, messages: seq<string>, k: nat)
    requires k < |o.core.queues| && k + 1 != me
    ensures |SendAll(o, me, messages).core.queues| == |o.core.queues|
    ensures SendAll(o, me, messages).core.queues[k] ==
      o.core.queues[k] + NumberedData(me, k + 1, messages, o.lsn + 1)
  {
    if messages == [] {
      assert o.core.queues[k] + [] == o.core.queues[k];
    } else {
      var init, last := messages[..|messages| - 1], messages[|messages| - 1];
      SentPackets(o, me, init, k);
      SentKeys(o, me, init);
      OnePacket(SendAll(o, me, init), me, last, k);
      NumberedDataSnoc(me, k + 1, messages, o.lsn + 1);
      Snoc(o.core.queues[k], NumberedData(me, k + 1, init, o.lsn + 1),
        N.Data(me, k + 1, last + ("l" + Decimal(o.lsn + |messages|))));
    }
  }

  lemma Snoc(a: seq<string>, b: seq<string>, x: string)
    ensures a + (b + [x]) == (a + b) + [x]
  {
  }

  // ---------- the object ----------

  class FifoBroadcast {
    const receiver: N.Receiver
    const urb: N.UniformReliableBroadcast
    var messagesToBroadcast: seq<string>
    var lsn: nat
    var next: seq<nat>
    var pending: seq<Message>
    /** The messages handed to `Deliver`, and those delivered, in order. */
    ghost var received: set<Message>
    ghost var out: seq<Message>

    ghost predicate Valid()
      reads this, receiver
    {
      StoreInv(received, Store(next, pending, out, receiver.log))
    }

    constructor (receiver: N.Receiver, urb: N.UniformReliableBroadcast, n: nat)
      ensures Valid() && |next| == n && received == {} && out == [] && lsn == 0 && messagesToBroadcast == []
      ensures this.receiver == receiver && this.urb == urb
    {
      this.receiver, this.urb, lsn := receiver, urb, 0;
      next := seq(n, i => 1);
      pending, received, out, messagesToBroadcast := [], {}, [], [];
    }

    /** Number and broadcast the waiting messages, in order, and activate the links. */
    method StartBroadcast()
      requires N.LinksOf(urb.beb.links, urb.beb.me)
      modifies this`lsn, this`messagesToBroadcast, receiver`log, urb`pending, urb.beb.links
      ensures Outgoing(lsn, receiver.log, urb.CoreOf()) ==
        SendAll(old(Outgoing(lsn, receiver.log, urb.CoreOf())), urb.beb.me, old(messagesToBroadcast))
      ensures receiver.log == PushAll(old(receiver.log), WithHeader("b", old(messagesToBroadcast)))
      ensures old(receiver.log) <= receiver.log
      ensures N.Acks(urb.beb.links) == old(N.Acks(urb.beb.links)) && messagesToBroadcast == []
      ensures forall k :: 0 <= k < |urb.beb.links| && urb.beb.links[k] != null ==> urb.beb.links[k].active
    {
      SentLog(Outgoing(lsn, receiver.log, urb.CoreOf()), urb.beb.me, messagesToBroadcast);
      PushAllKeeps(receiver.log, WithHeader("b", messagesToBroadcast));
      SendEach(messagesToBroadcast);
      messagesToBroadcast := [];
      urb.SetBroadcastActive();
    }

    method SendEach(messages: seq<string>)
      requires N.LinksOf(urb.beb.links, urb.beb.me)
      modifies this`lsn, receiver`log, urb`pending, urb.beb.links
      ensures Outgoing(lsn, receiver.log, urb.CoreOf()) ==
        SendAll(old(Outgoing(lsn, receiver.log, urb.CoreOf())), urb.beb.me, messages)
      ensures N.Acks(urb.beb.links) == old(N.Acks(urb.beb.links))
    {
      for i := 0 to |messages|
        invariant Outgoing(lsn, receiver.log, urb.CoreOf()) ==
          SendAll(old(Outgoing(lsn, receiver.log, urb.CoreOf())), urb.beb.me, messages[..i])
        invariant N.Acks(urb.beb.links) == old(N.Acks(urb.beb.links))
      {
        assert messages[..i + 1][..i] == messages[..i];
        SendOne(messages[i]);
      }
      assert messages[..|messages|] == messages;
    }

    method SendOne(message: string)
      requires N.LinksOf(urb.beb.links, urb.beb.me)
      modifies this`lsn, receiver`log, urb`pending, urb.beb.links
      ensures Outgoing(lsn, receiver.log, urb.CoreOf()) ==
        SendNext(old(Outgoing(lsn, receiver.log, urb.CoreOf())), urb.beb.me, message)
      ensures N.Acks(urb.beb.links) == old(N.Acks(urb.beb.links))
    {
      lsn := lsn + 1;
      receiver.AddMessageLog("b" + message);
      urb.BroadcastMessageId(message + ("l" + Decimal(lsn)), true);
    }

    /** One message from reliable broadcast: store it, and deliver the run of its sender that it completes. */
    method Deliver(m: Message)
      requires 0 < m.sender <= |next|
      modifies this`next, this`pending, this`received, this`out, receiver`log
      ensures received == old(received) + {m}
      ensures old(Valid()) && Sound(received, |next|) ==> Valid()
      ensures Store(next, pending, out, receiver.log) == DeliverOne(old(Store(next, pending, out, receiver.log)), m)
      ensures old(receiver.log) <= receiver.log && old(out) <= out
      ensures receiver.log == PushAll(old(receiver.log), Each(EntryOf, out[|old(out)|..]))
    {
      ghost var run := Completed(next, pending, m);
      PushAllKeeps(receiver.log, Each(EntryOf, run));
      assert (out + run)[|out|..] == run;
      if Valid() && Sound(received + {m}, |next|) {
        DeliverStep(received, Store(next, pending, out, receiver.log), m);
      }
      StoreAndDrain(m);
      received := received + {m};
    }

    method StoreAndDrain(m: Message)
      requires 0 < m.sender <= |next|
      modifies this`next, this`pending, this`out, receiver`log
      ensures Store(next, pending, out, receiver.log) == DeliverOne(old(Store(next, pending, out, receiver.log)), m)
    {
      ghost var was := Store(next, pending, out, receiver.log);
      if m !in pending {
        pending := pending + [m];
      }
      var waiting := FromPending(m.sender, |TextOf(m)|);
      Drain(m.sender, waiting);
      DrainedOnce(was, m, Store(next, pending, out, receiver.log));
    }

    method FromPending(s: nat, limit: nat) returns (waiting: map<nat, Message>)
      ensures waiting == WaitingOf(pending, s, limit)
    {
      waiting := map[];
      for i := 0 to |pending|
        invariant waiting == WaitingOf(pending[..i], s, limit)
      {
        assert pending[..i + 1][..i] == pending[..i];
        if pending[i].sender == s {
          waiting := waiting[NumberRead(pending[i], limit) := pending[i]];
        }
      }
      assert pending[..|pending|] == pending;
    }

    method Drain(s: nat, waiting: map<nat, Message>)
      requires 0 < s <= |next|
      modifies this`next, this`pending, this`out, receiver`log
      ensures Drained(Store(old(next), old(pending), old(out), old(receiver.log)), s, Run(waiting, old(next)[s - 1]),
                Store(next, pending, out, receiver.log))
    {
      ghost var done: seq<Message>, was := [], Store(next, pending, out, receiver.log);
      DrainStart(was, s, waiting);
      while next[s - 1] in waiting
        invariant Draining(was, s, waiting, done, Store(next, pending, out, receiver.log))
        decreases Above(waiting, next[s - 1])
      {
        DrainStep(was, s, waiting, done, Store(next, pending, out, receiver.log));
        var t := waiting[next[s - 1]];
        DeliverNext(s, t);
        done := done + [t];
      }
      assert done + [] == done;
    }

    /** One message leaves the waiting list and is logged. */
    method DeliverNext(s: nat, t: Message)
      requires 0 < s <= |next|
      modifies this`next, this`pending, this`out, receiver`log
      ensures Store(next, pending, out, receiver.log) == HandOn(old(Store(next, pending, out, receiver.log)), s, t)
    {
      next := next[s - 1 := next[s - 1] + 1];
      pending := Remove(pending, t);
      receiver.AddMessageLog(EntryOf(t));
      out := out + [t];
    }
  }

  lemma RunStep(w: map<nat, Message>, k: nat, done: seq<Message>)
    requires k in w
    ensures done + Run(w, k) == (done + [w[k]]) + Run(w, k + 1)
    ensures Above(w, k + 1) < Above(w, k)
  {
    assert k in Above(w, k) && k !in Above(w, k + 1);
  }
}
