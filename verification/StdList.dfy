/** Lists as the program uses them: what std::list's `remove` and `unique` leave, and lists to which an element is
    only added when it is new. */
module StdList {

  // ---------- definitions ----------

  /** std::list::remove: drop every element equal to `x`. */
  function Remove<C(==,!new)>(xs: seq<C>, x: C): (r: seq<C>)
    ensures forall y :: y in r <==> y in xs && y != x
  {
    if xs == [] then []
    else if xs[0] == x then Remove(xs[1..], x)
    else [xs[0]] + Remove(xs[1..], x)
  }

  /** std::list::unique: drop every element equal to its predecessor. */
  function Unique<C(==,!new)>(xs: seq<C>): (r: seq<C>)
    ensures forall y :: y in r <==> y in xs
    ensures forall i :: 0 < i < |r| ==> r[i - 1] != r[i]
    ensures xs != [] ==> r != [] && r[0] == xs[0]
  {
    if |xs| <= 1 then xs
    else if xs[0] == xs[1] then Unique(xs[1..])
    else [xs[0]] + Unique(xs[1..])
  }

  /** push_back, unless std::find finds the element already. */
  function PushNew<C(==)>(xs: seq<C>, x: C): seq<C> {
    if x in xs then xs else xs + [x]
  }

  /** push_back of each element in turn, unless it is there already. */
  function PushAll<C(==)>(log: seq<C>, xs: seq<C>): seq<C> {
    if xs == [] then log else PushNew(PushAll(log, xs[..|xs| - 1]), xs[|xs| - 1])
  }

  function Each<A, B>(f: A -> B, xs: seq<A>): seq<B> {
    seq(|xs|, i requires 0 <= i < |xs| => f(xs[i]))
  }

  ghost predicate NoRepeats<C(!new)>(xs: seq<C>) {
    forall i, j :: 0 <= i < j < |xs| ==> xs[i] != xs[j]
  }

  /** Nothing of xs is in the log, and nothing is in xs twice. */
  ghost predicate AllNew<C(!new)>(log: seq<C>, xs: seq<C>) {
    NoRepeats(xs) && forall x :: x in xs ==> x !in log
  }

  // ---------- remove ----------

  /** What stays keeps its order and its number of occurrences. */
  lemma {:induction false} RemoveAppend<C(!new)>(a: seq<C>, b: seq<C>, x: C)
    ensures Remove(a + b, x) == Remove(a, x) + Remove(b, x)
    decreases |a|
  {
    if a == [] {
      assert a + b == b;
    } else {
      assert (a + b)[0] == a[0] && (a + b)[1..] == a[1..] + b;
      RemoveAppend(a[1..], b, x);
    }
  }

  lemma {:induction false} RemoveAbsent<C(!new)>(xs: seq<C>, x: C)
    requires x !in xs
    ensures Remove(xs, x) == xs
  {
    if xs != [] {
      RemoveAbsent(xs[1..], x);
      assert xs == [xs[0]] + xs[1..];
    }
  }

  /** Removing an element that occurs once joins what precedes it and what follows it. */
  lemma RemoveBetween<C(!new)>(a: seq<C>, x: C, b: seq<C>)
    requires x !in a && x !in b
    ensures Remove(a + [x] + b, x) == a + b
  {
    RemoveAppend(a + [x], b, x);
    RemoveAppend(a, [x], x);
    RemoveAbsent(a, x);
    RemoveAbsent(b, x);
    assert Remove([x], x) == [];
    assert a + [] == a;
  }

  lemma {:induction false} RemoveCounts<C(!new)>(xs: seq<C>, x: C)
    ensures multiset(Remove(xs, x)) == multiset(xs)[x := 0]
  {
    if xs != [] {
      RemoveCounts(xs[1..], x);
      assert multiset(xs) == multiset{xs[0]} + multiset(xs[1..]) by { assert xs == [xs[0]] + xs[1..]; }
    }
  }

  // ---------- unique ----------

  lemma {:induction false} UniqueKeeps<C(!new)>(xs: seq<C>)
    requires forall i :: 0 < i < |xs| ==> xs[i - 1] != xs[i]
    ensures Unique(xs) == xs
  {
    if |xs| > 1 {
      assert xs[1 - 1] != xs[1];
      forall i | 0 < i < |xs[1..]| ensures xs[1..][i - 1] != xs[1..][i] {
        assert xs[(i + 1) - 1] != xs[i + 1];
      }
      UniqueKeeps(xs[1..]);
      assert xs == [xs[0]] + xs[1..];
    }
  }

  /** A repetition in a row makes no difference, and nothing else is dropped (`UniqueKeeps`). */
  lemma {:induction false} UniqueDrops<C(!new)>(a: seq<C>, x: C, b: seq<C>)
    ensures Unique(a + [x, x] + b) == Unique(a + [x] + b)
  {
    var twice, once := a + [x, x] + b, a + [x] + b;
    if a == [] {
      assert twice[1..] == once;
    } else {
      assert twice[1..] == a[1..] + [x, x] + b && once[1..] == a[1..] + [x] + b;
      assert twice[0] == once[0] && twice[1] == once[1];
      UniqueDrops(a[1..], x, b);
    }
  }

  // ---------- adding what is new ----------

  lemma PushAllSnoc<C>(log: seq<C>, xs: seq<C>, x: C)
    ensures PushAll(log, xs + [x]) == PushNew(PushAll(log, xs), x)
  {
    assert (xs + [x])[..|xs|] == xs;
  }

  lemma {:induction false} PushAllAppend<C>(log: seq<C>, a: seq<C>, b: seq<C>)
    ensures PushAll(log, a + b) == PushAll(PushAll(log, a), b)
  {
    if b == [] {
      assert a + b == a;
    } else {
      assert (a + b)[..|a + b| - 1] == a + b[..|b| - 1];
      PushAllAppend(log, a, b[..|b| - 1]);
    }
  }

  /** Nothing logged is changed or lost, everything given is there in the end, nothing else, and nothing twice. */
  lemma {:induction false} PushAllKeeps<C(!new)>(log: seq<C>, xs: seq<C>)
    ensures log <= PushAll(log, xs)
    ensures forall x :: x in PushAll(log, xs) <==> x in log || x in xs
    ensures NoRepeats(log) ==> NoRepeats(PushAll(log, xs))
  {
    if xs != [] {
      assert xs == xs[..|xs| - 1] + [xs[|xs| - 1]];
      PushAllKeeps(log, xs[..|xs| - 1]);
    }
  }

  /** What is new is appended, in order. */
  lemma {:induction false} PushAllNew<C(!new)>(log: seq<C>, xs: seq<C>)
    requires AllNew(log, xs)
    ensures PushAll(log, xs) == log + xs
  {
    if xs == [] {
      assert log + xs == log;
    } else {
      var init, x := xs[..|xs| - 1], xs[|xs| - 1];
      assert xs == init + [x];
      PushAllNew(log, init);
      assert log + (init + [x]) == log + init + [x];
    }
  }

  lemma EachSnoc<A, B>(f: A -> B, xs: seq<A>, x: A)
    ensures Each(f, xs + [x]) == Each(f, xs) + [f(x)]
  {
  }

  lemma EachCons<A, B>(f: A -> B, x: A, xs: seq<A>)
    ensures Each(f, [x] + xs) == [f(x)] + Each(f, xs)
  {
  }

  lemma EachAppend<A, B>(f: A -> B, a: seq<A>, b: seq<A>)
    ensures Each(f, a + b) == Each(f, a) + Each(f, b)
  {
  }
}
