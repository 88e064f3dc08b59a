/** The state and the moves of one process's links, best-effort broadcast and uniform reliable broadcast,
    as functions on values. The lists and maps are generic in the type of a key, so that the same functions
    describe the texts the program stores and the structured keys the step system reasons about. */
module UrbProtocol {

  import opened StdList

  // ---------- std::multimap ----------

  /** A multimap: the values filed under a key, in insertion order. */
  type Multimap<K, S> = map<K, seq<S>>

  function Filed<K, S>(m: Multimap<K, S>, k: K): seq<S> {
    if k in m then m[k] else []
  }

  function CountKey<K, S>(m: Multimap<K, S>, k: K): nat {
    |Filed(m, k)|
  }

  function Insert<K, S>(m: Multimap<K, S>, k: K, s: S): Multimap<K, S> {
    m[k := Filed(m, k) + [s]]
  }

  // ---------- uniform reliable broadcast ----------

  datatype Urb<K, S> = Urb(pending: seq<K>, ack: Multimap<K, S>, delivered: set<K>)

  /** `deliver`: count the acknowledgement, and remember the message if it is new. */
  function Receive<K(==), S>(u: Urb<K, S>, k: K, s: S): Urb<K, S> {
    u.(ack := Insert(u.ack, k, s), pending := PushNew(u.pending, k))
  }

  predicate CanDeliver<K, S>(u: Urb<K, S>, n: nat, k: K) {
    CountKey(u.ack, k) > n / 2
  }

  /** The keys that one pass of `deliverPending` over `pending[i..]` hands to the upper layer, in order. */
  function HandOvers<K(==), S>(u: Urb<K, S>, n: nat, i: nat): seq<K>
    requires i <= |u.pending|
    decreases |u.pending| - i
  {
    if i == |u.pending| then []
    else
      var k := u.pending[i];
      if CanDeliver(u, n, k) && k !in u.delivered then
        [k] + HandOvers(u.(delivered := u.delivered + {k}), n, i + 1)
      else HandOvers(u, n, i + 1)
  }
  /** ks is a part of `pending`, in its order and without repetition. */
  ghost predicate InListOrder<K(!new)>(ks: seq<K>, pending: seq<K>) {
    NoRepeats(ks) && exists at: seq<nat> ::
      |at| == |ks| && (forall i :: 0 <= i < |at| ==> at[i] < |pending| && pending[at[i]] == ks[i])
      && forall i, j :: 0 <= i < j < |at| ==> at[i] < at[j]
  }

  lemma {:induction false} HandOversPlaces<K(!new), S>(u: Urb<K, S>, n: nat, i: nat) returns (at: seq<nat>)
    requires i <= |u.pending|
    ensures var ks := HandOvers(u, n, i);
            && |at| == |ks| && NoRepeats(ks)
            && (forall j :: 0 <= j < |at| ==> i <= at[j] < |u.pending| && u.pending[at[j]] == ks[j])
            && (forall j, k :: 0 <= j < k < |at| ==> at[j] < at[k])
            && (forall k :: k in ks <==> k in u.pending[i..] && k !in u.delivered && CanDeliver(u, n, k))
    decreases |u.pending| - i
  {
    if i == |u.pending| {
      at := [];
    } else {
      var k := u.pending[i];
      assert u.pending[i..] == [k] + u.pending[i + 1..];
      if CanDeliver(u, n, k) && k !in u.delivered {
        var rest := HandOversPlaces(u.(delivered := u.delivered + {k}), n, i + 1);
        at := [i] + rest;
      } else {
        at := HandOversPlaces(u, n, i + 1);
      }
    }
  }

  /** A pass hands over exactly the pending keys with enough acknowledgements that were not delivered, in list
      order, each once. */
  lemma HandOversExact<K(!new), S>(u: Urb<K, S>, n: nat)
    ensures InListOrder(HandOvers(u, n, 0), u.pending)
    ensures forall k :: k in HandOvers(u, n, 0) <==> k in u.pending && k !in u.delivered && CanDeliver(u, n, k)
  {
    var at := HandOversPlaces(u, n, 0);
    assert u.pending[0..] == u.pending;
  }
}
