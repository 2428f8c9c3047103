/** The bounded least-recently-used map both ends of the stream keep.
    golang-lru (encoder/path-cache.go) and lru_map (client/path-cache.ts) are libraries;
    this is their documented behaviour. `order` lists the keys, oldest use first. */
module Lru {

  datatype Cache<V> = Cache(order: seq<nat>, vals: map<nat, V>)

  ghost predicate NoDups(s: seq<nat>) {
    forall i, j :: 0 <= i < j < |s| ==> s[i] != s[j]
  }

  ghost predicate Wf<V>(c: Cache<V>) {
    && NoDups(c.order)
    && (forall k :: k in c.order <==> k in c.vals)
  }

  /** The order without `k`. */
  function Without(order: seq<nat>, k: nat): seq<nat> {
    if order == [] then []
    else if order[0] == k then Without(order[1..], k)
    else [order[0]] + Without(order[1..], k)
  }

  /** Marks `k` as the most recently used key. */
  function Touch(order: seq<nat>, k: nat): seq<nat> {
    Without(order, k) + [k]
  }

  /** The order after using `k`, dropping the oldest key when a new one does not fit. */
  function Use(order: seq<nat>, k: nat, size: nat): seq<nat> {
    if k in order || |order| < size || order == [] then Touch(order, k) else order[1..] + [k]
  }

  /** The keys evicted by adding `k`: none, or the oldest one. */
  function Evicted(order: seq<nat>, k: nat, size: nat): set<nat> {
    if k in order || |order| < size || order == [] then {} else {order[0]}
  }

  function Add<V>(c: Cache<V>, k: nat, v: V, size: nat): Cache<V> {
    Cache(Use(c.order, k, size), (c.vals - Evicted(c.order, k, size))[k := v])
  }

  function Renew<V>(c: Cache<V>, k: nat): Cache<V> {
    Cache(Touch(c.order, k), c.vals)
  }

  // ----- facts

  lemma {:induction false} WithoutMembers(order: seq<nat>, k: nat)
    ensures forall x :: x in Without(order, k) <==> x in order && x != k
  {
    if order != [] {
      WithoutMembers(order[1..], k);
      assert order == [order[0]] + order[1..];
    }
  }

  lemma {:induction false} WithoutNoDups(order: seq<nat>, k: nat)
    requires NoDups(order)
    ensures NoDups(Without(order, k))
    ensures |Without(order, k)| == if k in order then |order| - 1 else |order|
  {
    if order != [] {
      assert forall x :: x in order[1..] ==> x in order;
      assert k in order ==> order[0] == k || k in order[1..];
      assert order[0] !in order[1..];
      WithoutNoDups(order[1..], k);
      WithoutMembers(order[1..], k);
    }
  }

  lemma {:induction false} WithoutId(order: seq<nat>, k: nat)
    requires k !in order
    ensures Without(order, k) == order
  {
    if order != [] {
      WithoutId(order[1..], k);
    }
  }

  lemma TouchNoDups(order: seq<nat>, k: nat)
    requires NoDups(order)
    ensures NoDups(Touch(order, k))
    ensures forall x :: x in Touch(order, k) <==> x in order || x == k
    ensures |Touch(order, k)| == if k in order then |order| else |order| + 1
  {
    WithoutMembers(order, k);
    WithoutNoDups(order, k);
  }

  /** Adding keeps the cache well-formed and within its bound. */
  lemma AddWf<V>(c: Cache<V>, k: nat, v: V, size: nat)
    requires Wf(c) && |c.order| <= size && 0 < size
    ensures Wf(Add(c, k, v, size))
    ensures |Add(c, k, v, size).order| <= size
    ensures forall x :: x in Evicted(c.order, k, size) ==> x in c.vals && x != k
    ensures forall x :: x in Add(c, k, v, size).vals <==> x == k || (x in c.vals && x !in Evicted(c.order, k, size))
  {
    TouchNoDups(c.order, k);
    if Evicted(c.order, k, size) != {} {
      var o := c.order[1..] + [k];
      assert c.order == [c.order[0]] + c.order[1..];
      forall x ensures x in o <==> x == k || (x in c.order && x != c.order[0]) {
        if x in c.order[1..] { assert x in c.order; }
      }
    }
  }

  lemma RenewWf<V>(c: Cache<V>, k: nat)
    requires Wf(c) && k in c.vals
    ensures Wf(Renew(c, k)) && |Renew(c, k).order| == |c.order|
  {
    TouchNoDups(c.order, k);
  }

  /** A key just used is not the next one to go, once two keys fit. */
  lemma LastSurvives(order: seq<nat>, k: nat, size: nat)
    requires NoDups(order) && order != [] && 2 <= size
    ensures order[|order| - 1] !in Evicted(order, k, size)
  {
  }

  // ----- what a bounded cache remembers of an unbounded history

  function LastN(s: seq<nat>, n: nat): seq<nat> {
    if |s| <= n then s else s[|s| - n..]
  }

  lemma {:induction false} WithoutSplit(a: seq<nat>, b: seq<nat>, k: nat)
    requires k !in a
    ensures Without(a + b, k) == a + Without(b, k)
  {
    if a == [] {
      assert a + b == b;
    } else {
      assert (a + b)[0] == a[0] && (a + b)[1..] == a[1..] + b;
      WithoutSplit(a[1..], b, k);
    }
  }

  lemma LastNSplit(a: seq<nat>, t: seq<nat>, n: nat)
    requires |t| == n || (a == [] && |t| <= n)
    ensures LastN(a + t, n) == t
  {
    if |a + t| <= n { assert a + t == t; }
  }

  lemma NoDupsSplit(a: seq<nat>, b: seq<nat>)
    requires NoDups(a + b)
    ensures NoDups(a) && NoDups(b) && forall k :: k in b ==> k !in a
  {
    assert forall i :: 0 <= i < |a| ==> a[i] == (a + b)[i];
    assert forall i :: 0 <= i < |b| ==> b[i] == (a + b)[|a| + i];
  }

  /** Renewing a remembered key: the bounded cache keeps following the unbounded order of use. */
  lemma TouchRecent(all: seq<nat>, k: nat, size: nat)
    requires NoDups(all) && k in LastN(all, size)
    ensures Touch(LastN(all, size), k) == LastN(Touch(all, k), size)
  {
    var b := LastN(all, size);
    var a := all[..|all| - |b|];
    assert all == a + b;
    NoDupsSplit(a, b);
    WithoutSplit(a, b, k);
    WithoutNoDups(b, k);
    assert Touch(all, k) == a + Touch(b, k);
    LastNSplit(a, Touch(b, k), size);
  }

  lemma NotRemembered(all: seq<nat>, k: nat, n: nat)
    requires k !in all
    ensures k !in LastN(all, n)
  {
  }

  /** What using a new key does: the oldest key goes when there is no room. */
  function Kept(order: seq<nat>, size: nat): seq<nat> {
    if |order| < size || order == [] then order else order[1..]
  }

  lemma UseNew(order: seq<nat>, k: nat, size: nat)
    requires k !in order
    ensures Use(order, k, size) == Kept(order, size) + [k]
  {
    WithoutId(order, k);
  }

  /** Adding a key never used before: the oldest of the last `size` keys goes. */
  lemma UseRecent(all: seq<nat>, k: nat, size: nat)
    requires k !in all && 0 < size
    ensures Use(LastN(all, size), k, size) == LastN(Touch(all, k), size)
  {
    var b := LastN(all, size);
    NotRemembered(all, k, size);
    UseNew(b, k, size);
    WithoutId(all, k);
    KeptLast(all, k, size);
  }

  lemma KeptLast(all: seq<nat>, k: nat, size: nat)
    requires 0 < size
    ensures Kept(LastN(all, size), size) + [k] == LastN(all + [k], size)
  {
  }
}
