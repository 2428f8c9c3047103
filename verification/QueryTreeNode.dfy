/** Nodes of the client's query tree, in place: client/query-tree-node.ts. */
module QueryTreeNodes {
  import opened Messages
  import opened QueryTreeSpec
  import opened Lists

  class QueryTreeNode {
    const id: nat
    const key: FieldKey
    const parent: QueryTreeNode?
    /** The ids from the root down to this node. */
    ghost const path: QPath

    var children: seq<QueryTreeNode>
    var refCount: nat
    var gcNext: bool
    var xmitted: bool

    constructor (id: nat, key: FieldKey, parent: QueryTreeNode?)
      ensures this.id == id && this.key == key && this.parent == parent
      ensures path == if parent == null then [] else parent.path + [id]
      ensures children == [] && refCount == 0 && !gcNext && !xmitted
    {
      this.id, this.key, this.parent := id, key, parent;
      this.path := if parent == null then [] else parent.path + [id];
      children, refCount, gcNext, xmitted := [], 0, false, false;
    }
  }

  // ----- subtrees

  /** `s` is the subtree at `n`: every node but `n` hangs off its parent, whose path it extends. */
  ghost predicate SubtreeOk(n: QueryTreeNode, s: set<QueryTreeNode>, bound: nat)
    reads s`children
  {
    && n in s
    && (forall m :: m in s ==> n.path <= m.path && |m.path| <= bound)
    && (forall m, m' {:trigger m.path, m'.path} :: m in s && m' in s && m.path == m'.path ==> m == m')
    && (forall m :: m in s ==> ChildrenOk(m, s))
    && (forall m {:trigger m.parent} :: m in s && m != n ==>
          m.parent != null && m.parent in s && m in m.parent.children && m.path == m.parent.path + [m.id])
  }

  ghost predicate ChildrenOk(m: QueryTreeNode, s: set<QueryTreeNode>)
    reads m`children
  {
    && (forall c :: c in m.children ==> c in s && c.parent == m && c.path == m.path + [c.id])
    && NoRepeats(m.children)
  }

  /** The part of a subtree at or below `c`. */
  ghost function Below(s: set<QueryTreeNode>, c: QueryTreeNode): set<QueryTreeNode> {
    set m | m in s && c.path <= m.path
  }

  lemma ChildSubtree(n: QueryTreeNode, s: set<QueryTreeNode>, bound: nat, c: QueryTreeNode)
    requires SubtreeOk(n, s, bound) && c in n.children
    ensures SubtreeOk(c, Below(s, c), bound)
    ensures n !in Below(s, c) && |n.path| < |c.path|
  {
    var b := Below(s, c);
    assert c in s && c.path == n.path + [c.id];
    forall m | m in b ensures ChildrenOk(m, b) {
      assert ChildrenOk(m, s);
    }
    forall m | m in b && m != c ensures m.parent in b {
      assert m.path != c.path && |c.path| < |m.path|;
    }
  }

  /** Different children have disjoint subtrees. */
  lemma ChildrenApart(n: QueryTreeNode, s: set<QueryTreeNode>, bound: nat, c: QueryTreeNode, d: QueryTreeNode)
    requires SubtreeOk(n, s, bound) && c in n.children && d in n.children && c != d
    ensures Below(s, c) !! Below(s, d)
  {
    assert c in s && d in s && c.path != d.path;
    forall m | m in Below(s, c) ensures m !in Below(s, d) {
      assert m.path[..|c.path|] == c.path;
      assert |c.path| == |d.path|;
    }
  }

  /** Every node below `n` is below exactly one of its children. */
  lemma {:induction false} ChildAbove(n: QueryTreeNode, s: set<QueryTreeNode>, bound: nat, m: QueryTreeNode)
    returns (c: QueryTreeNode)
    requires SubtreeOk(n, s, bound) && m in s && m != n
    ensures c in n.children && m in Below(s, c)
    decreases |m.path|
  {
    if m.parent == n {
      c := m;
    } else {
      c := ChildAbove(n, s, bound, m.parent);
    }
  }

  // ----- garbage collection

  ghost predicate Referenced(m: QueryTreeNode)
    reads m`refCount
  {
    m.refCount != 0 || m.parent == null
  }

  /** The flags lead from the top to every unreferenced node, and references are closed upwards. */
  ghost predicate FlagsLead(s: set<QueryTreeNode>)
    reads s
  {
    && (forall m :: m in s && !Referenced(m) ==> m.gcNext)
    && (forall m {:trigger m.parent} :: m in s && m.parent != null && m.parent in s ==>
          (m.gcNext ==> m.parent.gcNext) && (Referenced(m) ==> Referenced(m.parent)))
  }

  /** The roots of the maximal dropped subtrees below `n` that were transmitted. */
  ghost function DroppedRoots(n: QueryTreeNode, s: set<QueryTreeNode>): set<QueryTreeNode>
    reads s`refCount, s`xmitted
  {
    set m | m in s && m != n && !Referenced(m) && m.xmitted && m.parent != null && m.parent in s && Referenced(m.parent)
  }

  /** What a full prune leaves of a list of children, up to order; if the unreferenced ones were
      all at the end, the order is kept as well. */
  ghost predicate Pruned(now: seq<QueryTreeNode>, before: seq<QueryTreeNode>)
    reads set c | c in before :: c`refCount
  {
    && (forall c | c in now :: c in before && Referenced(c))
    && (forall c | c in before && Referenced(c) :: c in now)
    && NoRepeats(now)
    && (forall k :: ReferencedFirst(before, k) ==> now == before[..k])
  }

  ghost predicate ReferencedFirst(cs: seq<QueryTreeNode>, k: int)
    reads set c | c in cs :: c`refCount
  {
    && 0 <= k <= |cs|
    && (k < |cs| ==> cs[k] in cs && !Referenced(cs[k]))
    && (forall i :: 0 <= i < k ==> cs[i] in cs && Referenced(cs[i]))
    && (forall i :: k <= i < |cs| ==> cs[i] in cs && !Referenced(cs[i]))
  }

  /** Below a node without the flag there is nothing to sweep. */
  lemma {:induction false} NothingFlagged(n: QueryTreeNode, s: set<QueryTreeNode>, bound: nat, m: QueryTreeNode)
    requires SubtreeOk(n, s, bound) && FlagsLead(s) && !n.gcNext && m in s
    ensures !m.gcNext && Referenced(m)
    decreases |m.path|
  {
    if m != n { NothingFlagged(n, s, bound, m.parent); }
  }

  lemma NothingToSweep(n: QueryTreeNode, s: set<QueryTreeNode>, bound: nat)
    requires SubtreeOk(n, s, bound) && FlagsLead(s) && !n.gcNext
    ensures forall m :: m in s ==> !m.gcNext && Pruned(m.children, m.children)
    ensures DroppedRoots(n, s) == {}
  {
    forall m | m in s ensures !m.gcNext && Referenced(m) {
      NothingFlagged(n, s, bound, m);
    }
    forall m | m in s ensures Pruned(m.children, m.children) {
      assert ChildrenOk(m, s);
      forall k | ReferencedFirst(m.children, k) ensures m.children == m.children[..k] {
        assert k == |m.children|;
      }
    }
  }

  /** The subtree has been swept. */
  ghost predicate SweptIn(b: set<QueryTreeNode>, before: map<QueryTreeNode, seq<QueryTreeNode>>)
    reads b
    reads set m, c | m in b && m in before && c in before[m] :: c`refCount
  {
    forall m :: m in b ==> m in before && !m.gcNext && Pruned(m.children, before[m])
  }

  /** The subtree is still to be swept. */
  ghost predicate ToSweep(n: QueryTreeNode, b: set<QueryTreeNode>, bound: nat, before: map<QueryTreeNode,
                          seq<QueryTreeNode>>)
    reads b
  {
    && SubtreeOk(n, b, bound) && FlagsLead(b)
    && forall m :: m in b ==> m in before && m.children == before[m]
  }

  /** The subtrees of the children, taken together with what is dropped right below `n`. */
  lemma DroppedSplit(n: QueryTreeNode, s: set<QueryTreeNode>, bound: nat, m: QueryTreeNode)
    requires SubtreeOk(n, s, bound) && FlagsLead(s) && m in s && m != n
    ensures m in DroppedRoots(n, s) <==>
            || (m in n.children && !Referenced(m) && m.xmitted && Referenced(n))
            || (exists c :: c in n.children && m in DroppedRoots(c, Below(s, c)))
  {
    var c := ChildAbove(n, s, bound, m);
    ChildSubtree(n, s, bound, c);
    assert m in n.children <==> m == c by {
      if m in n.children {
        assert ChildrenOk(n, s) && m.parent == n;
        assert m != c ==> n in Below(s, c);
      }
    }
    forall d | d in n.children && m in DroppedRoots(d, Below(s, d)) ensures d == c {
      if d != c { ChildrenApart(n, s, bound, d, c); }
    }
  }

  /** gcSweep: sweeping along the flags does to every node of the subtree what a full prune does,
      clears every flag, and emits exactly the roots of the maximal dropped transmitted subtrees,
      each once. */
  method GcSweep(n: QueryTreeNode, ghost s: set<QueryTreeNode>, ghost bound: nat)
    returns (qReferenced: bool, purged: seq<QueryTreeNode>)
    requires SubtreeOk(n, s, bound) && FlagsLead(s)
    modifies s`children, s`gcNext
    ensures qReferenced == Referenced(n)
    ensures forall m :: m in s ==> !m.gcNext && Pruned(m.children, old(m.children))
    ensures forall m :: m in purged <==> m in DroppedRoots(n, s)
    ensures NoRepeats(purged)
    decreases bound - |n.path|, 1
  {
    qReferenced := n.refCount != 0 || n.parent == null;
    purged := [];
    if !n.gcNext {
      NothingToSweep(n, s, bound);
      return;
    }
    ghost var all := n.children;
    assert forall m :: m in DroppedRoots(n, s) <==>
             || (m in all && !Referenced(m) && m.xmitted && Referenced(n))
             || (exists c :: c in all && m in DroppedRoots(c, Below(s, c)))
    by {
      forall m | m in s && m != n { DroppedSplit(n, s, bound, m); }
      assert ChildrenOk(n, s) && n !in all;
    }
    var unrefChildren;
    purged, unrefChildren := SweepChildren(n, s, bound);
    assert NoRepeats(purged) by { assert forall i :: 0 <= i < |purged| ==> purged[i] == (purged + unrefChildren)[i]; }
    if |unrefChildren| != 0 && qReferenced {
      purged := purged + unrefChildren;
    }
  }

  /** How far a list of children has been swept: `now` is what is left of `all`, and the first `i`
      have been found to be referenced. */
  ghost predicate SweepState(now: seq<QueryTreeNode>, all: seq<QueryTreeNode>, i: int, k: int)
    reads set c | c in all :: c`refCount
  {
    && 0 <= i <= |now| && NoRepeats(now)
    && (forall c | c in now :: c in all)
    && (forall j :: 0 <= j < i ==> now[j] in all && Referenced(now[j]))
    && (forall c | c in all && c !in now :: !Referenced(c))
    && (ReferencedFirst(all, k) ==> i <= k <= |now| && now[..k] == all[..k])
  }

  lemma SweepStateStarts(all: seq<QueryTreeNode>, k: int)
    requires NoRepeats(all)
    ensures SweepState(all, all, 0, k) && NoRepeats<QueryTreeNode>([])
  {
  }

  lemma SweepStateKeeps(now: seq<QueryTreeNode>, all: seq<QueryTreeNode>, i: int, k: int)
    requires SweepState(now, all, i, k) && i < |now| && Referenced(now[i])
    ensures SweepState(now, all, i + 1, k)
    ensures forall c :: c in now[i + 1..] <==> c in now[i..] && c != now[i]
  {
    assert now[i] in now;
    NotInPrefix(now, i);
    assert now[i..] == [now[i]] + now[i + 1..];
  }

  lemma NotInPrefix(now: seq<QueryTreeNode>, i: nat)
    requires NoRepeats(now) && i < |now|
    ensures now[i] !in now[..i]
  {
  }

  lemma SweepStateDrops(now: seq<QueryTreeNode>, all: seq<QueryTreeNode>, i: int, k: int)
    requires SweepState(now, all, i, k) && i < |now| && !Referenced(now[i])
    ensures SweepState(SwapRemove(now, i), all, i, k)
    ensures forall c :: c in SwapRemove(now, i)[i..] <==> c in now[i..] && c != now[i]
    ensures forall c :: c in SwapRemove(now, i) ==> c in now
    ensures |SwapRemove(now, i)| == |now| - 1
  {
    SwapRemoveFacts(now, i);
    assert now[i] in now;
    if ReferencedFirst(all, k) {
      if i < k {
        PrefixSame(now, all, k, i);
        assert false;
      }
      assert SwapRemove(now, i)[..k] == now[..k];
    }
  }

  lemma PrefixSame(now: seq<QueryTreeNode>, all: seq<QueryTreeNode>, k: nat, i: nat)
    requires i < k <= |now| && k <= |all| && now[..k] == all[..k]
    ensures now[i] == all[i]
  {
    assert now[..k][i] == all[..k][i];
  }

  lemma SweepStateEnds(now: seq<QueryTreeNode>, all: seq<QueryTreeNode>, k: int)
    requires SweepState(now, all, |now|, k)
    requires forall k' :: ReferencedFirst(all, k') ==> k' == k
    ensures Pruned(now, all)
  {
    assert forall c :: c in now ==> exists j :: 0 <= j < |now| && now[j] == c;
    assert now[..|now|] == now;
  }

  lemma FirstUnique(all: seq<QueryTreeNode>) returns (k: int)
    ensures forall k' :: ReferencedFirst(all, k') ==> k' == k
  {
    if k' :| ReferencedFirst(all, k') {
      k := k';
      forall j | ReferencedFirst(all, j) ensures j == k {
        FirstsAgree(all, j, k);
        FirstsAgree(all, k, j);
      }
    } else {
      k := -1;
    }
  }

  lemma FirstsAgree(all: seq<QueryTreeNode>, j: int, k: int)
    requires ReferencedFirst(all, j) && ReferencedFirst(all, k)
    ensures k <= j
  {
  }

  /** The children of `n` still to be swept, and those that have been. */
  ghost predicate Progress(s: set<QueryTreeNode>, bound: nat, kids: set<QueryTreeNode>, todo: set<QueryTreeNode>,
                           before: map<QueryTreeNode, seq<QueryTreeNode>>)
    reads s
    reads set m, c | m in s && m in before && c in before[m] :: c`refCount
  {
    && todo <= kids
    && (forall c | c in todo :: ToSweep(c, Below(s, c), bound, before))
    && (forall c | c in kids && c !in todo :: SweptIn(Below(s, c), before))
  }

  ghost predicate Apart(s: set<QueryTreeNode>, kids: set<QueryTreeNode>) {
    forall c, d {:trigger Below(s, c), Below(s, d)} | c in kids && d in kids && c != d :: Below(s, c) !! Below(s, d)
  }

  /** What each child's subtree will emit. */
  ghost predicate Emitted(s: set<QueryTreeNode>, kids: set<QueryTreeNode>, dropped: map<QueryTreeNode,
                          set<QueryTreeNode>>)
    reads s`refCount, s`xmitted
  {
    dropped.Keys == kids && forall c | c in kids :: DroppedRoots(c, Below(s, c)) == dropped[c]
  }

  /** The recursive call of gcSweep, among the siblings. */
  method SweepChild(child: QueryTreeNode, ghost s: set<QueryTreeNode>, ghost bound: nat, ghost kids: set<QueryTreeNode>,
                    ghost todo: set<QueryTreeNode>, ghost before: map<QueryTreeNode, seq<QueryTreeNode>>,
                    ghost dropped: map<QueryTreeNode, set<QueryTreeNode>>)
    returns (childReferenced: bool, p: seq<QueryTreeNode>)
    requires child in todo && Progress(s, bound, kids, todo, before) && Apart(s, kids) && Emitted(s, kids, dropped)
    modifies Below(s, child)`children, Below(s, child)`gcNext
    ensures Progress(s, bound, kids, todo - {child}, before)
    ensures childReferenced == Referenced(child)
    ensures forall m :: m in p <==> m in dropped[child]
    ensures NoRepeats(p)
    decreases bound - |child.path|, 2
  {
    childReferenced, p := GcSweep(child, Below(s, child), bound);
  }

  /** The children of `n`, apart from each other and from `n`, and what they will emit. */
  ghost predicate LoopReady(n: QueryTreeNode, rest: set<QueryTreeNode>, bound: nat, all: seq<QueryTreeNode>,
                            kids: set<QueryTreeNode>,
                            dropped: map<QueryTreeNode, set<QueryTreeNode>>, unref: set<QueryTreeNode>)
    reads rest`refCount, rest`xmitted
  {
    && n !in rest && NoRepeats(all) && kids == (set c | c in all) && kids <= rest
    && (forall c | c in kids :: Below(rest, c) <= rest && |n.path| < |c.path| <= bound)
    && Apart(rest, kids) && Emitted(rest, kids, dropped)
    && dropped.Keys == kids && (forall c, d | c in kids && d in kids && c != d :: dropped[c] !! dropped[d])
    && unref == set c | c in kids && !Referenced(c) && c.xmitted
  }

  lemma LoopReadyMeans(n: QueryTreeNode, rest: set<QueryTreeNode>, bound: nat, all: seq<QueryTreeNode>,
                       kids: set<QueryTreeNode>,
                       dropped: map<QueryTreeNode, set<QueryTreeNode>>, unref: set<QueryTreeNode>)
    requires LoopReady(n, rest, bound, all, kids, dropped, unref)
    ensures n !in rest && NoRepeats(all) && kids == (set c | c in all)
    ensures forall c | c in kids :: Below(rest, c) <= rest && |n.path| < |c.path| <= bound
    ensures Apart(rest, kids) && Emitted(rest, kids, dropped)
    ensures dropped.Keys == kids && forall c, d :: c in kids && d in kids && c != d ==> dropped[c] !! dropped[d]
    ensures unref == set c | c in kids && !Referenced(c) && c.xmitted
  {
  }

  ghost predicate Covers(n: QueryTreeNode, s: set<QueryTreeNode>, kids: set<QueryTreeNode>) {
    && (forall m | m in s && m != n :: exists c :: c in kids && m in Below(s - {n}, c))
    && (forall c | c in kids :: Below(s - {n}, c) == Below(s, c))
  }

  lemma SweepSetup(n: QueryTreeNode, s: set<QueryTreeNode>, bound: nat)
    returns (kids: set<QueryTreeNode>, dropped: map<QueryTreeNode, set<QueryTreeNode>>, unref: set<QueryTreeNode>)
    requires SubtreeOk(n, s, bound) && FlagsLead(s)
    ensures n in s && LoopReady(n, s - {n}, bound, n.children, kids, dropped, unref)
    ensures Progress(s - {n}, bound, kids, kids, map m | m in s :: m.children)
    ensures Covers(n, s, kids)
  {
    var rest := s - {n};
    kids := set c | c in n.children;
    BelowKids(n, s, bound, kids, map m | m in s :: m.children);
    dropped := map c | c in kids :: DroppedRoots(c, Below(rest, c));
    unref := set c | c in kids && !Referenced(c) && c.xmitted;
    EmittedStarts(rest, kids, dropped);
    hide *;
    DroppedDisjoint(rest, kids, dropped);
    ReadyFrom(n, rest, bound, n.children, kids, dropped, unref);
    CoversFrom(n, s, kids);
  }

  lemma ReadyFrom(n: QueryTreeNode, rest: set<QueryTreeNode>, bound: nat, all: seq<QueryTreeNode>,
                  kids: set<QueryTreeNode>,
                  dropped: map<QueryTreeNode, set<QueryTreeNode>>, unref: set<QueryTreeNode>)
    requires n !in rest && NoRepeats(all) && kids == (set c | c in all) && kids <= rest
    requires forall c | c in kids :: Below(rest, c) <= rest && |n.path| < |c.path| <= bound
    requires Apart(rest, kids) && Emitted(rest, kids, dropped)
    requires dropped.Keys == kids && forall c, d :: c in kids && d in kids && c != d ==> dropped[c] !! dropped[d]
    requires unref == set c | c in kids && !Referenced(c) && c.xmitted
    ensures LoopReady(n, rest, bound, all, kids, dropped, unref)
  {
  }

  lemma CoversFrom(n: QueryTreeNode, s: set<QueryTreeNode>, kids: set<QueryTreeNode>)
    requires forall m | m in s && m != n :: exists c :: c in kids && m in Below(s - {n}, c)
    requires forall c | c in kids :: Below(s - {n}, c) == Below(s, c)
    ensures Covers(n, s, kids)
  {
  }

  lemma SweepConclude(n: QueryTreeNode, s: set<QueryTreeNode>, bound: nat, all: seq<QueryTreeNode>,
                      kids: set<QueryTreeNode>,
                      dropped: map<QueryTreeNode, set<QueryTreeNode>>, unref: set<QueryTreeNode>,
                      purged: seq<QueryTreeNode>, unrefChildren: seq<QueryTreeNode>)
    requires LoopReady(n, s - {n}, bound, all, kids, dropped, unref) && Covers(n, s, kids)
    requires forall m :: m in purged <==> exists c :: c in kids && m in dropped[c]
    requires forall m :: m in unrefChildren <==> m in unref
    requires NoRepeats(purged) && NoRepeats(unrefChildren)
    ensures forall m :: m in purged <==> exists c :: c in all && m in DroppedRoots(c, Below(s, c))
    ensures forall m :: m in unrefChildren <==> m in all && !Referenced(m) && m.xmitted
    ensures NoRepeats(purged + unrefChildren)
  {
    DroppedApart(s - {n}, kids, dropped, purged, unrefChildren);
    EmittedMeans(n, s, kids, dropped);
  }

  /** The loop of gcSweep over the children, with the swap-removal inside it. */
  method SweepLoop(n: QueryTreeNode, ghost rest: set<QueryTreeNode>, ghost bound: nat, ghost all: seq<QueryTreeNode>,
                   ghost kids: set<QueryTreeNode>, ghost before: map<QueryTreeNode, seq<QueryTreeNode>>,
                   ghost dropped: map<QueryTreeNode, set<QueryTreeNode>>, ghost unref: set<QueryTreeNode>)
    returns (purged: seq<QueryTreeNode>, unrefChildren: seq<QueryTreeNode>)
    requires all == n.children && LoopReady(n, rest, bound, all, kids, dropped, unref)
    requires Progress(rest, bound, kids, kids, before)
    modifies n`children, rest`children, rest`gcNext
    ensures Pruned(n.children, all)
    ensures forall m :: m in purged <==> exists c :: c in kids && m in dropped[c]
    ensures forall m :: m in unrefChildren <==> m in unref
    ensures NoRepeats(purged) && NoRepeats(unrefChildren)
    ensures Progress(rest, bound, kids, {}, before)
    decreases bound - |n.path|, 0, 0
  {
    hide *;
    LoopReadyMeans(n, rest, bound, all, kids, dropped, unref);
    ghost var k := FirstUnique(all);
    SweepStateStarts(all, k);
    purged, unrefChildren := [], [];
    var i := 0;
    ghost var todo := kids;
    while i < |n.children|
      invariant 0 <= i <= |n.children| && forall c :: c in n.children ==> c in kids
      invariant SweepState(n.children, all, i, k)
      invariant forall c :: c in todo <==> c in n.children[i..]
      invariant Progress(rest, bound, kids, todo, before) && Emitted(rest, kids, dropped)
      invariant forall m :: m in purged <==> exists c :: c in kids && c !in todo && m in dropped[c]
      invariant forall m :: m in unrefChildren <==> m in unref && m !in todo
      invariant NoRepeats(purged) && NoRepeats(unrefChildren)
      decreases |n.children| - i
    {
      var child := n.children[i];
      assert child in n.children && child in n.children[i..];
      var childReferenced, p := SweepChild(child, rest, bound, kids, todo, before, dropped);
      DroppedNext(kids, todo, dropped, child, purged, p);
      todo := todo - {child};
      purged := purged + p;
      if !childReferenced {
        SweepStateDrops(n.children, all, i, k);
        n.children := SwapRemove(n.children, i);
        if child.xmitted {
          RepeatsNot(unrefChildren, child);
          unrefChildren := unrefChildren + [child];
        }
      } else {
        SweepStateKeeps(n.children, all, i, k);
        i := i + 1;
      }
    }
    SweepStateEnds(n.children, all, k);
    assert todo == {};
  }

  method SweepChildren(n: QueryTreeNode, ghost s: set<QueryTreeNode>, ghost bound: nat)
    returns (purged: seq<QueryTreeNode>, unrefChildren: seq<QueryTreeNode>)
    requires SubtreeOk(n, s, bound) && FlagsLead(s) && n.gcNext
    modifies s`children, s`gcNext
    ensures forall m :: m in s ==> !m.gcNext && Pruned(m.children, old(m.children))
    ensures forall m :: m in purged <==> exists c :: c in old(n.children) && m in DroppedRoots(c, Below(s, c))
    ensures forall m :: m in unrefChildren <==> m in old(n.children) && !Referenced(m) && m.xmitted
    ensures NoRepeats(purged + unrefChildren)
    decreases bound - |n.path|, 0, 1
  {
    hide *;
    ghost var all := n.children;
    ghost var before := map m | m in s :: m.children;
    ghost var kids, dropped, unref := SweepSetup(n, s, bound);
    n.gcNext := false;
    purged, unrefChildren := SweepLoop(n, s - {n}, bound, all, kids, before, dropped, unref);
    SweepDone(n, s, bound, kids, before);
    SweepConclude(n, s, bound, all, kids, dropped, unref, purged, unrefChildren);
  }

  lemma EmittedStarts(rest: set<QueryTreeNode>, kids: set<QueryTreeNode>, dropped: map<QueryTreeNode,
                      set<QueryTreeNode>>)
    requires dropped == map c | c in kids :: DroppedRoots(c, Below(rest, c))
    ensures Emitted(rest, kids, dropped)
  {
  }

  lemma EmittedMeans(n: QueryTreeNode, s: set<QueryTreeNode>, kids: set<QueryTreeNode>, dropped: map<QueryTreeNode,
                     set<QueryTreeNode>>)
    requires Emitted(s - {n}, kids, dropped) && forall c | c in kids :: Below(s - {n}, c) == Below(s, c)
    ensures forall c :: c in kids ==> dropped[c] == DroppedRoots(c, Below(s, c))
  {
  }

  lemma SweepDone(n: QueryTreeNode, s: set<QueryTreeNode>, bound: nat, kids: set<QueryTreeNode>,
                  before: map<QueryTreeNode, seq<QueryTreeNode>>)
    requires Progress(s - {n}, bound, kids, {}, before) && before.Keys == s
    requires Covers(n, s, kids)
    ensures forall m | m in s && m != n :: !m.gcNext && Pruned(m.children, before[m])
  {
    forall m | m in s && m != n ensures !m.gcNext && Pruned(m.children, before[m]) {
      var c :| c in kids && m in Below(s - {n}, c);
      assert SweptIn(Below(s - {n}, c), before);
    }
  }

  lemma BelowKids(n: QueryTreeNode, s: set<QueryTreeNode>, bound: nat, kids: set<QueryTreeNode>,
                  before: map<QueryTreeNode, seq<QueryTreeNode>>)
    requires SubtreeOk(n, s, bound) && FlagsLead(s) && kids == (set c | c in n.children)
    requires before == map m | m in s :: m.children
    ensures ChildrenOk(n, s) && NoRepeats(n.children) && n !in kids && n in s
    ensures forall c | c in kids :: Below(s - {n}, c) == Below(s, c) && |n.path| < |c.path| <= bound
    ensures forall c | c in kids :: Below(s - {n}, c) <= s - {n}
    ensures kids <= s - {n}
    ensures Apart(s - {n}, kids) && Progress(s - {n}, bound, kids, kids, before)
    ensures forall m | m in s && m != n :: exists c :: c in kids && m in Below(s - {n}, c)
  {
    forall c | c in kids
      ensures Below(s - {n}, c) == Below(s, c) && ToSweep(c, Below(s, c), bound, before) && |n.path| < |c.path|
    {
      ChildSubtree(n, s, bound, c);
    }
    forall c, d | c in kids && d in kids && c != d ensures Below(s - {n}, c) !! Below(s - {n}, d) {
      ChildrenApart(n, s, bound, c, d);
    }
    forall m | m in s && m != n ensures exists c :: c in kids && m in Below(s - {n}, c) {
      var c := ChildAbove(n, s, bound, m);
    }
  }

  lemma DroppedDisjoint(rest: set<QueryTreeNode>, kids: set<QueryTreeNode>, dropped: map<QueryTreeNode,
                        set<QueryTreeNode>>)
    requires Apart(rest, kids) && Emitted(rest, kids, dropped)
    ensures forall c, d :: c in kids && d in kids && c != d ==> dropped[c] !! dropped[d]
    ensures forall c :: c in kids ==> dropped[c] <= Below(rest, c)
  {
    forall c, d | c in kids && d in kids && c != d ensures dropped[c] !! dropped[d] {
      assert dropped[c] <= Below(rest, c) && dropped[d] <= Below(rest, d);
    }
  }

  lemma DroppedNext(kids: set<QueryTreeNode>, todo: set<QueryTreeNode>, dropped: map<QueryTreeNode, set<QueryTreeNode>>,
                    child: QueryTreeNode, purged: seq<QueryTreeNode>, p: seq<QueryTreeNode>)
    requires child in todo && todo <= kids && dropped.Keys == kids && NoRepeats(purged) && NoRepeats(p)
    requires forall c, d :: c in kids && d in kids && c != d ==> dropped[c] !! dropped[d]
    requires forall m :: m in purged <==> exists c :: c in kids && c !in todo && m in dropped[c]
    requires forall m :: m in p <==> m in dropped[child]
    ensures NoRepeats(purged + p)
    ensures forall m :: m in purged + p <==> exists c :: c in kids && c !in todo - {child} && m in dropped[c]
  {
    RepeatsJoin(purged, p);
  }

  lemma DroppedApart(rest: set<QueryTreeNode>, kids: set<QueryTreeNode>, dropped: map<QueryTreeNode,
                     set<QueryTreeNode>>,
                     purged: seq<QueryTreeNode>, unref: seq<QueryTreeNode>)
    requires Apart(rest, kids) && NoRepeats(purged) && NoRepeats(unref) && Emitted(rest, kids, dropped) && kids <= rest
    requires forall m :: m in purged ==> exists c :: c in kids && m in dropped[c]
    requires forall m :: m in unref ==> m in kids
    ensures NoRepeats(purged + unref)
  {
    forall m | m in purged ensures m !in unref {
      var c :| c in kids && m in dropped[c];
      assert m in DroppedRoots(c, Below(rest, c)) && m != c;
      assert m in kids ==> m in Below(rest, m);
    }
    RepeatsJoin(purged, unref);
  }
}
