/** Giving up references, sweeping, and announcing new nodes: what the heap does is what the
    values do. */
module QueryTreeSweep {
  import opened Messages
  import opened QueryTreeSpec
  import opened QueryTreeProofs
  import opened QueryTreeNodes
  import opened Lists
  import opened QueryTreeVisit
  import opened QueryTreeShape
  import opened QueryTreeHistory

  /** Every unreferenced node is flagged, and flags lead up to the root. */
  ghost predicate FlagsUp(s: set<QueryTreeNode>)
    reads s`gcNext, s`refCount
  {
    && (forall m | m in s && !Referenced(m) :: m.gcNext)
    && (forall m {:trigger m.parent} | m in s && m.parent != null && m.parent in s && m.gcNext :: m.parent.gcNext)
  }

  ghost predicate Unflagged(s: set<QueryTreeNode>)
    reads s`gcNext
  {
    forall m | m in s :: !m.gcNext
  }

  lemma UnflaggedMeans(s: set<QueryTreeNode>)
    requires Unflagged(s)
    ensures forall m | m in s :: !m.gcNext
  {
  }

  lemma UnflaggedFrom(s: set<QueryTreeNode>)
    requires forall m | m in s :: !m.gcNext
    ensures Unflagged(s)
  {
  }

  // ----- giving up references

  /** One reference less. */
  lemma RefsLess(t: Tree, t': Tree, root: QueryTreeNode, s: set<QueryTreeNode>, bound: nat, n: QueryTreeNode)
    requires SubtreeOk(root, s, bound) && IdsUnique(s) && n in s && n != root
    requires root.parent == null && root.id == 0 && root.path == [] && Stands(t.nodes, s - {root})
    requires n.id in t.refs && t' == t.(refs := t.refs - multiset{n.id})
    requires forall m | m in s && m != root :: m.refCount == if m == n then t.refs[m.id] - 1 else t.refs[m.id]
    ensures Tied(t', root, s, bound)
  {
    forall m | m in s - {root} ensures t'.refs[m.id] == m.refCount {
      assert m.id == n.id ==> m == n;
    }
  }

  lemma TiedParts(t: Tree, root: QueryTreeNode, s: set<QueryTreeNode>, bound: nat)
    requires Tied(t, root, s, bound)
    ensures SubtreeOk(root, s, bound) && IdsUnique(s) && root in s
    ensures root.parent == null && root.id == 0 && root.path == [] && Stands(t.nodes, s - {root})
    ensures forall m | m in s && m != root :: m.refCount == t.refs[m.id]
  {
  }

  lemma FlagsUpMeans(s: set<QueryTreeNode>)
    ensures FlagsUp(s) <==>
      && (forall m | m in s && m.refCount == 0 && m.parent != null :: m.gcNext)
      && (forall m {:trigger m.parent} | m in s && m.parent != null && m.parent in s && m.gcNext :: m.parent.gcNext)
  {
  }

  lemma FlaggedUp(n: QueryTreeNode, s: set<QueryTreeNode>, root: QueryTreeNode, bound: nat, flagged: set<QueryTreeNode>)
    requires SubtreeOk(root, s, bound) && root.parent == null && n in s
    requires forall m | m in s && m != n && m.refCount == 0 && m.parent != null :: m in flagged
    requires
      forall m {:trigger m.parent} | m in s && m.parent != null && m.parent in s && m in flagged :: m.parent in flagged
    requires forall m :: m in s ==> (m.gcNext <==> m in flagged || m.path <= n.path)
    ensures FlagsUp(s)
  {
    forall m {:trigger m.parent} | m in s && m.parent != null && m.parent in s && m.gcNext ensures m.parent.gcNext {
      assert m.path == m.parent.path + [m.id];
      PrefixOfChild(m.parent.path, m.parent.path, m.id);
      PrefixTrans(m.parent.path, m.path, n.path);
    }
  }

  lemma PrefixTrans(a: QPath, b: QPath, c: QPath)
    requires a <= b
    ensures b <= c ==> a <= c
  {
    if b <= c { assert a == c[..|b|][..|a|]; }
  }

  /** decRefCount, and flagGcNext when nothing references the node any more. */
  method DropReference(n: QueryTreeNode, root: QueryTreeNode, ghost t: Tree, ghost s: set<QueryTreeNode>,
                       ghost bound: nat)
    returns (isZero: bool)
    requires Tied(t, root, s, bound) && FlagsUp(s) && n in s && n != root && n.id in t.refs
    modifies n`refCount, s`gcNext
    ensures Tied(t.(refs := t.refs - multiset{n.id}), root, s, bound) && FlagsUp(s)
    ensures !isZero ==> forall m | m in s :: m.gcNext == old(m.gcNext)
  {
    hide *;
    TiedParts(t, root, s, bound);
    FlagsUpMeans(s);
    ghost var flagged := set m | m in s && m.gcNext;
    if n.refCount > 0 {
      n.refCount := n.refCount - 1;
    }
    RefsLess(t, t.(refs := t.refs - multiset{n.id}), root, s, bound, n);
    isZero := n.refCount == 0;
    if isZero {
      FlagGcNext(n, s, root, bound);
      FlaggedUp(n, s, root, bound, flagged);
    } else {
      FlagsUpMeans(s);
    }
  }

  lemma DropSome(refs: multiset<nat>, ids: seq<nat>, i: nat)
    requires i < |ids| && multiset(ids) <= refs
    ensures ids[i] in refs - multiset(ids[..i])
    ensures (refs - multiset(ids[..i])) - multiset{ids[i]} == refs - multiset(ids[..i + 1])
  {
    assert ids == ids[..i] + [ids[i]] + ids[i + 1..];
    assert multiset(ids) == multiset(ids[..i]) + multiset{ids[i]} + multiset(ids[i + 1..]);
    assert ids[..i + 1] == ids[..i] + [ids[i]];
  }

  /** Giving up the references of one query. */
  method ReleaseRefs(qtNodes: seq<QueryTreeNode>, root: QueryTreeNode, ghost t: Tree, ghost s: set<QueryTreeNode>,
                     ghost bound: nat)
    returns (gcSweep: bool)
    requires Tied(t, root, s, bound) && FlagsUp(s) && Unflagged(s) && Listed(qtNodes, s, root)
    requires multiset(Ids(qtNodes)) <= t.refs
    modifies s`refCount, s`gcNext
    ensures Tied(t.(refs := t.refs - multiset(Ids(qtNodes))), root, s, bound) && FlagsUp(s)
    ensures !gcSweep ==> Unflagged(s)
  {
    gcSweep := false;
    ghost var ids := Ids(qtNodes);
    assert t.refs - multiset(ids[..0]) == t.refs;
    for i := 0 to |qtNodes|
      invariant Tied(t.(refs := t.refs - multiset(ids[..i])), root, s, bound) && FlagsUp(s)
      invariant !gcSweep ==> Unflagged(s)
    {
      hide *;
      ListedAt(qtNodes, s, root, i);
      DropSome(t.refs, ids, i);
      ghost var t0 := t.(refs := t.refs - multiset(ids[..i]));
      assert t0.(refs := t0.refs - multiset{ids[i]}) == t.(refs := t.refs - multiset(ids[..i + 1]));
      if !gcSweep { UnflaggedMeans(s); }
      var isZero := DropReference(qtNodes[i], root, t0, s, bound);
      if isZero { gcSweep := true; }
      if !gcSweep { UnflaggedFrom(s); }
    }
    assert ids[..|ids|] == ids;
  }

  lemma ListedAt(ns: seq<QueryTreeNode>, s: set<QueryTreeNode>, root: QueryTreeNode, i: nat)
    requires Listed(ns, s, root) && i < |ns|
    ensures |Ids(ns)| == |ns| && ns[i] in s && ns[i] != root && Ids(ns)[i] == ns[i].id
  {
  }

  // ----- sweeping

  lemma LeadFrom(t: Tree, root: QueryTreeNode, s: set<QueryTreeNode>, bound: nat)
    requires Tied(t, root, s, bound) && FlagsUp(s) && NodesOk(t.next, t.nodes) && RefsClosed(t)
    ensures FlagsLead(s) && SubtreeOk(root, s, bound)
    ensures
      forall m | m in s && m != root :: m.parent != null && m.parent in s && (Referenced(m) ==> Referenced(m.parent))
    ensures root in s && root.parent == null
    ensures Anchored(t, root, s)
  {
    forall m | m in s && m != root
      ensures m.parent != null && m.parent in s && (Referenced(m) ==> Referenced(m.parent))
    {
      NodeIs(t, root, s, bound, m);
      NodeIs(t, root, s, bound, m.parent);
      assert Referenced(m) ==> m.id in t.refs;
    }
  }

  /** The nodes a full prune keeps. */
  ghost function Kept(s: set<QueryTreeNode>): set<QueryTreeNode>
    reads s`refCount
  {
    set m | m in s && Referenced(m)
  }

  lemma PrunedShape(root: QueryTreeNode, s: set<QueryTreeNode>, bound: nat, kids: Kids, kept: set<QueryTreeNode>,
                    kids': Kids)
    requires ShapeOk(root, s, bound, kids) && root in kept && kept <= s && kids'.Keys == kept
    requires forall m | m in kept && m != root :: m.parent != null && m.parent in kept
    requires forall m | m in kept :: NoRepeats(kids'[m]) && forall c :: c in kids'[m] <==> c in kids[m] && c in kept
    ensures ShapeOk(root, kept, bound, kids')
  {
    forall m | m in kept ensures KidsOk(m, kept, kids'[m]) { assert KidsOk(m, s, kids[m]); }
    forall m | m in kept && m != root ensures LinkOk(m, kept, kids') { assert LinkOk(m, s, kids); }
  }

  lemma StandsPruned(t: Tree, root: QueryTreeNode, s: set<QueryTreeNode>)
    requires Anchored(t, root, s) && root in s
    requires forall m | m in s && m != root :: m.parent != null
    ensures Anchored(Prune(t), root, Kept(s)) && root in Kept(s)
  {
    forall m | m in s - {root} ensures m in Kept(s) <==> m.id in t.refs { }
    forall id | id in Prune(t).nodes ensures exists m :: m in Kept(s) - {root} && m.id == id {
      var m :| m in s - {root} && m.id == id;
      assert m in Kept(s) - {root};
    }
  }

  lemma KeptChildren(root: QueryTreeNode, s: set<QueryTreeNode>, kids: Kids, bound: nat)
    requires ShapeOk(root, s, bound, kids)
    requires forall m | m in s :: Pruned(m.children, kids[m])
    ensures var kids' := KidsNow(Kept(s));
            forall m | m in Kept(s) ::
              NoRepeats(kids'[m]) && forall c :: c in kids'[m] <==> c in kids[m] && c in Kept(s)
  {
    forall m | m in Kept(s) ensures forall c :: c in m.children <==> c in kids[m] && c in Kept(s) {
      assert KidsOk(m, s, kids[m]);
    }
  }

  lemma AfterSweep(t: Tree, root: QueryTreeNode, s: set<QueryTreeNode>, bound: nat, kids: Kids)
    requires ShapeOk(root, s, bound, kids) && Anchored(t, root, s)
    requires
      forall m | m in s && m != root :: m.parent != null && m.parent in s && (Referenced(m) ==> Referenced(m.parent))
    requires forall m | m in s :: Pruned(m.children, kids[m])
    ensures Tied(Prune(t), root, Kept(s), bound)
  {
    assert root in s;
    StandsPruned(t, root, s);
    KeptChildren(root, s, kids, bound);
    PrunedShape(root, s, bound, kids, Kept(s), KidsNow(Kept(s)));
    ShapeIff(root, Kept(s), bound);
    TiedFrom(Prune(t), root, Kept(s), bound);
  }

  function Deletes(ns: seq<QueryTreeNode>): seq<Mutation> {
    seq(|ns|, i requires 0 <= i < |ns| => Delete(ns[i].id))
  }

  lemma DeletesIs(ns: seq<QueryTreeNode>, ms: seq<Mutation>)
    requires |ms| == |ns| && forall i | 0 <= i < |ns| :: ms[i] == Delete(ns[i].id)
    ensures ms == Deletes(ns)
  {
  }

  lemma PurgedDrops(t: Tree, root: QueryTreeNode, s: set<QueryTreeNode>, purged: seq<QueryTreeNode>)
    requires Anchored(t, root, s) && NodesOk(t.next, t.nodes) && root in s
    requires forall m | m in s && m != root :: m.parent != null && m.parent in s
    requires (forall m :: m in purged <==> m in DroppedRoots(root, s)) && NoRepeats(purged)
    ensures (forall m | m in s && m != root :: m.xmitted) ==> Drops(Unreferenced(t), Deletes(purged))
    ensures (forall m | m in s && m != root && !Referenced(m) :: !m.xmitted) ==> purged == []
  {
    var ms := Deletes(purged);
    forall m | m in s && m != root && m.xmitted ensures m in purged <==> m.id in Unreferenced(t) {
      assert t.nodes[m.id] == QN(m.parent.id, m.key);
      if m.parent != root { assert t.refs[m.parent.id] == m.parent.refCount && m.parent.id in t.nodes; }
    }
    if forall m | m in s && m != root :: m.xmitted {
      forall i | 0 <= i < |ms| ensures ms[i].Delete? && ms[i].nodeId in Unreferenced(t) { assert purged[i] in purged; }
      forall i, j | 0 <= i < j < |ms| ensures ms[i] != ms[j] { assert purged[i] in purged && purged[j] in purged; }
      forall id | id in Unreferenced(t) ensures Delete(id) in ms {
        var m :| m in s - {root} && m.id == id;
        var i :| 0 <= i < |purged| && purged[i] == m;
        assert ms[i] == Delete(id);
      }
    }
    if (forall m | m in s && m != root && !Referenced(m) :: !m.xmitted) && purged != [] {
      assert purged[0] in purged;
    }
  }

  /** The path of a node is the ids on the way up to the root, reversed. */
  ghost predicate QChained(n: QueryTreeNode)
    decreases |n.path|
  {
    if n.parent == null then n.path == []
    else n.id != 0 && n.path == n.parent.path + [n.id] && QChained(n.parent)
  }

  lemma {:induction false} TreeChained(t: Tree, root: QueryTreeNode, s: set<QueryTreeNode>, bound: nat,
                                       n: QueryTreeNode)
    requires Tied(t, root, s, bound) && NodesOk(t.next, t.nodes) && n in s
    ensures QChained(n)
    decreases |n.path|
  {
    NodeIs(t, root, s, bound, n);
    if n != root { TreeChained(t, root, s, bound, n.parent); }
  }

  ghost predicate Chains(s: set<QueryTreeNode>) {
    forall n | n in s :: QChained(n)
  }

  lemma AllChained(t: Tree, root: QueryTreeNode, s: set<QueryTreeNode>, bound: nat)
    requires Tied(t, root, s, bound) && NodesOk(t.next, t.nodes)
    ensures Chains(s)
  {
    forall n | n in s ensures QChained(n) { TreeChained(t, root, s, bound, n); }
  }

  /** What the purge handlers are given: nodes below the root. */
  ghost predicate Droppable(ns: seq<QueryTreeNode>) {
    forall n | n in ns :: n.parent != null && QChained(n)
  }

  lemma PurgedDroppable(root: QueryTreeNode, s: set<QueryTreeNode>, purged: seq<QueryTreeNode>)
    requires Chains(s) && forall m :: m in purged <==> m in DroppedRoots(root, s)
    ensures Droppable(purged) && forall n | n in purged :: n in s
  {
  }

  /** Nothing is left below a dropped node. */
  lemma DroppedEmpty(root: QueryTreeNode, s: set<QueryTreeNode>, bound: nat, kids: Kids)
    requires ShapeOk(root, s, bound, kids) && root.parent == null
    requires
      forall m | m in s && m != root :: m.parent != null && m.parent in s && (Referenced(m) ==> Referenced(m.parent))
    requires forall m | m in s :: Pruned(m.children, kids[m])
    ensures forall m | m in s && m !in Kept(s) :: m.children == []
  {
    forall m | m in s && m.children != [] ensures m in Kept(s) {
      assert KidsOk(m, s, kids[m]);
      var c := m.children[0];
      assert c in m.children;
      assert c in kids[m] && Referenced(c);
    }
  }

  /** gcSweep on the root, and the mutations sent for what it purged. */
  method Sweep(root: QueryTreeNode, ghost t: Tree, ghost s: set<QueryTreeNode>, ghost bound: nat)
    returns (purged: seq<QueryTreeNode>, muts: seq<Mutation>)
    requires Tied(t, root, s, bound) && FlagsUp(s) && NodesOk(t.next, t.nodes) && RefsClosed(t)
    modifies s`children, s`gcNext
    ensures Tied(Prune(t), root, Kept(s), bound) && Unflagged(s)
    ensures forall m | m in s :: Pruned(m.children, old(m.children))
    ensures forall m | m in s && m !in Kept(s) :: m.children == []
    ensures muts == Deletes(purged) && Droppable(purged) && forall n | n in purged :: n in s
    ensures (forall m | m in s && m != root :: m.xmitted) ==> Drops(Unreferenced(t), muts)
    ensures (forall m | m in s && m != root && !Referenced(m) :: !m.xmitted) ==> muts == []
  {
    hide *;
    LeadFrom(t, root, s, bound);
    AllChained(t, root, s, bound);
    ShapeIff(root, s, bound);
    ghost var kids := KidsNow(s);
    KidsAre(s);
    var referenced;
    referenced, purged := GcSweep(root, s, bound);
    AfterSweep(t, root, s, bound, kids);
    DroppedEmpty(root, s, bound, kids);
    PurgedDroppable(root, s, purged);
    PurgedDrops(t, root, s, purged);
    muts := seq(|purged|, i requires 0 <= i < |purged| => Delete(purged[i].id));
    UnflaggedFrom(s);
    DeletesIs(purged, muts);
    assert |purged| == 0 ==> |muts| == 0;
  }

  lemma KidsAre(s: set<QueryTreeNode>)
    ensures KidsNow(s).Keys == s && forall m | m in s :: KidsNow(s)[m] == m.children
  {
  }

  // ----- announcing

  /** Exactly the nodes from before and those in the first `i` new subtrees have been transmitted. */
  ghost predicate SentUpTo(before: set<QueryTreeNode>, s: set<QueryTreeNode>, root: QueryTreeNode,
                           news: seq<QueryTreeNode>, i: int)
    reads s`xmitted
  {
    && 0 <= i <= |news|
    && forall m | m in s && m != root :: m.xmitted <==> (m in before || InFirst(news, i, m))
  }

  ghost predicate InFirst(news: seq<QueryTreeNode>, i: int, m: QueryTreeNode) {
    exists j :: 0 <= j < i <= |news| && news[j].path <= m.path
  }

  lemma InFirstNext(news: seq<QueryTreeNode>, i: nat, m: QueryTreeNode)
    requires i < |news|
    ensures InFirst(news, i + 1, m) <==> InFirst(news, i, m) || news[i].path <= m.path
  {
    if InFirst(news, i, m) {
      var j :| 0 <= j < i && news[j].path <= m.path;
    }
  }

  /** Parents of nodes that were there before were there before. */
  ghost predicate OldClosed(before: set<QueryTreeNode>, root: QueryTreeNode) {
    forall m {:trigger m.parent} | m in before && m != root :: m.parent in before
  }

  lemma {:induction false} NewDown(root: QueryTreeNode, s: set<QueryTreeNode>, bound: nat, before: set<QueryTreeNode>,
                                   n: QueryTreeNode, m: QueryTreeNode)
    requires SubtreeOk(root, s, bound) && OldClosed(before, root) && n in s && m in s && n.path <= m.path
    requires n !in before
    ensures m == root ==> n == root
    ensures m != root ==> m !in before
    decreases |m.path|
  {
    if m == root {
      assert n.path == root.path;
    } else if m.path == n.path {
      assert m == n;
    } else {
      PrefixOfChild(n.path, m.parent.path, m.id);
      NewDown(root, s, bound, before, n, m.parent);
    }
  }

  lemma MarkReady(root: QueryTreeNode, s: set<QueryTreeNode>, bound: nat, before: set<QueryTreeNode>,
                  news: seq<QueryTreeNode>, i: nat)
    requires SubtreeOk(root, s, bound) && OldClosed(before, root) && SentUpTo(before, s, root, news, i)
    requires i < |news| && news[i] in s && news[i] != root && news[i] !in before
    ensures SubtreeOk(news[i], Below(s, news[i]), bound) && XmitClosed(Below(s, news[i]))
    ensures Below(s, news[i]) <= s - {root}
  {
    var n := news[i];
    var b := Below(s, n);
    BelowOk(root, s, bound, n);
    forall m | m in b ensures m != root { NewDown(root, s, bound, before, n, m); }
    forall m {:trigger m.parent} | m in b && m.parent != null && m.parent in b && m.parent.xmitted ensures m.xmitted {
      NewDown(root, s, bound, before, n, m.parent);
      assert InFirst(news, i, m.parent);
      var j :| 0 <= j < i && news[j].path <= m.parent.path;
      PrefixOfChild(news[j].path, m.parent.path, m.id);
    }
  }

  lemma SentNext(root: QueryTreeNode, s: set<QueryTreeNode>, before: set<QueryTreeNode>, news: seq<QueryTreeNode>,
                 i: nat, was: set<QueryTreeNode>)
    requires i < |news| && was <= s
    requires forall m | m in s && m != root :: m in was <==> (m in before || InFirst(news, i, m))
    requires forall m | m in s && m != root :: m.xmitted <==> (m in was || m in Below(s, news[i]))
    ensures SentUpTo(before, s, root, news, i + 1)
  {
    forall m | m in s && m != root ensures m.xmitted <==> (m in before || InFirst(news, i + 1, m)) {
      InFirstNext(news, i, m);
    }
  }

  lemma SentMeans(before: set<QueryTreeNode>, s: set<QueryTreeNode>, root: QueryTreeNode, news: seq<QueryTreeNode>,
                  i: int)
    requires SentUpTo(before, s, root, news, i)
    ensures forall m | m in s && m != root :: m.xmitted <==> (m in before || InFirst(news, i, m))
  {
  }

  method MarkOne(root: QueryTreeNode, ghost s: set<QueryTreeNode>, ghost bound: nat, ghost before: set<QueryTreeNode>,
                 news: seq<QueryTreeNode>, i: nat)
    requires SubtreeOk(root, s, bound) && OldClosed(before, root) && SentUpTo(before, s, root, news, i)
    requires i < |news| && news[i] in s && news[i] != root && news[i] !in before
    modifies s`xmitted
    ensures SentUpTo(before, s, root, news, i + 1)
  {
    hide *;
    ghost var b := Below(s, news[i]);
    ghost var was := set m | m in s && m.xmitted;
    SentMeans(before, s, root, news, i);
    MarkReady(root, s, bound, before, news, i);
    MarkXmitted(news[i], b, bound);
    SentNext(root, s, before, news, i, was);
  }

  lemma SubNode(t: Tree, root: QueryTreeNode, s: set<QueryTreeNode>, bound: nat, n: QueryTreeNode, m: QueryTreeNode)
    requires Tied(t, root, s, bound) && NodesOk(t.next, t.nodes) && n in s && n != root && m in s
    ensures m in Below(s, n) <==> m.id in Sub(t.nodes, n.id)
    ensures m in Below(s, n) ==> m.parent != null && t.nodes[m.id] == QN(m.parent.id, m.key)
  {
    DescendsIsBelow(t, root, s, bound, m, n);
    NodeIs(t, root, s, bound, m);
    assert n.path != [] && root.path == [];
  }

  /** The wire form of a subtree is exactly the subtree. */
  lemma ProtoIsSub(t: Tree, root: QueryTreeNode, s: set<QueryTreeNode>, bound: nat, n: QueryTreeNode, p: Proto)
    requires Tied(t, root, s, bound) && NodesOk(t.next, t.nodes) && n in s && n != root && n.parent != null
    requires p.id == n.id && p.key == n.key && Stands(FlattenAll(p.id, p.children), Below(s, n) - {n})
    ensures Flatten(n.parent.id, p) == Sub(t.nodes, n.id)
  {
    hide Tied, NodesOk, FlattenAll;
    var f, sub := Flatten(n.parent.id, p), Sub(t.nodes, n.id);
    forall id | id in f ensures id in sub && sub[id] == f[id] {
      var m: QueryTreeNode;
      if id == n.id { m := n; } else { m :| m in Below(s, n) - {n} && m.id == id; }
      SubNode(t, root, s, bound, n, m);
    }
    forall id | id in sub ensures id in f {
      var m := NodeAt(t, root, s, bound, id);
      SubNode(t, root, s, bound, n, m);
      if m != n { assert m in Below(s, n) - {n}; }
    }
  }

  lemma ProtoTidy(t: Tree, root: QueryTreeNode, s: set<QueryTreeNode>, bound: nat, n: QueryTreeNode, p: Proto)
    requires Tied(t, root, s, bound) && NodesOk(t.next, t.nodes) && n in s && n != root && n.parent != null
    requires p.id == n.id && Tidy(p.id, p.children) && p.id !in FlattenAll(p.id, p.children)
    ensures Tidy(n.parent.id, [p])
  {
    NodeIs(t, root, s, bound, n);
    hide Tied;
    TidyOne(n.parent.id, p);
    assert t.nodes[n.id].parent < n.id;
  }

  lemma BuildReady(t: Tree, root: QueryTreeNode, s: set<QueryTreeNode>, bound: nat, n: QueryTreeNode)
    requires Tied(t, root, s, bound) && NodesOk(t.next, t.nodes) && n in s && n != root
    ensures SubtreeOk(n, Below(s, n), bound) && IdsUnique(Below(s, n)) && Ascending(Below(s, n))
    ensures n.parent != null && n.id in t.nodes && t.nodes[n.id].parent == n.parent.id
    ensures SubtreeOk(root, s, bound)
  {
    BelowOk(root, s, bound, n);
    NodeIs(t, root, s, bound, n);
    forall m {:trigger m.parent} | m in Below(s, n) && m.parent != null && m.parent in Below(s, n)
      ensures m.parent.id < m.id
    {
      NodeIs(t, root, s, bound, m);
      NodeIs(t, root, s, bound, m.parent);
    }
  }

  /** One announced root: its parent, and its whole subtree. */
  method AnnounceOne(n: QueryTreeNode, root: QueryTreeNode, ghost t: Tree, ghost s: set<QueryTreeNode>,
                     ghost bound: nat)
    returns (m: Mutation)
    requires Tied(t, root, s, bound) && NodesOk(t.next, t.nodes) && n in s && n != root
    ensures n.id in t.nodes && m.AddChild? && m.node.id == n.id && m.nodeId == t.nodes[n.id].parent
    ensures Flatten(m.nodeId, m.node) == Sub(t.nodes, n.id) && Tidy(m.nodeId, [m.node])
  {
    hide *;
    BuildReady(t, root, s, bound, n);
    var p := BuildProto(n, Below(s, n), bound);
    ProtoIsSub(t, root, s, bound, n, p);
    ProtoTidy(t, root, s, bound, n, p);
    m := AddChild(n.parent.id, p);
  }

  lemma AnnouncesNone(nodes: Nodes, ids: seq<nat>)
    ensures ids[..0] == [] && Announces(nodes, [], [])
  {
  }

  lemma AnnouncesSnoc(nodes: Nodes, added: seq<nat>, ms: seq<Mutation>, id: nat, m: Mutation)
    requires Announces(nodes, added, ms)
    requires id in nodes && m.AddChild? && m.node.id == id && m.nodeId == nodes[id].parent
    requires Flatten(m.nodeId, m.node) == Sub(nodes, id) && Tidy(m.nodeId, [m.node])
    ensures Announces(nodes, added + [id], ms + [m])
  {
  }

  /** What attach sends for its new nodes. */
  method Announce(newNodes: seq<QueryTreeNode>, root: QueryTreeNode, ghost t: Tree, ghost s: set<QueryTreeNode>,
                  ghost bound: nat,
                  ghost before: set<QueryTreeNode>)
    returns (nodeMutation: seq<Mutation>)
    requires Tied(t, root, s, bound) && NodesOk(t.next, t.nodes)
    requires Listed(newNodes, s, root) && OldClosed(before, root) && SentUpTo(before, s, root, newNodes, 0)
    requires forall n | n in newNodes :: n !in before
    modifies s`xmitted
    ensures Tied(t, root, s, bound) && SentUpTo(before, s, root, newNodes, |newNodes|)
    ensures Announces(t.nodes, Ids(newNodes), nodeMutation)
  {
    hide *;
    nodeMutation := [];
    ghost var ids := Ids(newNodes);
    IdsAre(newNodes);
    AnnouncesNone(t.nodes, ids);
    for i := 0 to |newNodes|
      invariant Tied(t, root, s, bound) && SentUpTo(before, s, root, newNodes, i)
      invariant Announces(t.nodes, ids[..i], nodeMutation)
    {
      var n := newNodes[i];
      ListedAt(newNodes, s, root, i);
      assert n in newNodes;
      BuildReady(t, root, s, bound, n);
      MarkOne(root, s, bound, before, newNodes, i);
      var m := AnnounceOne(n, root, t, s, bound);
      AnnouncesSnoc(t.nodes, ids[..i], nodeMutation, n.id, m);
      nodeMutation := nodeMutation + [m];
      assert ids[..i + 1] == ids[..i] + [n.id];
    }
    assert ids[..|newNodes|] == ids;
  }

  lemma IdsAre(ns: seq<QueryTreeNode>)
    ensures |Ids(ns)| == |ns| && forall i | 0 <= i < |ns| :: Ids(ns)[i] == ns[i].id
  {
  }
}
