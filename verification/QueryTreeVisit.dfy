/** Marking and serialising subtrees of the client's query tree: client/query-tree-node.ts. */
module QueryTreeVisit {
  import opened Messages
  import opened QueryTreeSpec
  import opened QueryTreeProofs
  import opened QueryTreeNodes
  import opened Lists

  // ----- flagGcNext

  /** flagGcNext: flags the node and every ancestor. */
  method FlagGcNext(n: QueryTreeNode, ghost s: set<QueryTreeNode>, ghost top: QueryTreeNode, ghost bound: nat)
    requires SubtreeOk(top, s, bound) && top.parent == null && n in s
    modifies s`gcNext
    ensures forall m :: m in s ==> m.gcNext == (old(m.gcNext) || m.path <= n.path)
    decreases |n.path|
  {
    n.gcNext := true;
    if n.parent != null {
      assert n != top;
      FlagGcNext(n.parent, s, top, bound);
      forall m | m in s ensures m.gcNext == (old(m.gcNext) || m.path <= n.path) {
        PrefixOfChild(m.path, n.parent.path, n.id);
        assert m.path == n.path ==> m == n;
      }
    } else {
      assert n == top;
      forall m | m in s && m.path <= n.path ensures m == n { assert m.path == n.path; }
    }
  }

  lemma PrefixOfChild(p: QPath, q: QPath, id: nat)
    ensures p <= q + [id] <==> p <= q || p == q + [id]
  {
    if p <= q + [id] && p != q + [id] {
      assert p == (q + [id])[..|p|] == q[..|p|];
    }
    if p <= q { assert p == (q + [id])[..|p|]; }
  }

  // ----- markXmitted

  /** What hangs off a transmitted node has been transmitted. */
  ghost predicate XmitClosed(s: set<QueryTreeNode>)
    reads s`xmitted
  {
    forall m {:trigger m.parent} :: m in s && m.parent != null && m.parent in s && m.parent.xmitted ==> m.xmitted
  }

  lemma {:induction false} XmittedBelow(n: QueryTreeNode, s: set<QueryTreeNode>, bound: nat, m: QueryTreeNode)
    requires SubtreeOk(n, s, bound) && XmitClosed(s) && n.xmitted && m in s
    ensures m.xmitted
    decreases |m.path|
  {
    if m != n { XmittedBelow(n, s, bound, m.parent); }
  }

  /** markXmitted: marks the whole subtree. */
  method MarkXmitted(n: QueryTreeNode, ghost s: set<QueryTreeNode>, ghost bound: nat)
    requires SubtreeOk(n, s, bound) && XmitClosed(s)
    modifies s`xmitted
    ensures forall m :: m in s ==> m.xmitted
    decreases bound - |n.path|, 1
  {
    if n.xmitted {
      forall m | m in s ensures m.xmitted { XmittedBelow(n, s, bound, m); }
      return;
    }
    ghost var rest := s - {n};
    MarkSetup(n, s, bound);
    hide *;
    n.xmitted := true;
    var i := 0;
    while i < |n.children|
      invariant 0 <= i <= |n.children| && n.xmitted
      invariant MarkProgress(rest, n.children, i)
    {
      MarkChild(rest, n.children, i, bound, |n.path|);
      i := i + 1;
    }
    MarkDone(n, s, n.children);
  }

  /** The children of `n` are apart, and the subtrees of the first `i` have been marked. */
  ghost predicate MarkProgress(rest: set<QueryTreeNode>, cs: seq<QueryTreeNode>, i: int)
    reads rest`xmitted
  {
    && 0 <= i <= |cs|
    && (forall k :: 0 <= k < i ==> AllXmitted(Below(rest, cs[k])))
    && (forall k :: i <= k < |cs| ==> XmitClosed(Below(rest, cs[k])))
  }

  ghost predicate ChildrenReady(rest: set<QueryTreeNode>, cs: seq<QueryTreeNode>, bound: nat, depth: nat)
    reads rest`children
  {
    && (forall k :: 0 <= k < |cs| ==>
          && Below(rest, cs[k]) <= rest && SubtreeOk(cs[k], Below(rest, cs[k]), bound)
          && depth < |cs[k].path| <= bound)
    && (forall k, l {:trigger cs[k], cs[l]} ::
      0 <= k < |cs| && 0 <= l < |cs| && k != l ==> Below(rest, cs[k]) !! Below(rest, cs[l]))
  }

  method MarkChild(ghost rest: set<QueryTreeNode>, cs: seq<QueryTreeNode>, i: nat, ghost bound: nat, ghost depth: nat)
    requires i < |cs| && MarkProgress(rest, cs, i) && ChildrenReady(rest, cs, bound, depth)
    modifies rest`xmitted
    ensures MarkProgress(rest, cs, i + 1) && ChildrenReady(rest, cs, bound, depth)
    decreases bound - depth, 0
  {
    MarkXmitted(cs[i], Below(rest, cs[i]), bound);
  }

  lemma MarkSetup(n: QueryTreeNode, s: set<QueryTreeNode>, bound: nat)
    requires SubtreeOk(n, s, bound) && XmitClosed(s)
    ensures n in s && MarkProgress(s - {n}, n.children, 0) && ChildrenReady(s - {n}, n.children, bound, |n.path|)
    ensures ChildrenCover(n, s, n.children)
  {
    KidsOf(n, s, bound, set c | c in n.children);
    assert forall k :: 0 <= k < |n.children| ==> n.children[k] in n.children;
    forall m | m in s && m != n ensures exists k :: 0 <= k < |n.children| && m in Below(s - {n}, n.children[k]) {
      var c :| c in n.children && m in Below(s - {n}, c);
      var k :| 0 <= k < |n.children| && n.children[k] == c;
    }
  }

  ghost predicate ChildrenCover(n: QueryTreeNode, s: set<QueryTreeNode>, cs: seq<QueryTreeNode>) {
    forall m | m in s && m != n :: exists k :: 0 <= k < |cs| && m in Below(s - {n}, cs[k])
  }

  lemma MarkDone(n: QueryTreeNode, s: set<QueryTreeNode>, cs: seq<QueryTreeNode>)
    requires n.xmitted && MarkProgress(s - {n}, cs, |cs|) && ChildrenCover(n, s, cs)
    ensures forall m :: m in s ==> m.xmitted
  {
    forall m | m in s && m != n ensures m.xmitted {
      var k :| 0 <= k < |cs| && m in Below(s - {n}, cs[k]);
      assert AllXmitted(Below(s - {n}, cs[k]));
    }
  }

  ghost predicate AllXmitted(b: set<QueryTreeNode>)
    reads b`xmitted
  {
    forall m :: m in b ==> m.xmitted
  }

  /** The children of `n`, their disjoint subtrees, and nothing else. */
  lemma KidsOf(n: QueryTreeNode, s: set<QueryTreeNode>, bound: nat, kids: set<QueryTreeNode>)
    requires SubtreeOk(n, s, bound) && kids == set c | c in n.children
    ensures n in s && n !in kids && kids <= s - {n} && NoRepeats(n.children)
    ensures forall c | c in kids ::
        SubtreeOk(c, Below(s - {n}, c), bound) && Below(s - {n}, c) <= s - {n} && |n.path| < |c.path| <= bound
    ensures forall c, d | c in kids && d in kids && c != d :: Below(s - {n}, c) !! Below(s - {n}, d)
    ensures forall m | m in s && m != n :: exists c :: c in kids && m in Below(s - {n}, c)
    ensures XmitClosed(s) ==> forall c | c in kids :: XmitClosed(Below(s - {n}, c))
  {
    assert ChildrenOk(n, s);
    forall c | c in kids
      ensures Below(s - {n}, c) == Below(s, c) && SubtreeOk(c, Below(s, c), bound) && |n.path| < |c.path|
    {
      ChildSubtree(n, s, bound, c);
    }
    forall c, d | c in kids && d in kids && c != d ensures Below(s - {n}, c) !! Below(s - {n}, d) {
      ChildrenApart(n, s, bound, c, d);
    }
    forall m | m in s && m != n ensures exists c :: c in kids && m in Below(s - {n}, c) {
      var c := ChildAbove(n, s, bound, m);
    }
  }

  // ----- buildProto

  ghost predicate IdsUnique(s: set<QueryTreeNode>) {
    forall m, m' {:trigger m.id, m'.id} :: m in s && m' in s && m.id == m'.id ==> m == m'
  }

  /** A subtree, without its root, as values. */
  ghost predicate Stands(nodes: Nodes, s: set<QueryTreeNode>) {
    && (forall m | m in s :: m.parent != null && m.id in nodes && nodes[m.id] == QN(m.parent.id, m.key))
    && (forall id | id in nodes :: exists m :: m in s && m.id == id)
  }

  lemma IdsDiffer(s: set<QueryTreeNode>, m: QueryTreeNode, n: QueryTreeNode)
    requires IdsUnique(s) && m in s && n in s && m != n
    ensures m.id != n.id
  {
  }

  lemma IdElsewhere(s: set<QueryTreeNode>, b: Nodes, c: QueryTreeNode, t: set<QueryTreeNode>, m: QueryTreeNode)
    requires Stands(b, t) && IdsUnique(s + t + {c}) && s !! t && c !in s && m in s
    ensures m.id !in b && m.id != c.id
  {
    hide IdsUnique;
    IdsDiffer(s + t + {c}, m, c);
    if m.id in b {
      var n :| n in t && n.id == m.id;
      IdsDiffer(s + t + {c}, m, n);
    }
  }

  lemma StandsJoin(a: Nodes, s: set<QueryTreeNode>, b: Nodes, c: QueryTreeNode, t: set<QueryTreeNode>, pid: nat)
    requires Stands(a, s) && Stands(b, t) && c.parent != null && c.parent.id == pid && IdsUnique(s + t + {c})
    requires s !! t && c !in s && c !in t
    ensures Stands(a + b[c.id := QN(pid, c.key)], s + t + {c})
  {
    hide IdsUnique;
    var r := a + b[c.id := QN(pid, c.key)];
    forall m | m in s ensures m.id in r && r[m.id] == QN(m.parent.id, m.key) {
      IdElsewhere(s, b, c, t, m);
    }
    forall m | m in t ensures m.id != c.id {
      IdsDiffer(s + t + {c}, m, c);
    }
    forall id | id in r ensures exists m :: m in s + t + {c} && m.id == id {
      if id == c.id { assert c in s + t + {c}; }
      else if id in b { var m :| m in t && m.id == id; }
      else { var m :| m in s && m.id == id; }
    }
  }

  /** The nodes in the subtrees of the first `i` children. */
  ghost function Part(rest: set<QueryTreeNode>, cs: seq<QueryTreeNode>, i: nat): set<QueryTreeNode>
    requires i <= |cs|
  {
    if i == 0 then {} else Part(rest, cs, i - 1) + Below(rest, cs[i - 1])
  }

  lemma {:induction false} PartMembers(rest: set<QueryTreeNode>, cs: seq<QueryTreeNode>, i: nat, m: QueryTreeNode)
    requires i <= |cs|
    ensures m in Part(rest, cs, i) <==> exists k :: 0 <= k < i && m in Below(rest, cs[k])
  {
    if i > 0 { PartMembers(rest, cs, i - 1, m); }
  }

  /** Children have larger ids than their parents. */
  ghost predicate Ascending(s: set<QueryTreeNode>) {
    forall m {:trigger m.parent} | m in s && m.parent != null && m.parent in s :: m.parent.id < m.id
  }

  /** buildProto: the wire form of the subtree stands for exactly its nodes, each once. */
  method BuildProto(n: QueryTreeNode, ghost s: set<QueryTreeNode>, ghost bound: nat) returns (p: Proto)
    requires SubtreeOk(n, s, bound) && IdsUnique(s) && Ascending(s)
    ensures p.id == n.id && p.key == n.key
    ensures Stands(FlattenAll(p.id, p.children), s - {n})
    ensures Tidy(p.id, p.children) && p.id !in FlattenAll(p.id, p.children)
    decreases bound - |n.path|
  {
    hide *;
    ghost var rest := s - {n};
    var children := [];
    PartsReady(n, s, bound);
    var i := 0;
    while i < |n.children|
      invariant 0 <= i <= |n.children|
      invariant Stands(FlattenAll(n.id, children), Part(rest, n.children, i)) && Tidy(n.id, children)
    {
      var child := n.children[i];
      ChildReady(n, s, bound, i);
      var c := BuildProto(child, Below(rest, child), bound);
      AddChildProto(n, s, bound, i, children, c);
      AddChildTidy(n, s, bound, i, children, c);
      children := children + [c];
      i := i + 1;
    }
    AllParts(n, s, bound);
    NotItself(n, s, FlattenAll(n.id, children));
    p := Proto(n.id, n.key, children);
  }

  lemma PartsReady(n: QueryTreeNode, s: set<QueryTreeNode>, bound: nat)
    requires SubtreeOk(n, s, bound)
    ensures Stands(FlattenAll(n.id, []), Part(s - {n}, n.children, 0)) && Tidy(n.id, []) && n in s
  {
  }

  lemma ChildReady(n: QueryTreeNode, s: set<QueryTreeNode>, bound: nat, i: nat)
    requires SubtreeOk(n, s, bound) && IdsUnique(s) && i < |n.children|
    ensures var c := n.children[i]; var b := Below(s - {n}, c);
            && SubtreeOk(c, b, bound) && IdsUnique(b) && (Ascending(s) ==> Ascending(b) && n.id < c.id)
            && |n.path| < |c.path| <= bound && c.parent == n && c in b && b <= s - {n}
  {
    KidsOf(n, s, bound, set c | c in n.children);
    assert ChildrenOk(n, s) && n.children[i] in n.children;
  }

  /** One more child serialised. */
  lemma AddChildProto(n: QueryTreeNode, s: set<QueryTreeNode>, bound: nat, i: nat, children: seq<Proto>, c: Proto)
    requires SubtreeOk(n, s, bound) && IdsUnique(s) && i < |n.children|
    requires Stands(FlattenAll(n.id, children), Part(s - {n}, n.children, i))
    requires c.id == n.children[i].id && c.key == n.children[i].key
    requires Stands(FlattenAll(c.id, c.children), Below(s - {n}, n.children[i]) - {n.children[i]})
    ensures Stands(FlattenAll(n.id, children + [c]), Part(s - {n}, n.children, i + 1))
  {
    var child := n.children[i];
    var b := Below(s - {n}, child);
    ChildReady(n, s, bound, i);
    FlattenAppend(n.id, children, c);
    PartApart(n, s, bound, i);
    PartStep(s - {n}, n.children, i);
    StandsJoin(FlattenAll(n.id, children), Part(s - {n}, n.children, i), FlattenAll(c.id, c.children), child,
      b - {child}, n.id);
  }

  lemma IdsApart(a: Nodes, s: set<QueryTreeNode>, b: Nodes, t: set<QueryTreeNode>)
    requires Stands(a, s) && Stands(b, t) && s !! t && IdsUnique(s + t)
    ensures a.Keys !! b.Keys
  {
    forall id | id in a ensures id !in b {
      var m :| m in s && m.id == id;
      forall m' | m' in t ensures m'.id != id { assert m in s + t && m' in s + t; }
    }
  }

  lemma NotItself(n: QueryTreeNode, s: set<QueryTreeNode>, f: Nodes)
    requires n in s && IdsUnique(s) && Stands(f, s - {n})
    ensures n.id !in f
  {
  }

  lemma AddChildTidy(n: QueryTreeNode, s: set<QueryTreeNode>, bound: nat, i: nat, children: seq<Proto>, c: Proto)
    requires SubtreeOk(n, s, bound) && IdsUnique(s) && Ascending(s) && i < |n.children|
    requires Stands(FlattenAll(n.id, children), Part(s - {n}, n.children, i)) && Tidy(n.id, children)
    requires c.id == n.children[i].id && c.key == n.children[i].key
    requires Stands(FlattenAll(c.id, c.children), Below(s - {n}, n.children[i]) - {n.children[i]})
    requires Tidy(c.id, c.children) && c.id !in FlattenAll(c.id, c.children)
    ensures Tidy(n.id, children + [c])
  {
    var child, part := n.children[i], Part(s - {n}, n.children, i);
    var b := Below(s - {n}, child);
    ChildReady(n, s, bound, i);
    PartApart(n, s, bound, i);
    TidyOne(n.id, c);
    hide SubtreeOk, Below, Part;
    StandsWith(FlattenAll(c.id, c.children), b, child, n.id);
    IdsApart(FlattenAll(n.id, children), part, Flatten(n.id, c), b);
    TidyAppend(n.id, children, c);
  }

  lemma StandsWith(f: Nodes, b: set<QueryTreeNode>, c: QueryTreeNode, pid: nat)
    requires Stands(f, b - {c}) && c in b && c.parent != null && c.parent.id == pid && IdsUnique(b)
    ensures Stands(f[c.id := QN(pid, c.key)], b)
  {
    var r := f[c.id := QN(pid, c.key)];
    forall id | id in r ensures exists m :: m in b && m.id == id {
      if id == c.id { assert c in b; } else { var m :| m in b - {c} && m.id == id; }
    }
  }

  lemma PartStep(rest: set<QueryTreeNode>, cs: seq<QueryTreeNode>, i: nat)
    requires i < |cs| && cs[i] in rest
    ensures Part(rest, cs, i + 1) == Part(rest, cs, i) + (Below(rest, cs[i]) - {cs[i]}) + {cs[i]}
  {
    assert cs[i] in Below(rest, cs[i]);
  }

  lemma PartApart(n: QueryTreeNode, s: set<QueryTreeNode>, bound: nat, i: nat)
    requires SubtreeOk(n, s, bound) && i < |n.children|
    ensures Part(s - {n}, n.children, i) !! Below(s - {n}, n.children[i])
    ensures Part(s - {n}, n.children, i) <= s - {n}
  {
    hide SubtreeOk, Below, Part, XmitClosed;
    var kids := set c | c in n.children;
    KidsOf(n, s, bound, kids);
    assert n.children[i] in kids;
    forall m | m in Part(s - {n}, n.children, i) ensures m !in Below(s - {n}, n.children[i]) && m in s - {n} {
      PartMembers(s - {n}, n.children, i, m);
      var k :| 0 <= k < i && m in Below(s - {n}, n.children[k]);
      assert n.children[k] in kids && n.children[k] != n.children[i];
    }
  }

  lemma AllParts(n: QueryTreeNode, s: set<QueryTreeNode>, bound: nat)
    requires SubtreeOk(n, s, bound)
    ensures Part(s - {n}, n.children, |n.children|) == s - {n}
  {
    KidsOf(n, s, bound, set c | c in n.children);
    var part := Part(s - {n}, n.children, |n.children|);
    forall m | m in part ensures m in s - {n} {
      PartMembers(s - {n}, n.children, |n.children|, m);
    }
    forall m | m in s - {n} ensures m in part {
      PartMembers(s - {n}, n.children, |n.children|, m);
      var c :| c in n.children && m in Below(s - {n}, c);
      var k :| 0 <= k < |n.children| && n.children[k] == c;
    }
  }

  // ----- looking up children

  /** lookupChildByID. */
  method LookupChildByID(n: QueryTreeNode, id: nat) returns (r: QueryTreeNode?)
    ensures r == null ==> forall c :: c in n.children ==> c.id != id
    ensures r != null ==> r in n.children && r.id == id
  {
    for i := 0 to |n.children|
      invariant forall k :: 0 <= k < i ==> n.children[k].id != id
    {
      if n.children[i].id == id { return n.children[i]; }
    }
    return null;
  }
}
