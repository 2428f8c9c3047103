/** The shape of the client's query tree in the heap, and what it is as a value. */
module QueryTreeShape {
  import opened Messages
  import opened QueryTreeSpec
  import opened QueryTreeNodes
  import opened Lists
  import opened QueryTreeVisit

  function Ids(ns: seq<QueryTreeNode>): seq<nat> {
    seq(|ns|, i requires 0 <= i < |ns| => ns[i].id)
  }

  lemma IdsSnoc(ns: seq<QueryTreeNode>, n: QueryTreeNode)
    ensures Ids(ns + [n]) == Ids(ns) + [n.id]
  {
  }

  /** The heap nodes `s` below `root` are the tree `t`. */
  ghost predicate Tied(t: Tree, root: QueryTreeNode, s: set<QueryTreeNode>, bound: nat)
    reads s`children, s`refCount
  {
    && SubtreeOk(root, s, bound) && IdsUnique(s)
    && root.parent == null && root.id == 0 && root.path == []
    && Stands(t.nodes, s - {root})
    && (forall m :: m in s - {root} ==> t.refs[m.id] == m.refCount)
  }

  // ----- from heap to values

  lemma NodeAt(t: Tree, root: QueryTreeNode, s: set<QueryTreeNode>, bound: nat, id: nat) returns (m: QueryTreeNode)
    requires Tied(t, root, s, bound) && (id == 0 || id in t.nodes)
    ensures m in s && m.id == id
  {
    if id == 0 {
      m := root;
    } else {
      m :| m in s - {root} && m.id == id;
    }
  }

  lemma NodeIs(t: Tree, root: QueryTreeNode, s: set<QueryTreeNode>, bound: nat, m: QueryTreeNode)
    requires Tied(t, root, s, bound) && NodesOk(t.next, t.nodes) && m in s
    ensures m == root <==> m.id == 0
    ensures
      m != root ==> m.parent != null && m.parent in s && m.id in t.nodes && t.nodes[m.id] == QN(m.parent.id, m.key)
    ensures m == root || m.id in t.nodes
  {
  }

  /** A path prefix is an ancestor. */
  lemma {:induction false} DescendsIsBelow(t: Tree, root: QueryTreeNode, s: set<QueryTreeNode>, bound: nat,
                                           m: QueryTreeNode, n: QueryTreeNode)
    requires Tied(t, root, s, bound) && NodesOk(t.next, t.nodes) && m in s && n in s && n != root
    ensures Descends(t.nodes, m.id, n.id) <==> n.path <= m.path
    decreases |m.path|
  {
    NodeIs(t, root, s, bound, m);
    NodeIs(t, root, s, bound, n);
    if m == n {
    } else if m == root {
      assert n.path != [];
    } else {
      DescendsIsBelow(t, root, s, bound, m.parent, n);
      PrefixOfChild(n.path, m.parent.path, m.id);
      assert n.path == m.path ==> n == m;
      assert m.id != n.id;
    }
  }

  /** Any node's part of the tree is a subtree. */
  lemma BelowOk(root: QueryTreeNode, s: set<QueryTreeNode>, bound: nat, n: QueryTreeNode)
    requires SubtreeOk(root, s, bound) && n in s
    ensures SubtreeOk(n, Below(s, n), bound)
  {
    var b := Below(s, n);
    forall m | m in b ensures ChildrenOk(m, b) {
      assert ChildrenOk(m, s);
      forall c | c in m.children ensures c in b { PrefixOfChild(n.path, m.path, c.id); }
    }
    forall m | m in b && m != n
      ensures m.parent != null && m.parent in b && m in m.parent.children && m.path == m.parent.path + [m.id]
    {
      RootOnTop(root, s, bound, n, m);
      PrefixOfChild(n.path, m.parent.path, m.id);
    }
  }

  lemma RootOnTop(root: QueryTreeNode, s: set<QueryTreeNode>, bound: nat, n: QueryTreeNode, m: QueryTreeNode)
    requires SubtreeOk(root, s, bound) && n in s && m in Below(s, n) && m != n
    ensures m != root && m.path != n.path
  {
    assert root.path <= n.path;
  }

  // ----- resolveChild

  lemma NoMatch(t: Tree, root: QueryTreeNode, s: set<QueryTreeNode>, bound: nat, qnode: QueryTreeNode, key: FieldKey)
    requires Tied(t, root, s, bound) && NodesOk(t.next, t.nodes) && qnode in s
    requires forall c :: c in qnode.children ==> c.key != key
    ensures !HasChild(t.nodes, qnode.id, key)
  {
    if HasChild(t.nodes, qnode.id, key) {
      var id :| id in t.nodes && t.nodes[id] == QN(qnode.id, key);
      var m := NodeAt(t, root, s, bound, id);
      NodeIs(t, root, s, bound, m);
    }
  }

  lemma Match(t: Tree, root: QueryTreeNode, s: set<QueryTreeNode>, bound: nat, qnode: QueryTreeNode, c: QueryTreeNode)
    requires Tied(t, root, s, bound) && NodesOk(t.next, t.nodes) && qnode in s && c in qnode.children
    ensures c in s && c != root
    ensures HasChild(t.nodes, qnode.id, c.key) && ChildOf(t.nodes, qnode.id, c.key) == c.id
  {
    assert ChildrenOk(qnode, s);
    NodeIs(t, root, s, bound, c);
    assert t.nodes[c.id] == QN(qnode.id, c.key);
  }

  type Kids = map<QueryTreeNode, seq<QueryTreeNode>>

  /** The shape of a tree whose children lists are `kids`. */
  ghost predicate ShapeOk(root: QueryTreeNode, s: set<QueryTreeNode>, bound: nat, kids: Kids) {
    && root in s && kids.Keys == s
    && (forall m | m in s :: root.path <= m.path && |m.path| <= bound)
    && PathsDiffer(s)
    && (forall m | m in s :: KidsOk(m, s, kids[m]))
    && (forall m {:trigger m.parent} | m in s && m != root :: LinkOk(m, s, kids))
  }

  ghost predicate PathsDiffer(s: set<QueryTreeNode>) {
    forall m, m' {:trigger m.path, m'.path} | m in s && m' in s && m.path == m'.path :: m == m'
  }

  ghost predicate KidsOk(m: QueryTreeNode, s: set<QueryTreeNode>, cs: seq<QueryTreeNode>) {
    (forall c | c in cs :: c in s && c.parent == m && c.path == m.path + [c.id]) && NoRepeats(cs)
  }

  ghost predicate LinkOk(m: QueryTreeNode, s: set<QueryTreeNode>, kids: Kids)
    requires kids.Keys == s
  {
    m.parent != null && m.parent in s && m in kids[m.parent] && m.path == m.parent.path + [m.id]
  }

  ghost function KidsNow(s: set<QueryTreeNode>): Kids
    reads s`children
  {
    map m | m in s :: m.children
  }

  lemma ShapeIff(root: QueryTreeNode, s: set<QueryTreeNode>, bound: nat)
    ensures SubtreeOk(root, s, bound) <==> ShapeOk(root, s, bound, KidsNow(s))
  {
    var kids := KidsNow(s);
    if SubtreeOk(root, s, bound) {
      forall m | m in s ensures KidsOk(m, s, kids[m]) { assert ChildrenOk(m, s); }
      forall m | m in s && m != root ensures LinkOk(m, s, kids) { assert m.parent != null && m.parent in s; }
    }
    if ShapeOk(root, s, bound, kids) {
      forall m | m in s ensures ChildrenOk(m, s) { assert KidsOk(m, s, kids[m]); }
      forall m | m in s && m != root
        ensures m.parent != null && m.parent in s && m in m.parent.children && m.path == m.parent.path + [m.id]
      {
        assert LinkOk(m, s, kids);
      }
    }
  }

  ghost function KidsPushed(kids: Kids, qnode: QueryTreeNode, nod: QueryTreeNode): Kids
    requires qnode in kids
  {
    kids[qnode := kids[qnode] + [nod]][nod := []]
  }

  /** A new node below `qnode`, at the end of its children. */
  lemma PushKeepsShape(root: QueryTreeNode, s: set<QueryTreeNode>, bound: nat, kids: Kids, qnode: QueryTreeNode,
                       nod: QueryTreeNode)
    requires ShapeOk(root, s, bound, kids) && qnode in s && nod !in s
    requires nod.parent == qnode && nod.path == qnode.path + [nod.id] && forall m | m in s :: m.path != nod.path
    ensures ShapeOk(root, s + {nod}, if |nod.path| > bound then |nod.path| else bound,
                    KidsPushed(kids, qnode, nod))
  {
    var s', kids' := s + {nod}, KidsPushed(kids, qnode, nod);
    forall m | m in s' ensures KidsOk(m, s', kids'[m]) {
      if m != nod {
        assert KidsOk(m, s, kids[m]);
        assert nod !in kids[m];
      }
    }
    forall m | m in s' && m != root ensures LinkOk(m, s', kids') {
      if m != nod {
        assert LinkOk(m, s, kids);
      } else {
        assert kids'[qnode][|kids[qnode]|] == nod;
      }
    }
    assert forall m | m in s :: root.path <= m.path;
    assert root.path <= nod.path;
  }

  lemma PathEnds(t: Tree, root: QueryTreeNode, s: set<QueryTreeNode>, bound: nat, m: QueryTreeNode)
    requires Tied(t, root, s, bound) && NodesOk(t.next, t.nodes) && m in s
    ensures m.id < t.next && (m.path != [] ==> m.path[|m.path| - 1] == m.id)
  {
    if m != root {
      assert m in s - {root};
    }
  }

  lemma LastDiffers(p: QPath, q: QPath, next: nat)
    requires q != [] && q[|q| - 1] == next
    requires p != [] ==> p[|p| - 1] < next
    ensures p != q
  {
  }

  lemma StandsPushed(nodes: Nodes, s: set<QueryTreeNode>, nod: QueryTreeNode)
    requires Stands(nodes, s) && nod.id !in nodes && nod.parent != null
    ensures Stands(nodes[nod.id := QN(nod.parent.id, nod.key)], s + {nod})
  {
    var nodes' := nodes[nod.id := QN(nod.parent.id, nod.key)];
    forall id | id in nodes' ensures exists m :: m in s + {nod} && m.id == id {
      if id == nod.id {
        assert nod in s + {nod};
      } else {
        var m :| m in s && m.id == id;
        assert m in s + {nod};
      }
    }
  }

  // ----- the tree

  /** Since `kids` were the children, lists have only grown at their ends, by nodes that are new. */
  ghost predicate GrownFrom(kids: Kids, s: set<QueryTreeNode>)
    reads s`children
  {
    kids.Keys <= s &&
    forall m | m in kids ::
      && kids[m] <= m.children
      && (forall k :: |kids[m]| <= k < |m.children| ==> m.children[k] !in kids)
  }

  /** Nothing is flagged, and exactly the nodes that were there before have been transmitted. */
  ghost predicate Marked(before: set<QueryTreeNode>, s: set<QueryTreeNode>, root: QueryTreeNode)
    reads s`gcNext, s`xmitted
  {
    forall m | m in s :: !m.gcNext && (m != root ==> (m.xmitted <==> m in before))
  }

  /** Nothing is flagged, and every node has been transmitted. */
  ghost predicate Settled(s: set<QueryTreeNode>, root: QueryTreeNode)
    reads s`gcNext, s`xmitted
  {
    forall m | m in s :: !m.gcNext && (m != root ==> m.xmitted)
  }

  lemma GrowOne(kids: Kids, s: set<QueryTreeNode>, now: Kids, qnode: QueryTreeNode, nod: QueryTreeNode)
    requires kids.Keys <= s && now.Keys == s && nod !in s && qnode in s
    requires forall m | m in kids :: kids[m] <= now[m] && (forall k :: |kids[m]| <= k < |now[m]| ==> now[m][k] !in kids)
    requires KidsNow(s + {nod}) == KidsPushed(now, qnode, nod)
    ensures GrownFrom(kids, s + {nod})
  {
    forall m | m in kids
      ensures kids[m] <= m.children && (forall k :: |kids[m]| <= k < |m.children| ==> m.children[k] !in kids)
    {
      assert m.children == KidsNow(s + {nod})[m];
    }
  }

  ghost predicate Listed(ns: seq<QueryTreeNode>, s: set<QueryTreeNode>, root: QueryTreeNode) {
    forall n | n in ns :: n in s && n != root
  }

  lemma ListedSnoc(ns: seq<QueryTreeNode>, s: set<QueryTreeNode>, s': set<QueryTreeNode>, root: QueryTreeNode,
                   n: QueryTreeNode)
    requires Listed(ns, s, root) && s <= s' && n in s' && n != root
    ensures Listed(ns, s', root) && Listed(ns + [n], s', root)
  {
  }

  lemma SelsShrink(sels: seq<Sel>)
    requires sels != []
    ensures SelsSize(sels[0].sels) < SelsSize(sels) && SelsSize(sels[1..]) < SelsSize(sels)
  {
  }

  lemma Append3(a: seq<nat>, b: seq<nat>, c: seq<nat>, d: seq<nat>)
    ensures ((a + b) + c) + d == a + (b + c + d)
    ensures (a + []) == a && ((a + b) + c) == a + (b + c + [])
  {
  }

  /** One more reference. */
  lemma RefsAfter(t: Tree, t': Tree, root: QueryTreeNode, s: set<QueryTreeNode>, bound: nat, n: QueryTreeNode)
    requires SubtreeOk(root, s, bound) && IdsUnique(s) && n in s && n != root
    requires root.parent == null && root.id == 0 && root.path == [] && Stands(t.nodes, s - {root})
    requires t' == t.(refs := t.refs + multiset{n.id})
    requires forall m | m in s && m != root :: m.refCount == t.refs[m.id] + if m == n then 1 else 0
    ensures Tied(t', root, s, bound)
  {
    forall m | m in s - {root} ensures t'.refs[m.id] == m.refCount {
      assert m.id == n.id ==> m == n;
    }
  }

  lemma BeforePush(t: Tree, root: QueryTreeNode, s: set<QueryTreeNode>, bound: nat, qnode: QueryTreeNode, kids: Kids)
    requires Tied(t, root, s, bound) && TreeOk(t) && qnode in s && GrownFrom(kids, s)
    ensures ShapeOk(root, s, bound, KidsNow(s)) && Anchored(t, root, s)
    ensures forall m | m in s :: m.id < t.next && m.path != qnode.path + [t.next]
    ensures t.next !in t.nodes && t.next !in t.refs
    ensures forall m | m in kids :: m in s && kids[m] <= KidsNow(s)[m] &&
              (forall k :: |kids[m]| <= k < |KidsNow(s)[m]| ==> KidsNow(s)[m][k] !in kids)
  {
    ShapeIff(root, s, bound);
    forall m | m in s ensures m.id < t.next && m.path != qnode.path + [t.next] {
      PathEnds(t, root, s, bound, m);
      LastDiffers(m.path, qnode.path + [t.next], t.next);
    }
  }

  /** The heap nodes are the tree `t`, apart from the children lists. */
  ghost predicate Anchored(t: Tree, root: QueryTreeNode, s: set<QueryTreeNode>)
    reads s`refCount
  {
    && IdsUnique(s) && root.parent == null && root.id == 0 && root.path == []
    && Stands(t.nodes, s - {root})
    && (forall m :: m in s - {root} ==> t.refs[m.id] == m.refCount)
  }

  lemma AfterPush(t: Tree, root: QueryTreeNode, s: set<QueryTreeNode>, bound: nat, now: Kids, qnode: QueryTreeNode,
                  nod: QueryTreeNode)
    requires ShapeOk(root, s, bound, now) && Anchored(t, root, s) && qnode in s && nod !in s
    requires forall m | m in s :: m.id < t.next && m.path != nod.path
    requires nod.id == t.next && nod.parent == qnode && nod.path == qnode.path + [nod.id] && nod.refCount == 0
    requires t.next !in t.nodes && t.next !in t.refs
    requires KidsNow(s + {nod}) == KidsPushed(now, qnode, nod)
    ensures Tied(t.(next := t.next + 1, nodes := t.nodes[nod.id := QN(qnode.id, nod.key)]), root, s + {nod},
                 if |nod.path| > bound then |nod.path| else bound)
  {
    hide *;
    PushKeepsShape(root, s, bound, now, qnode, nod);
    ShapeIff(root, s + {nod}, if |nod.path| > bound then |nod.path| else bound);
    AnchoredPushed(t, root, s, qnode, nod);
    TiedFrom(t.(next := t.next + 1, nodes := t.nodes[nod.id := QN(qnode.id, nod.key)]), root, s + {nod},
             if |nod.path| > bound then |nod.path| else bound);
  }

  lemma AnchoredPushed(t: Tree, root: QueryTreeNode, s: set<QueryTreeNode>, qnode: QueryTreeNode, nod: QueryTreeNode)
    requires Anchored(t, root, s) && nod !in s && forall m | m in s :: m.id < t.next
    requires nod.id == t.next && nod.parent == qnode && nod.refCount == 0 && t.next !in t.nodes && t.next !in t.refs
    ensures Anchored(t.(next := t.next + 1, nodes := t.nodes[nod.id := QN(qnode.id, nod.key)]), root, s + {nod})
  {
    assert nod != root;
    StandsPushed(t.nodes, s - {root}, nod);
    hide Stands;
    assert (s + {nod}) - {root} == (s - {root}) + {nod};
  }

  lemma TiedFrom(t: Tree, root: QueryTreeNode, s: set<QueryTreeNode>, bound: nat)
    requires SubtreeOk(root, s, bound) && Anchored(t, root, s)
    ensures Tied(t, root, s, bound)
  {
  }

  lemma KidsAfter(s: set<QueryTreeNode>, now: Kids, qnode: QueryTreeNode, nod: QueryTreeNode)
    requires now.Keys == s && qnode in s && nod !in s && nod.children == []
    requires forall m | m in s :: m.children == if m == qnode then now[m] + [nod] else now[m]
    ensures KidsNow(s + {nod}) == KidsPushed(now, qnode, nod)
  {
  }

  lemma MarkedGrows(before: set<QueryTreeNode>, s: set<QueryTreeNode>, root: QueryTreeNode, nod: QueryTreeNode)
    requires Marked(before, s, root) && before <= s && nod !in s && !nod.gcNext && !nod.xmitted
    ensures Marked(before, s + {nod}, root)
  {
  }
}
