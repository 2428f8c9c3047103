/** The client's query tree, in place: client/query-tree.ts. */
module QueryTrees {
  import opened Messages
  import opened QueryTreeSpec
  import opened QueryTreeProofs
  import opened QueryTreeNodes
  import opened QueryTreeVisit
  import opened QueryTreeShape
  import opened QueryTreeSweep
  import opened QueryTreeReplica
  import opened QueryTreeHistory
  import QueryMaps

  /** The attached queries hold the references the values say. */
  ghost predicate QueriesOk(attached: map<nat, seq<QueryTreeNode>>, queries: seq<seq<nat>>, s: set<QueryTreeNode>,
                            root: QueryTreeNode)
  {
    && (forall q | q in attached :: q < |queries| && Ids(attached[q]) == queries[q] && Listed(attached[q], s, root))
    && (forall q | 0 <= q < |queries| && q !in attached :: queries[q] == [])
  }

  /** Swept nodes have nothing below them any more, and their ids are not in use. */
  ghost predicate DroppedOk(dropped: set<QueryTreeNode>, s: set<QueryTreeNode>, t: Tree)
    reads dropped`children
  {
    dropped !! s && forall m | m in dropped ::
      m.children == [] && m.path != [] && m.path[|m.path| - 1] == m.id && m.id < t.next && m.id !in t.nodes
  }

  class QueryTree {
    const root: QueryTreeNode
    var nextID: nat
    var nextQueryID: nat
    var attachedQueries: map<nat, seq<QueryTreeNode>>

    /** The nodes of the tree, a bound on their depth, and the tree and the queries as values. */
    ghost var nodes: set<QueryTreeNode>
    ghost var bound: nat
    ghost var tree: Tree
    ghost var queries: seq<seq<nat>>
    /** Nodes that were swept. */
    ghost var dropped: set<QueryTreeNode>

    ghost predicate Shaped()
      reads this`tree, this`nodes, this`bound, this`nextID, nodes`children, nodes`refCount
    {
      Tied(tree, root, nodes, bound) && tree.next == nextID
    }

    ghost predicate Walking(kids: Kids)
      reads this`tree, this`nodes, this`bound, this`nextID, nodes
    {
      Shaped() && TreeOk(tree) && GrownFrom(kids, nodes) && Marked(kids.Keys, nodes, root)
    }

    /** Between operations. */
    ghost predicate Valid()
      reads this, nodes, dropped
    {
      && Shaped() && ClientOk(View())
      && Settled(nodes, root)
      && nextQueryID == |queries| && QueriesOk(attachedQueries, queries, nodes, root)
      && DroppedOk(dropped, nodes, tree)
    }

    ghost function View(): Client
      reads this
    {
      Client(tree, queries)
    }

    constructor ()
      ensures Valid() && View() == NEW_CLIENT
      ensures fresh(nodes)
    {
      var r := new QueryTreeNode(0, FieldKey("", map[]), null);
      root := r;
      nextID, nextQueryID, attachedQueries := 1, 1, map[];
      nodes, bound, tree, queries, dropped := {r}, 0, NEW_CLIENT.tree, NEW_CLIENT.queries, {};
      new;
      assert nodes - {root} == {};
      assert Held(queries) == multiset{} by { assert tree == NEW_CLIENT.tree && queries[..0] == []; }
    }

    /** The first child with that name and those arguments. */
    method FindChild(qnode: QueryTreeNode, key: FieldKey) returns (child: QueryTreeNode?)
      requires Shaped() && NodesOk(nextID, tree.nodes) && qnode in nodes
      ensures child == null ==> !HasChild(tree.nodes, qnode.id, key)
      ensures child != null ==> child in nodes && child != root
      ensures child != null ==> HasChild(tree.nodes, qnode.id, key) && ChildOf(tree.nodes, qnode.id, key) == child.id
    {
      hide *;
      RefsBefore(this);
      TiedAgain(this);
      for i := 0 to |qnode.children|
        invariant forall k :: 0 <= k < i ==> qnode.children[k].key != key
      {
        if qnode.children[i].key == key {
          child := qnode.children[i];
          Match(tree, root, nodes, bound, qnode, child);
          return;
        }
      }
      NoMatch(tree, root, nodes, bound, qnode, key);
      return null;
    }

    /** A new child at the end of the children. */
    method AllocChild(qnode: QueryTreeNode, key: FieldKey, ghost kids: Kids) returns (child: QueryTreeNode)
      requires Walking(kids) && qnode in nodes
      modifies this`nextID, this`nodes, this`bound, this`tree, qnode`children
      ensures Shaped() && fresh(child) && nodes == old(nodes) + {child} && child != root
      ensures child.id == old(tree).next
      ensures
        tree == old(tree).(next := old(tree).next + 1, nodes := old(tree).nodes[old(tree).next := QN(qnode.id, key)])
      ensures GrownFrom(kids, nodes) && Marked(kids.Keys, nodes, root)
    {
      hide *;
      ghost var s, t, now := nodes, tree, KidsNow(nodes);
      WalkingMeans(this, kids);
      BeforePush(t, root, s, bound, qnode, kids);
      child := new QueryTreeNode(nextID, key, qnode);
      nextID := nextID + 1;
      qnode.children := qnode.children + [child];
      ghost var b := bound;
      nodes := s + {child};
      tree := tree.(next := nextID, nodes := tree.nodes[child.id := QN(qnode.id, key)]);
      bound := if |child.path| > bound then |child.path| else bound;
      KidsAfter(s, now, qnode, child);
      MarkedGrows(kids.Keys, s, root, child);
      AfterPush(t, root, s, b, now, qnode, child);
      GrowOne(kids, s, now, qnode, child);
      TiedIsShaped(this);
    }

    /** resolveChild, once the schema has resolved the field: the child with that name and those
        arguments, or a new one. */
    method ResolveChild(qnode: QueryTreeNode, key: FieldKey, ghost kids: Kids) returns (child: QueryTreeNode)
      requires Walking(kids) && qnode in nodes
      modifies this`nextID, this`nodes, this`bound, this`tree, qnode`children
      ensures Shaped() && child in nodes && child != root
      ensures child.id == Resolve(old(tree), qnode.id, key).0 && tree == Resolve(old(tree), qnode.id, key).1
      ensures GrownFrom(kids, nodes) && Marked(kids.Keys, nodes, root)
      ensures old(nodes) <= nodes && fresh(nodes - old(nodes))
    {
      var found := FindChild(qnode, key);
      if found == null {
        child := AllocChild(qnode, key, kids);
      } else {
        child := found;
      }
    }

    /** Entering a field: the child it resolves to, with one more reference. */
    method Enter(qnode: QueryTreeNode, key: FieldKey, ghost kids: Kids)
      returns (child: QueryTreeNode, wasUnreferenced: bool)
      requires Walking(kids) && qnode in nodes
      modifies this`nextID, this`nodes, this`bound, this`tree, nodes`children, nodes`refCount
      ensures Walking(kids) && child in nodes && child != root
      ensures old(nodes) <= nodes && fresh(nodes - old(nodes))
      ensures child.id == Resolve(old(tree), qnode.id, key).0
      ensures tree == Resolve(old(tree), qnode.id, key).1.(refs := old(tree).refs + multiset{child.id})
      ensures wasUnreferenced <==> child.id !in old(tree).refs
    {
      hide *;
      ghost var t := tree;
      EnterFacts(this, kids, qnode, key);
      child := ResolveChild(qnode, key, kids);
      ghost var r := tree;
      ShapedRefs(this, child);
      wasUnreferenced := child.refCount == 0;
      RefsBefore(this);
      child.refCount := child.refCount + 1;
      tree := tree.(refs := tree.refs + multiset{child.id});
      RefsAfter(r, tree, root, nodes, bound, child);
      EnteredIsWalking(this, kids);
    }

    /** The visitor of attach, entering a field. */
    method EnterField(qnode: QueryTreeNode, key: FieldKey, newNodeDepth: nat, newNodes: seq<QueryTreeNode>,
                      qtNodes: seq<QueryTreeNode>, ghost kids: Kids)
      returns (child: QueryTreeNode, newNodeDepth': nat, newNodes': seq<QueryTreeNode>, qtNodes': seq<QueryTreeNode>)
      requires Walking(kids) && qnode in nodes
      requires Listed(newNodes, nodes, root) && Listed(qtNodes, nodes, root)
      modifies this`nextID, this`nodes, this`bound, this`tree, nodes`children, nodes`refCount
      ensures Walking(kids) && old(nodes) <= nodes && fresh(nodes - old(nodes)) && child in nodes
      ensures Listed(newNodes', nodes, root) && Listed(qtNodes', nodes, root)
      ensures child.id == Resolve(old(tree), qnode.id, key).0
      ensures tree == Resolve(old(tree), qnode.id, key).1.(refs := old(tree).refs + multiset{child.id})
      ensures newNodeDepth' > 0 <==> newNodeDepth > 0 || child.id !in old(tree).refs
      ensures
        Ids(newNodes') == Ids(newNodes) + if child.id !in old(tree).refs && newNodeDepth == 0 then [child.id] else []
      ensures Ids(qtNodes') == Ids(qtNodes) + [child.id]
    {
      hide *;
      var wasUnreferenced;
      child, wasUnreferenced := Enter(qnode, key, kids);
      newNodeDepth', newNodes' := newNodeDepth, newNodes;
      IdsSnoc(newNodes, child);
      IdsSnoc(qtNodes, child);
      ListedSnoc(newNodes, old(nodes), nodes, root, child);
      ListedSnoc(qtNodes, old(nodes), nodes, root, child);
      if wasUnreferenced && newNodeDepth == 0 {
        newNodes' := newNodes' + [child];
        newNodeDepth' := newNodeDepth' + 1;
      } else if newNodeDepth > 0 {
        newNodeDepth' := newNodeDepth' + 1;
      }
      qtNodes' := qtNodes + [child];
    }

    /** The visitor of attach over sibling selections. A field that does not resolve stops it. */
    method Visit(qnode: QueryTreeNode, sels: seq<Sel>, newNodeDepth: nat, newNodes: seq<QueryTreeNode>,
                 qtNodes: seq<QueryTreeNode>, qme: QueryMap, ghost kids: Kids)
      returns (newNodes': seq<QueryTreeNode>, qtNodes': seq<QueryTreeNode>, qme': QueryMap, failed: bool)
      requires Walking(kids) && qnode in nodes
      requires Listed(newNodes, nodes, root) && Listed(qtNodes, nodes, root)
      modifies this`nextID, this`nodes, this`bound, this`tree, nodes`children, nodes`refCount
      ensures Walking(kids) && old(nodes) <= nodes && fresh(nodes - old(nodes))
      ensures Listed(newNodes', nodes, root) && Listed(qtNodes', nodes, root)
      ensures
        var w := Walk(old(tree), qnode.id, sels, newNodeDepth > 0);
        && tree == w.tree && failed == w.failed
        && Ids(qtNodes') == Ids(qtNodes) + w.occ && Ids(newNodes') == Ids(newNodes) + w.added
      ensures !failed ==> qme' == MapWalk(old(tree), qnode.id, sels, newNodeDepth > 0, qme)
      decreases SelsSize(sels)
    {
      hide *;
      if sels == [] || !sels[0].ok {
        WalkStops(tree, qnode.id, sels, newNodeDepth > 0);
        QueryMaps.MapEnds(tree, qnode.id, sels, newNodeDepth > 0, qme);
        return newNodes, qtNodes, qme, sels != [];
      }
      SelsShrink(sels);
      ghost var t := tree;
      ghost var id, t2, below, rest := WalkStep(t, qnode.id, sels, newNodeDepth > 0);
      var child, depth;
      child, depth, newNodes', qtNodes' := EnterField(qnode, sels[0].key, newNodeDepth, newNodes, qtNodes, kids);
      ghost var inner := QueryMaps.Built(t2, id, sels[0].sels, newNodeDepth > 0 || id !in t.refs);
      QueryMaps.MapUnfold(t, qnode.id, sels, newNodeDepth > 0, qme, id, t2, below,
                QueryMapElem(sels[0].alias, if sels[0].sels == [] then None else Some(inner)));
      QueryMaps.BuiltIs(t2, id, sels[0].sels, newNodeDepth > 0 || id !in t.refs);
      var childQm := QueryMap(map[]);
      newNodes', qtNodes', childQm, failed := Visit(child, sels[0].sels, depth, newNodes', qtNodes', childQm, kids);
      qme' := QueryMap(qme.elems[child.id :=
        QueryMapElem(sels[0].alias, if sels[0].sels == [] then None else Some(childQm))]);
      if !failed {
        newNodes', qtNodes', qme', failed := Visit(qnode, sels[1..], newNodeDepth, newNodes', qtNodes', qme', kids);
      }
      Append3(Ids(qtNodes), [id], below.occ, rest.occ);
      Append3(Ids(newNodes), if id !in t.refs && newNodeDepth == 0 then [id] else [], below.added, rest.added);
    }

    /** The query did not resolve: everything it did is undone. */
    method Abandon(qtNodes: seq<QueryTreeNode>, ghost t0: Tree, ghost sels: seq<Sel>, ghost kids: Kids)
      returns (muts: seq<Mutation>)
      requires Walking(kids) && Listed(qtNodes, nodes, root) && Before(t0, root, kids)
      requires tree == Walk(t0, 0, sels, false).tree && Ids(qtNodes) == Walk(t0, 0, sels, false).occ
      modifies this`tree, this`nodes, nodes`children, nodes`refCount, nodes`gcNext
      ensures Shaped() && tree == Release(old(tree), Ids(qtNodes)) && Settled(nodes, root)
      ensures nodes == kids.Keys && forall m | m in nodes :: m.children == kids[m]
      ensures muts == []
    {
      hide *;
      WalkingMeans(this, kids);
      ghost var t1 := Release(tree, Ids(qtNodes));
      ReleaseIs(tree, Ids(qtNodes));
      muts := Undo(qtNodes, root, tree, t0, sels, nodes, bound, kids);
      Becomes(t1, kids.Keys);
    }

    /** The query resolved: its new nodes are announced. */
    method Commit(newNodes: seq<QueryTreeNode>, ghost t0: Tree, ghost sels: seq<Sel>, ghost kids: Kids)
      returns (muts: seq<Mutation>)
      requires Walking(kids) && Listed(newNodes, nodes, root) && Before(t0, root, kids)
      requires tree == Walk(t0, 0, sels, false).tree && Ids(newNodes) == Walk(t0, 0, sels, false).added
      modifies this`tree, this`nodes, nodes`children, nodes`gcNext, nodes`xmitted
      ensures Shaped() && tree == old(tree) && nodes == old(nodes) && Settled(nodes, root)
      ensures Announces(tree.nodes, Ids(newNodes), muts)
    {
      hide *;
      ghost var s, before := nodes, kids.Keys;
      WalkingMeans(this, kids);
      BeforeMeans(t0, root, kids);
      WalkFlags(tree, root, s, bound, before);
      NewNodesNew(t0, sels, root, s, bound, newNodes, kids);
      SentNone(before, s, root, newNodes);
      var purged, dels;
      muts := Announce(newNodes, root, tree, s, bound, before);
      AllSent(t0, sels, root, s, bound, newNodes, kids);
      FlagsUpMeans(s);
      purged, dels := Sweep(root, tree, s, bound);
      NothingDropped(tree, root, s, dels);
      SettledFrom(root, s, s);
      assert muts + [] == muts;
      muts := muts + dels;
      Becomes(Prune(tree), Kept(s));
    }

    /** buildQuery: a new query, attached. Failing leaves the tree as it was, including the order of
        children, and sends nothing. */
    method BuildQuery(sels: seq<Sel>) returns (queryId: nat, failed: bool, muts: seq<Mutation>, qmap: QueryMap)
      requires Valid()
      modifies this`nextID, this`nextQueryID, this`attachedQueries, this`nodes, this`bound, this`tree, this`queries,
               nodes`children, nodes`refCount, nodes`gcNext, nodes`xmitted
      ensures Valid() && old(nodes) <= nodes && fresh(nodes - old(nodes)) && dropped == old(dropped)
      ensures queryId == |old(queries)| && View() == Apply(old(View()), Attach(sels))
      ensures Emits(old(View()), Attach(sels), muts)
      ensures failed == Walk(old(tree), 0, sels, false).failed
      ensures !failed ==> qmap == MapWalk(old(tree), 0, sels, false, QueryMap(map[]))
      ensures failed ==>
          && nodes == old(nodes)
          && forall m | m in nodes :: m.children == old(m.children) && (m != root ==> m.refCount == old(m.refCount))
    {
      hide *;
      ghost var t0, qs, s, kids := tree, queries, nodes, KidsNow(nodes);
      WalkStarts(this);
      KidsAre(s);
      queryId := nextQueryID;
      nextQueryID := nextQueryID + 1;
      var newNodes, qtNodes;
      newNodes, qtNodes, qmap, failed := Visit(root, sels, 0, [], [], QueryMap(map[]), kids);
      ghost var w := Walk(t0, 0, sels, false);
      assert [] + w.occ == w.occ && [] + w.added == w.added;
      if failed {
        muts := Abandon(qtNodes, t0, sels, kids);
        queries := queries + [[]];
        FailureRefs(this, t0, sels);
      } else {
        muts := Commit(newNodes, t0, sels, kids);
        attachedQueries := attachedQueries[queryId := qtNodes];
        queries := queries + [Ids(qtNodes)];
      }
      AttachValue(Client(t0, qs), sels, tree, queries, muts);
      QueriesAttached(old(attachedQueries), qs, s, nodes, root, qtNodes);
      DroppedStill(dropped, s, t0, nodes, tree, sels);
      ValidFrom(this);
    }

    /** detach: the query's references are given up, and what nothing references any more is swept. */
    method DetachQuery(queryId: nat) returns (purged: seq<QueryTreeNode>, muts: seq<Mutation>)
      requires Valid()
      modifies this`attachedQueries, this`nodes, this`tree, this`queries, this`dropped, nodes`children, nodes`refCount,
        nodes`gcNext
      ensures Valid() && nodes <= old(nodes) && View() == Apply(old(View()), Detach(queryId))
      ensures nodes + dropped == old(nodes) + old(dropped)
      ensures Emits(old(View()), Detach(queryId), muts) && muts == Deletes(purged)
      ensures Droppable(purged) && forall n | n in purged :: n in old(nodes)
    {
      hide *;
      ghost var t, qs, s, attached := tree, queries, nodes, attachedQueries;
      DetachStarts(this, queryId);
      if queryId !in attachedQueries {
        NonePurged();
        return [], [];
      }
      var qtNodes := attachedQueries[queryId];
      ghost var t1 := t.(refs := t.refs - multiset(qs[queryId]));
      purged, muts := LetGo(qtNodes, root, t, s, bound);
      ghost var kept := Kept(s);
      DetachValue(Client(t, qs), queryId, muts);
      QueriesDetached(attached, qs, t1, root, s, kept, queryId);
      DroppedMore(dropped, s, t, root, bound, qs[queryId], kept);
      Forget(queryId, Prune(t1), kept, dropped + (s - kept));
    }

    /** The query is no longer attached, and these are the tree, its nodes and the swept ones. */
    method Forget(queryId: nat, ghost t: Tree, ghost s: set<QueryTreeNode>, ghost swept: set<QueryTreeNode>)
      requires Tied(t, root, s, bound) && t.next == nextID && Settled(s, root) && queryId < |queries|
      requires nextQueryID == |queries|
      requires ClientOk(Client(t, queries[queryId := []]))
      requires QueriesOk(attachedQueries - {queryId}, queries[queryId := []], s, root)
      requires DroppedOk(swept, s, t)
      modifies this`attachedQueries, this`nodes, this`tree, this`queries, this`dropped
      ensures Valid() && View() == Client(t, old(queries)[queryId := []]) && nodes == s && dropped == swept
    {
      hide *;
      attachedQueries := attachedQueries - {queryId};
      queries := queries[queryId := []];
      tree, nodes, dropped := t, s, swept;
      TiedIsShaped(this);
      ValidFrom(this);
    }

    /** From here on these are the tree and its nodes. */
    ghost method Becomes(t: Tree, s: set<QueryTreeNode>)
      requires Tied(t, root, s, bound) && t.next == nextID && Settled(s, root)
      modifies this`tree, this`nodes
      ensures tree == t && nodes == s && Shaped() && Settled(nodes, root)
    {
      tree, nodes := t, s;
    }
  }

  lemma WalkStops(t: Tree, parent: nat, sels: seq<Sel>, inNew: bool)
    requires sels == [] || !sels[0].ok
    ensures Walk(t, parent, sels, inNew) == Walked(t, [], [], sels != [])
  {
  }

  lemma EnterFacts(q: QueryTree, kids: Kids, qnode: QueryTreeNode, key: FieldKey)
    requires q.Walking(kids) && qnode in q.nodes
    ensures TreeOk(Resolve(q.tree, qnode.id, key).1.(refs := q.tree.refs + multiset{Resolve(q.tree, qnode.id, key).0}))
    ensures Resolve(q.tree, qnode.id, key).1.refs == q.tree.refs
    ensures kids.Keys <= q.nodes
  {
    if qnode.id != 0 { NodeIs(q.tree, q.root, q.nodes, q.bound, qnode); }
    ResolveFacts(q.tree, qnode.id, key);
  }

  lemma ShapedRefs(q: QueryTree, n: QueryTreeNode)
    requires q.Shaped() && n in q.nodes && n != q.root
    ensures n.refCount == q.tree.refs[n.id]
  {
  }

  lemma TiedAgain(q: QueryTree)
    requires q.Shaped()
    ensures Tied(q.tree, q.root, q.nodes, q.bound) && q.tree.next == q.nextID
  {
  }

  lemma RefsBefore(q: QueryTree)
    requires q.Shaped()
    ensures SubtreeOk(q.root, q.nodes, q.bound) && Anchored(q.tree, q.root, q.nodes) && q.tree.next == q.nextID
    ensures forall m | m in q.nodes && m != q.root :: m.refCount == q.tree.refs[m.id]
  {
  }

  lemma EnteredIsWalking(q: QueryTree, kids: Kids)
    requires Tied(q.tree, q.root, q.nodes, q.bound) && q.tree.next == q.nextID && TreeOk(q.tree)
    requires GrownFrom(kids, q.nodes) && Marked(kids.Keys, q.nodes, q.root)
    ensures q.Walking(kids)
  {
  }

  lemma WalkingMeans(q: QueryTree, kids: Kids)
    requires q.Walking(kids)
    ensures Tied(q.tree, q.root, q.nodes, q.bound) && q.tree.next == q.nextID && TreeOk(q.tree)
    ensures GrownFrom(kids, q.nodes) && Marked(kids.Keys, q.nodes, q.root) && kids.Keys <= q.nodes
    ensures KidsNow(q.nodes).Keys == q.nodes && forall m | m in q.nodes :: m.children == KidsNow(q.nodes)[m]
  {
  }

  lemma TiedIsShaped(q: QueryTree)
    requires Tied(q.tree, q.root, q.nodes, q.bound) && q.tree.next == q.nextID
    ensures q.Shaped()
  {
  }

  /** The tree before a walk: `kids` were its children lists. */
  ghost predicate Before(t0: Tree, root: QueryTreeNode, kids: Kids) {
    && TreeOk(t0) && Stands(t0.nodes, kids.Keys - {root}) && OldClosed(kids.Keys, root) && root in kids
    && Inside(kids)
  }

  lemma BeforeMeans(t0: Tree, root: QueryTreeNode, kids: Kids)
    requires Before(t0, root, kids)
    ensures TreeOk(t0) && OldClosed(kids.Keys, root) && root in kids && Inside(kids)
  {
  }

  lemma AbandonFacts(t0: Tree, sels: seq<Sel>)
    requires TreeOk(t0)
    ensures var w := Walk(t0, 0, sels, false);
            var t1 := w.tree.(refs := w.tree.refs - multiset(w.occ));
            && multiset(w.occ) <= w.tree.refs && t1.refs == t0.refs
            && NodesOk(t1.next, t1.nodes) && RefsClosed(t1)
  {
    WalkFacts(t0, 0, sels, false);
  }

  /** After a walk nothing is flagged, and everything is referenced. */
  lemma WalkFlags(t: Tree, root: QueryTreeNode, s: set<QueryTreeNode>, bound: nat, before: set<QueryTreeNode>)
    requires Tied(t, root, s, bound) && TreeOk(t) && Marked(before, s, root)
    ensures FlagsUp(s) && Unflagged(s) && NodesOk(t.next, t.nodes) && RefsClosed(t)
    ensures forall m | m in s && m != root :: m.xmitted <==> m in before
    ensures forall m | m in s :: Referenced(m)
  {
  }

  lemma GrownMeans(kids: Kids, s: set<QueryTreeNode>)
    requires GrownFrom(kids, s)
    ensures kids.Keys <= s && GrownAtEnds(kids, KidsNow(s))
  {
  }

  /** Once the references are given up, exactly the nodes from before are referenced. */
  lemma NewUnreferenced(t0: Tree, t1: Tree, root: QueryTreeNode, s: set<QueryTreeNode>, bound: nat, kids: Kids)
    requires Tied(t1, root, s, bound) && Before(t0, root, kids) && t1.refs == t0.refs && kids.Keys <= s
    ensures forall m | m in s :: Referenced(m) <==> m in kids
    ensures Kept(s) == kids.Keys
  {
    forall m | m in s ensures Referenced(m) <==> m in kids {
      if m != root {
        assert m.parent != null;
        if m.id in t0.nodes {
          var m0 :| m0 in kids.Keys - {root} && m0.id == m.id;
          assert m0 == m;
        }
      }
    }
  }

  /** Children lists hold nodes of the tree. */
  ghost predicate Inside(kids: Kids) {
    forall m, c | m in kids && c in kids[m] :: c in kids
  }

  lemma KidsInside(t: Tree, root: QueryTreeNode, s: set<QueryTreeNode>, bound: nat)
    requires Tied(t, root, s, bound)
    ensures Inside(KidsNow(s))
  {
    forall m, c | m in s && c in m.children ensures c in s { assert ChildrenOk(m, s); }
  }

  /** Lists have only grown at their ends, by nodes that are new. */
  ghost predicate GrownAtEnds(kids: Kids, grown: Kids) {
    forall m | m in kids ::
      m in grown && kids[m] <= grown[m] && forall k :: |kids[m]| <= k < |grown[m]| ==> grown[m][k] !in kids
  }

  /** Sweeping what a walk added to the ends of the children gives the children before it. */
  lemma ChildrenAsBefore(s: set<QueryTreeNode>, kids: Kids, grown: Kids)
    requires kids.Keys <= s && grown.Keys == s && Inside(kids) && Inside(grown) && GrownAtEnds(kids, grown)
    requires forall m | m in s :: Referenced(m) <==> m in kids
    requires forall m | m in s :: Pruned(m.children, grown[m])
    ensures forall m | m in kids :: m.children == kids[m]
  {
    forall m | m in kids ensures m.children == kids[m] {
      var k := |kids[m]|;
      forall i | 0 <= i < k ensures grown[m][i] in grown[m] && Referenced(grown[m][i]) {
        assert grown[m][i] == kids[m][i];
      }
      assert ReferencedFirst(grown[m], k);
    }
  }

  /** Gives up what a failed walk referenced, and sweeps what it added. */
  method Undo(qtNodes: seq<QueryTreeNode>, root: QueryTreeNode, ghost t: Tree, ghost t0: Tree, ghost sels: seq<Sel>,
              ghost s: set<QueryTreeNode>, ghost bound: nat, ghost kids: Kids)
    returns (muts: seq<Mutation>)
    requires Tied(t, root, s, bound) && TreeOk(t) && GrownFrom(kids, s) && Marked(kids.Keys, s, root)
    requires Listed(qtNodes, s, root) && Before(t0, root, kids)
    requires t == Walk(t0, 0, sels, false).tree && Ids(qtNodes) == Walk(t0, 0, sels, false).occ
    modifies s`children, s`refCount, s`gcNext
    ensures Tied(Release(t, Ids(qtNodes)), root, kids.Keys, bound) && Settled(kids.Keys, root)
    ensures forall m | m in kids :: m.children == kids[m]
    ensures muts == []
  {
    hide *;
    ghost var grown := KidsNow(s);
    KidsAre(s);
    KidsInside(t, root, s, bound);
    BeforeMeans(t0, root, kids);
    AbandonFacts(t0, sels);
    WalkFlags(t, root, s, bound, kids.Keys);
    GrownMeans(kids, s);
    ghost var t1 := t.(refs := t.refs - multiset(Ids(qtNodes)));
    var gcSweep := ReleaseRefs(qtNodes, root, t, s, bound);
    NewUnreferenced(t0, t1, root, s, bound, kids);
    var purged;
    purged, muts := Sweep(root, t1, s, bound);
    ChildrenAsBefore(s, kids, grown);
    ReleaseIs(t, Ids(qtNodes));
    SettledFrom(root, s, kids.Keys);
  }

  lemma ReleaseIs(t: Tree, occ: seq<nat>)
    ensures Release(t, occ) == Prune(t.(refs := t.refs - multiset(occ)))
    ensures Release(t, occ).next == t.next
  {
  }

  lemma SettledFrom(root: QueryTreeNode, s: set<QueryTreeNode>, before: set<QueryTreeNode>)
    requires Unflagged(s) && before <= s && forall m | m in s && m != root :: m.xmitted <==> m in before
    ensures Settled(before, root)
  {
  }

  /** What attach lists as new is new. */
  lemma NewNodesNew(t0: Tree, sels: seq<Sel>, root: QueryTreeNode, s: set<QueryTreeNode>, bound: nat,
                    newNodes: seq<QueryTreeNode>, kids: Kids)
    requires Before(t0, root, kids) && Ids(newNodes) == Walk(t0, 0, sels, false).added && Listed(newNodes, s, root)
    ensures forall n | n in newNodes :: n !in kids
  {
    WalkGrows(t0, sels);
    forall n | n in newNodes ensures n !in kids {
      var i :| 0 <= i < |newNodes| && newNodes[i] == n;
      assert Ids(newNodes)[i] == n.id && n.id in Walk(t0, 0, sels, false).added;
    }
  }

  lemma SentNone(before: set<QueryTreeNode>, s: set<QueryTreeNode>, root: QueryTreeNode, news: seq<QueryTreeNode>)
    requires forall m | m in s && m != root :: m.xmitted <==> m in before
    ensures SentUpTo(before, s, root, news, 0)
  {
  }

  /** Every node is below an announced one, or was there before. */
  lemma AllSent(t0: Tree, sels: seq<Sel>, root: QueryTreeNode, s: set<QueryTreeNode>, bound: nat,
                newNodes: seq<QueryTreeNode>, kids: Kids)
    requires Before(t0, root, kids) && Tied(Walk(t0, 0, sels, false).tree, root, s, bound) && Listed(newNodes, s, root)
    requires TreeOk(Walk(t0, 0, sels, false).tree) && Ids(newNodes) == Walk(t0, 0, sels, false).added
    requires kids.Keys <= s && SentUpTo(kids.Keys, s, root, newNodes, |newNodes|)
    ensures forall m | m in s && m != root :: m.xmitted
  {
    var w := Walk(t0, 0, sels, false);
    WalkGrows(t0, sels);
    forall m | m in s && m != root ensures m.xmitted {
      if m !in kids {
        NodeIs(w.tree, root, s, bound, m);
        NotBefore(t0, root, s, kids, m) by { assert IdsUnique(s); }
        assert IsNew(t0, w.tree, m.id);
        assert Covered(w, m.id);
        var r :| r in w.added && Descends(w.tree.nodes, m.id, r);
        var j :| 0 <= j < |w.added| && w.added[j] == r;
        assert newNodes[j] in newNodes && newNodes[j].id == r;
        DescendsIsBelow(w.tree, root, s, bound, m, newNodes[j]);
        assert InFirst(newNodes, |newNodes|, m);
      }
    }
  }

  lemma NotBefore(t0: Tree, root: QueryTreeNode, s: set<QueryTreeNode>, kids: Kids, m: QueryTreeNode)
    requires Before(t0, root, kids) && kids.Keys <= s && IdsUnique(s) && m in s
    ensures m.id in t0.nodes ==> m in kids
  {
    if m.id in t0.nodes {
      var m0 :| m0 in kids.Keys - {root} && m0.id == m.id;
      assert m0 == m;
    }
  }

  lemma DropsSome(dropped: set<nat>, dels: seq<Mutation>)
    requires Drops(dropped, dels)
    ensures dels != [] ==> dels[0].nodeId in dropped
  {
  }

  lemma NothingDropped(t: Tree, root: QueryTreeNode, s: set<QueryTreeNode>, dels: seq<Mutation>)
    requires TreeOk(t) && Drops(Unreferenced(t), dels) && forall m | m in s :: Referenced(m)
    ensures dels == [] && Prune(t) == t && Kept(s) == s
  {
    DropsSome(Unreferenced(t), dels);
    assert Prune(t).nodes == t.nodes;
  }

  /** Between operations a walk can start. */
  lemma WalkStarts(q: QueryTree)
    requires q.Valid()
    ensures q.Walking(KidsNow(q.nodes)) && Before(q.tree, q.root, KidsNow(q.nodes)) && q.root in q.nodes
    ensures q.root.id == 0
    ensures q.nextQueryID == |q.queries| && ClientOk(q.View()) && q.View() == Client(q.tree, q.queries)
    ensures QueriesOk(q.attachedQueries, q.queries, q.nodes, q.root)
    ensures DroppedOk(q.dropped, q.nodes, q.tree)
    ensures Listed([], q.nodes, q.root) && Ids([]) == []
    ensures forall m | m in q.nodes && m != q.root :: m.refCount == q.tree.refs[m.id]
  {
    KidsInside(q.tree, q.root, q.nodes, q.bound);
  }

  lemma AttachValue(c: Client, sels: seq<Sel>, tree: Tree, queries: seq<seq<nat>>, muts: seq<Mutation>)
    requires ClientOk(c)
    requires var w := Walk(c.tree, 0, sels, false);
             if w.failed then tree == Release(w.tree, w.occ) && queries == c.queries + [[]] && muts == []
             else tree == w.tree && queries == c.queries + [w.occ] && Announces(w.tree.nodes, w.added, muts)
    ensures Client(tree, queries) == Apply(c, Attach(sels)) && ClientOk(Client(tree, queries))
    ensures Emits(c, Attach(sels), muts)
  {
    ReferencesConserved(c, Attach(sels));
  }

  lemma QueriesAttached(attached: map<nat, seq<QueryTreeNode>>, queries: seq<seq<nat>>, s: set<QueryTreeNode>,
                        s': set<QueryTreeNode>,
                        root: QueryTreeNode, qtNodes: seq<QueryTreeNode>)
    requires QueriesOk(attached, queries, s, root) && s <= s'
    ensures QueriesOk(attached, queries + [[]], s', root)
    ensures Listed(qtNodes, s', root) ==> QueriesOk(attached[|queries| := qtNodes], queries + [Ids(qtNodes)], s', root)
  {
  }

  lemma ValidFrom(q: QueryTree)
    requires q.Shaped() && ClientOk(Client(q.tree, q.queries)) && Settled(q.nodes, q.root)
    requires q.nextQueryID == |q.queries| && QueriesOk(q.attachedQueries, q.queries, q.nodes, q.root)
    requires DroppedOk(q.dropped, q.nodes, q.tree)
    ensures q.Valid() && q.View() == Client(q.tree, q.queries)
  {
  }

  /** A failed attach leaves every count as it was. */
  lemma FailureRefs(q: QueryTree, t0: Tree, sels: seq<Sel>)
    requires TreeOk(t0) && q.Shaped() && q.tree == Release(Walk(t0, 0, sels, false).tree, Walk(t0, 0, sels, false).occ)
    ensures forall m | m in q.nodes && m != q.root :: m.refCount == t0.refs[m.id]
  {
    FailedWalkUndone(t0, sels);
  }

  lemma DetachStarts(q: QueryTree, queryId: nat)
    requires q.Valid()
    ensures Tied(q.tree, q.root, q.nodes, q.bound) && FlagsUp(q.nodes) && Unflagged(q.nodes) && q.tree.next == q.nextID
    ensures q.View() == Client(q.tree, q.queries) && ClientOk(Client(q.tree, q.queries)) && q.nextQueryID == |q.queries|
    ensures QueriesOk(q.attachedQueries, q.queries, q.nodes, q.root) && DroppedOk(q.dropped, q.nodes, q.tree)
    ensures Ends(q.nodes, q.root, q.tree.next)
    ensures forall m | m in q.nodes && m != q.root :: m.xmitted
    ensures queryId in q.attachedQueries ==>
      && queryId < |q.queries| && Ids(q.attachedQueries[queryId]) == q.queries[queryId]
      && Listed(q.attachedQueries[queryId], q.nodes, q.root)
      && multiset(q.queries[queryId]) <= q.tree.refs
      && var t1 := q.tree.(refs := q.tree.refs - multiset(q.queries[queryId]));
         NodesOk(t1.next, t1.nodes) && RefsClosed(t1)
    ensures queryId !in q.attachedQueries ==>
        Apply(q.View(), Detach(queryId)) == q.View() && Emits(q.View(), Detach(queryId), [])
  {
    WalkFlags(q.tree, q.root, q.nodes, q.bound, q.nodes);
    EndsThere(q.tree, q.root, q.nodes, q.bound);
    if queryId in q.attachedQueries {
      ReleaseClosed(q.View(), queryId);
      HeldRelease(q.queries, queryId);
    } else if queryId < |q.queries| {
      DetachNone(q.View(), queryId);
    }
  }

  /** Detaching a query that holds nothing changes nothing. */
  lemma DetachNone(c: Client, queryId: nat)
    requires ClientOk(c) && queryId < |c.queries| && c.queries[queryId] == []
    ensures Apply(c, Detach(queryId)) == c && Emits(c, Detach(queryId), [])
  {
    assert c.tree.refs - multiset([]) == c.tree.refs;
    assert Prune(c.tree).nodes == c.tree.nodes;
    assert c.queries[queryId := []] == c.queries;
    assert Unreferenced(c.tree) == {};
  }

  /** Gives up the references of a query, and sweeps if some count reached zero. */
  method LetGo(qtNodes: seq<QueryTreeNode>, root: QueryTreeNode, ghost t: Tree, ghost s: set<QueryTreeNode>,
               ghost bound: nat)
    returns (purged: seq<QueryTreeNode>, muts: seq<Mutation>)
    requires Tied(t, root, s, bound) && FlagsUp(s) && Unflagged(s) && Listed(qtNodes, s, root)
    requires multiset(Ids(qtNodes)) <= t.refs
    requires forall m | m in s && m != root :: m.xmitted
    requires var t1 := t.(refs := t.refs - multiset(Ids(qtNodes))); NodesOk(t1.next, t1.nodes) && RefsClosed(t1)
    modifies s`children, s`refCount, s`gcNext
    ensures var t1 := t.(refs := t.refs - multiset(Ids(qtNodes)));
            && Tied(Prune(t1), root, Kept(s), bound) && Drops(Unreferenced(t1), muts)
            && (forall m | m in s && m.id in t1.refs :: m in Kept(s))
            && (forall m | m in s && m !in Kept(s) :: m.children == [] && m.id !in t1.refs)
    ensures Settled(Kept(s), root) && Kept(s) <= s && root in Kept(s) && muts == Deletes(purged) && Droppable(purged)
    ensures forall n | n in purged :: n in s
  {
    hide *;
    ghost var t1 := t.(refs := t.refs - multiset(Ids(qtNodes)));
    var gcSweep := ReleaseRefs(qtNodes, root, t, s, bound);
    KeptAre(t1, root, s, bound);
    if gcSweep {
      purged, muts := Sweep(root, t1, s, bound);
    } else {
      purged, muts := [], [];
      NonePurged();
      NothingLoose(t1, root, s, bound);
    }
    SettledKept(root, s);
  }

  lemma KeptAre(t: Tree, root: QueryTreeNode, s: set<QueryTreeNode>, bound: nat)
    requires Tied(t, root, s, bound)
    ensures Kept(s) <= s && root in Kept(s)
    ensures forall m | m in s && m.id in t.refs :: m in Kept(s)
    ensures forall m | m in s && m !in Kept(s) :: m.id !in t.refs
  {
    forall m | m in s && m.id in t.refs ensures m in Kept(s) {
      if m != root { assert m in s - {root}; }
    }
  }

  lemma AllReferenced(t: Tree, root: QueryTreeNode, s: set<QueryTreeNode>, id: nat)
    requires Anchored(t, root, s) && FlagsUp(s) && Unflagged(s) && id in t.nodes
    ensures id in t.refs
  {
    var m :| m in s - {root} && m.id == id;
    assert Referenced(m);
  }

  /** When no count reached zero there is nothing to sweep. */
  lemma NothingLoose(t: Tree, root: QueryTreeNode, s: set<QueryTreeNode>, bound: nat)
    requires Tied(t, root, s, bound) && FlagsUp(s) && Unflagged(s)
    ensures Tied(Prune(t), root, Kept(s), bound) && Drops(Unreferenced(t), []) && Kept(s) == s
  {
    assert Anchored(t, root, s);
    assert Kept(s) == s;
    hide Tied, FlagsUp, Unflagged, Anchored;
    forall id | id in t.nodes ensures id in t.refs { AllReferenced(t, root, s, id); }
    assert Prune(t).nodes == t.nodes;
  }

  lemma DetachValue(c: Client, queryId: nat, muts: seq<Mutation>)
    requires ClientOk(c) && queryId < |c.queries|
    requires Drops(Unreferenced(c.tree.(refs := c.tree.refs - multiset(c.queries[queryId]))), muts)
    ensures var t1 := c.tree.(refs := c.tree.refs - multiset(c.queries[queryId]));
            var c' := Client(Prune(t1), c.queries[queryId := []]);
            && t1.refs == Held(c'.queries)
            && Apply(c, Detach(queryId)) == c' && ClientOk(c') && Prune(t1).next == c.tree.next
            && Emits(c, Detach(queryId), muts)
  {
    ReferencesConserved(c, Detach(queryId));
    ReleaseClosed(c, queryId);
  }

  lemma QueriesDetached(attached: map<nat, seq<QueryTreeNode>>, queries: seq<seq<nat>>, t1: Tree, root: QueryTreeNode,
                        s: set<QueryTreeNode>, kept: set<QueryTreeNode>, queryId: nat)
    requires QueriesOk(attached, queries, s, root) && queryId < |queries|
    requires (forall m | m in s && m.id in t1.refs :: m in kept) && t1.refs == Held(queries[queryId := []])
    ensures QueriesOk(attached - {queryId}, queries[queryId := []], kept, root)
  {
    var qs := queries[queryId := []];
    forall q, n | q in attached && q != queryId && n in attached[q] ensures n in kept {
      var i :| 0 <= i < |attached[q]| && attached[q][i] == n;
      assert Ids(attached[q])[i] == n.id && n.id in qs[q];
      HeldMember(qs, n.id);
    }
  }

  lemma SettledKept(root: QueryTreeNode, s: set<QueryTreeNode>)
    requires Unflagged(s) && forall m | m in s && m != root :: m.xmitted
    ensures Settled(Kept(s), root)
  {
  }

  lemma NonePurged()
    ensures Deletes([]) == [] && Droppable([])
  {
  }

  /** An attach gives out no id that was in use before. */
  lemma DroppedStill(dropped: set<QueryTreeNode>, s: set<QueryTreeNode>, t0: Tree, s': set<QueryTreeNode>, t': Tree,
                     sels: seq<Sel>)
    requires DroppedOk(dropped, s, t0) && TreeOk(t0) && dropped !! s'
    requires var w := Walk(t0, 0, sels, false); t' == if w.failed then Release(w.tree, w.occ) else w.tree
    ensures DroppedOk(dropped, s', t')
  {
    WalkFacts(t0, 0, sels, false);
    FailedWalkUndone(t0, sels);
  }

  ghost predicate Ends(s: set<QueryTreeNode>, root: QueryTreeNode, next: nat) {
    forall m | m in s && m != root :: m.path != [] && m.path[|m.path| - 1] == m.id && m.id < next
  }

  lemma EndsThere(t: Tree, root: QueryTreeNode, s: set<QueryTreeNode>, bound: nat)
    requires Tied(t, root, s, bound) && NodesOk(t.next, t.nodes)
    ensures Ends(s, root, t.next)
  {
    forall m | m in s && m != root ensures m.path != [] && m.path[|m.path| - 1] == m.id && m.id < t.next {
      PathEnds(t, root, s, bound, m);
      assert m.path != root.path;
    }
  }

  lemma DroppedMore(dropped: set<QueryTreeNode>, s: set<QueryTreeNode>, t: Tree, root: QueryTreeNode, bound: nat,
                    occ: seq<nat>, kept: set<QueryTreeNode>)
    requires DroppedOk(dropped, s, t) && kept <= s && root in kept
    requires Ends(s, root, t.next)
    requires forall m | m in s && m !in kept :: m.children == [] && m.id !in t.refs - multiset(occ)
    ensures DroppedOk(dropped + (s - kept), kept, Prune(t.(refs := t.refs - multiset(occ))))
  {
  }
}
