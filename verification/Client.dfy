/** The client, in place: client/client.ts. Its query tree and its result tree, and the purge
    handler that ties them together. */
module Clients {
  import opened Messages
  import opened Lru
  import opened AliasSpec
  import opened AliasRuns
  import opened QueryTreeSpec
  import opened QueryTreeProofs
  import opened QueryTreeNodes
  import opened QueryTreeShape
  import opened QueryTreeSweep
  import opened QueryTrees
  import opened JsonHandlers
  import opened ResultNodes
  import opened ResultTrees
  import opened Joint

  // ----- what a cursor sees of the query tree

  lemma {:induction false} NodePath(t: Tree, root: QueryTreeNode, s: set<QueryTreeNode>, bound: nat, m: QueryTreeNode)
    requires Tied(t, root, s, bound) && NodesOk(t.next, t.nodes) && m in s
    ensures m.path == if m == root then [] else PathOf(t.nodes, m.id)
    decreases |m.path|
  {
    NodeIs(t, root, s, bound, m);
    if m != root {
      NodePath(t, root, s, bound, m.parent);
      PathFacts(t.next, t.nodes, m.id);
      if m.parent == root { assert PathOf(t.nodes, 0) == []; }
    }
  }

  lemma NodeOfPath(t: Tree, root: QueryTreeNode, s: set<QueryTreeNode>, bound: nat, path: QPath)
    returns (m: QueryTreeNode)
    requires Tied(t, root, s, bound) && NodesOk(t.next, t.nodes) && path in Live(t.nodes) && path != []
    ensures m in s && m != root && m.path == path && m.id == path[|path| - 1] && m.id in t.nodes
  {
    LiveEndsIn(t.next, t.nodes, path);
    m := NodeAt(t, root, s, bound, path[|path| - 1]);
    NodeIs(t, root, s, bound, m);
    NodePath(t, root, s, bound, m);
  }

  lemma SnocInjective(p: QPath, a: nat, q: QPath, b: nat)
    ensures p + [a] == q + [b] <==> p == q && a == b
  {
    if p + [a] == q + [b] {
      assert |p| == |q|;
      assert p == (p + [a])[..|p|] && q == (q + [b])[..|q|];
      assert (p + [a])[|p|] == a && (q + [b])[|q|] == b;
    }
  }

  /** Looking up children in the query tree finds exactly the live paths. */
  lemma LiveNode(t: Tree, root: QueryTreeNode, s: set<QueryTreeNode>, bound: nat, n: QueryTreeNode)
    requires Tied(t, root, s, bound) && NodesOk(t.next, t.nodes) && n in s
    ensures forall c | c in n.children :: c in s && c.path == n.path + [c.id] && c.path in Live(t.nodes)
    ensures forall id | n.path + [id] in Live(t.nodes) :: exists c :: c in n.children && c.id == id
  {
    assert ChildrenOk(n, s);
    forall c | c in n.children ensures c.path in Live(t.nodes) {
      NodePath(t, root, s, bound, c);
      NodeIs(t, root, s, bound, c);
      assert c.path != root.path;
    }
    forall id | n.path + [id] in Live(t.nodes) ensures exists c :: c in n.children && c.id == id {
      var c := NodeOfPath(t, root, s, bound, n.path + [id]);
      NodeIs(t, root, s, bound, c);
      SnocInjective(c.parent.path, c.id, n.path, id);
      assert c.parent == n;
    }
  }

  lemma DeadNode(t: Tree, n: QueryTreeNode, id: nat)
    requires NodesOk(t.next, t.nodes) && n.path != [] && n.path[|n.path| - 1] !in t.nodes
    ensures n.path + [id] !in Live(t.nodes)
  {
    if n.path + [id] in Live(t.nodes) {
      LivePrefixClosed(t.next, t.nodes);
      assert n.path == (n.path + [id])[..|n.path|];
      LiveEndsIn(t.next, t.nodes, n.path);
      assert false;
    }
  }

  /** The tree's own nodes, and the swept ones, are what cursors may point to. */
  lemma TreeIsView(q: QueryTree)
    requires q.Valid()
    ensures QueryView(Live(q.tree.nodes), q.nodes + q.dropped) && PrefixClosed(Live(q.tree.nodes))
  {
    LivePrefixClosed(q.tree.next, q.tree.nodes);
    assert Tied(q.tree, q.root, q.nodes, q.bound) && NodesOk(q.tree.next, q.tree.nodes);
    var live, s := Live(q.tree.nodes), q.nodes + q.dropped;
    forall n | n in s
      ensures (forall c | c in n.children :: c in s && c.path == n.path + [c.id] && c.path in live)
              && (forall id | n.path + [id] in live :: exists c :: c in n.children && c.id == id)
    {
      hide Tied, NodesOk, Live;
      if n in q.nodes {
        LiveNode(q.tree, q.root, q.nodes, q.bound, n);
      } else {
        forall id ensures n.path + [id] !in live { DeadNode(q.tree, n, id); }
      }
    }
  }

  // ----- an operation on the query tree, seen from the result tree

  /** A cursor in bounds has only gone through ids given out so far. */
  ghost predicate CursorBounded(cur: Cursor, next: nat) {
    !cur.oob ==> Bounded(Proj(cur.path), next)
  }

  ghost predicate CursorsBounded(d: Dec, next: nat) {
    && (forall k | k in d.cache.vals :: CursorBounded(d.cache.vals[k], next))
    && (d.cursor.Some? ==> CursorBounded(d.cursor.value, next))
  }

  /** A cursor into a dropped part can never come back to life. */
  lemma CursorStaysSound(trie: map<Path, Option<Primitive>>, live: set<QPath>, live': set<QPath>, next: nat,
                         cur: Cursor)
    requires CursorSound(live, trie, cur) && CursorBounded(cur, next)
    requires forall q :: q in live' && Bounded(q, next) ==> q in live
    ensures CursorSound(live', Restrict(trie, live'), cur)
  {
    if !cur.oob {
      forall i | 0 <= i <= |cur.path| && Proj(cur.path[..i]) in live' ensures cur.path[..i] in Restrict(trie, live') {
        ProjPrefix(cur.path[..i], cur.path);
        assert Bounded(Proj(cur.path[..i]), next);
      }
    }
  }

  /** What a changed query tree does to the result stream's state: results are purged, and every
      cursor stays good. */
  lemma OpKeepsDec(c: QueryTreeSpec.Client, op: Op, d: Dec, size: nat)
    requires ClientOk(c) && DecSound(Live(c.tree.nodes), d, size) && CursorsBounded(d, c.tree.next)
    ensures var c' := Apply(c, op);
            var d' := d.(trie := Restrict(d.trie, Live(c'.tree.nodes)));
            DecSound(Live(c'.tree.nodes), d', size) && CursorsBounded(d', c'.tree.next)
  {
    var c' := Apply(c, op);
    var live, live' := Live(c.tree.nodes), Live(c'.tree.nodes);
    OpShares(c, op);
    OpIsRequery(Start(live, c.tree.next), c, op);
    LivePrefixClosed(c'.tree.next, c'.tree.nodes);
    RestrictOk(d.trie, live, live');
    forall k | k in d.cache.vals ensures CursorSound(live', Restrict(d.trie, live'), d.cache.vals[k]) {
      CursorStaysSound(d.trie, live, live', c.tree.next, d.cache.vals[k]);
    }
    if d.cursor.Some? { CursorStaysSound(d.trie, live, live', c.tree.next, d.cursor.value); }
  }

  /** An attach drops nothing. */
  lemma AttachKeepsTrie(c: QueryTreeSpec.Client, sels: seq<Sel>, trie: map<Path, Option<Primitive>>)
    requires ClientOk(c) && TrieOk(Live(c.tree.nodes), trie)
    ensures Restrict(trie, Live(Apply(c, Attach(sels)).tree.nodes)) == trie
  {
    hide *;
    var c' := Apply(c, Attach(sels));
    OpShares(c, Attach(sels));
    AttachKeepsNodes(c, sels);
    MorePaths(c, c');
    AllKept(trie, Live(c.tree.nodes), Live(c'.tree.nodes));
  }

  lemma AttachKeepsNodes(c: QueryTreeSpec.Client, sels: seq<Sel>)
    requires ClientOk(c)
    ensures forall x :: x in c.tree.nodes ==> x in Apply(c, Attach(sels)).tree.nodes
  {
    hide Walk;
    WalkFacts(c.tree, 0, sels, false);
    FailedWalkUndone(c.tree, sels);
  }

  lemma MorePaths(c: QueryTreeSpec.Client, c': QueryTreeSpec.Client)
    requires ClientOk(c) && ClientOk(c') && forall x :: x in c.tree.nodes ==> x in c'.tree.nodes
    requires forall x :: x in c.tree.nodes && x in c'.tree.nodes ==> c.tree.nodes[x] == c'.tree.nodes[x]
    ensures Live(c.tree.nodes) <= Live(c'.tree.nodes)
  {
    forall q | q in Live(c.tree.nodes) ensures q in Live(c'.tree.nodes) {
      if q != [] {
        LiveEndsIn(c.tree.next, c.tree.nodes, q);
        SamePath(c.tree.next, c.tree.nodes, c'.tree.next, c'.tree.nodes, q[|q| - 1]);
      }
    }
  }

  lemma AllKept(trie: map<Path, Option<Primitive>>, live: set<QPath>, live': set<QPath>)
    requires TrieOk(live, trie) && live <= live'
    ensures Restrict(trie, live') == trie
  {
    forall p | p in trie ensures Proj(p) in live { assert p[..|p|] == p; }
  }

  // ----- the client

  class Client {
    const queryTree: QueryTree
    const resultTree: ResultTree

    ghost predicate Valid()
      reads this, queryTree, queryTree.nodes, queryTree.dropped
      reads resultTree, resultTree.pathCache, resultTree.Cursors(), resultTree.at.Values`children,
        resultTree.at.Values`value, resultTree.gone`children
    {
      && queryTree.Valid() && resultTree.Valid(queryTree.nodes + queryTree.dropped)
      && DecSound(Live(queryTree.tree.nodes), resultTree.Model(), resultTree.pathCache.limit)
      && CursorsBounded(resultTree.Model(), queryTree.tree.next)
    }

    /** The result cache has room for 100 cursors. */
    constructor ()
      ensures Valid() && queryTree.View() == NEW_CLIENT
      ensures resultTree.Model() == Start(Live(NEW_CLIENT.tree.nodes), NEW_CLIENT.tree.next).dec
      ensures resultTree.pathCache.limit == 100
      ensures fresh(queryTree) && fresh(queryTree.nodes) && fresh(resultTree) && fresh(resultTree.pathCache)
      ensures resultTree.cursor == null && fresh(resultTree.rootCursor) && fresh(resultTree.Nodes())
      ensures resultTree.listeners == {}
    {
      hide *;
      var q := new QueryTree();
      queryTree := q;
      RootThere(q);
      var r := new ResultTree(q.root, 100, q.nodes + q.dropped);
      resultTree := r;
      CursorsThere(r);
      NodesAre(r);
      new;
      StartFits();
      ClientFrom(this);
    }

    /** One frame of the result stream. A decoder that cannot assign a value throws, and then nothing
        is promised any more. */
    method HandleValue(val: RGQLValue) returns (known: bool, threw: bool)
      requires Valid() && FrameOk(val)
      modifies resultTree`cursor, resultTree`at, resultTree`gone, resultTree.pathCache, resultTree.cursor
      modifies resultTree.Nodes()`children, resultTree.Nodes()`value, resultTree.listeners
      ensures (!threw ==> Valid()) && queryTree.View() == old(queryTree.View())
      ensures known ==
              Handle(Live(queryTree.tree.nodes), old(resultTree.Model()), val, resultTree.pathCache.limit).Handled?
      ensures known && !threw ==>
                Handle(Live(queryTree.tree.nodes), old(resultTree.Model()), val, resultTree.pathCache.limit) ==
                Handled(resultTree.Model())
      ensures !known ==> !threw && resultTree.Model() == old(resultTree.Model())
      ensures !known ==> Results(resultTree.listeners) == old(Results(resultTree.listeners))
      ensures !known ==> resultTree.Carrying() == old(resultTree.Carrying())
      ensures known ==>
                HeardBy(resultTree.listeners, Live(queryTree.tree.nodes), old(resultTree.Model()), val,
                        resultTree.Model(), old(Results(resultTree.listeners)), old(resultTree.Carrying()), threw,
                        Results(resultTree.listeners), resultTree.Carrying())
      ensures fresh(resultTree.Nodes() - old(resultTree.Nodes()))
      ensures resultTree.cursor == null || resultTree.cursor == old(resultTree.cursor) || fresh(resultTree.cursor)
    {
      hide *;
      ClientMeans(this);
      TreeIsView(queryTree);
      TreeBelow(queryTree);
      HandleBounded(Live(queryTree.tree.nodes), resultTree.Model(), val, resultTree.pathCache.limit,
        queryTree.tree.next);
      ghost var on, off := resultTree.at.Values, resultTree.gone;
      NodesAre(resultTree);
      known, threw := resultTree.HandleValue(val, Live(queryTree.tree.nodes), queryTree.nodes + queryTree.dropped);
      NodesAre(resultTree);
      NodesGrown(on, off, resultTree.at.Values, resultTree.gone);
      if !threw { ClientFrom(this); }
    }

    /** A batch of frames, until one is refused or a decoder throws. */
    method HandleMessages(vals: seq<RGQLValue>) returns (known: bool, threw: bool)
      requires Valid() && forall i | 0 <= i < |vals| :: FrameOk(vals[i])
      modifies resultTree`cursor, resultTree`at, resultTree`gone, resultTree.pathCache, resultTree.cursor
      modifies resultTree.Nodes()`children, resultTree.Nodes()`value, resultTree.listeners
      ensures (!threw ==> Valid()) && queryTree.View() == old(queryTree.View())
      ensures !threw ==>
                HandleAll(Live(queryTree.tree.nodes), old(resultTree.Model()), vals, resultTree.pathCache.limit) ==
                if known then Handled(resultTree.Model()) else UnknownId
      ensures AllHeard(resultTree.listeners, Live(queryTree.tree.nodes), old(resultTree.Model()), vals,
                       resultTree.pathCache.limit, old(Results(resultTree.listeners)), old(resultTree.Carrying()),
                       threw, Results(resultTree.listeners), resultTree.Carrying())
      ensures fresh(resultTree.Nodes() - old(resultTree.Nodes()))
      ensures resultTree.cursor == null || resultTree.cursor == old(resultTree.cursor) || fresh(resultTree.cursor)
    {
      hide *;
      ghost var live, d, size := Live(queryTree.tree.nodes), resultTree.Model(), resultTree.pathCache.limit;
      ghost var before, all, heard := Results(resultTree.listeners), resultTree.Carrying(), resultTree.listeners;
      ClientMeans(this);
      known, threw := true, false;
      assert vals[0..] == vals;
      HearingStarts(heard, live, d, vals, size, before, all);
      for i := 0 to |vals|
        invariant Valid() && queryTree.View() == old(queryTree.View()) && resultTree.pathCache.limit == size
        invariant Live(queryTree.tree.nodes) == live && queryTree.tree == old(queryTree.tree)
        invariant HandleAll(live, resultTree.Model(), vals[i..], size) == HandleAll(live, d, vals, size)
        invariant Hearing(heard, live, d, vals, size, before, all, resultTree.Model(), vals[i..],
                          Results(resultTree.listeners), resultTree.Carrying())
        invariant fresh(resultTree.Nodes() - old(resultTree.Nodes()))
        invariant resultTree.cursor == null || resultTree.cursor == old(resultTree.cursor) || fresh(resultTree.cursor)
      {
        HandleFirst(live, resultTree.Model(), vals, i, size);
        ghost var m, now, carried := resultTree.Model(), Results(resultTree.listeners), resultTree.Carrying();
        NodesThere(resultTree);
        known, threw := HandleValue(vals[i]);
        NodesThere(resultTree);
        if !known {
          HearingRefused(heard, live, d, vals, size, before, all, m, vals[i..], now, carried);
          return;
        }
        HearingNext(heard, live, d, vals, size, before, all, m, vals, i, now, carried, resultTree.Model(), threw,
          Results(resultTree.listeners), resultTree.Carrying());
        if threw { return; }
      }
      HandleNone(live, resultTree.Model(), vals, size);
      HearingEnds(heard, live, d, vals, size, before, all, resultTree.Model(), Results(resultTree.listeners),
        resultTree.Carrying());
      known := true;
    }

    /** buildQuery: the query tree grows, and no result is affected. */
    method BuildQuery(sels: seq<Sel>) returns (queryId: nat, failed: bool, muts: seq<Mutation>, qmap: QueryMap)
      requires Valid()
      modifies queryTree, queryTree.nodes
      ensures Valid() && queryTree.View() == Apply(old(queryTree.View()), Attach(sels))
      ensures Emits(old(queryTree.View()), Attach(sels), muts) && queryId == |old(queryTree.queries)|
      ensures failed == Walk(old(queryTree.tree), 0, sels, false).failed
      ensures !failed ==> qmap == MapWalk(old(queryTree.tree), 0, sels, false, QueryMap(map[]))
      ensures fresh(queryTree.nodes - old(queryTree.nodes))
      ensures resultTree.Model() == old(resultTree.Model())
      ensures resultTree.Model().trie == Restrict(old(resultTree.Model()).trie, Live(queryTree.tree.nodes))
    {
      hide *;
      CursorsThere(resultTree);
      ClientMeans(this);
      ghost var c, d, size, qnodes := queryTree.View(), resultTree.Model(), resultTree.pathCache.limit,
        queryTree.nodes + queryTree.dropped;
      DecMeans(Live(queryTree.tree.nodes), d, size);
      AttachKeepsTrie(c, sels, d.trie);
      OpKeepsDec(c, Attach(sels), d, size);
      queryId, failed, muts, qmap := queryTree.BuildQuery(sels);
      RootThere(queryTree);
      MoreNodes(resultTree, qnodes, queryTree.nodes + queryTree.dropped);
      assert d.(trie := d.trie) == d;
      ClientFrom(this);
    }

    /** disposeQuery: the query is detached, and the results of every dropped node are purged. */
    method DisposeQuery(queryId: nat) returns (muts: seq<Mutation>)
      requires Valid()
      modifies queryTree, queryTree.nodes, resultTree`at, resultTree`gone, resultTree.Nodes()`children,
        resultTree.Nodes()`value
      ensures Valid() && queryTree.View() == Apply(old(queryTree.View()), Detach(queryId))
      ensures queryTree.nodes <= old(queryTree.nodes) && resultTree.Nodes() <= old(resultTree.Nodes())
      ensures Emits(old(queryTree.View()), Detach(queryId), muts)
      ensures resultTree.Model() ==
              old(resultTree.Model()).(trie := Restrict(old(resultTree.Model()).trie, Live(queryTree.tree.nodes)))
    {
      hide *;
      ClientMeans(this);
      ghost var c, d, size, nodes := queryTree.View(), resultTree.Model(), resultTree.pathCache.limit, queryTree.nodes;
      DecMeans(Live(queryTree.tree.nodes), d, size);
      AllPathsAre(queryTree);
      OpKeepsDec(c, Detach(queryId), d, size);
      var purged;
      purged, muts := DetachFirst(queryId);
      RootThere(queryTree);
      PurgeResults(purged);
      PurgedRoots(c, queryId, d.trie, muts, purged, nodes);
      ClientFrom(this);
    }

    /** The detach, before the results are purged. */
    method DetachFirst(queryId: nat) returns (purged: seq<QueryTreeNode>, muts: seq<Mutation>)
      requires Valid()
      modifies queryTree, queryTree.nodes
      ensures queryTree.Valid() && queryTree.View() == Apply(old(queryTree.View()), Detach(queryId))
      ensures Emits(old(queryTree.View()), Detach(queryId), muts) && muts == Deletes(purged)
      ensures Droppable(purged) && queryTree.nodes <= old(queryTree.nodes)
      ensures forall n | n in purged :: n in old(queryTree.nodes)
      ensures resultTree.Valid(queryTree.nodes + queryTree.dropped) && resultTree.Model() == old(resultTree.Model())
    {
      hide *;
      CursorsThere(resultTree);
      ClientMeans(this);
      purged, muts := queryTree.DetachQuery(queryId);
    }

    /** emitToPurgeHandlers, for the one handler the result tree attached. */
    method PurgeResults(purged: seq<QueryTreeNode>)
      requires resultTree.Valid(queryTree.nodes + queryTree.dropped) && Droppable(purged)
      modifies resultTree`at, resultTree`gone, resultTree.Nodes()`children, resultTree.Nodes()`value
      ensures resultTree.Valid(queryTree.nodes + queryTree.dropped) && resultTree.Nodes() <= old(resultTree.Nodes())
      ensures
        resultTree.Model() == old(resultTree.Model()).(trie := PurgeAll(old(resultTree.Model()).trie, Paths(purged)))
    {
      hide *;
      ghost var d, roots := resultTree.Model(), Paths(purged);
      PathsAre(purged);
      assert roots[0..] == roots;
      for i := 0 to |purged|
        invariant resultTree.Valid(queryTree.nodes + queryTree.dropped) && resultTree.Nodes() <= old(resultTree.Nodes())
        invariant resultTree.Model().(trie := d.trie) == d
        invariant PurgeAll(resultTree.Model().trie, roots[i..]) == PurgeAll(d.trie, roots)
      {
        DroppableAt(purged, i);
        PurgeStep(resultTree.Model().trie, roots, i);
        ghost var on, off := resultTree.at.Values, resultTree.gone;
        NodesAre(resultTree);
        resultTree.HandleQtNodePurge(purged[i], queryTree.nodes + queryTree.dropped);
        NodesAre(resultTree);
        NodesGrown(on, off, resultTree.at.Values, resultTree.gone);
      }
      PurgeNone(resultTree.Model().trie, roots);
    }
  }

  /** What is left of a batch is heard as the whole batch was to be. */
  ghost predicate Hearing(heard: set<JSONDecoder>, live: set<QPath>, d: Dec, fs: seq<RGQLValue>, size: nat,
                          before: map<JSONDecoder, Json>, all: Handlers, m: Dec, left: seq<RGQLValue>,
                          now: map<JSONDecoder, Json>, carried: Handlers)
  {
    && before.Keys == heard && now.Keys == heard
    && forall dec :: dec in heard ==>
         HearAll(dec.query, live, m, EarsBy(carried, dec), now[dec], left, size) ==
         HearAll(dec.query, live, d, EarsBy(all, dec), before[dec], fs, size)
  }

  lemma HearingStarts(heard: set<JSONDecoder>, live: set<QPath>, d: Dec, fs: seq<RGQLValue>, size: nat,
                      before: map<JSONDecoder, Json>, all: Handlers)
    ensures before == Results(heard) ==> Hearing(heard, live, d, fs, size, before, all, d, fs, before, all)
  {
  }

  lemma HearingRefused(heard: set<JSONDecoder>, live: set<QPath>, d: Dec, fs: seq<RGQLValue>, size: nat,
                       before: map<JSONDecoder, Json>, all: Handlers, m: Dec, left: seq<RGQLValue>,
                       now: map<JSONDecoder, Json>, carried: Handlers)
    requires Hearing(heard, live, d, fs, size, before, all, m, left, now, carried)
    requires left != [] && Handle(live, m, left[0], size).UnknownId?
    ensures AllHeard(heard, live, d, fs, size, before, all, false, now, carried)
  {
  }

  lemma HearingNext(heard: set<JSONDecoder>, live: set<QPath>, d: Dec, fs: seq<RGQLValue>, size: nat,
                    before: map<JSONDecoder, Json>, all: Handlers, m: Dec, vals: seq<RGQLValue>, i: nat,
                    now: map<JSONDecoder, Json>, carried: Handlers, m': Dec, threw: bool,
                    now': map<JSONDecoder, Json>, carried': Handlers)
    requires i < |vals| && Hearing(heard, live, d, fs, size, before, all, m, vals[i..], now, carried)
    requires HeardBy(heard, live, m, vals[i], m', now, carried, threw, now', carried')
    requires Handle(live, m, vals[i], size).Handled? && (!threw ==> Handle(live, m, vals[i], size) == Handled(m'))
    ensures !threw ==> Hearing(heard, live, d, fs, size, before, all, m', vals[i + 1..], now', carried')
    ensures threw ==> AllHeard(heard, live, d, fs, size, before, all, true, now', carried')
  {
    assert vals[i..][0] == vals[i] && vals[i..][1..] == vals[i + 1..];
    hide Hear, Handle;
  }

  lemma HearingEnds(heard: set<JSONDecoder>, live: set<QPath>, d: Dec, fs: seq<RGQLValue>, size: nat,
                    before: map<JSONDecoder, Json>, all: Handlers, m: Dec, now: map<JSONDecoder, Json>,
                    carried: Handlers)
    requires Hearing(heard, live, d, fs, size, before, all, m, fs[|fs|..], now, carried)
    ensures AllHeard(heard, live, d, fs, size, before, all, false, now, carried)
  {
  }

  lemma HandleFirst(live: set<QPath>, d: Dec, fs: seq<RGQLValue>, i: nat, size: nat)
    requires i < |fs|
    ensures var r := Handle(live, d, fs[i], size);
            HandleAll(live, d, fs[i..], size) ==
              if r.UnknownId? then UnknownId else HandleAll(live, r.dec, fs[i + 1..], size)
  {
    assert fs[i..][0] == fs[i] && fs[i..][1..] == fs[i + 1..];
  }

  lemma HandleNone(live: set<QPath>, d: Dec, fs: seq<RGQLValue>, size: nat)
    ensures HandleAll(live, d, fs[|fs|..], size) == Handled(d)
  {
  }

  ghost function Paths(ns: seq<QueryTreeNode>): seq<QPath> {
    seq(|ns|, i requires 0 <= i < |ns| => ns[i].path)
  }

  lemma PathsAre(ns: seq<QueryTreeNode>)
    ensures |Paths(ns)| == |ns| && forall i | 0 <= i < |ns| :: Paths(ns)[i] == ns[i].path
  {
  }

  lemma DroppableAt(ns: seq<QueryTreeNode>, i: nat)
    requires Droppable(ns) && i < |ns|
    ensures QChained(ns[i]) && ns[i].parent != null
  {
  }

  lemma PurgeStep(trie: map<Path, Option<Primitive>>, roots: seq<QPath>, i: nat)
    requires i < |roots|
    ensures PurgeAll(trie, roots[i..]) == PurgeAll(Purge(trie, roots[i]), roots[i + 1..])
  {
    assert roots[i..][0] == roots[i] && roots[i..][1..] == roots[i + 1..];
  }

  lemma PurgeNone(trie: map<Path, Option<Primitive>>, roots: seq<QPath>)
    ensures PurgeAll(trie, roots[|roots|..]) == trie
  {
  }

  lemma DecMeans(live: set<QPath>, d: Dec, size: nat)
    requires DecSound(live, d, size)
    ensures TrieOk(live, d.trie)
  {
  }

  ghost predicate AllPaths(s: set<QueryTreeNode>, nodes: Nodes) {
    forall n | n in s && n.parent != null :: n.path == PathOf(nodes, n.id)
  }

  lemma AllPathsAre(q: QueryTree)
    requires q.Valid()
    ensures AllPaths(q.nodes, q.tree.nodes)
  {
    forall n | n in q.nodes && n.parent != null ensures n.path == PathOf(q.tree.nodes, n.id) {
      NodePath(q.tree, q.root, q.nodes, q.bound, n);
    }
  }

  lemma MoreNodes(t: ResultTree, qnodes: set<QueryTreeNode>, qnodes': set<QueryTreeNode>)
    requires t.Valid(qnodes) && qnodes <= qnodes'
    ensures t.Valid(qnodes')
  {
  }

  /** The purges of one detach together leave what the remaining query tree selects. */
  lemma PurgedRoots(c: QueryTreeSpec.Client, q: nat, trie: map<Path, Option<Primitive>>, ms: seq<Mutation>,
                    purged: seq<QueryTreeNode>, s: set<QueryTreeNode>)
    requires ClientOk(c) && TrieOk(Live(c.tree.nodes), trie) && Emits(c, Detach(q), ms)
    requires ms == Deletes(purged) && Droppable(purged) && AllPaths(s, c.tree.nodes) && forall n | n in purged :: n in s
    ensures PurgeAll(trie, Paths(purged)) == Restrict(trie, Live(Apply(c, Detach(q)).tree.nodes))
  {
    hide *;
    if q < |c.queries| {
      PurgeIsRestrict(c, q, trie, ms);
      RootPaths(c.tree.nodes, ms, purged, s);
    } else {
      NothingPurged(c, q, trie, ms, purged);
    }
  }

  lemma RootPaths(nodes: Nodes, ms: seq<Mutation>, purged: seq<QueryTreeNode>, s: set<QueryTreeNode>)
    requires ms == Deletes(purged) && Droppable(purged) && AllPaths(s, nodes) && forall n | n in purged :: n in s
    ensures Paths(purged) == seq(|ms|, i requires 0 <= i < |ms| => PathOf(nodes, ms[i].nodeId))
  {
    forall i | 0 <= i < |purged| ensures Paths(purged)[i] == PathOf(nodes, ms[i].nodeId) { assert purged[i] in purged; }
  }

  lemma NothingPurged(c: QueryTreeSpec.Client, q: nat, trie: map<Path, Option<Primitive>>, ms: seq<Mutation>,
                      purged: seq<QueryTreeNode>)
    requires TrieOk(Live(c.tree.nodes), trie) && Emits(c, Detach(q), ms) && q >= |c.queries| && ms == Deletes(purged)
    ensures PurgeAll(trie, Paths(purged)) == Restrict(trie, Live(Apply(c, Detach(q)).tree.nodes))
  {
    assert |purged| == |Deletes(purged)|;
  }

  lemma RootThere(q: QueryTree)
    requires q.Valid()
    ensures q.root in q.nodes + q.dropped && q.root.path == [] && q.View() == QueryTreeSpec.Client(q.tree, q.queries)
  {
  }

  lemma StartFits()
    ensures var d := Start(Live(NEW_CLIENT.tree.nodes), NEW_CLIENT.tree.next).dec;
            && DecSound(Live(NEW_CLIENT.tree.nodes), d, 100) && CursorsBounded(d, NEW_CLIENT.tree.next)
            && d == Dec(None, Cache([], map[]), map[[] := None])
  {
    LivePrefixClosed(NEW_CLIENT.tree.next, NEW_CLIENT.tree.nodes);
    StartOk(Live(NEW_CLIENT.tree.nodes), NEW_CLIENT.tree.next, 100, Intended);
    assert Proj([]) == [];
  }

  lemma ClientMeans(c: Client)
    requires c.Valid()
    ensures c.queryTree.Valid() && c.resultTree.Valid(c.queryTree.nodes + c.queryTree.dropped)
    ensures DecSound(Live(c.queryTree.tree.nodes), c.resultTree.Model(), c.resultTree.pathCache.limit)
    ensures CursorsBounded(c.resultTree.Model(), c.queryTree.tree.next)
    ensures c.queryTree.View() == QueryTreeSpec.Client(c.queryTree.tree, c.queryTree.queries)
    ensures ClientOk(c.queryTree.View())
  {
  }

  lemma ClientFrom(c: Client)
    requires c.queryTree.Valid() && c.resultTree.Valid(c.queryTree.nodes + c.queryTree.dropped)
    requires DecSound(Live(c.queryTree.tree.nodes), c.resultTree.Model(), c.resultTree.pathCache.limit)
    requires CursorsBounded(c.resultTree.Model(), c.queryTree.tree.next)
    ensures c.Valid()
  {
  }

  ghost predicate LiveBelow(live: set<QPath>, next: nat) {
    forall q | q in live :: Bounded(q, next)
  }

  lemma LiveIsBelow(next: nat, nodes: Nodes)
    requires NodesOk(next, nodes)
    ensures LiveBelow(Live(nodes), next)
  {
    forall q | q in Live(nodes) ensures Bounded(q, next) {
      if q != [] {
        var id :| id in nodes && q == PathOf(nodes, id);
        PathFacts(next, nodes, id);
      }
    }
  }

  lemma TreeBelow(q: QueryTree)
    requires q.Valid()
    ensures LiveBelow(Live(q.tree.nodes), q.tree.next)
  {
    LiveIsBelow(q.tree.next, q.tree.nodes);
  }

  lemma ArriveBounded(live: set<QPath>, d: Dec, cur: Cursor, f: RGQLValue, size: nat, next: nat)
    requires CursorsBounded(d, next) && CursorBounded(cur, next) && LiveBelow(live, next)
    ensures CursorsBounded(Arrive(live, d, cur, f, size), next)
  {
    if StepOf(f).Some? { ProjSnoc(cur.path, StepOf(f).value); }
    assert CursorBounded(Advance(live, cur, f), next);
  }

  /** Whatever ids the frames name, a cursor in bounds has only gone through ids given out. */
  lemma HandleBounded(live: set<QPath>, d: Dec, f: RGQLValue, size: nat, next: nat)
    requires CursorsBounded(d, next) && LiveBelow(live, next)
    ensures Handle(live, d, f, size).Handled? ==> CursorsBounded(Handle(live, d, f, size).dec, next)
  {
    hide Arrive;
    assert Proj([]) == [];
    if d.cursor.Some? {
      ArriveBounded(live, d, d.cursor.value, f, size, next);
    } else if f.posIdentifier == 0 {
      ArriveBounded(live, d, Cursor([], false), f, size, next);
    } else if f.posIdentifier in d.cache.vals {
      ArriveBounded(live, d.(cache := Renew(d.cache, f.posIdentifier)), d.cache.vals[f.posIdentifier],
        f.(posIdentifier := 0), size, next);
    }
  }
}
