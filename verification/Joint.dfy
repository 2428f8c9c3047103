/** The query tree and the result tree together: what attaching and detaching queries does to the
    results that are already there, and to those still on the way. */
module Joint {
  import opened Messages
  import opened AliasSpec
  import opened AliasRuns
  import opened QueryTreeSpec
  import opened QueryTreeProofs
  import opened QueryTreeReplica
  import Resolver
  import History = QueryTreeHistory

  // ----- the paths of a query tree

  lemma {:induction false} PathFacts(next: nat, nodes: Nodes, id: nat)
    requires NodesOk(next, nodes) && id in nodes
    ensures
      var p := PathOf(nodes, id);
      && p != [] && p[|p| - 1] == id
      && Bounded(p, next)
      && p[..|p| - 1] == PathOf(nodes, nodes[id].parent)
      && (nodes[id].parent == 0 ==> PathOf(nodes, nodes[id].parent) == [])
    decreases id
  {
    if nodes[id].parent != 0 { PathFacts(next, nodes, nodes[id].parent); }
  }

  /** A live path leads to the node it ends in. */
  lemma LiveEndsIn(next: nat, nodes: Nodes, path: QPath)
    requires NodesOk(next, nodes) && path in Live(nodes) && path != []
    ensures path[|path| - 1] in nodes && path == PathOf(nodes, path[|path| - 1])
  {
    var id :| id in nodes && path == PathOf(nodes, id);
    PathFacts(next, nodes, id);
  }

  lemma {:induction false} PathPrefixLive(next: nat, nodes: Nodes, id: nat, i: nat)
    requires NodesOk(next, nodes) && id in nodes && i <= |PathOf(nodes, id)|
    ensures PathOf(nodes, id)[..i] in Live(nodes)
    decreases id
  {
    PathFacts(next, nodes, id);
    var p := PathOf(nodes, id);
    if i == |p| {
      assert p[..i] == p;
    } else if nodes[id].parent == 0 {
      assert p[..i] == [];
    } else {
      PathPrefixLive(next, nodes, nodes[id].parent, i);
      assert p[..i] == p[..|p| - 1][..i];
    }
  }

  lemma LivePrefixClosed(next: nat, nodes: Nodes)
    requires NodesOk(next, nodes)
    ensures PrefixClosed(Live(nodes))
  {
    forall q, i | q in Live(nodes) && 0 <= i <= |q| ensures q[..i] in Live(nodes) {
      if q == [] {
        assert q[..i] == [];
      } else {
        var id :| id in nodes && q == PathOf(nodes, id);
        PathPrefixLive(next, nodes, id, i);
      }
    }
  }

  /** A path is an ancestor's exactly when it is a prefix. */
  lemma {:induction false} PrefixIsAncestor(next: nat, nodes: Nodes, a: nat, id: nat)
    requires NodesOk(next, nodes) && a in nodes && id in nodes
    ensures PathOf(nodes, a) <= PathOf(nodes, id) <==> Descends(nodes, id, a)
    decreases id
  {
    var pa, p := PathOf(nodes, a), PathOf(nodes, id);
    PathFacts(next, nodes, a);
    PathFacts(next, nodes, id);
    if id != a {
      var up := nodes[id].parent;
      if pa <= p {
        assert pa != p;
        assert pa <= p[..|p| - 1];
      }
      if up == 0 {
        if Descends(nodes, 0, a) { DescendsSmaller(nodes, 0, a); }
      } else {
        PrefixIsAncestor(next, nodes, a, up);
        if pa <= PathOf(nodes, up) { assert pa <= p; }
      }
    }
  }

  /** A smaller or larger tree gives the nodes they share the same paths. */
  lemma {:induction false} SamePath(next: nat, nodes: Nodes, next': nat, nodes': Nodes, id: nat)
    requires NodesOk(next, nodes) && NodesOk(next', nodes')
    requires forall x :: x in nodes && x in nodes' ==> nodes[x] == nodes'[x]
    requires id in nodes && id in nodes'
    ensures PathOf(nodes, id) == PathOf(nodes', id)
    decreases id
  {
    if nodes[id].parent != 0 { SamePath(next, nodes, next', nodes', nodes[id].parent); }
  }

  // ----- one operation on the query tree, seen from the result tree

  /** Nodes that are in both trees are the same, and nothing dropped is there again. */
  lemma OpShares(c: Client, op: Op)
    requires ClientOk(c)
    ensures
      var c' := Apply(c, op);
      && ClientOk(c') && c.tree.next <= c'.tree.next
      && (forall x :: x in c.tree.nodes && x in c'.tree.nodes ==> c.tree.nodes[x] == c'.tree.nodes[x])
      && (forall x :: x in c'.tree.nodes && x < c.tree.next ==> x in c.tree.nodes)
  {
    ReferencesConserved(c, op);
    if op.Attach? {
      WalkFacts(c.tree, 0, op.sels, false);
      FailedWalkUndone(c.tree, op.sels);
    }
  }

  /** To the result stream, an attach, a failed attach or a detach is a change of the query tree
      that never selects again what was dropped. */
  lemma OpIsRequery(w: World, c: Client, op: Op)
    requires ClientOk(c) && w.live == Live(c.tree.nodes) && w.bound == c.tree.next
    ensures var c' := Apply(c, op);
            Enabled(w, Requery(Live(c'.tree.nodes), c'.tree.next))
  {
    var c' := Apply(c, op);
    OpShares(c, op);
    LivePrefixClosed(c'.tree.next, c'.tree.nodes);
    forall q | q in Live(c'.tree.nodes) && Bounded(q, c.tree.next) ensures q in Live(c.tree.nodes) {
      if q != [] {
        var id := q[|q| - 1];
        LiveEndsIn(c'.tree.next, c'.tree.nodes, q);
        SamePath(c'.tree.next, c'.tree.nodes, c.tree.next, c.tree.nodes, id);
      }
    }
  }

  /** The purge of one dropped root: every result whose projection extends its path. */
  function Purge(trie: map<Path, Option<Primitive>>, root: QPath): map<Path, Option<Primitive>> {
    map p | p in trie && !(root <= Proj(p)) :: trie[p]
  }

  function PurgeAll(trie: map<Path, Option<Primitive>>, roots: seq<QPath>): map<Path, Option<Primitive>>
    decreases |roots|
  {
    if roots == [] then trie else PurgeAll(Purge(trie, roots[0]), roots[1..])
  }

  lemma {:induction false} PurgeAllKeeps(trie: map<Path, Option<Primitive>>, roots: seq<QPath>)
    ensures
      PurgeAll(trie, roots) ==
        map p | p in trie && (forall i :: 0 <= i < |roots| ==> !(roots[i] <= Proj(p))) :: trie[p]
    decreases |roots|
  {
    if roots != [] {
      PurgeAllKeeps(Purge(trie, roots[0]), roots[1..]);
      var a := PurgeAll(trie, roots);
      forall p | p in trie ensures p in a <==> forall i :: 0 <= i < |roots| ==> !(roots[i] <= Proj(p)) {
        if p in a {
          forall i | 0 <= i < |roots| ensures !(roots[i] <= Proj(p)) {
            if i > 0 { assert roots[1..][i - 1] == roots[i]; }
          }
        }
      }
    }
  }

  /** A path of the old tree is still live exactly when no dropped root is above it. */
  lemma StillLive(c: Client, q: nat, path: QPath)
    requires ClientOk(c) && q < |c.queries| && path in Live(c.tree.nodes)
    ensures
      var t := c.tree.(refs := c.tree.refs - multiset(c.queries[q]));
      path in Live(Apply(c, Detach(q)).tree.nodes) <==>
        forall root :: root in Unreferenced(t) ==> !(PathOf(c.tree.nodes, root) <= path)
  {
    var t := c.tree.(refs := c.tree.refs - multiset(c.queries[q]));
    var nodes, next := c.tree.nodes, c.tree.next;
    ReleaseClosed(c, q);
    OpShares(c, Detach(q));
    if path == [] {
      forall root | root in Unreferenced(t) ensures !(PathOf(nodes, root) <= path) { PathFacts(next, nodes, root); }
    } else {
      LiveEndsIn(next, nodes, path);
      StillLiveNode(t, path[|path| - 1]);
    }
  }

  lemma StillLiveNode(t: Tree, id: nat)
    requires NodesOk(t.next, t.nodes) && History.RefsClosed(t) && id in t.nodes && NodesOk(t.next, Prune(t).nodes)
    ensures PathOf(t.nodes, id) in Live(Prune(t).nodes) <==> id in t.refs
    ensures id in t.refs <==> forall root :: root in Unreferenced(t) ==> !(PathOf(t.nodes, root) <= PathOf(t.nodes, id))
  {
    var kept := Prune(t).nodes;
    PathFacts(t.next, t.nodes, id);
    if id in t.refs {
      SamePath(t.next, t.nodes, t.next, kept, id);
      forall root | root in Unreferenced(t) ensures !(PathOf(t.nodes, root) <= PathOf(t.nodes, id)) {
        PrefixIsAncestor(t.next, t.nodes, root, id);
        if Descends(t.nodes, id, root) { History.BelowUnreferenced(t, id, root); }
      }
    } else {
      var root := History.UnreferencedBelow(t, id);
      PrefixIsAncestor(t.next, t.nodes, root, id);
      if PathOf(t.nodes, id) in Live(kept) { LiveEndsIn(t.next, kept, PathOf(t.nodes, id)); }
    }
  }

  /** Purging every dropped root, in whatever order they are emitted, leaves exactly the results the
      remaining query tree selects. */
  lemma PurgeIsRestrict(c: Client, q: nat, trie: map<Path, Option<Primitive>>, ms: seq<Mutation>)
    requires ClientOk(c) && q < |c.queries| && TrieOk(Live(c.tree.nodes), trie) && Emits(c, Detach(q), ms)
    ensures
      var roots := seq(|ms|, i requires 0 <= i < |ms| => PathOf(c.tree.nodes, ms[i].nodeId));
      PurgeAll(trie, roots) == Restrict(trie, Live(Apply(c, Detach(q)).tree.nodes))
  {
    var roots := seq(|ms|, i requires 0 <= i < |ms| => PathOf(c.tree.nodes, ms[i].nodeId));
    var live' := Live(Apply(c, Detach(q)).tree.nodes);
    PurgeAllKeeps(trie, roots);
    forall p | p in trie
      ensures Proj(p) in live' <==> forall i :: 0 <= i < |roots| ==> !(roots[i] <= Proj(p))
    {
      StillLive(c, q, Proj(p));
      RootsListed(c, c.tree.(refs := c.tree.refs - multiset(c.queries[q])), ms, roots, Proj(p));
    }
    SameRestriction(trie, roots, live');
  }

  lemma SameRestriction(trie: map<Path, Option<Primitive>>, roots: seq<QPath>, live: set<QPath>)
    requires
      PurgeAll(trie, roots) ==
        map p | p in trie && (forall i :: 0 <= i < |roots| ==> !(roots[i] <= Proj(p))) :: trie[p]
    requires forall p :: p in trie ==> (Proj(p) in live <==> forall i :: 0 <= i < |roots| ==> !(roots[i] <= Proj(p)))
    ensures PurgeAll(trie, roots) == Restrict(trie, live)
  {
  }

  lemma RootsListed(c: Client, t: Tree, ms: seq<Mutation>, roots: seq<QPath>, path: QPath)
    requires Drops(Unreferenced(t), ms) && |roots| == |ms|
    requires forall i :: 0 <= i < |ms| ==> roots[i] == PathOf(c.tree.nodes, ms[i].nodeId)
    ensures (forall root :: root in Unreferenced(t) ==> !(PathOf(c.tree.nodes, root) <= path)) <==>
            (forall i :: 0 <= i < |roots| ==> !(roots[i] <= path))
  {
    if forall i :: 0 <= i < |roots| ==> !(roots[i] <= path) {
      forall root | root in Unreferenced(t) ensures !(PathOf(c.tree.nodes, root) <= path) {
        assert Delete(root) in ms;
        var i :| 0 <= i < |ms| && ms[i] == Delete(root);
        assert roots[i] == PathOf(c.tree.nodes, root);
      }
    }
  }

  // ----- any frames at all

  datatype Happening = Frame(frame: RGQLValue) | Query(op: Op)

  /** The client alone, fed frames and operations in any order, until a frame is refused. */
  ghost function Happen(c: Client, d: Dec, hs: seq<Happening>, size: nat): (Client, Dec)
    decreases |hs|
  {
    if hs == [] then (c, d)
    else
      match hs[0]
      case Frame(f) =>
        var h := Handle(Live(c.tree.nodes), d, f, size);
        if h.UnknownId? then (c, d) else Happen(c, h.dec, hs[1..], size)
      case Query(op) =>
        var c' := Apply(c, op);
        Happen(c', d.(trie := Restrict(d.trie, Live(c'.tree.nodes))), hs[1..], size)
  }

  lemma AnyFrameKeepsTrie(live: set<QPath>, trie: map<Path, Option<Primitive>>, cur: Cursor, f: RGQLValue)
    requires PrefixClosed(live) && TrieOk(live, trie)
    ensures TrieOk(live, Store(live, trie, cur, f))
  {
    var next := Advance(live, cur, f);
    if !next.oob && cur.path in trie {
      if StepOf(f).Some? {
        ProjSnoc(cur.path, StepOf(f).value);
        forall r, i | r in Store(live, trie, cur, f) && 0 <= i <= |r| ensures r[..i] in Store(live, trie, cur, f) {
          if r !in trie && i < |r| {
            assert r[..i] == cur.path[..i];
          } else if r !in trie {
            assert r[..i] == r;
          }
        }
      }
    }
  }

  /** The frames are well-formed; a value without a step would wipe the label of the node it reaches. */
  ghost predicate FramesOk(hs: seq<Happening>) {
    forall i :: 0 <= i < |hs| && hs[i].Frame? ==> FrameOk(hs[i].frame)
  }

  /** No dead data: over any interleaving of well-formed frames, attaches and detaches, every node of
      the result tree projects to a path of the query tree as it now is, also when a frame arrives
      through an alias defined before its target was dropped. */
  lemma {:induction false} NoDeadData(c: Client, d: Dec, hs: seq<Happening>, size: nat)
    requires ClientOk(c) && TrieOk(Live(c.tree.nodes), d.trie) && FramesOk(hs)
    ensures
      var (c', d') := Happen(c, d, hs, size);
      ClientOk(c') && TrieOk(Live(c'.tree.nodes), d'.trie)
    decreases |hs|
  {
    if hs != [] {
      LivePrefixClosed(c.tree.next, c.tree.nodes);
      assert FramesOk(hs[1..]);
      match hs[0] {
        case Frame(f) =>
          var live := Live(c.tree.nodes);
          var h := Handle(live, d, f, size);
          if h.Handled? {
            if d.cursor.None? && f.posIdentifier != 0 {
              AnyFrameKeepsTrie(live, d.trie, d.cache.vals[f.posIdentifier], f.(posIdentifier := 0));
            } else {
              AnyFrameKeepsTrie(live, d.trie, if d.cursor.Some? then d.cursor.value else Cursor([], false), f);
            }
            NoDeadData(c, h.dec, hs[1..], size);
          }
        case Query(op) =>
          var c' := Apply(c, op);
          OpShares(c, op);
          LivePrefixClosed(c'.tree.next, c'.tree.nodes);
          RestrictOk(d.trie, Live(c.tree.nodes), Live(c'.tree.nodes));
          NoDeadData(c', d.(trie := Restrict(d.trie, Live(c'.tree.nodes))), hs[1..], size);
      }
    }
  }

  // ----- the encoder, the decoder and the query tree

  datatype Action = Server(event: Event) | ClientOp(op: Op)

  /** The stream's view of a run of the whole system. */
  ghost function Lower(c: Client, acts: seq<Action>): seq<Event>
    decreases |acts|
  {
    if acts == [] then []
    else
      match acts[0]
      case Server(ev) => [ev] + Lower(c, acts[1..])
      case ClientOp(op) =>
        var c' := Apply(c, op);
        [Requery(Live(c'.tree.nodes), c'.tree.next)] + Lower(c', acts[1..])
  }

  ghost function After(c: Client, acts: seq<Action>): Client
    decreases |acts|
  {
    if acts == [] then c
    else After(if acts[0].ClientOp? then Apply(c, acts[0].op) else c, acts[1..])
  }

  /** The server opens contexts for existing query nodes, and writes values to opened contexts. */
  ghost predicate ServerPlays(w: World, c: Client, acts: seq<Action>, size: nat, mode: Mode)
    decreases |acts|
  {
    acts != [] ==>
      match acts[0]
      case Server(ev) =>
        && !ev.Requery? && Enabled(w, ev)
        && (ev.WriteValue? ==> Resolver.Chained(ev.ctx))
        && ServerPlays(Next(w, ev, size, mode), c, acts[1..], size, mode)
      case ClientOp(op) =>
        var c' := Apply(c, op);
        ServerPlays(Next(w, Requery(Live(c'.tree.nodes), c'.tree.next), size, mode), c', acts[1..], size, mode)
  }

  lemma {:induction false} LowerEnabled(w: World, c: Client, acts: seq<Action>, size: nat, mode: Mode)
    requires ClientOk(c) && w.live == Live(c.tree.nodes) && w.bound == c.tree.next
    requires ServerPlays(w, c, acts, size, mode)
    ensures AllEnabled(w, Lower(c, acts), size, mode)
    decreases |acts|
  {
    if acts != [] {
      match acts[0] {
        case Server(ev) =>
          var w' := Next(w, ev, size, mode);
          LowerEnabled(w', c, acts[1..], size, mode);
          assert Lower(c, acts)[1..] == Lower(c, acts[1..]);
        case ClientOp(op) =>
          var c' := Apply(c, op);
          OpIsRequery(w, c, op);
          ReferencesConserved(c, op);
          LowerEnabled(Next(w, Requery(Live(c'.tree.nodes), c'.tree.next), size, mode), c', acts[1..], size, mode);
          assert Lower(c, acts)[1..] == Lower(c', acts[1..]);
      }
    }
  }

  lemma NextLive(w: World, ev: Event, size: nat, mode: Mode)
    requires ev.WriteValue? ==> Resolver.Chained(ev.ctx)
    ensures Next(w, ev, size, mode).live == if ev.Requery? then ev.live else w.live
  {
  }

  lemma {:induction false} FinalLive(w: World, c: Client, acts: seq<Action>, size: nat, mode: Mode)
    requires ClientOk(c) && w.live == Live(c.tree.nodes) && ServerPlays(w, c, acts, size, mode)
    ensures Final(w, Lower(c, acts), size, mode).live == Live(After(c, acts).tree.nodes)
    ensures ClientOk(After(c, acts))
    decreases |acts|
  {
    hide Next, Apply, ClientOk, Live, Enabled;
    if acts != [] {
      match acts[0] {
        case Server(ev) =>
          NextLive(w, ev, size, mode);
          FinalLive(Next(w, ev, size, mode), c, acts[1..], size, mode);
          assert Lower(c, acts)[1..] == Lower(c, acts[1..]);
        case ClientOp(op) =>
          var c' := Apply(c, op);
          ReferencesConserved(c, op);
          NextLive(w, Requery(Live(c'.tree.nodes), c'.tree.next), size, mode);
          FinalLive(Next(w, Requery(Live(c'.tree.nodes), c'.tree.next), size, mode), c', acts[1..], size, mode);
          assert Lower(c, acts)[1..] == Lower(c', acts[1..]);
      }
    }
  }

  /** The whole system from the start: contexts, values, attaches and detaches in any order. The
      result tree is the plain one, purged along with the query tree, and holds no dead data. */
  lemma SystemAgrees(acts: seq<Action>, size: nat)
    requires 2 <= size
    requires
      var w := Start(Live(NEW_CLIENT.tree.nodes), NEW_CLIENT.tree.next);
      && ServerPlays(w, NEW_CLIENT, acts, size, Intended)
      && AllClean(w, Lower(NEW_CLIENT, acts), size, Intended)
    ensures
      var w := Start(Live(NEW_CLIENT.tree.nodes), NEW_CLIENT.tree.next);
      var w' := Final(w, Lower(NEW_CLIENT, acts), size, Intended);
      && w'.dec.trie == Plain(map[[] := None], w.live, Lower(NEW_CLIENT, acts))
      && InSync(w'.enc, w'.dec)
      && TrieOk(Live(After(NEW_CLIENT, acts).tree.nodes), w'.dec.trie)
  {
    var live := Live(NEW_CLIENT.tree.nodes);
    var w := Start(live, NEW_CLIENT.tree.next);
    assert live == {[]};
    assert ClientOk(NEW_CLIENT);
    LowerEnabled(w, NEW_CLIENT, acts, size, Intended);
    StartOk(live, NEW_CLIENT.tree.next, size, Intended);
    RunExact(w, Lower(NEW_CLIENT, acts), size, Intended);
    FinalLive(w, NEW_CLIENT, acts, size, Intended);
  }
}
