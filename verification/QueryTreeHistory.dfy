/** Whole histories of the query tree: attaches, failed attaches and detaches. */
module QueryTreeHistory {
  import opened QueryTreeSpec
  import opened QueryTreeProofs
  import opened QueryTreeReplica
  import opened QueryTreeRoots

  // ----- replaying a detach

  ghost predicate RefsClosed(t: Tree) {
    forall id :: id in t.refs ==> id in t.nodes && (t.nodes[id].parent == 0 || t.nodes[id].parent in t.refs)
  }

  /** The unreferenced nodes are exactly those in the subtree of a dropped root. */
  lemma {:induction false} UnreferencedBelow(t: Tree, id: nat) returns (root: nat)
    requires NodesOk(t.next, t.nodes) && id in t.nodes && id !in t.refs
    ensures root in Unreferenced(t) && Descends(t.nodes, id, root)
    decreases id
  {
    if t.nodes[id].parent == 0 || t.nodes[id].parent in t.refs {
      root := id;
    } else {
      root := UnreferencedBelow(t, t.nodes[id].parent);
    }
  }

  lemma {:induction false} BelowUnreferenced(t: Tree, id: nat, root: nat)
    requires RefsClosed(t) && root !in t.refs && root != 0 && id in t.nodes && Descends(t.nodes, id, root)
    ensures id !in t.refs
    decreases id
  {
    if id != root && id in t.refs {
      if t.nodes[id].parent == 0 {
        DescendsSmaller(t.nodes, 0, root);
        assert false;
      }
      BelowUnreferenced(t, t.nodes[id].parent, root);
    }
  }

  /** The nodes outside the first `k` deleted subtrees. */
  ghost function Outside(nodes: Nodes, ms: seq<Mutation>): Nodes {
    map x | x in nodes && forall i :: 0 <= i < |ms| ==> !Descends(nodes, x, ms[i].nodeId) :: nodes[x]
  }

  lemma {:induction false} SameAncestors(nodes: Nodes, part: Nodes, x: nat, a: nat)
    requires ParentsIn(nodes) && x in part && forall y :: y in part ==> y in nodes && part[y] == nodes[y]
    requires forall y {:trigger part[y].parent} :: y in part && part[y].parent != 0 ==> part[y].parent in part
    ensures Descends(part, x, a) <==> Descends(nodes, x, a)
    decreases x
  {
    if x != a && nodes[x].parent != 0 { SameAncestors(nodes, part, nodes[x].parent, a); }
  }

  lemma OutsideClosed(nodes: Nodes, ms: seq<Mutation>)
    requires ParentsIn(nodes)
    ensures var part := Outside(nodes, ms);
            forall y {:trigger part[y].parent} :: y in part && part[y].parent != 0 ==> part[y].parent in part
  {
    var part := Outside(nodes, ms);
    forall y | y in part && part[y].parent != 0 ensures part[y].parent in part {
      forall i | 0 <= i < |ms| ensures !Descends(nodes, nodes[y].parent, ms[i].nodeId) {
        assert Descends(nodes, nodes[y].parent, ms[i].nodeId) ==> Descends(nodes, y, ms[i].nodeId);
      }
    }
  }

  lemma {:induction false} ReplayDrops(t: Tree, ms: seq<Mutation>, k: nat)
    requires NodesOk(t.next, t.nodes) && RefsClosed(t) && Drops(Unreferenced(t), ms) && k <= |ms|
    ensures ReplayAll(t.nodes, ms[..k]) == Outside(t.nodes, ms[..k])
    ensures Replayable(t.nodes, ms[..k])
  {
    hide *;
    if k == 0 {
      NoDropsYet(t.nodes, ms);
    } else {
      var before, id, part := ms[..k - 1], ms[k - 1].nodeId, Outside(t.nodes, ms[..k - 1]);
      ReplayDrops(t, ms, k - 1);
      PartFacts(t, ms, k - 1);
      OutsideClosed(t.nodes, before);
      DropApart(t, ms, k - 1);
      forall x | x in part ensures Descends(part, x, id) <==> Descends(t.nodes, x, id) {
        SameAncestors(t.nodes, part, x, id);
      }
      DropOne(t.nodes, before, ms[k - 1]);
      OneMoreDropped(t.nodes, ms, k);
    }
  }

  lemma NoDropsYet(nodes: Nodes, ms: seq<Mutation>)
    ensures ReplayAll(nodes, ms[..0]) == Outside(nodes, ms[..0]) && Replayable(nodes, ms[..0])
  {
  }

  lemma PartFacts(t: Tree, ms: seq<Mutation>, k: nat)
    requires NodesOk(t.next, t.nodes) && Drops(Unreferenced(t), ms) && k < |ms|
    ensures ParentsIn(t.nodes) && ms[k].Delete?
    ensures var part := Outside(t.nodes, ms[..k]); forall y :: y in part ==> y in t.nodes && part[y] == t.nodes[y]
  {
  }

  lemma OneMoreDropped(nodes: Nodes, ms: seq<Mutation>, k: nat)
    requires 0 < k <= |ms| && ms[k - 1].Delete? && Replayable(nodes, ms[..k - 1])
    requires ms[k - 1].nodeId in ReplayAll(nodes, ms[..k - 1])
    ensures Replayable(nodes, ms[..k])
    ensures ReplayAll(nodes, ms[..k]) == Replay(ReplayAll(nodes, ms[..k - 1]), ms[k - 1])
    ensures ms[..k] == ms[..k - 1] + [ms[k - 1]]
  {
    assert ms[..k][..k - 1] == ms[..k - 1] && ms[..k][k - 1] == ms[k - 1];
  }

  lemma DropOne(nodes: Nodes, before: seq<Mutation>, m: Mutation)
    requires m.Delete? && m.nodeId in Outside(nodes, before)
    requires forall x ::
        x in Outside(nodes, before) ==>
          (Descends(Outside(nodes, before), x, m.nodeId) <==> Descends(nodes, x, m.nodeId))
    ensures Replay(Outside(nodes, before), m) == Outside(nodes, before + [m])
  {
    var ms := before + [m];
    var a, b := Replay(Outside(nodes, before), m), Outside(nodes, ms);
    forall x | x in b ensures x in a {
      assert forall i :: 0 <= i < |before| ==> ms[i] == before[i];
      assert ms[|before|] == m;
    }
    forall x | x in a ensures x in b {
    }
  }

  /** A dropped root is not inside another dropped subtree. */
  lemma DropApart(t: Tree, ms: seq<Mutation>, k: nat)
    requires NodesOk(t.next, t.nodes) && RefsClosed(t) && Drops(Unreferenced(t), ms) && k < |ms|
    ensures ms[k].nodeId in Outside(t.nodes, ms[..k])
  {
    var id := ms[k].nodeId;
    forall i | 0 <= i < k ensures !Descends(t.nodes, id, ms[..k][i].nodeId) {
      var r := ms[i].nodeId;
      assert ms[i] != ms[k];
      if Descends(t.nodes, id, r) {
        var p := t.nodes[id].parent;
        assert Descends(t.nodes, p, r);
        DescendsSmaller(t.nodes, p, r);
        BelowUnreferenced(t, p, r);
      }
    }
  }

  lemma OutsideReferenced(t: Tree, ms: seq<Mutation>, x: nat)
    requires NodesOk(t.next, t.nodes) && RefsClosed(t) && Drops(Unreferenced(t), ms) && x in t.nodes
    ensures x in Outside(t.nodes, ms) <==> x in t.refs
  {
    if x in t.refs {
      forall i | 0 <= i < |ms| ensures !Descends(t.nodes, x, ms[i].nodeId) {
        if Descends(t.nodes, x, ms[i].nodeId) { BelowUnreferenced(t, x, ms[i].nodeId); }
      }
    } else {
      var root := UnreferencedBelow(t, x);
      assert Delete(root) in ms;
      var i :| 0 <= i < |ms| && ms[i] == Delete(root);
    }
  }

  /** A sweep replays to the full prune. */
  lemma SweepReplays(t: Tree, ms: seq<Mutation>)
    requires NodesOk(t.next, t.nodes) && RefsClosed(t) && Drops(Unreferenced(t), ms)
    ensures Replayable(t.nodes, ms) && ReplayAll(t.nodes, ms) == Prune(t).nodes
  {
    hide *;
    assert ms[..|ms|] == ms;
    ReplayDrops(t, ms, |ms|);
    forall x | x in t.nodes ensures x in Outside(t.nodes, ms) <==> x in t.refs {
      OutsideReferenced(t, ms, x);
    }
    OutsideIsPrune(t, ms);
  }

  lemma OutsideIsPrune(t: Tree, ms: seq<Mutation>)
    requires forall x | x in t.nodes :: x in Outside(t.nodes, ms) <==> x in t.refs
    ensures Outside(t.nodes, ms) == Prune(t).nodes
  {
  }

  // ----- whole histories

  ghost predicate EmitsAll(c: Client, ops: seq<Op>, mss: seq<seq<Mutation>>)
    decreases |ops|
  {
    && |ops| == |mss|
    && (ops != [] ==> Emits(c, ops[0], mss[0]) && EmitsAll(Apply(c, ops[0]), ops[1..], mss[1..]))
  }

  ghost function ReplayHistory(nodes: Nodes, mss: seq<seq<Mutation>>): Nodes
    decreases |mss|
  {
    if mss == [] then nodes else ReplayHistory(ReplayAll(nodes, mss[0]), mss[1..])
  }

  ghost predicate AllReplayable(nodes: Nodes, mss: seq<seq<Mutation>>)
    decreases |mss|
  {
    mss != [] ==> Replayable(nodes, mss[0]) && AllReplayable(ReplayAll(nodes, mss[0]), mss[1..])
  }

  /** The server can follow this operation. */
  ghost predicate OpSendable(c: Client, op: Op) {
    op.Attach? ==> Sendable(c.tree.nodes, op.sels)
  }

  ghost predicate AllSendable(c: Client, ops: seq<Op>)
    decreases |ops|
  {
    ops != [] ==> OpSendable(c, ops[0]) && AllSendable(Apply(c, ops[0]), ops[1..])
  }

  lemma OneReplays(c: Client, op: Op, ms: seq<Mutation>)
    requires ClientOk(c) && Emits(c, op, ms)
    ensures Replayable(c.tree.nodes, ms) <==> OpSendable(c, op)
    ensures OpSendable(c, op) ==> ReplayAll(c.tree.nodes, ms) == Apply(c, op).tree.nodes
  {
    hide Whole, Walk, Replayable, ReplayAll;
    match op
    case Attach(sels) =>
      FailsExactly(c.tree, 0, sels, false);
      if Walk(c.tree, 0, sels, false).failed {
        FailedWalkUndone(c.tree, sels);
        NothingReplays(c.tree.nodes);
      } else {
        WholeReplays(c.tree, sels, ms);
      }
    case Detach(q) =>
      if q < |c.queries| {
        ReleaseClosed(c, q);
        SweepReplays(c.tree.(refs := c.tree.refs - multiset(c.queries[q])), ms);
      } else {
        NothingReplays(c.tree.nodes);
      }
  }

  lemma NothingReplays(nodes: Nodes)
    ensures Replayable(nodes, []) && ReplayAll(nodes, []) == nodes
  {
  }

  /** Replica agreement over any history of attaches, failed attaches and detaches: no mutation names
      a node the server does not know or adds one it has exactly when every attach was complete where
      it added to the tree; and then replaying the mutations gives the client's tree. */
  lemma {:induction false} ReplicaAgrees(c: Client, ops: seq<Op>, mss: seq<seq<Mutation>>)
    requires ClientOk(c) && EmitsAll(c, ops, mss)
    ensures AllReplayable(c.tree.nodes, mss) <==> AllSendable(c, ops)
    ensures AllSendable(c, ops) ==> ReplayHistory(c.tree.nodes, mss) == ApplyAll(c, ops).tree.nodes
    decreases |ops|
  {
    hide ClientOk, Emits, Apply, OpSendable, Replayable, ReplayAll;
    if ops != [] {
      OneReplays(c, ops[0], mss[0]);
      ReferencesConserved(c, ops[0]);
      ReplicaAgrees(Apply(c, ops[0]), ops[1..], mss[1..]);
    }
  }

  /** Queries without repeated siblings can always be followed, from any tree. */
  lemma {:induction false} DistinctSendable(c: Client, ops: seq<Op>)
    requires forall i :: 0 <= i < |ops| && ops[i].Attach? ==> Distinct(ops[i].sels)
    ensures AllSendable(c, ops)
    decreases |ops|
  {
    if ops != [] {
      if ops[0].Attach? { DistinctWhole(c.tree.nodes, ops[0].sels); }
      DistinctSendable(Apply(c, ops[0]), ops[1..]);
    }
  }

  /** Ids are never reused: a dropped id stays out of the tree for good. */
  lemma {:induction false} NeverBack(c: Client, ops: seq<Op>, id: nat)
    requires ClientOk(c) && id < c.tree.next && id !in c.tree.nodes
    ensures id !in ApplyAll(c, ops).tree.nodes
    decreases |ops|
  {
    if ops != [] {
      ReferencesConserved(c, ops[0]);
      NotBackAtOnce(c, ops[0], id);
      hide ClientOk, Apply;
      NeverBack(Apply(c, ops[0]), ops[1..], id);
    }
  }

  lemma NotBackAtOnce(c: Client, op: Op, id: nat)
    requires ClientOk(c) && id < c.tree.next && id !in c.tree.nodes
    ensures id !in Apply(c, op).tree.nodes
  {
    match op {
      case Attach(sels) =>
        WalkFacts(c.tree, 0, sels, false);
        FailedWalkUndone(c.tree, sels);
      case Detach(_) =>
    }
  }

  // ----- repeated siblings

  /** A field selected twice, the second time for `c` alone. */
  function RepeatedField(a: FieldKey, b: FieldKey, c: FieldKey, both: bool): seq<Sel> {
    var first, second := Sel(b, true, [], ""), Sel(c, true, [], "");
    [Sel(a, true, [first] + if both then [second] else [], ""), Sel(a, true, [second], "")]
  }

  lemma OneSel(at: KeyPath, x: Sel)
    ensures Chosen(at, [x]) == {at + [x.key]} + Chosen(at + [x.key], x.sels)
    ensures Resolves([x]) <==> x.ok && Resolves(x.sels)
  {
    assert [x][1..] == [];
  }

  lemma TwoSels(at: KeyPath, x: Sel, y: Sel)
    ensures
      Chosen(at, [x, y]) ==
        {at + [x.key]} + Chosen(at + [x.key], x.sels) + {at + [y.key]} + Chosen(at + [y.key], y.sels)
    ensures Resolves([x, y]) <==> x.ok && Resolves(x.sels) && y.ok && Resolves(y.sels)
    ensures FirstBelow(at, [x, y], at + [x.key]) == Chosen(at + [x.key], x.sels)
  {
    assert [x, y][1..] == [y];
    OneSel(at, y);
  }

  lemma RepeatedPaths(a: FieldKey, b: FieldKey, c: FieldKey, both: bool)
    ensures
      var sels := RepeatedField(a, b, c, both);
      && Resolves(sels) && Chosen([], sels) == {[a], [a, b], [a, c]}
      && FirstBelow([], sels, [a]) == if both then {[a, b], [a, c]} else {[a, b]}
  {
    var x, y := Sel(b, true, [], ""), Sel(c, true, [], "");
    var first := [x] + if both then [y] else [];
    assert first == if both then [x, y] else [x];
    OneSel([a], x);
    OneSel([a], y);
    TwoSels([a], x, y);
    TwoSels([], Sel(a, true, first, ""), Sel(a, true, [y], ""));
    assert [] + [a] == [a] && [a] + [b] == [a, b] && [a] + [c] == [a, c];
  }

  /** A new field selected twice: the attach can be followed exactly when the second selection asks
      for nothing that the first did not. Of `a{b} a{c}` the field c is announced on its own although it
      also goes out inside a, and the server, which looks for known ids at the root alone, adds it a
      second time; `a{b c} a{c}` is fine. */
  lemma RepeatedFieldSent(a: FieldKey, b: FieldKey, c: FieldKey, both: bool, ms: seq<Mutation>)
    requires b != c
    requires Emits(NEW_CLIENT, Attach(RepeatedField(a, b, c, both)), ms)
    ensures Replayable(NEW_CLIENT.tree.nodes, ms) <==> both
  {
    hide Chosen, FirstBelow, Resolves, Replayable, Emits, RepeatedField;
    var sels := RepeatedField(a, b, c, both);
    RepeatedPaths(a, b, c, both);
    OneReplays(NEW_CLIENT, Attach(sels), ms);
    assert KeyPaths(NEW_CLIENT.tree.nodes) == {[]};
    assert [a] < [a, c] && [a, b] != [a, c];
    assert Tops({[]}, [a]) by { assert [a][..0] == []; }
    if both {
      forall p, q | p in Chosen([], sels) && q in Chosen([], sels) && p < q && Tops({[]}, p)
        ensures q in FirstBelow([], sels, p)
      {
        assert p == [a];
      }
    }
  }
}
