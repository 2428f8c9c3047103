/** Reference conservation, atomic failure and replica agreement for the query tree. */
module QueryTreeProofs {
  import opened QueryTreeSpec

  // ----- resolving one field

  lemma ResolveFacts(t: Tree, parent: nat, key: FieldKey)
    requires TreeOk(t) && (parent == 0 || parent in t.nodes)
    ensures
      var (id, t1) := Resolve(t, parent, key);
      && id in t1.nodes && t1.nodes[id] == QN(parent, key)
      && TreeOk(t1.(refs := t1.refs + multiset{id}))
      && Extends(t, t1)
      && t1.refs == t.refs
      && (id !in t.refs <==> id == t.next) && (id !in t.nodes <==> id == t.next)
      && (forall x :: x in t1.nodes && x !in t.nodes ==> x == id)
  {
    var (id, t1) := Resolve(t, parent, key);
    var t2 := t1.(refs := t1.refs + multiset{id});
    if !HasChild(t.nodes, parent, key) {
      forall i, j | i in t1.nodes && j in t1.nodes && t1.nodes[i] == t1.nodes[j] ensures i == j {
        if i != t.next && j != t.next {
          assert t.nodes[i] == t.nodes[j];
        }
      }
    }
  }

  /** The tree only grows: old nodes keep their place, new ids are above the old ones. */
  ghost predicate Extends(t: Tree, t': Tree) {
    && t.next <= t'.next
    && (forall x :: x in t.nodes ==> x in t'.nodes && t'.nodes[x] == t.nodes[x])
    && (forall x :: x in t'.nodes && x !in t.nodes ==> t.next <= x)
  }

  // ----- a whole walk

  lemma ClosedHead(nodes: Nodes, parent: nat, id: nat, occ: seq<nat>)
    requires ParentClosed(nodes, id, occ) && id in nodes && nodes[id].parent == parent
    ensures ParentClosed(nodes, parent, [id] + occ)
  {
  }

  lemma ClosedGrows(t: Tree, t': Tree, parent: nat, occ: seq<nat>)
    requires ParentClosed(t.nodes, parent, occ) && Extends(t, t')
    ensures ParentClosed(t'.nodes, parent, occ)
  {
  }

  lemma ClosedJoin(nodes: Nodes, parent: nat, a: seq<nat>, b: seq<nat>)
    requires ParentClosed(nodes, parent, a) && ParentClosed(nodes, parent, b)
    ensures ParentClosed(nodes, parent, a + b)
  {
  }

  lemma ExtendsTrans(a: Tree, b: Tree, c: Tree)
    requires Extends(a, b) && Extends(b, c)
    ensures Extends(a, c)
  {
  }

  lemma CountsJoin(refs: multiset<nat>, id: nat, a: seq<nat>, b: seq<nat>)
    ensures refs + multiset{id} + multiset(a) + multiset(b) == refs + multiset([id] + a + b)
    ensures refs + multiset{id} + multiset(a) == refs + multiset([id] + a)
  {
    assert multiset([id] + a + b) == multiset([id]) + multiset(a) + multiset(b);
    assert multiset([id] + a) == multiset([id]) + multiset(a);
  }

  /** A walk, successful or not, keeps the tree good, counts exactly the references it records, and
      records every parent along with a node. */
  lemma {:induction false} WalkFacts(t: Tree, parent: nat, sels: seq<Sel>, inNew: bool)
    requires TreeOk(t) && (parent == 0 || parent in t.nodes)
    ensures
      var w := Walk(t, parent, sels, inNew);
      && TreeOk(w.tree)
      && Extends(t, w.tree)
      && w.tree.refs == t.refs + multiset(w.occ)
      && ParentClosed(w.tree.nodes, parent, w.occ)
    decreases SelsSize(sels)
  {
    if sels != [] && sels[0].ok {
      var (id, t1) := Resolve(t, parent, sels[0].key);
      ResolveFacts(t, parent, sels[0].key);
      var t2 := t1.(refs := t1.refs + multiset{id});
      var below := Walk(t2, id, sels[0].sels, inNew || id !in t1.refs);
      WalkFacts(t2, id, sels[0].sels, inNew || id !in t1.refs);
      ExtendsTrans(t, t2, below.tree);
      ClosedHead(below.tree.nodes, parent, id, below.occ);
      if below.failed {
        CountsJoin(t.refs, id, below.occ, []);
      } else {
        var rest := Walk(below.tree, parent, sels[1..], inNew);
        WalkFacts(below.tree, parent, sels[1..], inNew);
        ExtendsTrans(t, below.tree, rest.tree);
        ClosedGrows(below.tree, rest.tree, parent, [id] + below.occ);
        ClosedJoin(rest.tree.nodes, parent, [id] + below.occ, rest.occ);
        CountsJoin(t.refs, id, below.occ, rest.occ);
      }
    } else {
      assert multiset(Walk(t, parent, sels, inNew).occ) == multiset{};
    }
  }

  /** The definition of Walk, one selection at a time. */
  lemma WalkStep(t: Tree, parent: nat, sels: seq<Sel>, inNew: bool)
    returns (id: nat, t2: Tree, below: Walked, rest: Walked)
    requires sels != [] && sels[0].ok
    ensures id == Resolve(t, parent, sels[0].key).0
    ensures t2 == Resolve(t, parent, sels[0].key).1.(refs := t.refs + multiset{id})
    ensures below == Walk(t2, id, sels[0].sels, inNew || id !in t.refs)
    ensures
      rest == if below.failed then Walked(below.tree, [], [], true) else Walk(below.tree, parent, sels[1..], inNew)
    ensures Walk(t, parent, sels, inNew) ==
            Walked(rest.tree, [id] + below.occ + rest.occ,
                   (if id !in t.refs && !inNew then [id] else []) + below.added + rest.added, rest.failed)
  {
    id := Resolve(t, parent, sels[0].key).0;
    t2 := Resolve(t, parent, sels[0].key).1.(refs := t.refs + multiset{id});
    below := Walk(t2, id, sels[0].sels, inNew || id !in t.refs);
    rest := if below.failed then Walked(below.tree, [], [], true) else Walk(below.tree, parent, sels[1..], inNew);
    assert [id] + below.occ + [] == [id] + below.occ;
    var announced := if id !in t.refs && !inNew then [id] else [];
    assert announced + below.added + [] == announced + below.added;
  }

  /** One selection of a walk, taken apart: the node it resolves to, what its own selections do,
      and what the remaining selections do (nothing, after a failure). */
  lemma WalkParts(t: Tree, parent: nat, sels: seq<Sel>, inNew: bool)
    returns (id: nat, t2: Tree, below: Walked, rest: Walked)
    requires TreeOk(t) && (parent == 0 || parent in t.nodes) && sels != [] && sels[0].ok
    ensures id == Resolve(t, parent, sels[0].key).0
    ensures t2 == Resolve(t, parent, sels[0].key).1.(refs := t.refs + multiset{id})
    ensures TreeOk(t2) && Extends(t, t2) && id in t2.nodes && t2.nodes[id] == QN(parent, sels[0].key)
    ensures id !in t.refs <==> id !in t.nodes
    ensures forall x :: x in t2.nodes && x !in t.nodes ==> x == id
    ensures below == Walk(t2, id, sels[0].sels, inNew || id !in t.refs)
    ensures TreeOk(below.tree) && Extends(t2, below.tree)
    ensures
      rest == if below.failed then Walked(below.tree, [], [], true) else Walk(below.tree, parent, sels[1..], inNew)
    ensures TreeOk(rest.tree) && Extends(below.tree, rest.tree)
    ensures Walk(t, parent, sels, inNew) ==
            Walked(rest.tree, [id] + below.occ + rest.occ,
                   (if id !in t.refs && !inNew then [id] else []) + below.added + rest.added, rest.failed)
  {
    id, t2, below, rest := WalkStep(t, parent, sels, inNew);
    ResolveFacts(t, parent, sels[0].key);
    WalkFacts(t2, id, sels[0].sels, inNew || id !in t.refs);
    if !below.failed { WalkFacts(below.tree, parent, sels[1..], inNew); }
  }

  lemma ReleaseUndoes(t: Tree, t': Tree, occ: seq<nat>)
    requires TreeOk(t) && Extends(t, t') && t'.refs == t.refs + multiset(occ)
    ensures Release(t', occ) == t.(next := t'.next)
  {
    hide NodesOk;
    AddThenDrop(t.refs, multiset(occ));
    PruneBack(t, t'.(refs := t.refs));
  }

  lemma AddThenDrop(a: multiset<nat>, b: multiset<nat>)
    ensures a + b - b == a
  {
  }

  lemma PruneBack(t: Tree, t': Tree)
    requires TreeOk(t) && Extends(t, t') && t'.refs == t.refs
    ensures Prune(t') == t.(next := t'.next)
  {
    hide NodesOk;
    assert Prune(t').nodes.Keys == t.nodes.Keys;
  }

  /** A failed attach is atomic: the same nodes and the same counts; only ids were used up. */
  lemma FailedWalkUndone(t: Tree, sels: seq<Sel>)
    requires TreeOk(t)
    ensures var w := Walk(t, 0, sels, false);
            Release(w.tree, w.occ) == t.(next := w.tree.next)
  {
    WalkFacts(t, 0, sels, false);
    var w := Walk(t, 0, sels, false);
    ReleaseUndoes(t, w.tree, w.occ);
  }

  // ----- reference conservation

  lemma {:induction false} HeldMember(qs: seq<seq<nat>>, id: nat)
    ensures id in Held(qs) <==> exists q :: 0 <= q < |qs| && id in qs[q]
  {
    if qs != [] {
      HeldMember(qs[..|qs| - 1], id);
      if id in Held(qs) && id in Held(qs[..|qs| - 1]) {
        var q :| 0 <= q < |qs| - 1 && id in qs[..|qs| - 1][q];
        assert id in qs[q];
      }
      if q :| 0 <= q < |qs| && id in qs[q] {
        if q < |qs| - 1 { assert id in qs[..|qs| - 1][q]; }
      }
    }
  }

  lemma {:induction false} HeldRelease(qs: seq<seq<nat>>, q: nat)
    requires q < |qs|
    ensures Held(qs[q := []]) == Held(qs) - multiset(qs[q])
    ensures multiset(qs[q]) <= Held(qs)
  {
    var init := qs[..|qs| - 1];
    if q == |qs| - 1 {
      assert qs[q := []][..|qs| - 1] == init;
    } else {
      HeldRelease(init, q);
      assert qs[q := []][..|qs| - 1] == init[q := []];
      DropFromSum(Held(init), multiset(qs[|qs| - 1]), multiset(qs[q]));
    }
  }

  lemma DropFromSum(a: multiset<nat>, b: multiset<nat>, c: multiset<nat>)
    requires c <= a
    ensures a + b - c == a - c + b && c <= a + b
  {
  }

  lemma HeldSnoc(qs: seq<seq<nat>>, occ: seq<nat>)
    ensures Held(qs + [occ]) == Held(qs) + multiset(occ)
  {
    assert (qs + [occ])[..|qs|] == qs;
  }

  /** What is left after giving up one query is closed under parents. */
  lemma ReleaseClosed(c: Client, q: nat)
    requires ClientOk(c) && q < |c.queries|
    ensures
      var t := c.tree.(refs := c.tree.refs - multiset(c.queries[q]));
      && t.refs == Held(c.queries[q := []])
      && (forall id :: id in t.refs ==> id in t.nodes && (t.nodes[id].parent == 0 || t.nodes[id].parent in t.refs))
  {
    var qs := c.queries[q := []];
    HeldRelease(c.queries, q);
    forall id | id in Held(qs)
      ensures id in c.tree.nodes && (c.tree.nodes[id].parent == 0 || c.tree.nodes[id].parent in Held(qs))
    {
      HeldMember(qs, id);
      var k :| 0 <= k < |qs| && id in qs[k];
      assert qs[k] == c.queries[k];
      if c.tree.nodes[id].parent != 0 {
        HeldMember(qs, c.tree.nodes[id].parent);
      }
    }
  }

  /** Between operations every node's count is its number of occurrences in the attached queries
      and is positive, references are closed under parents, and ids are unique and below nextID. */
  lemma ReferencesConserved(c: Client, op: Op)
    requires ClientOk(c)
    ensures ClientOk(Apply(c, op)) && c.tree.next <= Apply(c, op).tree.next
  {
    match op
    case Attach(sels) =>
      AttachConserves(c, sels);
    case Detach(q) =>
      if q < |c.queries| {
        ReleaseClosed(c, q);
        ReleaseKeepsClosed(c, q);
      }
  }

  lemma ClosedSnoc(t: Tree, t': Tree, queries: seq<seq<nat>>, occ: seq<nat>)
    requires AllClosed(t.nodes, queries) && Extends(t, t') && ParentClosed(t'.nodes, 0, occ)
    ensures AllClosed(t'.nodes, queries + [occ])
  {
    forall q | 0 <= q < |queries| ensures ParentClosed(t'.nodes, 0, queries[q]) {
      ClosedGrows(t, t', 0, queries[q]);
    }
  }

  lemma AttachConserves(c: Client, sels: seq<Sel>)
    requires ClientOk(c)
    ensures ClientOk(Apply(c, Attach(sels))) && c.tree.next <= Apply(c, Attach(sels)).tree.next
  {
    var w := Walk(c.tree, 0, sels, false);
    WalkFacts(c.tree, 0, sels, false);
    var c' := Apply(c, Attach(sels));
    if w.failed {
      FailedWalkUndone(c.tree, sels);
      HeldSnoc(c.queries, []);
      ClosedSnoc(c.tree, c'.tree, c.queries, []);
    } else {
      HeldSnoc(c.queries, w.occ);
      ClosedSnoc(c.tree, c'.tree, c.queries, w.occ);
    }
  }

  lemma PruneOk(t: Tree)
    requires NodesOk(t.next, t.nodes)
    requires forall id :: id in t.refs ==> id in t.nodes && (t.nodes[id].parent == 0 || t.nodes[id].parent in t.refs)
    ensures TreeOk(Prune(t))
  {
    var nodes := Prune(t).nodes;
    forall i, j | i in nodes && j in nodes && nodes[i] == nodes[j] ensures i == j {
      assert t.nodes[i] == t.nodes[j];
    }
  }

  lemma ReleaseKeepsClosed(c: Client, q: nat)
    requires ClientOk(c) && q < |c.queries|
    ensures TreeOk(Release(c.tree, c.queries[q]))
    ensures AllClosed(Release(c.tree, c.queries[q]).nodes, c.queries[q := []])
  {
    hide NodesOk, Held, ParentClosed;
    ReleaseClosed(c, q);
    var t := c.tree.(refs := c.tree.refs - multiset(c.queries[q]));
    PruneOk(t);
    NoneClosed(t.nodes);
    assert AllClosed(t.nodes, c.queries[q := []]);
    PruneKeepsClosed(t, c.queries[q := []]);
  }

  lemma NoneClosed(nodes: Nodes)
    ensures ParentClosed(nodes, 0, [])
  {
  }

  lemma PruneKeepsClosed(t: Tree, qs: seq<seq<nat>>)
    requires t.refs == Held(qs) && AllClosed(t.nodes, qs)
    ensures AllClosed(Prune(t).nodes, qs)
  {
    forall k, id | 0 <= k < |qs| && id in qs[k]
      ensures id in Prune(t).nodes
    {
      HeldMember(qs, id);
      assert ParentClosed(t.nodes, 0, qs[k]);
    }
  }

  lemma {:induction false} AlwaysConserved(c: Client, ops: seq<Op>)
    requires ClientOk(c)
    ensures ClientOk(ApplyAll(c, ops))
    decreases |ops|
  {
    if ops != [] {
      ReferencesConserved(c, ops[0]);
      AlwaysConserved(Apply(c, ops[0]), ops[1..]);
    }
  }

  // ----- wire subtrees

  lemma {:induction false} FlattenAppend(parent: nat, ps: seq<Proto>, p: Proto)
    ensures FlattenAll(parent, ps + [p]) == FlattenAll(parent, ps) + Flatten(parent, p)
    decreases |ps|
  {
    if ps == [] {
      assert [] + [p] == [p] && [p][1..] == [];
    } else {
      assert (ps + [p])[0] == ps[0] && (ps + [p])[1..] == ps[1..] + [p];
      FlattenAppend(parent, ps[1..], p);
    }
  }

  /** Each subtree of a tidy list is tidy, and apart from those before it. */
  lemma {:induction false} TidyAt(parent: nat, ps: seq<Proto>, i: nat)
    requires Tidy(parent, ps) && i < |ps|
    ensures Tidy(parent, [ps[i]]) && Flatten(parent, ps[i]).Keys !! FlattenAll(parent, ps[..i]).Keys
    ensures Flatten(parent, ps[i]).Keys <= FlattenAll(parent, ps).Keys
    ensures FlattenAll(parent, ps[..i + 1]) == FlattenAll(parent, ps[..i]) + Flatten(parent, ps[i])
    decreases i
  {
    assert ps[..i + 1] == ps[..i] + [ps[i]];
    FlattenAppend(parent, ps[..i], ps[i]);
    assert [ps[i]][1..] == [];
    if i == 0 {
      assert ps[..0] == [];
    } else {
      TidyAt(parent, ps[1..], i - 1);
      assert ps[1..][..i - 1] == ps[..i][1..] && ps[..i][0] == ps[0];
    }
  }

  lemma TidyOne(parent: nat, p: Proto)
    ensures FlattenAll(parent, [p]) == Flatten(parent, p)
    ensures Tidy(parent, [p]) <==> parent < p.id && Tidy(p.id, p.children) && p.id !in FlattenAll(p.id, p.children)
  {
    assert [p][1..] == [];
  }

  lemma {:induction false} TidyAppend(parent: nat, ps: seq<Proto>, p: Proto)
    requires Tidy(parent, ps) && Tidy(parent, [p]) && Flatten(parent, p).Keys !! FlattenAll(parent, ps).Keys
    ensures Tidy(parent, ps + [p])
    decreases |ps|
  {
    if ps == [] {
      assert [] + [p] == [p];
    } else {
      assert (ps + [p])[0] == ps[0] && (ps + [p])[1..] == ps[1..] + [p];
      TidyAppend(parent, ps[1..], p);
      FlattenAppend(parent, ps[1..], p);
    }
  }
}
