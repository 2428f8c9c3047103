/** Replaying the emitted mutations gives the client's tree. */
module QueryTreeReplica {
  import opened QueryTreeSpec
  import opened QueryTreeProofs

  // ----- ancestry

  lemma {:induction false} DescendsTrans(nodes: Nodes, a: nat, b: nat, c: nat)
    requires Descends(nodes, a, b) && Descends(nodes, b, c)
    ensures Descends(nodes, a, c)
    decreases a
  {
    if a != b { DescendsTrans(nodes, nodes[a].parent, b, c); }
  }

  lemma {:induction false} DescendsSmaller(nodes: Nodes, a: nat, b: nat)
    requires Descends(nodes, a, b)
    ensures b <= a
    decreases a
  {
    if a != b { DescendsSmaller(nodes, nodes[a].parent, b); }
  }

  /** Two ancestors of one node are on one branch. */
  lemma {:induction false} AncestorsLinear(nodes: Nodes, x: nat, a: nat, b: nat)
    requires Descends(nodes, x, a) && Descends(nodes, x, b)
    ensures Descends(nodes, a, b) || Descends(nodes, b, a)
    decreases x
  {
    if x != a && x != b { AncestorsLinear(nodes, nodes[x].parent, a, b); }
  }

  lemma {:induction false} DescendsGrows(t: Tree, t': Tree, x: nat, a: nat)
    requires Extends(t, t') && Descends(t.nodes, x, a)
    ensures Descends(t'.nodes, x, a)
    decreases x
  {
    if x != a { DescendsGrows(t, t', t.nodes[x].parent, a); }
  }

  /** The part of a branch that is in a tree closed under parents stays there. */
  lemma {:induction false} OldAncestors(t: Tree, t': Tree, x: nat, a: nat)
    requires TreeOk(t) && Extends(t, t') && (x == 0 || x in t.nodes) && Descends(t'.nodes, x, a)
    ensures a == 0 || a in t.nodes
    ensures Descends(t.nodes, x, a)
    decreases x
  {
    if x != a { OldAncestors(t, t', t.nodes[x].parent, a); }
  }

  // ----- what a walk adds

  ghost predicate IsNew(t: Tree, w: Tree, x: nat) {
    x in w.nodes && x !in t.nodes
  }

  /** Everything a walk adds is below the node it starts from. */
  lemma {:induction false} NewBelow(t: Tree, parent: nat, sels: seq<Sel>, inNew: bool, x: nat)
    requires TreeOk(t) && (parent == 0 || parent in t.nodes)
    requires IsNew(t, Walk(t, parent, sels, inNew).tree, x)
    ensures parent == 0 || Descends(Walk(t, parent, sels, inNew).tree.nodes, x, parent)
    decreases SelsSize(sels)
  {
    if sels != [] && sels[0].ok && parent != 0 {
      var id, t2, below, rest := WalkParts(t, parent, sels, inNew);
      if x in below.tree.nodes {
        if x != id { NewBelow(t2, id, sels[0].sels, inNew || id !in t.refs, x); }
        assert Descends(below.tree.nodes, id, parent);
        DescendsTrans(below.tree.nodes, x, id, parent);
        DescendsGrows(below.tree, rest.tree, x, parent);
      } else {
        NewBelow(below.tree, parent, sels[1..], inNew, x);
      }
    }
  }

  ghost predicate Distinct2(s: seq<nat>) {
    forall i, j :: 0 <= i < j < |s| ==> s[i] != s[j]
  }

  /** The announced nodes are new, and none is announced while inside a new node. */
  lemma {:induction false} AddedNew(t: Tree, parent: nat, sels: seq<Sel>, inNew: bool)
    requires TreeOk(t) && (parent == 0 || parent in t.nodes)
    ensures
      var w := Walk(t, parent, sels, inNew);
      && (forall x :: x in w.added ==> IsNew(t, w.tree, x))
      && (inNew ==> w.added == [])
    decreases SelsSize(sels)
  {
    if sels != [] && sels[0].ok {
      var id, t2, below, rest := WalkParts(t, parent, sels, inNew);
      AddedNew(t2, id, sels[0].sels, inNew || id !in t.refs);
      if !below.failed { AddedNew(below.tree, parent, sels[1..], inNew); }
      forall x | x in Walk(t, parent, sels, inNew).added ensures IsNew(t, rest.tree, x) {
        if x in rest.added {
          assert IsNew(below.tree, rest.tree, x);
        } else if x in below.added {
          assert IsNew(t2, below.tree, x);
        } else {
          assert x == id;
        }
      }
    }
  }

  /** Each announced node is announced once. */
  lemma {:induction false} AddedOnce(t: Tree, parent: nat, sels: seq<Sel>, inNew: bool)
    requires TreeOk(t) && (parent == 0 || parent in t.nodes)
    ensures Distinct2(Walk(t, parent, sels, inNew).added)
    decreases SelsSize(sels)
  {
    hide *;
    if sels == [] || !sels[0].ok {
      NothingAdded(t, parent, sels, inNew);
    } else {
      var id, t2, below, rest := WalkParts(t, parent, sels, inNew);
      PartsThere(t, parent, sels, t2, below.tree, id);
      AddedOnce(t2, id, sels[0].sels, inNew || id !in t.refs);
      AddedThere(t2, id, sels[0].sels, inNew || id !in t.refs);
      var head := if id !in t.refs && !inNew then [id] else [];
      OneDistinct(head);
      JoinDistinct(head, below.added);
      if below.failed {
        assert head + below.added + [] == head + below.added;
      } else {
        AddedOnce(below.tree, parent, sels[1..], inNew);
        AddedThere(below.tree, parent, sels[1..], inNew);
        JoinDistinct(head + below.added, rest.added);
      }
    }
  }

  lemma NothingAdded(t: Tree, parent: nat, sels: seq<Sel>, inNew: bool)
    requires sels == [] || !sels[0].ok
    ensures Walk(t, parent, sels, inNew).added == [] && Distinct2([])
  {
  }

  lemma AddedThere(t: Tree, parent: nat, sels: seq<Sel>, inNew: bool)
    requires TreeOk(t) && (parent == 0 || parent in t.nodes)
    ensures var w := Walk(t, parent, sels, inNew); forall x :: x in w.added ==> x !in t.nodes && x in w.tree.nodes
  {
    AddedNew(t, parent, sels, inNew);
  }

  lemma PartsThere(t: Tree, parent: nat, sels: seq<Sel>, t2: Tree, t3: Tree, id: nat)
    requires sels != [] && Extends(t, t2) && Extends(t2, t3) && id in t2.nodes && (parent == 0 || parent in t.nodes)
    ensures id in t3.nodes && (parent == 0 || parent in t3.nodes)
    ensures SelsSize(sels[0].sels) < SelsSize(sels) && SelsSize(sels[1..]) < SelsSize(sels)
  {
  }

  lemma OneDistinct(s: seq<nat>)
    requires |s| <= 1
    ensures Distinct2(s)
  {
  }

  lemma JoinDistinct(a: seq<nat>, b: seq<nat>)
    requires Distinct2(a) && Distinct2(b)
    requires forall x :: x in a ==> x !in b
    ensures Distinct2(a + b)
  {
    forall i, j | 0 <= i < j < |a + b| ensures (a + b)[i] != (a + b)[j] {
      if i < |a| <= j { assert a[i] in a; }
    }
  }

  /** Everything new is in the subtree of an announced node. */
  lemma {:induction false} NewCovered(t: Tree, parent: nat, sels: seq<Sel>, x: nat)
    requires TreeOk(t) && (parent == 0 || parent in t.nodes)
    requires IsNew(t, Walk(t, parent, sels, false).tree, x)
    ensures var w := Walk(t, parent, sels, false);
            exists r :: r in w.added && Descends(w.tree.nodes, x, r)
    decreases SelsSize(sels)
  {
    if sels != [] && sels[0].ok {
      var id, t2, below, rest := WalkParts(t, parent, sels, false);
      var r: nat;
      if x !in below.tree.nodes {
        NewCovered(below.tree, parent, sels[1..], x);
        r :| r in rest.added && Descends(rest.tree.nodes, x, r);
      } else {
        if id !in t.refs {
          r := id;
          if x != id { NewBelow(t2, id, sels[0].sels, true, x); }
        } else {
          NewCovered(t2, id, sels[0].sels, x);
          r :| r in below.added && Descends(below.tree.nodes, x, r);
        }
        DescendsGrows(below.tree, rest.tree, x, r);
      }
      assert r in Walk(t, parent, sels, false).added;
    }
  }

  ghost predicate CoveredBefore(nodes: Nodes, added: seq<nat>, i: nat, x: nat)
    requires i <= |added|
  {
    exists j :: 0 <= j < i && Descends(nodes, x, added[j])
  }

  /** Where a root is announced below a new node, that node went out before, with an earlier root. */
  lemma {:induction false} ParentCovered(t: Tree, parent: nat, sels: seq<Sel>, i: nat)
    requires TreeOk(t) && (parent == 0 || parent in t.nodes) && i < |Walk(t, parent, sels, false).added|
    ensures ParentOut(t, parent, Walk(t, parent, sels, false).tree, Walk(t, parent, sels, false).added, i)
    decreases SelsSize(sels)
  {
    hide *;
    if sels == [] || !sels[0].ok {
      NothingAdded(t, parent, sels, false);
    } else {
      var id, t2, below, rest := WalkParts(t, parent, sels, false);
      var isNew := id !in t.refs;
      PartsThere(t, parent, sels, t2, below.tree, id);
      AddedNew(t2, id, sels[0].sels, isNew);
      var head := if isNew then [id] else [];
      if i < |head| {
        HeadOut(t, parent, t2, below.tree, rest.tree, id, below.added + rest.added);
        assert head + (below.added + rest.added) == head + below.added + rest.added;
      } else if i < |head| + |below.added| {
        ParentCovered(t2, id, sels[0].sels, i);
        BelowOut(t, parent, t2, below.tree, rest.tree, id, below.added, rest.added, i);
        assert head + below.added + rest.added == below.added + rest.added;
      } else {
        ParentCovered(below.tree, parent, sels[1..], i - |head| - |below.added|);
        WentOut(t, t2, id, sels[0].sels);
        RestOut(t, parent, below.tree, rest.tree, head + below.added, rest.added, i - |head + below.added|);
      }
    }
  }

  /** The parent of an announced root is where the walk started, or old, or went out earlier. */
  ghost predicate ParentOut(t: Tree, parent: nat, w: Tree, added: seq<nat>, i: nat)
    requires i < |added|
  {
    && added[i] in w.nodes
    && var p := w.nodes[added[i]].parent; p == parent || p in t.nodes || CoveredBefore(w.nodes, added, i, p)
  }

  lemma HeadOut(t: Tree, parent: nat, t2: Tree, t3: Tree, w: Tree, id: nat, after: seq<nat>)
    requires Extends(t2, t3) && Extends(t3, w) && id in t2.nodes && t2.nodes[id].parent == parent
    ensures ParentOut(t, parent, w, [id] + after, 0)
  {
  }

  lemma BelowOut(t: Tree, parent: nat, t2: Tree, t3: Tree, w: Tree, id: nat, added: seq<nat>, after: seq<nat>, i: nat)
    requires Extends(t3, w) && i < |added| && ParentOut(t2, id, t3, added, i)
    requires id in t.nodes && forall x :: x in t2.nodes && x !in t.nodes ==> x == id
    ensures ParentOut(t, parent, w, added + after, i)
  {
    hide Descends;
    CoveredLater(t3, w, [], added, after, i, t3.nodes[added[i]].parent);
    assert [] + added + after == added + after;
  }

  lemma RestOut(t: Tree, parent: nat, t3: Tree, w: Tree, before: seq<nat>, added: seq<nat>, i: nat)
    requires Extends(t3, w) && i < |added| && ParentOut(t3, parent, w, added, i) && AllWent(t, t3, before)
    ensures ParentOut(t, parent, w, before + added, |before| + i)
  {
    hide Descends;
    var p := w.nodes[added[i]].parent;
    CoveredLater(w, w, before, added, [], i, p);
    assert before + added + [] == before + added;
    if p in t3.nodes && p !in t.nodes {
      assert IsNew(t, t3, p);
      CoveredLater(t3, w, [], before, added, |before|, p);
      assert [] + before + added == before + added;
      var j :| 0 <= j < |before| && Descends(w.nodes, p, (before + added)[j]);
      assert j < |before| + i;
    }
  }

  /** All that is new went out. */
  ghost predicate AllWent(t: Tree, w: Tree, out: seq<nat>) {
    forall p {:trigger IsNew(t, w, p)} :: IsNew(t, w, p) ==> CoveredBefore(w.nodes, out, |out|, p)
  }

  lemma WentOut(t: Tree, t2: Tree, id: nat, sels: seq<Sel>)
    requires TreeOk(t2) && id in t2.nodes && forall x :: x in t2.nodes && x !in t.nodes ==> x == id
    requires id !in t.refs <==> id !in t.nodes
    ensures
      var below := Walk(t2, id, sels, id !in t.refs);
      AllWent(t, below.tree, (if id !in t.refs then [id] else []) + below.added)
  {
    assert id != 0;
    hide Walk, TreeOk, Descends;
    var below := Walk(t2, id, sels, id !in t.refs);
    var out := (if id !in t.refs then [id] else []) + below.added;
    forall p | IsNew(t, below.tree, p) ensures CoveredBefore(below.tree.nodes, out, |out|, p) {
      var r := id;
      if id !in t.refs {
        if p != id { NewBelow(t2, id, sels, true, p); } else { DescendsSelf(below.tree.nodes, id); }
        assert out[0] == id;
      } else {
        NewCovered(t2, id, sels, p);
        r :| r in below.added && Descends(below.tree.nodes, p, r);
        assert r in out;
      }
      var j :| 0 <= j < |out| && out[j] == r;
    }
  }

  lemma DescendsSelf(nodes: Nodes, x: nat)
    ensures Descends(nodes, x, x)
  {
  }

  lemma CoveredLater(t: Tree, t': Tree, before: seq<nat>, added: seq<nat>, after: seq<nat>, i: nat, x: nat)
    requires Extends(t, t') && i <= |added|
    ensures CoveredBefore(t.nodes, added, i, x) ==>
              CoveredBefore(t'.nodes, before + added + after, |before| + i, x)
  {
    if CoveredBefore(t.nodes, added, i, x) {
      var j :| 0 <= j < i && Descends(t.nodes, x, added[j]);
      DescendsGrows(t, t', x, added[j]);
      assert (before + added + after)[|before| + j] == added[j];
    }
  }

  // ----- replaying an attach

  /** The nodes of `t`, and the subtrees of the first `k` announced nodes. */
  ghost function Announced(t: Tree, w: Tree, added: seq<nat>, k: nat): Nodes
    requires k <= |added|
  {
    map x | x in w.nodes && (x in t.nodes || exists i :: 0 <= i < k && Descends(w.nodes, x, added[i])) :: w.nodes[x]
  }

  /** Every announced node hangs off the tree as it was before the query. */
  ghost predicate RootsOld(t: Tree, w: Tree, added: seq<nat>) {
    forall i ::
      0 <= i < |added| ==> added[i] in w.nodes && (w.nodes[added[i]].parent == 0 || w.nodes[added[i]].parent in t.nodes)
  }

  /** Announcing one more root replays to its subtree being added. */
  lemma AnnounceOne(t: Tree, w: Tree, added: seq<nat>, k: nat, m: Mutation)
    requires TreeOk(t) && Extends(t, w) && k < |added| && added[k] in w.nodes
    requires m.AddChild? && m.nodeId == w.nodes[added[k]].parent
    requires m.nodeId == 0 || m.nodeId in Announced(t, w, added, k)
    requires Flatten(m.nodeId, m.node) == Sub(w.nodes, added[k])
    ensures Replay(Announced(t, w, added, k), m) == Announced(t, w, added, k + 1)
  {
    var a, b := Announced(t, w, added, k), Announced(t, w, added, k + 1);
    var r := Replay(a, m);
    assert r == a + Sub(w.nodes, added[k]);
    forall x ensures x in r <==> x in b {
      if x in b && x !in a {
        var i :| 0 <= i < k + 1 && Descends(w.nodes, x, added[i]);
        assert i == k;
      }
    }
  }

  /** Two announced nodes with old parents have disjoint subtrees. */
  lemma RootsApart(t: Tree, w: Tree, a: nat, b: nat, x: nat)
    requires TreeOk(t) && Extends(t, w) && a != b
    requires IsNew(t, w, a) && IsNew(t, w, b) && TreeOk(w)
    requires w.nodes[a].parent == 0 || w.nodes[a].parent in t.nodes
    requires w.nodes[b].parent == 0 || w.nodes[b].parent in t.nodes
    ensures !(Descends(w.nodes, x, a) && Descends(w.nodes, x, b))
  {
    if Descends(w.nodes, x, a) && Descends(w.nodes, x, b) {
      AncestorsLinear(w.nodes, x, a, b);
      if Descends(w.nodes, a, b) {
        OldAncestors(t, w, w.nodes[a].parent, b);
      } else {
        OldAncestors(t, w, w.nodes[b].parent, a);
      }
    }
  }

  /** An announced subtree is disjoint from what was there and from the earlier ones. */
  lemma AnnouncedApart(t: Tree, w: Tree, added: seq<nat>, k: nat)
    requires TreeOk(t) && TreeOk(w) && Extends(t, w) && k < |added|
    requires Distinct2(added) && (forall x :: x in added ==> IsNew(t, w, x)) && RootsOld(t, w, added)
    ensures Sub(w.nodes, added[k]).Keys !! Announced(t, w, added, k).Keys
  {
    forall x | x in Sub(w.nodes, added[k]) ensures x !in Announced(t, w, added, k) {
      assert added[k] in added;
      if x in t.nodes {
        OldAncestors(t, w, x, added[k]);
      }
      forall i | 0 <= i < k ensures !Descends(w.nodes, x, added[i]) {
        assert added[i] in added;
        RootsApart(t, w, added[i], added[k], x);
      }
    }
  }

  lemma {:induction false} ReplayPrefix(t: Tree, w: Tree, added: seq<nat>, ms: seq<Mutation>, k: nat)
    requires TreeOk(t) && TreeOk(w) && Extends(t, w)
    requires Distinct2(added) && (forall x :: x in added ==> IsNew(t, w, x)) && RootsOld(t, w, added)
    requires Announces(w.nodes, added, ms) && k <= |ms|
    ensures ReplayAll(t.nodes, ms[..k]) == Announced(t, w, added, k)
    ensures Replayable(t.nodes, ms[..k])
  {
    if k > 0 {
      ReplayPrefix(t, w, added, ms, k - 1);
      AnnounceFacts(t, w, added, ms, k - 1);
      hide *;
      AnnounceOne(t, w, added, k - 1, ms[k - 1]);
      AnnouncedApart(t, w, added, k - 1);
      ReplayNext(t.nodes, ms, k);
    } else {
      assert Announced(t, w, added, 0) == t.nodes;
    }
  }

  /** One announced root, with what is known about it. */
  lemma AnnounceFacts(t: Tree, w: Tree, added: seq<nat>, ms: seq<Mutation>, i: nat)
    requires RootsOld(t, w, added) && Announces(w.nodes, added, ms) && i < |ms|
    ensures |added| == |ms| && added[i] in added && added[i] in w.nodes
    ensures ms[i].AddChild? && ms[i].nodeId == w.nodes[added[i]].parent
    ensures Flatten(ms[i].nodeId, ms[i].node) == Sub(w.nodes, added[i])
    ensures Tidy(ms[i].nodeId, [ms[i].node])
    ensures Extends(t, w) && TreeOk(w) ==> ms[i].nodeId == 0 || ms[i].nodeId in Announced(t, w, added, i)
  {
  }

  lemma ReplayNext(nodes: Nodes, ms: seq<Mutation>, k: nat)
    requires 0 < k <= |ms| && ms[k - 1].AddChild? && Replayable(nodes, ms[..k - 1])
    requires ms[k - 1].nodeId == 0 || ms[k - 1].nodeId in ReplayAll(nodes, ms[..k - 1])
    requires Flatten(ms[k - 1].nodeId, ms[k - 1].node).Keys !! ReplayAll(nodes, ms[..k - 1]).Keys
    ensures Replayable(nodes, ms[..k]) && ReplayAll(nodes, ms[..k]) == Replay(ReplayAll(nodes, ms[..k - 1]), ms[k - 1])
  {
    assert ms[..k][..k - 1] == ms[..k - 1] && ms[..k][k - 1] == ms[k - 1];
  }

  /** What matters of a walk from the root for the mutations it announces. */
  ghost predicate Grown(t: Tree, w: Walked) {
    && TreeOk(t) && TreeOk(w.tree) && Extends(t, w.tree)
    && Distinct2(w.added) && (forall x :: x in w.added ==> IsNew(t, w.tree, x))
    && (forall x {:trigger Covered(w, x)} :: IsNew(t, w.tree, x) ==> Covered(w, x))
  }

  ghost predicate Covered(w: Walked, x: nat) {
    exists r :: r in w.added && Descends(w.tree.nodes, x, r)
  }

  lemma WalkGrows(t: Tree, sels: seq<Sel>)
    requires TreeOk(t)
    ensures Grown(t, Walk(t, 0, sels, false))
  {
    var w := Walk(t, 0, sels, false);
    WalkFacts(t, 0, sels, false);
    AddedNew(t, 0, sels, false);
    AddedOnce(t, 0, sels, false);
    forall x | IsNew(t, w.tree, x) ensures Covered(w, x) {
      NewCovered(t, 0, sels, x);
    }
  }

  lemma AllAnnounced(t: Tree, w: Walked)
    requires Grown(t, w)
    ensures Announced(t, w.tree, w.added, |w.added|) == w.tree.nodes
  {
    forall x | x in w.tree.nodes && x !in t.nodes ensures x in Announced(t, w.tree, w.added, |w.added|) {
      assert Covered(w, x);
      var r :| r in w.added && Descends(w.tree.nodes, x, r);
      var i :| 0 <= i < |w.added| && w.added[i] == r;
    }
  }

  /** Announced nodes replay to the client's new tree, provided each hangs off the old tree; and
      only then does the server know every parent and receive no node twice. */
  lemma GrownReplays(t: Tree, w: Walked, ms: seq<Mutation>)
    requires Grown(t, w) && Announces(w.tree.nodes, w.added, ms)
    ensures Replayable(t.nodes, ms) <==> RootsOld(t, w.tree, w.added)
    ensures RootsOld(t, w.tree, w.added) ==> ReplayAll(t.nodes, ms) == w.tree.nodes
  {
    assert ms[..|ms|] == ms;
    if RootsOld(t, w.tree, w.added) {
      ReplayPrefix(t, w.tree, w.added, ms, |ms|);
      AllAnnounced(t, w);
    } else {
      var i :| 0 <= i < |w.added| && !(w.added[i] in w.tree.nodes &&
                 (w.tree.nodes[w.added[i]].parent == 0 || w.tree.nodes[w.added[i]].parent in t.nodes));
      assert w.added[i] in w.added;
      LateRoot(t, w.tree, w.added, ms, i, |ms|);
    }
  }

  lemma AttachReplays(t: Tree, sels: seq<Sel>, ms: seq<Mutation>)
    requires TreeOk(t) && Announces(Walk(t, 0, sels, false).tree.nodes, Walk(t, 0, sels, false).added, ms)
    ensures
      var w := Walk(t, 0, sels, false);
      && (Replayable(t.nodes, ms) <==> RootsOld(t, w.tree, w.added))
      && (RootsOld(t, w.tree, w.added) ==> ReplayAll(t.nodes, ms) == w.tree.nodes)
  {
    WalkGrows(t, sels);
    GrownReplays(t, Walk(t, 0, sels, false), ms);
  }

  /** Whatever was replayed before, nothing new is known but subtrees announced so far. */
  lemma {:induction false} KnownSoFar(t: Tree, w: Tree, added: seq<nat>, ms: seq<Mutation>, k: nat, x: nat)
    requires Announces(w.nodes, added, ms) && k <= |ms| && x in ReplayAll(t.nodes, ms[..k])
    ensures x in t.nodes || exists i :: 0 <= i < k && Descends(w.nodes, x, added[i])
  {
    if k > 0 {
      assert ms[..k][..k - 1] == ms[..k - 1] && ms[..k][k - 1] == ms[k - 1];
      if x in ReplayAll(t.nodes, ms[..k - 1]) {
        KnownSoFar(t, w, added, ms, k - 1, x);
      } else {
        assert x in Sub(w.nodes, added[k - 1]);
      }
    }
  }

  lemma {:induction false} KnownKept(t: Tree, w: Tree, added: seq<nat>, ms: seq<Mutation>, i: nat, k: nat, x: nat)
    requires Announces(w.nodes, added, ms) && i < k <= |ms| && Replayable(t.nodes, ms[..k])
    requires x in w.nodes && Descends(w.nodes, x, added[i])
    ensures x in ReplayAll(t.nodes, ms[..k])
    decreases k
  {
    LastReplayed(t.nodes, ms, k);
    assert ms[k - 1].AddChild?;
    if i < k - 1 {
      hide *;
      KnownKept(t, w, added, ms, i, k - 1, x);
      NothingLost(ReplayAll(t.nodes, ms[..k - 1]), ms[k - 1], x);
    } else {
      assert x in Sub(w.nodes, added[i]);
      hide *;
    }
  }

  /** The last of some mutations that can be followed. */
  lemma LastReplayed(nodes: Nodes, ms: seq<Mutation>, k: nat)
    requires 0 < k <= |ms| && Replayable(nodes, ms[..k])
    ensures Replayable(nodes, ms[..k - 1])
    ensures ReplayAll(nodes, ms[..k]) == Replay(ReplayAll(nodes, ms[..k - 1]), ms[k - 1])
    ensures ms[k - 1].AddChild? ==>
              forall x | x in Flatten(ms[k - 1].nodeId, ms[k - 1].node) :: x in ReplayAll(nodes, ms[..k])
  {
    assert ms[..k][..k - 1] == ms[..k - 1] && ms[..k][k - 1] == ms[k - 1];
  }

  lemma NothingLost(nodes: Nodes, m: Mutation, x: nat)
    requires m.AddChild? && x in nodes
    ensures x in Replay(nodes, m)
  {
  }

  /** A root announced below a node of the same query cannot be followed: it was already sent with its
      parent. */
  lemma {:induction false} LateRoot(t: Tree, w: Tree, added: seq<nat>, ms: seq<Mutation>, i: nat, k: nat)
    requires TreeOk(w) && Announces(w.nodes, added, ms) && i < k <= |ms|
    requires w.nodes[added[i]].parent != 0 && w.nodes[added[i]].parent !in t.nodes
    ensures !Replayable(t.nodes, ms[..k])
    decreases k
  {
    assert ms[..k][..k - 1] == ms[..k - 1] && ms[..k][k - 1] == ms[k - 1];
    if i < k - 1 {
      LateRoot(t, w, added, ms, i, k - 1);
    } else if Replayable(t.nodes, ms[..k]) {
      var p := w.nodes[added[i]].parent;
      KnownSoFar(t, w, added, ms, i, p);
      var j :| 0 <= j < i && Descends(w.nodes, p, added[j]);
      KnownKept(t, w, added, ms, j, i, added[i]);
    }
  }
}
