/** Which queries replay: a condition on the tree and the query alone. */
module QueryTreeRoots {
  import opened QueryTreeSpec
  import opened QueryTreeProofs
  import opened QueryTreeReplica

  type KeyPath = seq<FieldKey>

  // ----- the tree and the query as sets of paths

  /** The fields from the root down to `id`. */
  ghost function KeysTo(nodes: Nodes, id: nat): KeyPath
    decreases id
  {
    if id in nodes && nodes[id].parent < id then KeysTo(nodes, nodes[id].parent) + [nodes[id].key] else []
  }

  /** The paths of a tree. */
  ghost function KeyPaths(nodes: Nodes): set<KeyPath> {
    {[]} + set id | id in nodes :: KeysTo(nodes, id)
  }

  /** The paths that selections below `at` select. */
  ghost function Chosen(at: KeyPath, sels: seq<Sel>): set<KeyPath>
    decreases SelsSize(sels)
  {
    if sels == [] then {}
    else {at + [sels[0].key]} + Chosen(at + [sels[0].key], sels[0].sels) + Chosen(at, sels[1..])
  }

  /** The paths selected under the first occurrence of `p`. */
  ghost function FirstBelow(at: KeyPath, sels: seq<Sel>, p: KeyPath): set<KeyPath>
    decreases SelsSize(sels)
  {
    if sels == [] then {}
    else
      var head := at + [sels[0].key];
      if p == head then Chosen(head, sels[0].sels)
      else if p in Chosen(head, sels[0].sels) then FirstBelow(head, sels[0].sels, p)
      else FirstBelow(at, sels[1..], p)
  }

  /** `p` is not among these paths, and its parent is. */
  ghost predicate Tops(paths: set<KeyPath>, p: KeyPath) {
    p != [] && p !in paths && p[..|p| - 1] in paths
  }

  /** Every topmost new path is complete where it is first selected: whatever the query selects
      under it anywhere, it selects there. */
  ghost predicate Whole(nodes: Nodes, sels: seq<Sel>) {
    forall p, q :: p in Chosen([], sels) && q in Chosen([], sels) && p < q && Tops(KeyPaths(nodes), p) ==>
      q in FirstBelow([], sels, p)
  }

  // ----- paths and ids

  lemma {:induction false} KeysUnique(t: Tree, a: nat, b: nat)
    requires TreeOk(t) && (a == 0 || a in t.nodes) && (b == 0 || b in t.nodes)
    requires KeysTo(t.nodes, a) == KeysTo(t.nodes, b)
    ensures a == b
    decreases a
  {
    if a in t.nodes && b in t.nodes {
      var pa, pb := KeysTo(t.nodes, t.nodes[a].parent), KeysTo(t.nodes, t.nodes[b].parent);
      assert pa == KeysTo(t.nodes, a)[..|pa|] && pb == KeysTo(t.nodes, b)[..|pb|];
      KeysUnique(t, t.nodes[a].parent, t.nodes[b].parent);
    }
  }

  lemma {:induction false} KeysStay(t: Tree, t': Tree, id: nat)
    requires TreeOk(t) && TreeOk(t') && Extends(t, t') && (id == 0 || id in t.nodes)
    ensures KeysTo(t'.nodes, id) == KeysTo(t.nodes, id)
    decreases id
  {
    if id in t.nodes { KeysStay(t, t', t.nodes[id].parent); }
  }

  lemma KeysIn(nodes: Nodes, id: nat)
    requires id == 0 || id in nodes
    ensures KeysTo(nodes, id) in KeyPaths(nodes)
  {
  }

  lemma KeyPathOf(t: Tree, p: KeyPath) returns (id: nat)
    requires TreeOk(t) && p in KeyPaths(t.nodes)
    ensures (id == 0 || id in t.nodes) && KeysTo(t.nodes, id) == p
  {
    if p == [] { id := 0; } else { id :| id in t.nodes && KeysTo(t.nodes, id) == p; }
  }

  lemma PathsGrow(t: Tree, t': Tree)
    requires TreeOk(t) && TreeOk(t') && Extends(t, t')
    ensures KeyPaths(t.nodes) <= KeyPaths(t'.nodes)
  {
    forall p | p in KeyPaths(t.nodes) ensures p in KeyPaths(t'.nodes) {
      var id := KeyPathOf(t, p);
      KeysStay(t, t', id);
    }
  }

  ghost predicate PrefixClosed(paths: set<KeyPath>) {
    forall p, q :: q in paths && p < q ==> p in paths
  }

  lemma {:induction false} PrefixIn(t: Tree, id: nat, p: KeyPath)
    requires TreeOk(t) && id in t.nodes && p < KeysTo(t.nodes, id)
    ensures p in KeyPaths(t.nodes)
    decreases id
  {
    var up := t.nodes[id].parent;
    if p == KeysTo(t.nodes, up) {
      KeysIn(t.nodes, up);
    } else {
      assert p < KeysTo(t.nodes, up);
      PrefixIn(t, up, p);
    }
  }

  lemma PathsClosed(t: Tree)
    requires TreeOk(t)
    ensures PrefixClosed(KeyPaths(t.nodes))
  {
    forall p, q | q in KeyPaths(t.nodes) && p < q ensures p in KeyPaths(t.nodes) {
      var id := KeyPathOf(t, q);
      PrefixIn(t, id, p);
    }
  }

  /** A node is new exactly when its path is. */
  lemma NewIsPath(t: Tree, t': Tree, x: nat)
    requires TreeOk(t) && TreeOk(t') && Extends(t, t') && x in t'.nodes
    ensures x in t.nodes <==> KeysTo(t'.nodes, x) in KeyPaths(t.nodes)
  {
    var p := KeysTo(t'.nodes, x);
    if x in t.nodes {
      KeysStay(t, t', x);
      KeysIn(t.nodes, x);
    } else if p in KeyPaths(t.nodes) {
      var id := KeyPathOf(t, p);
      KeysStay(t, t', id);
      KeysUnique(t', id, x);
    }
  }

  // ----- what a query selects

  lemma {:induction false} ChosenBelow(at: KeyPath, sels: seq<Sel>, p: KeyPath)
    requires p in Chosen(at, sels)
    ensures at < p
    decreases SelsSize(sels)
  {
    var head := at + [sels[0].key];
    if p in Chosen(head, sels[0].sels) {
      ChosenBelow(head, sels[0].sels, p);
    } else if p != head {
      ChosenBelow(at, sels[1..], p);
    }
  }

  /** Along with a path its beginnings are selected. */
  lemma {:induction false} ChosenClosed(at: KeyPath, sels: seq<Sel>, p: KeyPath, q: KeyPath)
    requires q in Chosen(at, sels) && at < p < q
    ensures p in Chosen(at, sels)
    decreases SelsSize(sels)
  {
    var head := at + [sels[0].key];
    if q in Chosen(head, sels[0].sels) {
      ChosenBelow(head, sels[0].sels, q);
      if p != head {
        assert head == q[..|head|] && p == q[..|p|];
        ChosenClosed(head, sels[0].sels, p, q);
      }
    } else if q != head {
      ChosenClosed(at, sels[1..], p, q);
    }
  }

  lemma {:induction false} FirstChosen(at: KeyPath, sels: seq<Sel>, p: KeyPath, q: KeyPath)
    requires q in FirstBelow(at, sels, p)
    ensures q in Chosen(at, sels) && p < q
    decreases SelsSize(sels)
  {
    var head := at + [sels[0].key];
    if p == head {
      ChosenBelow(head, sels[0].sels, q);
    } else if p in Chosen(head, sels[0].sels) {
      FirstChosen(head, sels[0].sels, p, q);
    } else {
      FirstChosen(at, sels[1..], p, q);
    }
  }

  lemma WalkEnds(t: Tree, parent: nat, sels: seq<Sel>, inNew: bool)
    requires !Walk(t, parent, sels, inNew).failed
    ensures
      sels == [] ==> Walk(t, parent, sels, inNew) == Walked(t, [], [], false) && forall at :: Chosen(at, sels) == {}
    ensures sels != [] ==> sels[0].ok
  {
  }

  /** A walk that does not fail adds exactly the paths it selects. */
  lemma {:induction false} WalkPaths(t: Tree, parent: nat, sels: seq<Sel>, inNew: bool)
    requires TreeOk(t) && (parent == 0 || parent in t.nodes) && !Walk(t, parent, sels, inNew).failed
    ensures
      KeyPaths(Walk(t, parent, sels, inNew).tree.nodes) == KeyPaths(t.nodes) + Chosen(KeysTo(t.nodes, parent), sels)
    decreases SelsSize(sels)
  {
    hide *;
    WalkEnds(t, parent, sels, inNew);
    if sels == [] {
      assert Chosen(KeysTo(t.nodes, parent), sels) == {};
    } else {
      var id, t2, below, rest := WalkParts(t, parent, sels, inNew);
      Smaller(sels);
      var at := KeysTo(t.nodes, parent);
      OnePath(t, t2, parent, id, sels[0].key);
      WalkPaths(t2, id, sels[0].sels, inNew || id !in t.refs);
      ExtendsTrans(t, t2, below.tree);
      StillThere(t, below.tree, parent);
      KeysStay(t, below.tree, parent);
      WalkPaths(below.tree, parent, sels[1..], inNew);
      HeadParts(at, sels, []);
    }
  }

  lemma Smaller(sels: seq<Sel>)
    requires sels != []
    ensures SelsSize(sels[0].sels) < SelsSize(sels) && SelsSize(sels[1..]) < SelsSize(sels)
  {
  }

  lemma StillThere(t: Tree, t': Tree, id: nat)
    requires Extends(t, t') && (id == 0 || id in t.nodes)
    ensures id == 0 || id in t'.nodes
  {
  }

  lemma OnePath(t: Tree, t2: Tree, parent: nat, id: nat, key: FieldKey)
    requires TreeOk(t) && TreeOk(t2) && Extends(t, t2) && (parent == 0 || parent in t.nodes)
    requires id in t2.nodes && t2.nodes[id] == QN(parent, key) && forall x :: x in t2.nodes && x !in t.nodes ==> x == id
    ensures KeysTo(t2.nodes, id) == KeysTo(t.nodes, parent) + [key]
    ensures KeyPaths(t2.nodes) == KeyPaths(t.nodes) + {KeysTo(t.nodes, parent) + [key]}
  {
    KeysStay(t, t2, parent);
    PathsGrow(t, t2);
    KeysIn(t2.nodes, id);
    forall p | p in KeyPaths(t2.nodes) && p != KeysTo(t2.nodes, id) ensures p in KeyPaths(t.nodes) {
      var x := KeyPathOf(t2, p);
      KeysStay(t, t2, x);
      KeysIn(t.nodes, x);
    }
  }

  // ----- the condition part-way through a walk

  ghost predicate Pair(prior: set<KeyPath>, at: KeyPath, sels: seq<Sel>, p: KeyPath, q: KeyPath) {
    p in Chosen(at, sels) && q in Chosen(at, sels) && p < q && Tops(prior, p)
  }

  ghost predicate Fine(now: set<KeyPath>, at: KeyPath, sels: seq<Sel>, p: KeyPath, q: KeyPath) {
    if p in now then q in now else q in FirstBelow(at, sels, p)
  }

  /** Whole, with part of the query walked already: `prior` are the paths from before the query,
      `now` those of the tree so far. */
  ghost predicate WholeFrom(prior: set<KeyPath>, now: set<KeyPath>, at: KeyPath, sels: seq<Sel>) {
    forall p, q :: Pair(prior, at, sels, p, q) ==> Fine(now, at, sels, p, q)
  }

  ghost predicate Nested(prior: set<KeyPath>, now: set<KeyPath>, at: KeyPath) {
    prior <= now && PrefixClosed(prior) && PrefixClosed(now) && at in prior
  }

  lemma Beginning(paths: set<KeyPath>, p: KeyPath, q: KeyPath)
    requires PrefixClosed(paths) && p < q && q in paths
    ensures p in paths
  {
  }

  /** A path whose parent was there does not lead through one that was not. */
  lemma TopsUnder(prior: set<KeyPath>, head: KeyPath, p: KeyPath)
    requires PrefixClosed(prior) && Tops(prior, p) && head < p
    ensures head in prior
  {
    assert head <= p[..|p| - 1];
    if head != p[..|p| - 1] { assert head < p[..|p| - 1]; }
  }

  /** The definitions, one selection at a time. */
  lemma HeadParts(at: KeyPath, sels: seq<Sel>, p: KeyPath)
    requires sels != []
    ensures
      var head := at + [sels[0].key];
      && Chosen(at, sels) == {head} + Chosen(head, sels[0].sels) + Chosen(at, sels[1..])
      && FirstBelow(at, sels, p) ==
         if p == head then Chosen(head, sels[0].sels)
         else if p in Chosen(head, sels[0].sels) then FirstBelow(head, sels[0].sels, p)
         else FirstBelow(at, sels[1..], p)
  {
  }

  /** Where the two paths of a pair come from. */
  lemma PairPlaces(prior: set<KeyPath>, at: KeyPath, sels: seq<Sel>, p: KeyPath, q: KeyPath)
    requires PrefixClosed(prior) && sels != [] && Pair(prior, at, sels, p, q)
    ensures
      var head := at + [sels[0].key];
      var inner, more := Chosen(head, sels[0].sels), Chosen(at, sels[1..]);
      && (p in inner ==> head < p && head in prior)
      && (q in inner ==> p == head || p in inner)
      && (q !in inner ==> p in more && q in more)
  {
    var head := at + [sels[0].key];
    var inner := Chosen(head, sels[0].sels);
    HeadParts(at, sels, p);
    ChosenBelow(at, sels, p);
    if p in inner {
      ChosenBelow(head, sels[0].sels, p);
      TopsUnder(prior, head, p);
    }
    if q in inner {
      ChosenBelow(head, sels[0].sels, q);
      PrefixesOf(q, head, p);
      if head < p { ChosenClosed(head, sels[0].sels, p, q); }
    } else if q in Chosen(at, sels[1..]) {
      ChosenClosed(at, sels[1..], p, q);
    }
  }

  lemma PrefixesOf(q: KeyPath, a: KeyPath, b: KeyPath)
    requires a <= q && b <= q
    ensures if |a| < |b| then a < b else b <= a
  {
    assert a == q[..|a|] && b == q[..|b|];
  }

  /** The first selection is of a field from before the query. */
  lemma OldHeadInner(prior: set<KeyPath>, now: set<KeyPath>, at: KeyPath, sels: seq<Sel>, p: KeyPath, q: KeyPath)
    requires sels != [] && WholeFrom(prior, now, at, sels)
    requires Pair(prior, at + [sels[0].key], sels[0].sels, p, q)
    ensures Fine(now, at + [sels[0].key], sels[0].sels, p, q)
  {
    hide Chosen, FirstBelow;
    HeadParts(at, sels, p);
    ChosenBelow(at + [sels[0].key], sels[0].sels, p);
    assert Pair(prior, at, sels, p, q);
  }

  lemma OldHeadRest(prior: set<KeyPath>, now: set<KeyPath>, at: KeyPath, sels: seq<Sel>, p: KeyPath, q: KeyPath)
    requires sels != [] && WholeFrom(prior, now, at, sels) && at + [sels[0].key] in prior
    requires Pair(prior, at, sels[1..], p, q)
    ensures Fine(now + Chosen(at + [sels[0].key], sels[0].sels), at, sels[1..], p, q)
  {
    hide Chosen, FirstBelow;
    var head := at + [sels[0].key];
    HeadParts(at, sels, p);
    assert Pair(prior, at, sels, p, q);
    if p !in now && p in Chosen(head, sels[0].sels) {
      ChosenBelow(head, sels[0].sels, p);
      FirstChosen(head, sels[0].sels, p, q);
    }
  }

  lemma OldHeadBack(prior: set<KeyPath>, now: set<KeyPath>, at: KeyPath, sels: seq<Sel>, p: KeyPath, q: KeyPath)
    requires Nested(prior, now, at) && sels != [] && at + [sels[0].key] in prior
    requires WholeFrom(prior, now, at + [sels[0].key], sels[0].sels)
    requires WholeFrom(prior, now + Chosen(at + [sels[0].key], sels[0].sels), at, sels[1..])
    requires Pair(prior, at, sels, p, q)
    ensures Fine(now, at, sels, p, q)
  {
    hide Chosen, FirstBelow, PrefixClosed;
    var head := at + [sels[0].key];
    var inner := Chosen(head, sels[0].sels);
    HeadParts(at, sels, p);
    PairPlaces(prior, at, sels, p, q);
    if q in inner {
      assert Pair(prior, head, sels[0].sels, p, q);
    } else {
      assert Pair(prior, at, sels[1..], p, q);
      assert Fine(now + inner, at, sels[1..], p, q);
      if q in now { Beginning(now, p, q); }
    }
  }

  lemma WholeOldHead(prior: set<KeyPath>, now: set<KeyPath>, at: KeyPath, sels: seq<Sel>)
    requires Nested(prior, now, at) && sels != [] && at + [sels[0].key] in prior
    ensures
      var head := at + [sels[0].key];
      WholeFrom(prior, now, at, sels) <==>
        WholeFrom(prior, now, head, sels[0].sels) && WholeFrom(prior, now + Chosen(head, sels[0].sels), at, sels[1..])
  {
    hide Pair, Fine, Chosen, FirstBelow, Nested;
    var head := at + [sels[0].key];
    var next := now + Chosen(head, sels[0].sels);
    if WholeFrom(prior, now, at, sels) {
      forall p, q | Pair(prior, head, sels[0].sels, p, q) ensures Fine(now, head, sels[0].sels, p, q) {
        OldHeadInner(prior, now, at, sels, p, q);
      }
      forall p, q | Pair(prior, at, sels[1..], p, q) ensures Fine(next, at, sels[1..], p, q) {
        OldHeadRest(prior, now, at, sels, p, q);
      }
    }
    if WholeFrom(prior, now, head, sels[0].sels) && WholeFrom(prior, next, at, sels[1..]) {
      forall p, q | Pair(prior, at, sels, p, q) ensures Fine(now, at, sels, p, q) {
        OldHeadBack(prior, now, at, sels, p, q);
      }
    }
  }

  /** The first selection is of a field that the same query added earlier. */
  lemma LateHeadPair(prior: set<KeyPath>, now: set<KeyPath>, at: KeyPath, sels: seq<Sel>, p: KeyPath, q: KeyPath)
    requires Nested(prior, now, at) && sels != [] && at + [sels[0].key] in now - prior
    requires Chosen(at + [sels[0].key], sels[0].sels) <= now
    ensures Pair(prior, at, sels[1..], p, q) && (Pair(prior, at, sels, p, q) ==> Fine(now, at, sels, p, q)) ==>
              Fine(now, at, sels[1..], p, q)
    ensures Pair(prior, at, sels, p, q) && (Pair(prior, at, sels[1..], p, q) ==> Fine(now, at, sels[1..], p, q)) ==>
              Fine(now, at, sels, p, q)
  {
    hide Chosen, FirstBelow, PrefixClosed;
    HeadParts(at, sels, p);
    if Pair(prior, at, sels, p, q) {
      PairPlaces(prior, at, sels, p, q);
    }
  }

  lemma LateHeadInner(prior: set<KeyPath>, now: set<KeyPath>, at: KeyPath, sels: seq<Sel>, q: KeyPath)
    requires Nested(prior, now, at) && sels != [] && at + [sels[0].key] in now - prior
    requires WholeFrom(prior, now, at, sels) && q in Chosen(at + [sels[0].key], sels[0].sels)
    ensures q in now
  {
    hide Chosen, FirstBelow, PrefixClosed;
    var head := at + [sels[0].key];
    HeadParts(at, sels, head);
    ChosenBelow(head, sels[0].sels, q);
    assert head[..|head| - 1] == at;
    assert Pair(prior, at, sels, head, q);
  }

  lemma WholeLateHead(prior: set<KeyPath>, now: set<KeyPath>, at: KeyPath, sels: seq<Sel>)
    requires Nested(prior, now, at) && sels != [] && at + [sels[0].key] in now - prior
    ensures
      var head := at + [sels[0].key];
      WholeFrom(prior, now, at, sels) <==> Chosen(head, sels[0].sels) <= now && WholeFrom(prior, now, at, sels[1..])
  {
    hide Pair, Fine, Chosen, FirstBelow, Nested;
    var head := at + [sels[0].key];
    var inner := Chosen(head, sels[0].sels);
    if WholeFrom(prior, now, at, sels) {
      forall q | q in inner ensures q in now { LateHeadInner(prior, now, at, sels, q); }
    }
    if inner <= now {
      LateHeadNext(prior, now, at, sels);
    }
  }

  lemma LateHeadNext(prior: set<KeyPath>, now: set<KeyPath>, at: KeyPath, sels: seq<Sel>)
    requires Nested(prior, now, at) && sels != [] && at + [sels[0].key] in now - prior
    requires Chosen(at + [sels[0].key], sels[0].sels) <= now
    ensures WholeFrom(prior, now, at, sels) <==> WholeFrom(prior, now, at, sels[1..])
  {
    hide Pair, Fine, Chosen, FirstBelow, Nested;
    if WholeFrom(prior, now, at, sels) {
      forall p, q | Pair(prior, at, sels[1..], p, q) ensures Fine(now, at, sels[1..], p, q) {
        LateHeadPair(prior, now, at, sels, p, q);
      }
    }
    if WholeFrom(prior, now, at, sels[1..]) {
      forall p, q | Pair(prior, at, sels, p, q) ensures Fine(now, at, sels, p, q) {
        LateHeadPair(prior, now, at, sels, p, q);
      }
    }
  }

  /** The first selection is of a new field. */
  lemma NewHeadRest(prior: set<KeyPath>, now: set<KeyPath>, at: KeyPath, sels: seq<Sel>, p: KeyPath, q: KeyPath)
    requires Nested(prior, now, at) && sels != [] && at + [sels[0].key] !in now
    requires WholeFrom(prior, now, at, sels) && Pair(prior, at, sels[1..], p, q)
    ensures Fine(now + {at + [sels[0].key]} + Chosen(at + [sels[0].key], sels[0].sels), at, sels[1..], p, q)
  {
    hide Chosen, FirstBelow, PrefixClosed;
    HeadParts(at, sels, p);
    assert Pair(prior, at, sels, p, q);
    PairPlaces(prior, at, sels, p, q);
  }

  lemma NewHeadBack(prior: set<KeyPath>, now: set<KeyPath>, at: KeyPath, sels: seq<Sel>, p: KeyPath, q: KeyPath)
    requires Nested(prior, now, at) && sels != [] && at + [sels[0].key] !in now
    requires WholeFrom(prior, now + {at + [sels[0].key]} + Chosen(at + [sels[0].key], sels[0].sels), at, sels[1..])
    requires Pair(prior, at, sels, p, q)
    ensures Fine(now, at, sels, p, q)
  {
    hide Chosen, FirstBelow, PrefixClosed;
    var head := at + [sels[0].key];
    var inner := Chosen(head, sels[0].sels);
    HeadParts(at, sels, p);
    PairPlaces(prior, at, sels, p, q);
    if q !in inner {
      assert Pair(prior, at, sels[1..], p, q);
      assert Fine(now + {head} + inner, at, sels[1..], p, q);
      NotHead(at, head, p, q) by { ChosenBelow(at, sels, p); }
      if q in now { Beginning(now, p, q); }
    }
  }

  lemma NotHead(at: KeyPath, head: KeyPath, p: KeyPath, q: KeyPath)
    requires at < p < q && |head| == |at| + 1
    ensures q != head
  {
  }

  lemma WholeNewHead(prior: set<KeyPath>, now: set<KeyPath>, at: KeyPath, sels: seq<Sel>)
    requires Nested(prior, now, at) && sels != [] && at + [sels[0].key] !in now
    ensures
      var head := at + [sels[0].key];
      WholeFrom(prior, now, at, sels) <==> WholeFrom(prior, now + {head} + Chosen(head, sels[0].sels), at, sels[1..])
  {
    hide Pair, Fine, Chosen, FirstBelow, Nested;
    var head := at + [sels[0].key];
    var next := now + {head} + Chosen(head, sels[0].sels);
    if WholeFrom(prior, now, at, sels) {
      forall p, q | Pair(prior, at, sels[1..], p, q) ensures Fine(next, at, sels[1..], p, q) {
        NewHeadRest(prior, now, at, sels, p, q);
      }
    }
    if WholeFrom(prior, next, at, sels[1..]) {
      forall p, q | Pair(prior, at, sels, p, q) ensures Fine(now, at, sels, p, q) {
        NewHeadBack(prior, now, at, sels, p, q);
      }
    }
  }

  // ----- the condition is exact

  /** Every announced node hangs off a node of `t0`. */
  ghost predicate AllOld(t0: Tree, w: Walked) {
    forall x :: x in w.added ==> OldRoot(t0, w.tree, x)
  }

  /** Below a node that this query added, nothing more may be added outside it. */
  lemma LateRoots(t0: Tree, t: Tree, parent: nat, sels: seq<Sel>)
    requires TreeOk(t0) && TreeOk(t) && Extends(t0, t) && parent in t.nodes && parent !in t0.nodes
    requires !Walk(t, parent, sels, false).failed
    ensures AllOld(t0, Walk(t, parent, sels, false)) <==> Chosen(KeysTo(t.nodes, parent), sels) <= KeyPaths(t.nodes)
    ensures AllOld(t0, Walk(t, parent, sels, false)) ==> Walk(t, parent, sels, false).tree.nodes == t.nodes
  {
    hide *;
    var w := Walk(t, parent, sels, false);
    WalkFacts(t, parent, sels, false);
    WalkPaths(t, parent, sels, false);
    AddedNew(t, parent, sels, false);
    ExtendsTrans(t0, t, w.tree);
    AllOldIs(t0, w);
    NotTheRoot(t, parent);
    forall x | x in w.added ensures !OldRoot(t0, w.tree, x) {
      NewBelow(t, parent, sels, false, x);
      LateRootNew(t0, t, w.tree, parent, x);
    }
    if w.added == [] {
      forall x | x in w.tree.nodes ensures x in t.nodes {
        if x !in t.nodes { IsNewMeans(t, w.tree, x); NewCovered(t, parent, sels, x); }
      }
      SameTree(t, w.tree);
    } else {
      assert w.added[0] in w.added;
      NewPath(t, w.tree, w.added[0]);
    }
  }

  lemma NotTheRoot(t: Tree, id: nat)
    requires TreeOk(t) && id in t.nodes
    ensures id != 0
  {
  }

  ghost predicate OldRoot(t0: Tree, w: Tree, x: nat) {
    x in w.nodes && (w.nodes[x].parent == 0 || w.nodes[x].parent in t0.nodes)
  }

  lemma AllOldIs(t0: Tree, w: Walked)
    ensures AllOld(t0, w) <==> forall x :: x in w.added ==> OldRoot(t0, w.tree, x)
  {
  }

  lemma IsNewMeans(t: Tree, w: Tree, x: nat)
    ensures IsNew(t, w, x) <==> x in w.nodes && x !in t.nodes
  {
  }

  lemma SameTree(t: Tree, w: Tree)
    requires Extends(t, w) && forall x :: x in w.nodes ==> x in t.nodes
    ensures w.nodes == t.nodes
  {
  }

  lemma NewPath(t: Tree, w: Tree, x: nat)
    requires TreeOk(t) && TreeOk(w) && Extends(t, w) && IsNew(t, w, x)
    ensures KeyPaths(w.nodes) != KeyPaths(t.nodes)
  {
    NewIsPath(t, w, x);
    KeysIn(w.nodes, x);
  }

  lemma LateRootNew(t0: Tree, t: Tree, w: Tree, parent: nat, x: nat)
    requires TreeOk(t0) && TreeOk(t) && TreeOk(w) && Extends(t0, t) && Extends(t, w) && Extends(t0, w)
    requires parent in t.nodes && parent !in t0.nodes && IsNew(t, w, x) && Descends(w.nodes, x, parent)
    ensures !OldRoot(t0, w, x)
  {
    if OldRoot(t0, w, x) {
      OldAncestors(t0, w, w.nodes[x].parent, parent);
    }
  }

  lemma AllOldParts(t0: Tree, w: Walked, below: Walked, rest: Walked, head: seq<nat>)
    requires Extends(below.tree, rest.tree) && w.tree == rest.tree && w.added == head + below.added + rest.added
    requires forall x :: x in below.added ==> x in below.tree.nodes
    requires forall x :: x in head ==> OldRoot(t0, below.tree, x)
    ensures AllOld(t0, w) <==> AllOld(t0, below) && AllOld(t0, rest)
  {
    forall x | x in below.added ensures x in w.added { }
    forall x | x in rest.added ensures x in w.added { }
  }

  /** For a walk that does not fail, the announced roots are all old exactly when the query is
      complete where it matters. */
  lemma {:induction false} RootsExact(t0: Tree, t: Tree, parent: nat, sels: seq<Sel>)
    requires TreeOk(t0) && TreeOk(t) && Extends(t0, t) && (parent == 0 || parent in t0.nodes)
    requires !Walk(t, parent, sels, false).failed
    ensures AllOld(t0, Walk(t, parent, sels, false)) <==>
            WholeFrom(KeyPaths(t0.nodes), KeyPaths(t.nodes), KeysTo(t.nodes, parent), sels)
    decreases SelsSize(sels)
  {
    hide *;
    WalkEnds(t, parent, sels, false);
    if sels == [] {
      NothingLeft(t0, Walk(t, parent, sels, false), KeyPaths(t0.nodes), KeyPaths(t.nodes), KeysTo(t.nodes, parent));
    } else {
      StillThere(t0, t, parent);
      var id, t2, below, rest := WalkParts(t, parent, sels, false);
      Smaller(sels);
      var prior, now, at := KeyPaths(t0.nodes), KeyPaths(t.nodes), KeysTo(t.nodes, parent);
      WalkPlaces(t0, t, t2, below.tree, parent, id, sels[0].key);
      WalkPaths(t2, id, sels[0].sels, id !in t.refs);
      RootsExact(t0, below.tree, parent, sels[1..]);
      RootsJoin(t0, t, parent, sels, id, t2, below, rest);
      if id !in t.nodes {
        assert KeyPaths(below.tree.nodes) == now + {at + [sels[0].key]} + Chosen(at + [sels[0].key], sels[0].sels);
        WholeNewHead(prior, now, at, sels);
      } else if id in t0.nodes {
        RootsExact(t0, t2, id, sels[0].sels);
        WholeOldHead(prior, now, at, sels);
      } else {
        LateRoots(t0, t2, id, sels[0].sels);
        WholeLateHead(prior, now, at, sels);
      }
    }
  }

  lemma NothingLeft(t0: Tree, w: Walked, prior: set<KeyPath>, now: set<KeyPath>, at: KeyPath)
    requires w.added == []
    ensures AllOld(t0, w) && WholeFrom(prior, now, at, [])
  {
  }

  lemma RootsJoin(t0: Tree, t: Tree, parent: nat, sels: seq<Sel>, id: nat, t2: Tree, below: Walked, rest: Walked)
    requires TreeOk(t2) && Extends(t2, below.tree) && Extends(below.tree, rest.tree)
    requires id in t2.nodes && t2.nodes[id].parent == parent && (parent == 0 || parent in t0.nodes) && sels != []
    requires id !in t.refs <==> id !in t.nodes
    requires below == Walk(t2, id, sels[0].sels, id !in t.refs)
    requires Walk(t, parent, sels, false) ==
             Walked(rest.tree, [id] + below.occ + rest.occ,
               (if id !in t.refs then [id] else []) + below.added + rest.added, rest.failed)
    ensures AllOld(t0, Walk(t, parent, sels, false)) <==> AllOld(t0, below) && AllOld(t0, rest)
    ensures id !in t.nodes ==> AllOld(t0, below)
  {
    hide Walk;
    AddedNew(t2, id, sels[0].sels, id !in t.refs);
    AllOldParts(t0, Walk(t, parent, sels, false), below, rest, if id !in t.refs then [id] else []);
  }

  lemma WalkPlaces(t0: Tree, t: Tree, t2: Tree, t3: Tree, parent: nat, id: nat, key: FieldKey)
    requires TreeOk(t0) && TreeOk(t) && TreeOk(t2) && TreeOk(t3) && Extends(t0, t) && Extends(t, t2) && Extends(t2, t3)
    requires (parent == 0 || parent in t0.nodes) && id in t2.nodes && t2.nodes[id] == QN(parent, key)
    requires forall x :: x in t2.nodes && x !in t.nodes ==> x == id
    ensures Extends(t0, t2) && Extends(t0, t3)
    ensures KeysTo(t2.nodes, id) == KeysTo(t.nodes, parent) + [key]
    ensures KeysTo(t3.nodes, parent) == KeysTo(t.nodes, parent)
    ensures KeyPaths(t2.nodes) == KeyPaths(t.nodes) + {KeysTo(t.nodes, parent) + [key]}
    ensures id in t.nodes <==> KeysTo(t.nodes, parent) + [key] in KeyPaths(t.nodes)
    ensures id in t0.nodes <==> KeysTo(t.nodes, parent) + [key] in KeyPaths(t0.nodes)
    ensures Nested(KeyPaths(t0.nodes), KeyPaths(t.nodes), KeysTo(t.nodes, parent))
    ensures id in t.nodes ==> t2.nodes == t.nodes
  {
    hide *;
    StillThere(t0, t, parent);
    ExtendsTrans(t0, t, t2);
    ExtendsTrans(t0, t2, t3);
    ExtendsTrans(t, t2, t3);
    OnePath(t, t2, parent, id, key);
    KeysStay(t, t3, parent);
    KeysStay(t0, t, parent);
    NewIsPath(t, t2, id);
    NewIsPath(t0, t2, id);
    PathsGrow(t0, t);
    PathsClosed(t0);
    PathsClosed(t);
    KeysIn(t0.nodes, parent);
    NestedIs(KeyPaths(t0.nodes), KeyPaths(t.nodes), KeysTo(t.nodes, parent));
    if id in t.nodes { SameTree(t, t2); }
  }

  lemma NestedIs(prior: set<KeyPath>, now: set<KeyPath>, at: KeyPath)
    requires prior <= now && PrefixClosed(prior) && PrefixClosed(now) && at in prior
    ensures Nested(prior, now, at)
  {
  }

  /** Every field of the query resolves against the schema. */
  predicate Resolves(sels: seq<Sel>)
    decreases SelsSize(sels)
  {
    sels != [] ==> sels[0].ok && Resolves(sels[0].sels) && Resolves(sels[1..])
  }

  /** Whether a walk fails does not depend on the tree. */
  lemma {:induction false} FailsExactly(t: Tree, parent: nat, sels: seq<Sel>, inNew: bool)
    ensures Walk(t, parent, sels, inNew).failed <==> !Resolves(sels)
    decreases SelsSize(sels)
  {
    if sels != [] && sels[0].ok {
      var id, t2, below, rest := WalkStep(t, parent, sels, inNew);
      FailsExactly(t2, id, sels[0].sels, inNew || id !in t.refs);
      FailsExactly(below.tree, parent, sels[1..], inNew);
    }
  }

  /** An attach the server can follow: it fails, and nothing is sent, or it is complete where it adds
      to the tree. */
  ghost predicate Sendable(nodes: Nodes, sels: seq<Sel>) {
    Resolves(sels) ==> Whole(nodes, sels)
  }

  /** Exactly the queries that are complete where they add to the tree replay; the condition is one on
      the tree and the query before the attach. */
  lemma WholeReplays(t: Tree, sels: seq<Sel>, ms: seq<Mutation>)
    requires TreeOk(t) && Resolves(sels)
    requires Announces(Walk(t, 0, sels, false).tree.nodes, Walk(t, 0, sels, false).added, ms)
    ensures
      var w := Walk(t, 0, sels, false);
      && (Whole(t.nodes, sels) <==> RootsOld(t, w.tree, w.added))
      && (Whole(t.nodes, sels) <==> Replayable(t.nodes, ms))
      && (Whole(t.nodes, sels) ==> ReplayAll(t.nodes, ms) == w.tree.nodes)
  {
    hide *;
    WholeIsOld(t, sels);
    AttachReplays(t, sels, ms);
  }

  lemma WholeIsOld(t: Tree, sels: seq<Sel>)
    requires TreeOk(t) && Resolves(sels)
    ensures Whole(t.nodes, sels) <==> RootsOld(t, Walk(t, 0, sels, false).tree, Walk(t, 0, sels, false).added)
  {
    var w := Walk(t, 0, sels, false);
    FailsExactly(t, 0, sels, false);
    RootsExact(t, t, 0, sels);
    PathsClosed(t);
    assert AllOld(t, w) <==> RootsOld(t, w.tree, w.added) by {
      if RootsOld(t, w.tree, w.added) {
        forall x | x in w.added ensures OldRoot(t, w.tree, x) {
          var i :| 0 <= i < |w.added| && w.added[i] == x;
        }
      }
      forall i | 0 <= i < |w.added| && AllOld(t, w) ensures OldRoot(t, w.tree, w.added[i]) {
        assert w.added[i] in w.added;
      }
    }
    WholeFromStart(KeyPaths(t.nodes), t.nodes, sels);
  }

  lemma WholeFromStart(paths: set<KeyPath>, nodes: Nodes, sels: seq<Sel>)
    requires paths == KeyPaths(nodes)
    ensures Whole(nodes, sels) <==> WholeFrom(paths, paths, [], sels)
  {
    if Whole(nodes, sels) {
      forall p, q | Pair(paths, [], sels, p, q) ensures Fine(paths, [], sels, p, q) { }
    }
    if WholeFrom(paths, paths, [], sels) {
      forall p, q | p in Chosen([], sels) && q in Chosen([], sels) && p < q && Tops(paths, p)
        ensures q in FirstBelow([], sels, p)
      {
        assert Pair(paths, [], sels, p, q);
      }
    }
  }

  /** With distinct siblings a field has one occurrence, so the condition holds for every tree. */
  lemma DistinctWhole(nodes: Nodes, sels: seq<Sel>)
    requires Distinct(sels)
    ensures Whole(nodes, sels)
  {
    forall p, q | p in Chosen([], sels) && q in Chosen([], sels) && p < q ensures q in FirstBelow([], sels, p) {
      OnlyOnce([], sels, p, q);
    }
  }

  lemma {:induction false} HeadChosen(at: KeyPath, sels: seq<Sel>, p: KeyPath) returns (k: nat)
    requires p in Chosen(at, sels)
    ensures k < |sels| && at + [sels[k].key] <= p
    decreases SelsSize(sels)
  {
    var head := at + [sels[0].key];
    if p == head {
      k := 0;
    } else if p in Chosen(head, sels[0].sels) {
      ChosenBelow(head, sels[0].sels, p);
      k := 0;
    } else {
      k := HeadChosen(at, sels[1..], p);
      k := k + 1;
    }
  }

  lemma NotUnder(head: KeyPath, sels: seq<Sel>, p: KeyPath, i: nat)
    requires i < |head| && i < |p| && p[i] != head[i]
    ensures p !in Chosen(head, sels)
  {
    if p in Chosen(head, sels) { ChosenBelow(head, sels, p); }
  }

  lemma {:induction false} OnlyOnce(at: KeyPath, sels: seq<Sel>, p: KeyPath, q: KeyPath)
    requires Distinct(sels) && p in Chosen(at, sels) && q in Chosen(at, sels) && p < q
    ensures q in FirstBelow(at, sels, p)
    decreases SelsSize(sels)
  {
    var head := at + [sels[0].key];
    ChosenBelow(at, sels, p);
    assert p == q[..|p|];
    if q in Chosen(at, sels[1..]) {
      var k := HeadChosen(at, sels[1..], q);
      var other := at + [sels[1..][k].key];
      assert other == q[..|other|] && other[|at|] != head[|at|];
      ChosenClosed(at, sels[1..], p, q);
      assert p[|at|] == q[|at|] == other[|at|];
      NotUnder(head, sels[0].sels, p, |at|);
      OnlyOnce(at, sels[1..], p, q);
    } else {
      assert q != head;
      ChosenBelow(head, sels[0].sels, q);
      assert head == q[..|head|];
      if p != head {
        ChosenClosed(head, sels[0].sels, p, q);
        OnlyOnce(head, sels[0].sels, p, q);
      }
    }
  }
}
