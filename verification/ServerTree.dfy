/** The server's copy of the query tree, in place: qtree/qtree.go. Fields and arguments are taken
    to resolve; subscriptions and errors are not part of this model. */
module ServerTrees {
  import opened Messages
  import opened Lists
  import opened QueryTreeSpec
  import opened QueryTreeProofs

  class ServerNode {
    const id: nat
    const key: FieldKey
    const parent: ServerNode?
    /** How many nodes there were before this one; and these numbers from the root down. */
    ghost const born: nat
    ghost const path: seq<nat>

    var children: seq<ServerNode>
    /** disposeOnce has run. */
    var disposed: bool

    constructor (id: nat, key: FieldKey, parent: ServerNode?, ghost born: nat)
      ensures this.id == id && this.key == key && this.parent == parent && this.born == born
      ensures path == if parent == null then [] else parent.path + [born]
      ensures children == [] && !disposed
    {
      this.id, this.key, this.parent, this.born := id, key, parent, born;
      this.path := if parent == null then [] else parent.path + [born];
      children, disposed := [], false;
    }
  }

  // ----- all nodes there ever were

  ghost predicate KidsFine(m: ServerNode, cs: seq<ServerNode>, all: set<ServerNode>) {
    NoRepeats(cs) && forall c | c in cs :: c in all && c.parent == m && c.path == m.path + [c.born]
  }

  ghost predicate IdsUnique(all: set<ServerNode>) {
    forall m, m' {:trigger m.id, m'.id} | m in all && m' in all && m.id == m'.id :: m == m'
  }

  ghost predicate BornApart(all: set<ServerNode>) {
    forall m, m' {:trigger m.born, m'.born} | m in all && m' in all && m.born == m'.born :: m == m'
  }

  ghost predicate Shape(all: set<ServerNode>)
    reads all`children
  {
    BornApart(all) && forall m | m in all :: KidsFine(m, m.children, all)
  }

  /** No child in these lists has been disposed. */
  ghost predicate LiveIn(s: set<ServerNode>)
    reads s`children
    reads set m, c | m in s && c in m.children :: c`disposed
  {
    forall m, c | m in s && c in m.children :: !c.disposed
  }

  ghost function Below(all: set<ServerNode>, n: ServerNode): set<ServerNode> {
    set m | m in all && n.path <= m.path
  }

  // ----- removeChild

  /** The list without the first occurrence of an element. */
  function Removed(cs: seq<ServerNode>, n: ServerNode): seq<ServerNode> {
    if cs == [] then []
    else if cs[0] == n then cs[1..]
    else [cs[0]] + Removed(cs[1..], n)
  }

  lemma {:induction false} RemovedAt(cs: seq<ServerNode>, i: nat)
    requires i < |cs| && forall k | 0 <= k < i :: cs[k] != cs[i]
    ensures Removed(cs, cs[i]) == cs[..i] + cs[i + 1..]
  {
    if i > 0 {
      var n := cs[i];
      assert cs[1..][i - 1] == n;
      RemovedAt(cs[1..], i - 1);
      assert cs[1..][..i - 1] == cs[1..i] && cs[1..][i..] == cs[i + 1..];
      assert [cs[0]] + cs[1..i] == cs[..i];
    } else {
      assert cs[..0] == [];
    }
  }

  lemma {:induction false} RemovedNone(cs: seq<ServerNode>, n: ServerNode)
    requires n !in cs
    ensures Removed(cs, n) == cs
  {
    if cs != [] { RemovedNone(cs[1..], n); }
  }

  lemma {:induction false} RemovedFacts(cs: seq<ServerNode>, n: ServerNode)
    requires NoRepeats(cs)
    ensures NoRepeats(Removed(cs, n)) && forall c :: c in Removed(cs, n) <==> c in cs && c != n
  {
    if n in cs {
      var i :| 0 <= i < |cs| && cs[i] == n;
      RemovedAt(cs, i);
      var r := cs[..i] + cs[i + 1..];
      forall c | c in cs && c != n ensures c in r {
        var k :| 0 <= k < |cs| && cs[k] == c;
        assert r[if k < i then k else k - 1] == c;
      }
    } else {
      RemovedNone(cs, n);
    }
  }

  /** removeChild: the rest of the children moves up by one. */
  method RemoveChild(qt: ServerNode, nod: ServerNode)
    modifies qt`children
    ensures qt.children == Removed(old(qt.children), nod)
  {
    var a := qt.children;
    for i := 0 to |a|
      invariant qt.children == a && forall k | 0 <= k < i :: a[k] != nod
    {
      if a[i] == nod {
        RemovedAt(a, i);
        qt.children := a[..i] + a[i + 1..];
        return;
      }
    }
    RemovedNone(a, nod);
  }

  // ----- disposing

  /** The elements at odd places. */
  function Odds(cs: seq<ServerNode>): seq<ServerNode> {
    if |cs| < 2 then [] else [cs[1]] + Odds(cs[2..])
  }

  lemma {:induction false} OddsSplit(cs: seq<ServerNode>, k: nat)
    requires 2 * k <= |cs|
    ensures |Odds(cs[..2 * k])| == k
    ensures 2 * k + 1 < |cs| ==> Odds(cs[..2 * (k + 1)]) == Odds(cs[..2 * k]) + [cs[2 * k + 1]]
  {
    if k > 0 {
      OddsSplit(cs[2..], k - 1);
      assert cs[..2 * k][2..] == cs[2..][..2 * (k - 1)];
      if 2 * k + 1 < |cs| {
        assert cs[..2 * (k + 1)][2..] == cs[2..][..2 * k];
      }
    } else if 1 < |cs| {
      assert cs[..2][2..] == [];
    }
  }

  /** The children while the loop of Dispose is at its `k`-th round: the ones it jumped over, and
      the ones it has not reached. */
  ghost function AtRound(cs: seq<ServerNode>, k: nat): seq<ServerNode> {
    if 2 * k <= |cs| then Odds(cs[..2 * k]) + cs[2 * k..] else Odds(cs)
  }

  lemma {:induction false} OddsAll(cs: seq<ServerNode>)
    ensures |cs| % 2 == 1 ==> Odds(cs[..|cs| - 1]) == Odds(cs)
    ensures |Odds(cs)| == |cs| / 2 && forall c | c in Odds(cs) :: c in cs
  {
    if |cs| >= 2 {
      OddsAll(cs[2..]);
      if |cs| % 2 == 1 { assert cs[..|cs| - 1][2..] == cs[2..][..|cs| - 3]; }
    }
  }

  lemma {:induction false} OddsFrom(cs: seq<ServerNode>, c: ServerNode)
    requires c in Odds(cs)
    ensures exists i :: 0 <= i < |cs| && i % 2 == 1 && cs[i] == c
  {
    if c == cs[1] {
      assert 1 % 2 == 1 && cs[1] == c;
    } else {
      OddsFrom(cs[2..], c);
      var i :| 0 <= i < |cs[2..]| && i % 2 == 1 && cs[2..][i] == c;
      assert (i + 2) % 2 == 1 && cs[i + 2] == c;
    }
  }

  /** One round disposes the child at place `2 * k`, and shifts the rest under the loop. */
  lemma RoundStep(cs: seq<ServerNode>, k: nat)
    requires NoRepeats(cs)
    ensures k < |AtRound(cs, k)| <==> 2 * k < |cs|
    ensures 2 * k < |cs| ==> AtRound(cs, k)[k] == cs[2 * k] && Removed(AtRound(cs, k), cs[2 * k]) == AtRound(cs, k + 1)
    ensures 2 * k >= |cs| ==> AtRound(cs, k) == Odds(cs) == AtRound(cs, k + 1)
  {
    OddsAll(cs);
    if 2 * k <= |cs| { OddsSplit(cs, k); }
    if 2 * k < |cs| {
      JumpedOver(cs, k);
      RemovedAt(Odds(cs[..2 * k]) + cs[2 * k..], k);
      NextRound(cs, k);
    } else if 2 * k == |cs| {
      assert cs[..2 * k] == cs;
    }
  }

  lemma JumpedOver(cs: seq<ServerNode>, k: nat)
    requires NoRepeats(cs) && 2 * k < |cs| && |Odds(cs[..2 * k])| == k
    ensures var r := Odds(cs[..2 * k]) + cs[2 * k..]; r[k] == cs[2 * k] && forall j | 0 <= j < k :: r[j] != r[k]
  {
    var o := Odds(cs[..2 * k]);
    forall j | 0 <= j < k ensures o[j] != cs[2 * k] {
      OddsFrom(cs[..2 * k], o[j]);
      var i :| 0 <= i < |cs[..2 * k]| && i % 2 == 1 && cs[..2 * k][i] == o[j];
      assert cs[i] != cs[2 * k];
    }
  }

  lemma NextRound(cs: seq<ServerNode>, k: nat)
    requires 2 * k < |cs| && |Odds(cs[..2 * k])| == k
    ensures var r := Odds(cs[..2 * k]) + cs[2 * k..]; r[..k] + r[k + 1..] == AtRound(cs, k + 1)
  {
    hide Odds;
    var o := Odds(cs[..2 * k]);
    var r := o + cs[2 * k..];
    assert r[..k] == o && r[k + 1..] == cs[2 * k + 1..];
    if 2 * k + 1 < |cs| {
      OddsSplit(cs, k);
      assert cs[2 * k + 1..] == [cs[2 * k + 1]] + cs[2 * k + 2..];
    } else {
      OddsAll(cs);
      assert cs[..|cs| - 1] == cs[..2 * k];
      assert o + cs[2 * k + 1..] == o;
    }
  }

  type Kids = map<ServerNode, seq<ServerNode>>

  /** What disposing a node disposes: because children are removed from the list the loop ranges
      over, every other child is jumped over, with everything below it. */
  ghost function Doomed(kids: Kids, bound: nat, n: ServerNode): set<ServerNode>
    decreases bound - |n.path|, 1
  {
    {n} + if n in kids then DoomedKids(kids, bound, n, kids[n], |kids[n]|) else {}
  }

  ghost function DoomedKids(kids: Kids, bound: nat, n: ServerNode, cs: seq<ServerNode>, upTo: nat): set<ServerNode>
    requires upTo <= |cs|
    decreases bound - |n.path|, 0
  {
    set i, x | 0 <= i < upTo && i % 2 == 0 && |n.path| < |cs[i].path| <= bound && x in Doomed(kids, bound, cs[i]) :: x
  }

  /** The children lists as a tree below `n`. */
  ghost predicate KidsBelow(all: set<ServerNode>, n: ServerNode, kids: Kids, bound: nat) {
    forall m | m in Below(all, n) :: |m.path| <= bound && m in kids && KidsFine(m, kids[m], all)
  }

  lemma BelowKid(all: set<ServerNode>, n: ServerNode, kids: Kids, bound: nat, c: ServerNode)
    requires KidsBelow(all, n, kids, bound) && n in all && c in kids[n]
    ensures c in all && c.parent == n && Below(all, c) <= Below(all, n) - {n} && KidsBelow(all, c, kids, bound)
    ensures c.path == n.path + [c.born] && |n.path| < |c.path| <= bound
  {
    assert n in Below(all, n);
    assert KidsFine(n, kids[n], all);
    assert c in Below(all, n);
    forall m | m in Below(all, c) ensures m in Below(all, n) - {n} {
      assert m.path[..|c.path|][..|n.path|] == n.path;
    }
  }

  lemma {:induction false} DoomedBelow(all: set<ServerNode>, n: ServerNode, kids: Kids, bound: nat)
    requires n in all && KidsBelow(all, n, kids, bound)
    ensures n in Doomed(kids, bound, n) && Doomed(kids, bound, n) <= Below(all, n)
    decreases bound - |n.path|
  {
    assert n in Below(all, n);
    forall x | x in DoomedKids(kids, bound, n, kids[n], |kids[n]|) ensures x in Below(all, n) {
      var i :| 0 <= i < |kids[n]| && i % 2 == 0 && |n.path| < |kids[n][i].path| <= bound
        && x in Doomed(kids, bound, kids[n][i]);
      BelowKid(all, n, kids, bound, kids[n][i]);
      DoomedBelow(all, kids[n][i], kids, bound);
    }
  }

  lemma DoomedNext(kids: Kids, bound: nat, n: ServerNode, cs: seq<ServerNode>, k: nat)
    requires 2 * k < |cs| && |n.path| < |cs[2 * k].path| <= bound
    ensures DoomedKids(kids, bound, n, cs, if 2 * (k + 1) <= |cs| then 2 * (k + 1) else |cs|) ==
            DoomedKids(kids, bound, n, cs, 2 * k) + Doomed(kids, bound, cs[2 * k])
  {
    var upTo := if 2 * (k + 1) <= |cs| then 2 * (k + 1) else |cs|;
    forall x | x in Doomed(kids, bound, cs[2 * k]) ensures x in DoomedKids(kids, bound, n, cs, upTo) {
      assert 2 * k < upTo && (2 * k) % 2 == 0;
    }
    forall x | x in DoomedKids(kids, bound, n, cs, upTo)
      ensures x in DoomedKids(kids, bound, n, cs, 2 * k) + Doomed(kids, bound, cs[2 * k])
    {
      var i :| 0 <= i < upTo && i % 2 == 0 && |n.path| < |cs[i].path| <= bound && x in Doomed(kids, bound, cs[i]);
      assert i != 2 * k + 1;
    }
  }

  function IdsOf(ns: set<ServerNode>): set<nat> {
    set n | n in ns :: n.id
  }

  ghost function Disposed(all: set<ServerNode>): set<ServerNode>
    reads all`disposed
  {
    set m | m in all && m.disposed
  }

  ghost function KidsNow(s: set<ServerNode>): Kids
    reads s`children
  {
    map m | m in s :: m.children
  }

  /** None of these children is among the dead. */
  ghost predicate LiveKids(s: set<ServerNode>, kids: Kids, dead: set<ServerNode>) {
    forall m, c | m in s && m in kids && c in kids[m] :: c !in dead
  }

  /** The subtrees the loop has not reached are as they were. */
  ghost predicate Untouched(all: set<ServerNode>, cs: seq<ServerNode>, from: nat, kids: Kids)
    reads all`children
  {
    forall i | from <= i < |cs| :: AsWere(Below(all, cs[i]), kids)
  }

  ghost predicate AsWere(s: set<ServerNode>, kids: Kids)
    reads s`children
  {
    forall m | m in s :: m in kids && m.children == kids[m]
  }

  /** Nodes have small paths and used ids, and hang off their parents. */
  ghost predicate AllOk(root: ServerNode, all: set<ServerNode>, ever: set<nat>, bound: nat) {
    && root in all && root.parent == null && root.path == [] && root.id == 0
    && forall m | m in all ::
         && |m.path| <= bound && m.born < bound && m.id in ever
         && (m != root ==> m.parent != null && m.parent in all && m.path == m.parent.path + [m.born])
  }

  /** `at` are the nodes on the tree, by id. */
  ghost predicate Reached(root: ServerNode, all: set<ServerNode>, at: map<nat, ServerNode>, kids: Kids,
                          dead: set<ServerNode>)
  {
    && 0 in at && at[0] == root
    && (forall id | id in at ::
      at[id] in all && at[id].id == id && at[id] !in dead && at[id] in kids && KidsOn(at, kids[at[id]]))
    && (forall id | id in at && id != 0 :: Hangs(at, kids, at[id]))
  }

  ghost predicate KidsOn(at: map<nat, ServerNode>, cs: seq<ServerNode>) {
    forall c | c in cs :: c.id in at && at[c.id] == c
  }

  ghost predicate Hangs(at: map<nat, ServerNode>, kids: Kids, m: ServerNode) {
    && m.parent != null && m.parent.id < m.id && m.parent.id in at && at[m.parent.id] == m.parent
    && m.parent in kids && m in kids[m.parent]
  }

  /** The map knows every node on the tree; what else it knows has not been disposed. */
  ghost predicate MapOk(all: set<ServerNode>, at: map<nat, ServerNode>, m: map<nat, ServerNode>, dead: set<ServerNode>)
  {
    (forall id | id in at :: id in m && m[id] == at[id]) && MapAlive(all, m, dead)
  }

  ghost predicate MapAlive(all: set<ServerNode>, m: map<nat, ServerNode>, dead: set<ServerNode>) {
    forall id | id in m :: m[id] in all && m[id].id == id && m[id] !in dead
  }

  ghost function ViewOf(at: map<nat, ServerNode>): Nodes {
    map id | id in at && at[id].parent != null :: QN(at[id].parent.id, at[id].key)
  }

  class ServerTree {
    const root: ServerNode
    var rootNodeMap: map<nat, ServerNode>

    /** Every node there ever was, the nodes on the tree, the ids used so far, and a bound on depths
        and births. */
    ghost var all: set<ServerNode>
    ghost var at: map<nat, ServerNode>
    ghost var ever: set<nat>
    ghost var bound: nat

    /** What holds whatever the client sends. */
    ghost predicate Sound()
      reads this`rootNodeMap, this`all, this`ever, this`bound, all
    {
      && Shape(all) && LiveIn(all) && AllOk(root, all, ever, bound)
      && MapAlive(all, rootNodeMap, Disposed(all))
    }

    /** What holds as long as no id is sent twice. */
    ghost predicate Valid()
      reads this, all
    {
      && Shape(all) && LiveIn(all) && AllOk(root, all, ever, bound) && IdsUnique(all)
      && Reached(root, all, at, KidsNow(all), Disposed(all)) && MapOk(all, at, rootNodeMap, Disposed(all))
    }

    /** The tree as a value. */
    ghost function View(): Nodes
      reads this
    {
      ViewOf(at)
    }

    constructor ()
      ensures Valid() && View() == map[] && ever == {0} && fresh(all)
    {
      var r := new ServerNode(0, FieldKey("", map[]), null, 0);
      root, rootNodeMap := r, map[0 := r];
      all, at, ever, bound := {r}, map[0 := r], {0}, 1;
    }

    /** Dispose: the node leaves its parent's children, and it and every other descendant in turn
        leave the map. */
    method Dispose(qt: ServerNode, ghost all: set<ServerNode>, ghost bound: nat, ghost kids: Kids)
      returns (ghost gone: set<ServerNode>)
      requires Shape(all) && qt in all && KidsBelow(all, qt, kids, bound) && AsWere(Below(all, qt), kids)
      requires LiveIn(Below(all, qt))
      requires qt.parent != null ==> qt.parent in all && qt.path == qt.parent.path + [qt.born]
      modifies this`rootNodeMap, Below(all, qt)`children, Below(all, qt)`disposed,
        (if qt.parent == null then {} else {qt.parent})`children
      ensures gone == if old(qt.disposed) then {} else Doomed(kids, bound, qt)
      ensures rootNodeMap == old(rootNodeMap) - IdsOf(gone) && Disposed(all) == old(Disposed(all)) + gone
      ensures Shape(all) && LiveIn(Below(all, qt))
      ensures qt.parent != null ==>
                qt.parent.children ==
                  if old(qt.disposed) then old(qt.parent.children) else Removed(old(qt.parent.children), qt)
      decreases bound - |qt.path|, 1
    {
      hide *;
      gone := {};
      NothingGone(rootNodeMap, Disposed(all));
      if qt.disposed { return; }
      var cs := qt.children;
      ghost var deadBefore, map0 := Disposed(all), rootNodeMap;
      DisposeStarts(all, qt, kids, bound);
      DeadAre(all);
      qt.disposed := true;
      LoopStarts(all, qt, cs, kids, bound, deadBefore);
      RoundFrom(all, qt, kids, bound, cs, 0, gone, deadBefore);
      for k := 0 to |cs|
        invariant Round(all, qt, kids, bound, cs, k, gone, deadBefore) && rootNodeMap == map0 - IdsOf(gone)
        invariant qt.parent != null ==> qt.parent.children == old(qt.parent.children)
      {
        gone := DisposeRound(qt, cs, k, all, bound, kids, gone, deadBefore, map0);
      }
      RoundMeans(all, qt, kids, bound, cs, |cs|, gone, deadBefore);
      ghost var now, dead, was := KidsNow(all), Disposed(all), gone;
      NowIs(all);
      BeforeEnd(all, qt, now, dead);
      qt.children := [];
      rootNodeMap := rootNodeMap - {qt.id};
      if qt.parent != null {
        RemoveChild(qt.parent, qt);
      }
      gone := gone + {qt};
      DisposeEnds(all, qt, kids, bound, now, dead, deadBefore, map0, was, cs);
    }

    /** One round of that loop: the child at twice the index is disposed, if there is one. */
    method DisposeRound(qt: ServerNode, cs: seq<ServerNode>, k: nat, ghost all: set<ServerNode>, ghost bound: nat,
                        ghost kids: Kids, ghost gone: set<ServerNode>, ghost deadBefore: set<ServerNode>,
                        ghost map0: map<nat, ServerNode>)
      returns (ghost gone': set<ServerNode>)
      requires qt in all && qt in kids && kids[qt] == cs && NoRepeats(cs) && KidsBelow(all, qt, kids, bound)
      requires k < |cs| && Round(all, qt, kids, bound, cs, k, gone, deadBefore) && rootNodeMap == map0 - IdsOf(gone)
      modifies this`rootNodeMap, Below(all, qt)`children, Below(all, qt)`disposed
      ensures Round(all, qt, kids, bound, cs, k + 1, gone', deadBefore) && rootNodeMap == map0 - IdsOf(gone')
      decreases bound - |qt.path|, 0
    {
      hide *;
      RoundMeans(all, qt, kids, bound, cs, k, gone, deadBefore);
      gone' := gone;
      RoundStep(cs, k);
      if k < |qt.children| {
        var child := qt.children[k];
        ghost var dead, now := Disposed(all), KidsNow(all);
        NowIs(all);
        RoundReady(all, qt, kids, bound, cs, k, child, now, dead);
        ghost var g := Dispose(child, all, bound, kids);
        gone' := gone + g;
        RoundDone(all, qt, kids, bound, cs, k, child, now, dead, g);
        GoneMore(map0, gone, g, deadBefore + {qt});
      } else {
        FartherOn(all, cs, 2 * k, 2 * (k + 1), kids);
      }
      RoundFrom(all, qt, kids, bound, cs, k + 1, gone', deadBefore);
    }

    /** Dispose, for a node other than the root: it leaves its parent's children, and what is disposed
        leaves the map. */
    method DisposeBelow(nod: ServerNode) returns (ghost gone: set<ServerNode>)
      requires Sound() && nod in all && nod != root && !nod.disposed
      modifies this`rootNodeMap, all`children, all`disposed
      ensures Sound() && gone == Doomed(old(KidsNow(all)), bound, nod) && gone <= Below(all, nod) && nod in gone
      ensures rootNodeMap == old(rootNodeMap) - IdsOf(gone) && Disposed(all) == old(Disposed(all)) + gone
      ensures KidsNow(all).Keys == all && old(KidsNow(all)).Keys == all
      ensures AfterDispose(all, old(KidsNow(all)), KidsNow(all), nod)
      ensures nod.parent != null && nod.parent.children == Removed(old(nod.parent.children), nod)
    {
      hide *;
      ghost var kids, dead, map0 := KidsNow(all), Disposed(all), rootNodeMap;
      SoundMeans(this);
      DisposeReady(this, nod);
      gone := Dispose(nod, all, bound, kids);
      NowIs(all);
      DoomedBelow(all, nod, kids, bound);
      DisposedSo(all, kids, KidsNow(all), nod);
      ForestAfter(root, all, ever, bound, kids, dead, nod, gone);
      AliveAfter(all, map0, dead, gone);
      SoundMeans(this);
    }

    /** A tree where no id was sent twice loses exactly the subtree. */
    method DisposeNode(nod: ServerNode)
      requires Sound() && nod in all && nod != root && !nod.disposed
      modifies this`rootNodeMap, this`at, all`children, all`disposed
      ensures Sound() && rootNodeMap == old(rootNodeMap) - IdsOf(Doomed(old(KidsNow(all)), bound, nod))
      ensures nod.parent != null && nod.parent.children == Removed(old(nod.parent.children), nod)
      ensures nod.id !in rootNodeMap && KidsNow(all).Keys == all && old(KidsNow(all)).Keys == all
      ensures AfterDispose(all, old(KidsNow(all)), KidsNow(all), nod)
      ensures old(Valid()) ==> Valid() && View() == Replay(old(View()), Delete(nod.id))
    {
      hide *;
      ghost var kids, dead, map0, good := KidsNow(all), Disposed(all), rootNodeMap, Valid();
      ValidMeans(this);
      ghost var gone := DisposeBelow(nod);
      GoneFromMap(map0, gone, nod);
      if good {
        SoundMeans(this);
        ValidAfter(root, all, ever, bound, at, kids, dead, map0, nod, gone, KidsNow(all));
        SetAt(WithoutBelow(at, nod));
        ValidMeans(this);
      }
    }

    ghost method SetAt(at': map<nat, ServerNode>)
      modifies this`at
      ensures at == at'
    {
      at := at';
    }

    /** The new node of AddChild, in the map and at the end of the children. */
    method Append(qt: ServerNode, id: nat, key: FieldKey) returns (nnod: ServerNode)
      requires Sound() && qt in all && !qt.disposed
      modifies this`rootNodeMap, this`all, this`ever, this`bound, qt`children
      ensures Sound() && fresh(nnod) && all == old(all) + {nnod} && ever == old(ever) + {id} && bound == old(bound) + 1
      ensures Joins(old(all), old(bound), qt, nnod) && nnod.parent == qt && nnod !in old(all)
      ensures nnod != root && nnod.id == id && nnod.key == key && !nnod.disposed
      ensures rootNodeMap == old(rootNodeMap)[id := nnod] && qt.children == old(qt.children) + [nnod]
      ensures old(KidsNow(all)).Keys == old(all) && Disposed(all) == old(Disposed(all)) <= old(all)
      ensures KidsNow(all) == KidsPushed(old(KidsNow(all)), qt, nnod)
    {
      hide *;
      ghost var kids, dead, map0, all0, bound0 := KidsNow(all), Disposed(all), rootNodeMap, all, bound;
      SoundMeans(this);
      NowIs(all);
      DeadAre(all);
      ValidLive(all, kids, dead);
      ForestMeans(root, all, ever, bound, kids);
      nnod := new ServerNode(id, key, qt, bound);
      rootNodeMap := rootNodeMap[nnod.id := nnod];
      qt.children := qt.children + [nnod];
      NewJoins(all0, bound0, qt, nnod);
      MintKids(all0, kids, qt, nnod);
      MintDead(all0, dead, nnod);
      MintForest(root, all0, ever, bound0, kids, qt, nnod);
      MintAlive(all0, dead, map0, nnod);
      all, ever, bound := all + {nnod}, ever + {id}, bound + 1;
      MintShape(this, qt, nnod, kids, dead, all0);
      SoundMeans(this);
    }

    /** The first half of AddChild: below a node of the tree, an id that was never used is a new node. */
    method Mint(qt: ServerNode, id: nat, key: FieldKey) returns (nnod: ServerNode)
      requires Sound() && qt in all && !qt.disposed
      modifies this`rootNodeMap, this`all, this`at, this`ever, this`bound, qt`children
      ensures Sound() && fresh(nnod) && all == old(all) + {nnod} && ever == old(ever) + {id}
      ensures nnod != root && nnod.id == id && !nnod.disposed && rootNodeMap == old(rootNodeMap)[id := nnod]
      ensures qt.children == old(qt.children) + [nnod]
      ensures old(Valid()) && qt.id < id && id !in old(ever) ==>
                && Valid() && On(at, nnod) == On(old(at), qt)
                && (forall m | m in old(all) :: On(at, m) == On(old(at), m))
                && View() == if On(old(at), qt) then old(View())[id := QN(qt.id, key)] else old(View())
    {
      hide *;
      ghost var kids, dead, map0, at0, all0, ever0, bound0 := KidsNow(all), Disposed(all), rootNodeMap, at, all, ever,
        bound;
      ghost var good := Valid() && qt.id < id && id !in ever;
      ValidMeans(this);
      nnod := Append(qt, id, key);
      if good {
        SoundMeans(this);
        ValidMinted(root, all0, ever0, bound0, at0, kids, dead, map0, qt, nnod);
        SetAt(Grown(at0, qt, nnod));
        ValidMeans(this);
      }
    }

    /** AddChild: the wire subtree, below `qt`. Only the root's map is ever consulted for an id that
        exists, because no other node has one: below any other node a known id is added again. */
    method AddChild(qt: ServerNode, data: Proto) returns (ok: bool)
      requires Sound() && qt in all && !qt.disposed
      modifies this`rootNodeMap, this`all, this`at, this`ever, this`bound, qt`children
      ensures Sound() && ok == !(qt == root && data.id in old(rootNodeMap))
      ensures old(all) <= all && fresh(all - old(all))
      ensures ever == if ok then old(ever) + Flatten(qt.id, data).Keys else old(ever)
      ensures !ok ==> qt.children == old(qt.children) && rootNodeMap == old(rootNodeMap)
      ensures ok ==> Pushed(old(qt.children), qt.children, data.id) && qt.children[|qt.children| - 1] !in old(all)
      ensures ok ==> MapTook(old(rootNodeMap), rootNodeMap, Flatten(qt.id, data).Keys)
      ensures ok && Tidy(qt.id, [data]) ==>
                data.id in rootNodeMap && rootNodeMap[data.id] == qt.children[|qt.children| - 1]
      ensures old(Valid()) && Tidy(qt.id, [data]) && (!ok || Flatten(qt.id, data).Keys !! old(ever)) ==>
                && Valid() && (forall m | m in old(all) :: On(at, m) == On(old(at), m))
                && View() == if ok && On(old(at), qt) then old(View()) + Flatten(qt.id, data) else old(View())
      decreases data
    {
      hide *;
      if qt == root && data.id in rootNodeMap {
        return false;
      }
      ghost var view, ever0, on, at0, all0, map0 := View(), ever, On(at, qt), at, all, rootNodeMap;
      ghost var good := Valid() && Tidy(qt.id, [data]) && Flatten(qt.id, data).Keys !! ever;
      if good { AddStarts(qt.id, data, ever0); }
      ghost var before := qt.children;
      var nnod := Mint(qt, data.id, data.key);
      AddedNone(view, ever0, qt.id, data);
      TookNone(map0, qt.id, data, nnod);
      for i := 0 to |data.children|
        invariant Sound() && all0 <= all && fresh(all - all0) && nnod in all && !nnod.disposed && nnod != root
        invariant nnod.id == data.id && qt.children == before + [nnod]
        invariant ever == ever0 + AddedSoFar(qt.id, data, i).Keys
        invariant TookSoFar(map0, rootNodeMap, qt.id, data, i, nnod)
        invariant good ==>
                    && Valid() && On(at, nnod) == on && (forall m | m in all0 :: On(at, m) == On(at0, m))
                    && View() == if on then view + AddedSoFar(qt.id, data, i) else view
      {
        ghost var all1, at1, map1 := all, at, rootNodeMap;
        EverMore(ever0, qt.id, data, i);
        if good { AddOne(view, ever0, qt.id, data, i); }
        var _ := AddChild(nnod, data.children[i]);
        TookOne(map0, map1, rootNodeMap, qt.id, data, i, nnod);
      }
      AddedAll(qt.id, data);
      PushedIs(before, nnod);
      TookAll(map0, rootNodeMap, qt.id, data, nnod);
      ok := true;
    }

    /** One node mutation. */
    method ApplyOne(aqn: Mutation) returns (ok: bool)
      requires Sound()
      modifies this`rootNodeMap, this`all, this`at, this`ever, this`bound, all`children, all`disposed
      ensures Sound() && old(all) <= all && fresh(all - old(all))
      ensures old(Valid()) && FreshOne(old(ever), aqn) ==>
                && ok && Valid() && View() == Replay(old(View()), aqn)
                && ever <= old(ever) + if aqn.AddChild? then Flatten(aqn.nodeId, aqn.node).Keys else {}
      ensures aqn.AddChild? ==> MoreKids(old(KidsNow(all)), KidsNow(all))
      ensures old(Valid()) && AddsKnown(old(View()), aqn) ==> ok && HoldsTwice(KidsNow(all))
    {
      hide *;
      ghost var good, known := Valid() && FreshOne(ever, aqn), Valid() && AddsKnown(View(), aqn);
      ghost var kids := KidsNow(all);
      NowIs(all);
      KidsSame(kids);
      SoundNode(this, aqn.nodeId);
      if good || known { KnownNode(this, aqn.nodeId); KnownView(this, aqn.nodeId); }
      if known { KnownChild(this, aqn); }
      ok := true;
      if aqn.nodeId in rootNodeMap {
        var nod := rootNodeMap[aqn.nodeId];
        match aqn {
          case AddChild(_, node) =>
            ReplayAdd(View(), aqn);
            if good { FreshMeans(ever, aqn); KnownNode(this, node.id); }
            ok := AddChild(nod, node);
            NowIs(all);
            OneMoreKid(kids, KidsNow(all), nod);
            if known { TwiceNow(kids, KidsNow(all), nod, node.id); }
          case Delete(_) =>
            if aqn.nodeId != 0 && nod != root {
              DisposeNode(nod);
            } else if good {
              ReplayNothing(View(), aqn);
            }
        }
      } else if good {
        ReplayNothing(View(), aqn);
      }
    }

    /** ApplyTreeMutation: the node mutations in order, until one is refused. As long as no id is sent
        twice the tree follows; a known id that is sent below another node than the root is there
        twice in the end. */
    method ApplyTreeMutation(nodeMutation: seq<Mutation>) returns (ok: bool)
      requires Sound()
      modifies this`rootNodeMap, this`all, this`at, this`ever, this`bound, all`children, all`disposed
      ensures Sound() && old(all) <= all && fresh(all - old(all))
      ensures old(Valid()) && Freshly(old(ever), nodeMutation) ==>
                && ok && Valid() && View() == ReplayAll(old(View()), nodeMutation)
                && ever <= old(ever) + AddedIds(nodeMutation)
      ensures old(Valid()) && Clash(old(View()), old(ever), nodeMutation, |nodeMutation|) ==> HoldsTwice(KidsNow(all))
    {
      hide *;
      ghost var view, ever0, good := View(), ever, Valid();
      ReplaysNothing(view, ever0, nodeMutation);
      for i := 0 to |nodeMutation|
        invariant Sound() && old(all) <= all && fresh(all - old(all))
        invariant good && Freshly(ever0, nodeMutation[..i]) ==>
                    && Valid() && View() == ReplayAll(view, nodeMutation[..i])
                    && ever <= ever0 + AddedIds(nodeMutation[..i])
        invariant good && Clash(view, ever0, nodeMutation, i) ==> HoldsTwice(KidsNow(all))
      {
        ghost var now, kids := ever, KidsNow(all);
        ReplaySoFar(view, ever0, nodeMutation, i, now);
        ClashNow(view, ever0, nodeMutation, i);
        ok := ApplyOne(nodeMutation[i]);
        if good { ClashSoFar(view, ever0, nodeMutation, i, kids, KidsNow(all), ok); }
        if !ok {
          NotAllFresh(ever0, nodeMutation, i);
          return;
        }
      }
      assert nodeMutation[..|nodeMutation|] == nodeMutation;
      ok := true;
    }
  }

  lemma SoundNode(t: ServerTree, id: nat)
    requires t.Sound()
    ensures id in t.rootNodeMap ==>
        t.rootNodeMap[id] in t.all && t.rootNodeMap[id].id == id && !t.rootNodeMap[id].disposed
  {
  }

  lemma KnownNode(t: ServerTree, id: nat)
    requires t.Valid()
    ensures id in t.rootNodeMap ==> t.rootNodeMap[id] in t.all && t.rootNodeMap[id].id == id && id in t.ever
    ensures t.root.id == 0
  {
  }

  lemma KnownView(t: ServerTree, id: nat)
    requires t.Valid()
    ensures id in t.View() ==> id in t.rootNodeMap && id != 0
    ensures id == 0 ==> id in t.rootNodeMap && t.rootNodeMap[id] == t.root
    ensures id in t.rootNodeMap ==> (On(t.at, t.rootNodeMap[id]) <==> id == 0 || id in t.View())
    ensures id in t.rootNodeMap && t.rootNodeMap[id] == t.root ==> id == 0
  {
    assert World(t.root, t.all, t.ever, t.bound, t.at, KidsNow(t.all), Disposed(t.all))
           && MapOk(t.all, t.at, t.rootNodeMap, Disposed(t.all));
    WorldMeans(t.root, t.all, t.ever, t.bound, t.at, KidsNow(t.all), Disposed(t.all));
    assert 0 in t.at && t.at[0] == t.root;
    hide World, Shape, LiveIn, ServerTree.Valid;
    if id in t.at {
      ParentOnTree(t.root, t.all, t.ever, t.bound, t.at, KidsNow(t.all), Disposed(t.all), id);
    }
  }

  lemma ReplayAdd(nodes: Nodes, m: Mutation)
    requires m.AddChild?
    ensures Replay(nodes, m) == if m.nodeId == 0 || m.nodeId in nodes then nodes + Flatten(m.nodeId, m.node) else nodes
    ensures m.node.id in Flatten(m.nodeId, m.node)
  {
  }

  lemma ReplayNothing(nodes: Nodes, m: Mutation)
    requires m.nodeId !in nodes && (m.AddChild? ==> m.nodeId != 0)
    ensures Replay(nodes, m) == nodes
  {
  }

  /** An addition under ids that were never used. */
  ghost predicate FreshOne(ever: set<nat>, m: Mutation) {
    m.AddChild? ==> Tidy(m.nodeId, [m.node]) && Flatten(m.nodeId, m.node).Keys !! ever
  }

  lemma FreshMeans(ever: set<nat>, m: Mutation)
    requires FreshOne(ever, m) && m.AddChild?
    ensures Tidy(m.nodeId, [m.node]) && Flatten(m.nodeId, m.node).Keys !! ever
  {
  }

  lemma ReplaysNothing(view: Nodes, ever: set<nat>, ms: seq<Mutation>)
    ensures ReplayAll(view, ms[..0]) == view && AddedIds(ms[..0]) == {} && !Clash(view, ever, ms, 0)
  {
  }

  lemma ReplaySoFar(view: Nodes, ever: set<nat>, ms: seq<Mutation>, i: nat, now: set<nat>)
    requires i < |ms|
    ensures ReplayAll(view, ms[..i + 1]) == Replay(ReplayAll(view, ms[..i]), ms[i])
    ensures AddedIds(ms[..i + 1]) ==
            AddedIds(ms[..i]) + (if ms[i].AddChild? then Flatten(ms[i].nodeId, ms[i].node).Keys else {})
    ensures Freshly(ever, ms[..i + 1]) ==> Freshly(ever, ms[..i])
    ensures Freshly(ever, ms[..i + 1]) && now <= ever + AddedIds(ms[..i]) ==> FreshOne(now, ms[i])
  {
    assert ms[..i + 1][..i] == ms[..i] && ms[..i + 1][i] == ms[i];
  }

  // ----- an id that is known already

  /** On the way from the root. */
  ghost predicate Hung(kids: Kids, m: ServerNode)
    decreases |m.path|
  {
    m.parent == null || (|m.parent.path| < |m.path| && m.parent in kids && m in kids[m.parent] && Hung(kids, m.parent))
  }

  /** A node on the tree has two children with one id. */
  ghost predicate TwiceAt(kids: Kids, m: ServerNode, i: nat, j: nat) {
    m in kids && i < j < |kids[m]| && kids[m][i].id == kids[m][j].id && Hung(kids, m)
  }

  ghost predicate HoldsTwice(kids: Kids) {
    exists m, i, j :: m in kids && TwiceAt(kids, m, i, j)
  }

  ghost predicate MoreKids(kids: Kids, kids': Kids) {
    forall m | m in kids :: m in kids' && kids[m] <= kids'[m]
  }

  lemma {:induction false} HungMore(kids: Kids, kids': Kids, m: ServerNode)
    requires Hung(kids, m) && MoreKids(kids, kids')
    ensures Hung(kids', m)
    decreases |m.path|
  {
    if m.parent != null { HungMore(kids, kids', m.parent); }
  }

  lemma TwiceMore(kids: Kids, kids': Kids)
    requires HoldsTwice(kids) && MoreKids(kids, kids')
    ensures HoldsTwice(kids')
  {
    var m, i, j :| m in kids && TwiceAt(kids, m, i, j);
    HungMore(kids, kids', m);
    assert TwiceAt(kids', m, i, j);
  }

  /** The mutation adds, below a node other than the root, a child which that node has already. */
  ghost predicate AddsKnown(view: Nodes, m: Mutation) {
    && m.AddChild? && m.nodeId != 0 && m.nodeId in view
    && m.node.id in view && view[m.node.id].parent == m.nodeId
  }

  /** The first such mutation, after which there are only additions. */
  ghost predicate Clashes(view: Nodes, ever: set<nat>, ms: seq<Mutation>, k: nat) {
    && k < |ms| && Freshly(ever, ms[..k]) && AddsKnown(ReplayAll(view, ms[..k]), ms[k])
    && forall i | k <= i < |ms| :: ms[i].AddChild?
  }

  ghost predicate Clash(view: Nodes, ever: set<nat>, ms: seq<Mutation>, upTo: nat) {
    exists k: nat :: k < upTo && Clashes(view, ever, ms, k)
  }

  ghost predicate HasKid(kids: Kids, m: ServerNode, id: nat) {
    m in kids && Hung(kids, m) && exists i :: 0 <= i < |kids[m]| && kids[m][i].id == id
  }

  lemma {:induction false} OnIsHung(root: ServerNode, all: set<ServerNode>, ever: set<nat>, bound: nat,
                                    at: map<nat, ServerNode>, kids: Kids, dead: set<ServerNode>, id: nat)
    requires World(root, all, ever, bound, at, kids, dead) && id in at
    ensures Hung(kids, at[id])
    decreases id
  {
    ParentOnTree(root, all, ever, bound, at, kids, dead, id);
    if id != 0 { OnIsHung(root, all, ever, bound, at, kids, dead, at[id].parent.id); }
  }

  /** The node such a mutation names is on the tree, and has the child. */
  lemma KnownChild(t: ServerTree, m: Mutation)
    requires t.Valid() && AddsKnown(t.View(), m)
    ensures m.AddChild? && m.nodeId in t.rootNodeMap && t.rootNodeMap[m.nodeId] != t.root
    ensures HasKid(KidsNow(t.all), t.rootNodeMap[m.nodeId], m.node.id)
  {
    ValidMeans(t);
    var kids, dead := KidsNow(t.all), Disposed(t.all);
    WorldMeans(t.root, t.all, t.ever, t.bound, t.at, kids, dead);
    hide World, ServerTree.Valid, ServerTree.Sound, Shape, LiveIn, Hung;
    ParentOnTree(t.root, t.all, t.ever, t.bound, t.at, kids, dead, m.nodeId);
    ParentOnTree(t.root, t.all, t.ever, t.bound, t.at, kids, dead, m.node.id);
    OnIsHung(t.root, t.all, t.ever, t.bound, t.at, kids, dead, m.nodeId);
    var p := t.at[m.nodeId];
    assert t.at[m.node.id] in kids[p];
  }

  /** A new child at the end of one list. */
  ghost predicate Pushed(before: seq<ServerNode>, after: seq<ServerNode>, id: nat) {
    |after| == |before| + 1 && after[..|before|] == before && after[|before|].id == id
  }

  lemma PushedIs(before: seq<ServerNode>, nnod: ServerNode)
    ensures Pushed(before, before + [nnod], nnod.id) && (before + [nnod])[|before|] == nnod
  {
  }

  lemma OneMoreKid(kids: Kids, kids': Kids, qt: ServerNode)
    requires qt in kids && qt in kids' && (kids'[qt] == kids[qt] || exists id :: Pushed(kids[qt], kids'[qt], id))
    requires forall m | m in kids && m != qt :: m in kids' && kids'[m] == kids[m]
    ensures MoreKids(kids, kids')
  {
  }

  lemma KidsSame(kids: Kids)
    ensures MoreKids(kids, kids)
  {
  }

  lemma TwiceNow(kids: Kids, kids': Kids, qt: ServerNode, id: nat)
    requires HasKid(kids, qt, id) && MoreKids(kids, kids') && qt in kids' && Pushed(kids[qt], kids'[qt], id)
    ensures HoldsTwice(kids')
  {
    var i :| 0 <= i < |kids[qt]| && kids[qt][i].id == id;
    HungMore(kids, kids', qt);
    assert kids'[qt][i] == kids'[qt][..|kids[qt]|][i];
    assert TwiceAt(kids', qt, i, |kids[qt]|);
  }

  lemma {:induction false} HungSame(kids: Kids, kids': Kids, m: ServerNode, depth: nat)
    requires Hung(kids, m) && |m.path| <= depth
    requires forall x | x in kids && |x.path| < depth :: x in kids' && kids'[x] == kids[x]
    ensures Hung(kids', m)
    decreases |m.path|
  {
    if m.parent != null { HungSame(kids, kids', m.parent, depth); }
  }

  /** Disposing the last of two children with one id leaves the first where it was. */
  lemma FirstStays(all: set<ServerNode>, kids: Kids, kids': Kids, qt: ServerNode, nod: ServerNode, id: nat,
                   before: seq<ServerNode>)
    requires kids.Keys == all && kids'.Keys == all && nod in all && qt in all && nod.parent == qt && Hung(kids, qt)
    requires nod.path == qt.path + [nod.born] && AfterDispose(all, kids, kids', nod)
    requires kids[qt] == before + [nod] && nod !in before && exists i :: 0 <= i < |before| && before[i].id == id
    ensures HasKid(kids', qt, id)
  {
    RemovedLast(before, nod);
    HungSame(kids, kids', qt, |qt.path|);
  }

  lemma {:induction false} RemovedLast(before: seq<ServerNode>, nod: ServerNode)
    requires nod !in before
    ensures Removed(before + [nod], nod) == before
  {
    var cs, i := before + [nod], |before|;
    assert forall k | 0 <= k < i :: cs[k] == before[k];
    RemovedAt(cs, i);
    assert cs[..i] == before && cs[i + 1..] == [];
  }

  /** Which child of a node an id names, and where it hangs. */
  lemma LastChild(t: ServerTree, qt: ServerNode)
    requires t.Sound() && qt in t.all && qt.children != []
    ensures var c := qt.children[|qt.children| - 1];
            && c in t.all && c.parent == qt && c.path == qt.path + [c.born] && c != t.root
            && c !in qt.children[..|qt.children| - 1]
    ensures KidsNow(t.all).Keys == t.all && KidsNow(t.all)[qt] == qt.children
  {
    assert KidsFine(qt, qt.children, t.all);
    assert qt.children[|qt.children| - 1] in qt.children;
  }

  /** A child that is sent once more, and then deleted: the delete finds only the node that came last.
      The first one is still on the tree, and no mutation can name it any more. */
  method SentAgainThenDeleted(t: ServerTree, parent: nat, data: Proto)
    requires t.Valid() && AddsKnown(t.View(), AddChild(parent, data)) && Tidy(parent, [data])
    modifies t`rootNodeMap, t`all, t`at, t`ever, t`bound, t.all`children, t.all`disposed
    ensures t.Sound() && data.id !in t.rootNodeMap
    ensures exists m | m in t.all :: m.id == parent && HasKid(KidsNow(t.all), m, data.id)
  {
    hide *;
    ghost var kids := KidsNow(t.all);
    KnownChild(t, AddChild(parent, data));
    ValidMeans(t);
    SoundNode(t, parent);
    NowIs(t.all);
    var nod := t.rootNodeMap[parent];
    ghost var before := nod.children;
    KidBefore(kids, nod, data.id);
    var ok := t.AddChild(nod, data);
    PushedMeans(before, nod.children, data.id);
    ghost var kids1 := KidsNow(t.all);
    NowIs(t.all);
    OneMoreKid(kids, kids1, nod);
    HungMore(kids, kids1, nod);
    LastChild(t, nod);
    var last := t.rootNodeMap[data.id];
    SoundNode(t, data.id);
    t.DisposeNode(last);
    FirstStays(t.all, kids1, KidsNow(t.all), nod, last, data.id, before);
  }

  lemma KidBefore(kids: Kids, m: ServerNode, id: nat)
    requires HasKid(kids, m, id)
    ensures m in kids && Hung(kids, m) && exists i :: 0 <= i < |kids[m]| && kids[m][i].id == id
  {
  }

  lemma PushedMeans(before: seq<ServerNode>, after: seq<ServerNode>, id: nat)
    requires Pushed(before, after, id)
    ensures |after| == |before| + 1 && after == before + [after[|before|]] && after[|before|].id == id
    ensures after[..|after| - 1] == before
  {
  }

  /** What an addition has done to the map. */
  ghost predicate MapTook(m: map<nat, ServerNode>, m': map<nat, ServerNode>, ids: set<nat>) {
    m'.Keys == m.Keys + ids && forall id | id in m && id !in ids :: m'[id] == m[id]
  }

  ghost predicate TookSoFar(m: map<nat, ServerNode>, m': map<nat, ServerNode>, parent: nat, data: Proto, i: nat,
                            nnod: ServerNode)
    requires i <= |data.children|
  {
    && MapTook(m, m', AddedSoFar(parent, data, i).Keys)
    && (Tidy(parent, [data]) ==> data.id in m' && m'[data.id] == nnod)
  }

  lemma TookNone(m: map<nat, ServerNode>, parent: nat, data: Proto, nnod: ServerNode)
    ensures TookSoFar(m, m[data.id := nnod], parent, data, 0, nnod)
  {
  }

  lemma EverMore(ever: set<nat>, parent: nat, data: Proto, i: nat)
    requires i < |data.children|
    ensures AddedSoFar(parent, data, i + 1).Keys ==
            AddedSoFar(parent, data, i).Keys + Flatten(data.id, data.children[i]).Keys
  {
    assert data.children[..i + 1] == data.children[..i] + [data.children[i]];
    FlattenAppend(data.id, data.children[..i], data.children[i]);
  }

  lemma TookOne(m: map<nat, ServerNode>, m1: map<nat, ServerNode>, m2: map<nat, ServerNode>, parent: nat, data: Proto,
                i: nat, nnod: ServerNode)
    requires i < |data.children| && TookSoFar(m, m1, parent, data, i, nnod)
    requires MapTook(m1, m2, Flatten(data.id, data.children[i]).Keys)
    ensures TookSoFar(m, m2, parent, data, i + 1, nnod)
  {
    EverMore({}, parent, data, i);
    if Tidy(parent, [data]) {
      TidyOne(parent, data);
      TidyAt(data.id, data.children, i);
    }
  }

  lemma TookAll(m: map<nat, ServerNode>, m': map<nat, ServerNode>, parent: nat, data: Proto, nnod: ServerNode)
    requires TookSoFar(m, m', parent, data, |data.children|, nnod)
    ensures MapTook(m, m', Flatten(parent, data).Keys)
    ensures Tidy(parent, [data]) ==> data.id in m' && m'[data.id] == nnod
  {
    AddedAll(parent, data);
  }

  /** One more mutation, as far as a clash goes. */
  lemma ClashSoFar(view: Nodes, ever: set<nat>, ms: seq<Mutation>, i: nat, kids: Kids, kids': Kids, ok: bool)
    requires i < |ms| && (Clash(view, ever, ms, i) ==> HoldsTwice(kids))
    requires ms[i].AddChild? ==> MoreKids(kids, kids')
    requires Clashes(view, ever, ms, i) ==> HoldsTwice(kids')
    requires Freshly(ever, ms[..i + 1]) ==> ok
    ensures Clash(view, ever, ms, i + 1) ==> HoldsTwice(kids')
    ensures !ok && Clash(view, ever, ms, |ms|) ==> HoldsTwice(kids')
  {
    forall k: nat | Clashes(view, ever, ms, k) && (k <= i || !ok) ensures HoldsTwice(kids') {
      if k < i {
        TwiceMore(kids, kids');
      } else if k > i {
        FreshlyPrefix(ever, ms, i + 1, k);
      }
    }
  }

  lemma {:induction false} FreshlyPrefix(ever: set<nat>, ms: seq<Mutation>, i: nat, k: nat)
    requires i <= k <= |ms| && Freshly(ever, ms[..k])
    ensures Freshly(ever, ms[..i])
    decreases k
  {
    if i < k {
      assert ms[..k][..k - 1] == ms[..k - 1];
      FreshlyPrefix(ever, ms, i, k - 1);
    }
  }

  lemma NotAllFresh(ever: set<nat>, ms: seq<Mutation>, i: nat)
    requires i < |ms|
    ensures Freshly(ever, ms) ==> Freshly(ever, ms[..i + 1])
  {
    assert ms[..|ms|] == ms;
    if Freshly(ever, ms) { FreshlyPrefix(ever, ms, i + 1, |ms|); }
  }

  lemma ClashNow(view: Nodes, ever: set<nat>, ms: seq<Mutation>, i: nat)
    requires i < |ms|
    ensures Clashes(view, ever, ms, i) ==> Freshly(ever, ms[..i]) && AddsKnown(ReplayAll(view, ms[..i]), ms[i])
  {
  }

  /** The new node, and the subtrees of its first `i` children. */
  ghost function AddedSoFar(parent: nat, data: Proto, i: nat): Nodes
    requires i <= |data.children|
  {
    FlattenAll(data.id, data.children[..i])[data.id := QN(parent, data.key)]
  }

  lemma AddStarts(parent: nat, data: Proto, ever: set<nat>)
    requires Tidy(parent, [data]) && Flatten(parent, data).Keys !! ever
    ensures parent < data.id && data.id !in ever
  {
  }

  lemma AddedNone(view: Nodes, ever: set<nat>, parent: nat, data: Proto)
    ensures AddedSoFar(parent, data, 0) == map[data.id := QN(parent, data.key)]
    ensures view[data.id := QN(parent, data.key)] == view + AddedSoFar(parent, data, 0)
    ensures ever + {data.id} == ever + AddedSoFar(parent, data, 0).Keys
  {
  }

  lemma AddOne(view: Nodes, ever: set<nat>, parent: nat, data: Proto, i: nat)
    requires Tidy(parent, [data]) && Flatten(parent, data).Keys !! ever && i < |data.children|
    ensures var f := Flatten(data.id, data.children[i]);
            && Tidy(data.id, [data.children[i]]) && f.Keys !! ever + AddedSoFar(parent, data, i).Keys
            && (view + AddedSoFar(parent, data, i)) + f == view + AddedSoFar(parent, data, i + 1)
            && ever + AddedSoFar(parent, data, i).Keys + f.Keys == ever + AddedSoFar(parent, data, i + 1).Keys
  {
    TidyOne(parent, data);
    TidyAt(data.id, data.children, i);
    var a, all := FlattenAll(data.id, data.children[..i]), FlattenAll(data.id, data.children);
    assert Flatten(parent, data) == all[data.id := QN(parent, data.key)];
    hide FlattenAll, Tidy, Flatten;
    JoinMaps(view, ever, a, Flatten(data.id, data.children[i]), data.id, QN(parent, data.key));
  }

  lemma JoinMaps(view: Nodes, ever: set<nat>, a: Nodes, f: Nodes, id: nat, q: QN)
    requires id !in f && f.Keys !! a.Keys && f.Keys !! ever
    ensures (view + a[id := q]) + f == view + (a + f)[id := q]
    ensures ever + a[id := q].Keys + f.Keys == ever + (a + f)[id := q].Keys
    ensures f.Keys !! ever + a[id := q].Keys
  {
  }

  lemma AddedAll(parent: nat, data: Proto)
    ensures AddedSoFar(parent, data, |data.children|) == Flatten(parent, data)
  {
    assert data.children[..|data.children|] == data.children;
  }

  lemma DeadAre(all: set<ServerNode>)
    ensures Disposed(all) <= all && forall m | m in all :: m.disposed <==> m in Disposed(all)
  {
  }

  lemma NothingGone(m: map<nat, ServerNode>, dead: set<ServerNode>)
    ensures m - IdsOf({}) == m && dead + {} == dead
  {
  }

  lemma NowIs(s: set<ServerNode>)
    ensures KidsNow(s).Keys == s && forall m | m in s :: KidsNow(s)[m] == m.children
  {
  }

  lemma GoneMore(m: map<nat, ServerNode>, a: set<ServerNode>, b: set<ServerNode>, dead: set<ServerNode>)
    ensures m - IdsOf(a) - IdsOf(b) == m - IdsOf(a + b) && dead + a + b == dead + (a + b)
  {
  }

  /** After `k` rounds of the loop in Dispose. */
  ghost predicate Round(all: set<ServerNode>, qt: ServerNode, kids: Kids, bound: nat, cs: seq<ServerNode>, k: int,
                        gone: set<ServerNode>, deadBefore: set<ServerNode>)
    reads all, qt
  {
    && 0 <= k && qt.children == AtRound(cs, k) && Shape(all) && LiveIn(Below(all, qt))
    && gone == DoomedKids(kids, bound, qt, cs, if 2 * k <= |cs| then 2 * k else |cs|)
    && Disposed(all) == deadBefore + {qt} + gone && Untouched(all, cs, 2 * k, kids)
  }

  lemma RoundMeans(all: set<ServerNode>, qt: ServerNode, kids: Kids, bound: nat, cs: seq<ServerNode>, k: nat,
                   gone: set<ServerNode>, deadBefore: set<ServerNode>)
    requires Round(all, qt, kids, bound, cs, k, gone, deadBefore)
    ensures qt.children == AtRound(cs, k) && Shape(all) && LiveIn(Below(all, qt))
    ensures gone == DoomedKids(kids, bound, qt, cs, if 2 * k <= |cs| then 2 * k else |cs|)
    ensures Disposed(all) == deadBefore + {qt} + gone && Untouched(all, cs, 2 * k, kids)
  {
  }

  lemma RoundFrom(all: set<ServerNode>, qt: ServerNode, kids: Kids, bound: nat, cs: seq<ServerNode>, k: nat,
                  gone: set<ServerNode>, deadBefore: set<ServerNode>)
    requires qt.children == AtRound(cs, k) && Shape(all) && LiveIn(Below(all, qt))
    requires gone == DoomedKids(kids, bound, qt, cs, if 2 * k <= |cs| then 2 * k else |cs|)
    requires Disposed(all) == deadBefore + {qt} + gone && Untouched(all, cs, 2 * k, kids)
    ensures Round(all, qt, kids, bound, cs, k, gone, deadBefore)
  {
  }

  lemma DisposeStarts(all: set<ServerNode>, qt: ServerNode, kids: Kids, bound: nat)
    requires Shape(all) && qt in all && KidsBelow(all, qt, kids, bound) && AsWere(Below(all, qt), kids)
    requires LiveIn(Below(all, qt))
    requires qt.parent != null ==> qt.parent in all && qt.path == qt.parent.path + [qt.born]
    ensures qt in Below(all, qt) && qt in kids && kids[qt] == qt.children && NoRepeats(qt.children)
    ensures qt.parent != null ==> qt.parent !in Below(all, qt)
    ensures Untouched(all, qt.children, 0, kids) && LiveKids(Below(all, qt), kids, Disposed(all))
    ensures |qt.path| <= bound
  {
    assert qt in Below(all, qt);
    assert KidsFine(qt, kids[qt], all);
    forall i | 0 <= i < |qt.children| ensures AsWere(Below(all, qt.children[i]), kids) {
      BelowKid(all, qt, kids, bound, qt.children[i]);
    }
  }

  lemma LoopStarts(all: set<ServerNode>, qt: ServerNode, cs: seq<ServerNode>, kids: Kids, bound: nat,
                   dead: set<ServerNode>)
    requires qt in all && KidsBelow(all, qt, kids, bound) && AsWere(Below(all, qt), kids)
    requires LiveKids(Below(all, qt), kids, dead)
    requires forall m | m in all :: m.disposed <==> m in dead || m == qt
    requires dead <= all
    ensures LiveIn(Below(all, qt)) && Disposed(all) == dead + {qt} + {} && AtRound(cs, 0) == cs
    ensures DoomedKids(kids, bound, qt, cs, 0) == {}
  {
    forall m, c | m in Below(all, qt) && c in m.children ensures !c.disposed {
      BelowSelf(all, qt, kids, bound, m, c);
    }
    assert cs[..0] == [] && cs[0..] == cs;
  }

  lemma BelowSelf(all: set<ServerNode>, qt: ServerNode, kids: Kids, bound: nat, m: ServerNode, c: ServerNode)
    requires KidsBelow(all, qt, kids, bound) && m in Below(all, qt) && c in kids[m]
    ensures c != qt && c in all
  {
    assert KidsFine(m, kids[m], all);
  }

  lemma RoundReady(all: set<ServerNode>, qt: ServerNode, kids: Kids, bound: nat, cs: seq<ServerNode>, k: nat,
                   child: ServerNode,
                   now: Kids, dead: set<ServerNode>)
    requires 2 * k < |cs| && child == cs[2 * k] && child in qt.children && qt in all && qt in kids && kids[qt] == cs
    requires KidsBelow(all, qt, kids, bound) && LiveIn(Below(all, qt)) && Untouched(all, cs, 2 * k, kids)
    requires now == KidsNow(all) && dead == Disposed(all)
    ensures child in all && child.parent == qt && child.path == qt.path + [child.born]
    ensures |qt.path| < |child.path| <= bound
    ensures Below(all, child) <= Below(all, qt) - {qt} && KidsBelow(all, child, kids, bound)
    ensures AsWere(Below(all, child), kids)
    ensures LiveIn(Below(all, child)) && !child.disposed && LiveKids(Below(all, qt), now, dead)
    ensures qt in Below(all, qt) && (Shape(all) ==> NoRepeats(now[qt]))
    ensures forall i | 2 * k <= i < |cs| :: forall m | m in Below(all, cs[i]) :: m in kids && now[m] == kids[m]
  {
    assert child in kids[qt];
    BelowKid(all, qt, kids, bound, child);
    assert qt in Below(all, qt);
  }

  lemma FartherOn(all: set<ServerNode>, cs: seq<ServerNode>, a: nat, b: nat, kids: Kids)
    requires Untouched(all, cs, a, kids) && a <= b
    ensures Untouched(all, cs, b, kids)
  {
  }

  lemma RoundDone(all: set<ServerNode>, qt: ServerNode, kids: Kids, bound: nat, cs: seq<ServerNode>, k: nat,
                  child: ServerNode,
                  now: Kids, dead: set<ServerNode>, g: set<ServerNode>)
    requires 2 * k < |cs| && child == cs[2 * k] && child in all && qt in all && qt in kids && kids[qt] == cs
    requires NoRepeats(cs)
    requires KidsBelow(all, qt, kids, bound) && Shape(all) && now.Keys == all
    requires now[qt] == AtRound(cs, k) && NoRepeats(now[qt]) && qt.children == Removed(now[qt], child)
    requires forall m | m in all && m !in Below(all, child) && m != qt :: m.children == now[m]
    requires LiveKids(Below(all, qt), now, dead) && LiveIn(Below(all, child)) && Disposed(all) == dead + g
    requires g == Doomed(kids, bound, child)
    requires forall i | 2 * k <= i < |cs| :: forall m | m in Below(all, cs[i]) :: m in kids && now[m] == kids[m]
    ensures qt.children == AtRound(cs, k + 1) && LiveIn(Below(all, qt)) && Untouched(all, cs, 2 * (k + 1), kids)
    ensures DoomedKids(kids, bound, qt, cs, if 2 * (k + 1) <= |cs| then 2 * (k + 1) else |cs|) ==
            DoomedKids(kids, bound, qt, cs, 2 * k) + g
  {
    RoundStep(cs, k);
    assert child in kids[qt];
    BelowKid(all, qt, kids, bound, child);
    DoomedBelow(all, child, kids, bound);
    DoomedNext(kids, bound, qt, cs, k);
    RoundLive(all, qt, child, now, dead, g);
    forall i | 2 * (k + 1) <= i < |cs| ensures AsWere(Below(all, cs[i]), kids) {
      assert cs[i] in kids[qt] && cs[i] != child;
      BelowKid(all, qt, kids, bound, cs[i]);
      Disjoint(all, qt, child, cs[i]);
      RestAsWas(all, qt, child, cs[i], now, kids);
    }
  }

  lemma RestAsWas(all: set<ServerNode>, qt: ServerNode, child: ServerNode, d: ServerNode, now: Kids, kids: Kids)
    requires Below(all, child) !! Below(all, d) && qt !in Below(all, d) && now.Keys == all
    requires forall m | m in all && m !in Below(all, child) && m != qt :: m.children == now[m]
    requires forall m | m in Below(all, d) :: m in kids && now[m] == kids[m]
    ensures AsWere(Below(all, d), kids)
  {
  }

  lemma RoundLive(all: set<ServerNode>, qt: ServerNode, child: ServerNode, now: Kids, dead: set<ServerNode>,
                  g: set<ServerNode>)
    requires Shape(all) && child in all && qt in all && child.parent == qt && child.path == qt.path + [child.born]
    requires now.Keys == all
    requires NoRepeats(now[qt]) && qt.children == Removed(now[qt], child) && qt !in Below(all, child)
    requires g <= Below(all, child)
    requires forall m | m in all && m !in Below(all, child) && m != qt :: m.children == now[m]
    requires LiveKids(Below(all, qt), now, dead) && LiveIn(Below(all, child)) && Disposed(all) == dead + g
    ensures LiveIn(Below(all, qt))
  {
    forall m, c | m in Below(all, qt) && c in m.children ensures !c.disposed {
      assert KidsFine(m, m.children, all);
      if m !in Below(all, child) {
        LiveElsewhere(all, qt, child, now, m, c);
        assert c in Disposed(all) <==> c.disposed;
      }
    }
  }

  /** A child outside a disposed subtree was there before. */
  lemma LiveElsewhere(all: set<ServerNode>, qt: ServerNode, child: ServerNode, now: Kids, m: ServerNode, c: ServerNode)
    requires Shape(all) && m in all && c in m.children && child in all && child.path == qt.path + [child.born]
    requires m !in Below(all, child)
    requires qt in now && m in now && NoRepeats(now[qt])
    requires m.children == if m == qt then Removed(now[qt], child) else now[m]
    requires m == child.parent ==> m == qt
    ensures c in now[m] && c !in Below(all, child)
  {
    StillLive(all, qt, child, m, c);
    RemovedFacts(now[qt], child);
    assert KidsFine(m, m.children, all);
  }

  lemma Disjoint(all: set<ServerNode>, qt: ServerNode, c: ServerNode, d: ServerNode)
    requires BornApart(all) && c in all && d in all && c != d && c.path == qt.path + [c.born]
    requires d.path == qt.path + [d.born]
    ensures Below(all, c) !! Below(all, d)
  {
    forall m | m in Below(all, c) ensures m !in Below(all, d) {
      assert m.path[|qt.path|] == c.born;
      assert c.born != d.born;
    }
  }

  lemma StillLive(all: set<ServerNode>, qt: ServerNode, child: ServerNode, m: ServerNode, c: ServerNode)
    requires Shape(all) && m in all && c in m.children && child in all && child.path == qt.path + [child.born]
    ensures c in Below(all, child) ==> c == child || m in Below(all, child)
  {
    assert KidsFine(m, m.children, all);
    if child.path <= c.path {
      if |child.path| == |c.path| {
        assert c.path == child.path;
        assert c.born == c.path[|m.path|] && child.born == child.path[|qt.path|];
      } else {
        assert child.path == c.path[..|child.path|] == m.path[..|child.path|];
      }
    }
  }

  lemma BeforeEnd(all: set<ServerNode>, qt: ServerNode, now: Kids, dead: set<ServerNode>)
    requires Shape(all) && LiveIn(Below(all, qt)) && now == KidsNow(all) && dead == Disposed(all)
    ensures LiveKids(Below(all, qt), now, dead) && BornApart(all) && forall m | m in all :: KidsFine(m, now[m], all)
  {
    forall m, c | m in Below(all, qt) && m in now && c in now[m] ensures c !in dead { }
  }

  lemma DisposeEnds(all: set<ServerNode>, qt: ServerNode, kids: Kids, bound: nat, now: Kids, dead: set<ServerNode>,
                    deadBefore: set<ServerNode>,
                    map0: map<nat, ServerNode>, was: set<ServerNode>, cs: seq<ServerNode>)
    requires qt in all && now.Keys == all && BornApart(all) && (forall m | m in all :: KidsFine(m, now[m], all))
    requires LiveKids(Below(all, qt), now, dead) && Disposed(all) == dead == deadBefore + {qt} + was
    requires qt.children == []
    requires qt.parent != null ==>
               qt.parent != qt && qt.parent in all && qt.parent.children == Removed(now[qt.parent], qt)
    requires forall m | m in all && m != qt && m != qt.parent :: m.children == now[m]
    requires qt in kids && kids[qt] == cs && was == DoomedKids(kids, bound, qt, cs, |cs|)
    requires qt.parent != null ==> qt.parent !in Below(all, qt)
    ensures Shape(all) && LiveIn(Below(all, qt)) && Disposed(all) == deadBefore + (was + {qt})
    ensures was + {qt} == Doomed(kids, bound, qt) && map0 - IdsOf(was) - {qt.id} == map0 - IdsOf(was + {qt})
  {
    hide *;
    EndsShaped(all, qt, now);
    EndsLive(all, qt, now, dead);
    DoomedAtLast(kids, bound, qt);
    GoneLast(map0, was, qt);
  }

  lemma DoomedAtLast(kids: Kids, bound: nat, qt: ServerNode)
    requires qt in kids
    ensures Doomed(kids, bound, qt) == {qt} + DoomedKids(kids, bound, qt, kids[qt], |kids[qt]|)
  {
  }

  lemma GoneLast(m: map<nat, ServerNode>, was: set<ServerNode>, qt: ServerNode)
    ensures m - IdsOf(was) - {qt.id} == m - IdsOf(was + {qt})
  {
  }

  lemma EndsShaped(all: set<ServerNode>, qt: ServerNode, now: Kids)
    requires qt in all && now.Keys == all && BornApart(all) && (forall m | m in all :: KidsFine(m, now[m], all))
    requires qt.children == []
    requires qt.parent != null ==>
               qt.parent != qt && qt.parent in all && qt.parent.children == Removed(now[qt.parent], qt)
    requires forall m | m in all && m != qt && m != qt.parent :: m.children == now[m]
    ensures Shape(all)
  {
    forall m | m in all ensures KidsFine(m, m.children, all) {
      assert KidsFine(m, now[m], all);
      if m == qt.parent { RemovedFacts(now[m], qt); }
    }
  }

  lemma EndsLive(all: set<ServerNode>, qt: ServerNode, now: Kids, dead: set<ServerNode>)
    requires now.Keys == all && Shape(all) && LiveKids(Below(all, qt), now, dead) && Disposed(all) == dead
    requires qt.children == [] && (qt.parent != null ==> qt.parent !in Below(all, qt))
    requires forall m | m in all && m != qt && m != qt.parent :: m.children == now[m]
    ensures LiveIn(Below(all, qt))
  {
    forall m, c | m in Below(all, qt) && c in m.children ensures !c.disposed {
      assert KidsFine(m, m.children, all) && c in all;
      assert c !in dead;
      assert c.disposed ==> c in Disposed(all);
    }
  }

  /** Which children a Dispose reaches: exactly those at even places. The others stay in the map. */
  lemma EvenChildrenOnly(all: set<ServerNode>, n: ServerNode, kids: Kids, bound: nat, i: nat)
    requires n in all && KidsBelow(all, n, kids, bound) && BornApart(all) && n in kids && i < |kids[n]|
    ensures kids[n][i] in Doomed(kids, bound, n) <==> i % 2 == 0
  {
    var cs := kids[n];
    var c := cs[i];
    assert c in cs;
    BelowKid(all, n, kids, bound, c);
    assert n in Below(all, n) && c in Below(all, c);
    if i % 2 == 0 {
      DoomedBelow(all, c, kids, bound);
    } else if c in DoomedKids(kids, bound, n, cs, |cs|) {
      var j :| 0 <= j < |cs| && j % 2 == 0 && |n.path| < |cs[j].path| <= bound && c in Doomed(kids, bound, cs[j]);
      assert cs[j] in cs && KidsFine(n, cs, all);
      BelowKid(all, n, kids, bound, cs[j]);
      DoomedBelow(all, cs[j], kids, bound);
      Disjoint(all, n, cs[j], c);
      assert false;
    }
  }

  // ----- what disposing a node does to the tree

  ghost predicate Forest(root: ServerNode, all: set<ServerNode>, ever: set<nat>, bound: nat, kids: Kids) {
    && BornApart(all) && kids.Keys == all && (forall m | m in all :: KidsFine(m, kids[m], all))
    && AllOk(root, all, ever, bound)
  }

  ghost predicate World(root: ServerNode, all: set<ServerNode>, ever: set<nat>, bound: nat, at: map<nat, ServerNode>,
                        kids: Kids, dead: set<ServerNode>)
  {
    Forest(root, all, ever, bound, kids) && IdsUnique(all) && Reached(root, all, at, kids, dead)
  }

  lemma ParentOnTree(root: ServerNode, all: set<ServerNode>, ever: set<nat>, bound: nat, at: map<nat, ServerNode>,
                     kids: Kids,
                     dead: set<ServerNode>, id: nat)
    requires World(root, all, ever, bound, at, kids, dead) && id in at
    ensures at[id] in all && at[id].id == id && (id == 0 <==> at[id] == root) && (id == 0 <==> at[id].parent == null)
    ensures id == 0 ==> at[id].path == []
    ensures id != 0 ==>
      && at[id].parent != null && at[id].parent.id < id && at[id].parent.id in at
      && at[at[id].parent.id] == at[id].parent
      && at[id].path == at[id].parent.path + [at[id].born] && at[id] in kids[at[id].parent]
  {
    if id != 0 { assert Hangs(at, kids, at[id]); }
  }

  lemma PathSnoc(a: QPath, p: QPath, id: nat)
    ensures a <= p + [id] <==> a <= p || a == p + [id]
  {
    if a <= p + [id] && a != p + [id] { assert a == (p + [id])[..|a|] == p[..|a|]; }
    if a <= p { assert a == (p + [id])[..|a|]; }
  }

  /** On the tree, being below a node is descending from its id. */
  lemma {:induction false} BelowIsDescends(root: ServerNode, all: set<ServerNode>, ever: set<nat>, bound: nat,
                                           at: map<nat, ServerNode>, kids: Kids,
                                          dead: set<ServerNode>, nod: ServerNode, id: nat)
    requires World(root, all, ever, bound, at, kids, dead) && id in at && nod in all && nod != root
    ensures nod.path <= at[id].path <==> nod.id in at && Descends(ViewOf(at), id, nod.id)
    decreases id
  {
    hide *;
    ParentOnTree(root, all, ever, bound, at, kids, dead, id);
    NodPath(root, all, ever, bound, at, kids, dead, nod);
    if id == 0 {
      DescendsNot(ViewOf(at), nod.id);
    } else {
      var up := at[id].parent;
      BelowIsDescends(root, all, ever, bound, at, kids, dead, nod, up.id);
      PathSnoc(nod.path, up.path, at[id].born);
      SameNode(root, all, ever, bound, at, kids, dead, nod, id);
      DescendsUp(at, id, nod.id);
    }
  }

  lemma NodPath(root: ServerNode, all: set<ServerNode>, ever: set<nat>, bound: nat, at: map<nat, ServerNode>,
                kids: Kids, dead: set<ServerNode>, nod: ServerNode)
    requires World(root, all, ever, bound, at, kids, dead) && nod in all && nod != root
    ensures nod.path != [] && nod.path[|nod.path| - 1] == nod.born && (nod.id in at ==> nod.id != 0)
  {
    if nod.id in at { ParentOnTree(root, all, ever, bound, at, kids, dead, nod.id); assert at[nod.id] == nod; }
  }

  lemma SameNode(root: ServerNode, all: set<ServerNode>, ever: set<nat>, bound: nat, at: map<nat, ServerNode>,
                 kids: Kids, dead: set<ServerNode>, nod: ServerNode, id: nat)
    requires World(root, all, ever, bound, at, kids, dead) && nod in all && nod != root && id in at && id != 0
    ensures nod.path == at[id].path <==> nod.id == id
  {
    ParentOnTree(root, all, ever, bound, at, kids, dead, id);
    NodPath(root, all, ever, bound, at, kids, dead, nod);
    assert at[id].path[|at[id].path| - 1] == at[id].born;
  }

  lemma DescendsNot(nodes: Nodes, anc: nat)
    ensures Descends(nodes, 0, anc) ==> anc == 0
  {
  }

  lemma DescendsUp(at: map<nat, ServerNode>, id: nat, anc: nat)
    requires id in at && id != 0 && at[id].parent != null && at[id].parent.id < id
    ensures Descends(ViewOf(at), id, anc) <==> id == anc || Descends(ViewOf(at), at[id].parent.id, anc)
  {
  }

  ghost function WithoutBelow(at: map<nat, ServerNode>, nod: ServerNode): map<nat, ServerNode> {
    map id | id in at && !(nod.path <= at[id].path) :: at[id]
  }

  lemma ViewDisposed(root: ServerNode, all: set<ServerNode>, ever: set<nat>, bound: nat, at: map<nat, ServerNode>,
                     kids: Kids,
                     dead: set<ServerNode>, nod: ServerNode)
    requires World(root, all, ever, bound, at, kids, dead) && nod in all && nod != root
    ensures ViewOf(WithoutBelow(at, nod)) == Replay(ViewOf(at), Delete(nod.id))
  {
    hide *;
    forall id | id in at ensures nod.path <= at[id].path <==> nod.id in at && Descends(ViewOf(at), id, nod.id) {
      BelowIsDescends(root, all, ever, bound, at, kids, dead, nod, id);
    }
    NodAt(root, all, ever, bound, at, kids, dead, nod);
    ViewSame(at, nod);
  }

  lemma NodAt(root: ServerNode, all: set<ServerNode>, ever: set<nat>, bound: nat, at: map<nat, ServerNode>, kids: Kids,
              dead: set<ServerNode>, nod: ServerNode)
    requires World(root, all, ever, bound, at, kids, dead) && nod in all && nod != root
    ensures nod.id in at <==> nod.id in ViewOf(at)
  {
    if nod.id in at { ParentOnTree(root, all, ever, bound, at, kids, dead, nod.id); assert at[nod.id] == nod; }
  }

  lemma ViewSame(at: map<nat, ServerNode>, nod: ServerNode)
    requires forall id | id in at :: nod.path <= at[id].path <==> nod.id in at && Descends(ViewOf(at), id, nod.id)
    requires nod.id in at <==> nod.id in ViewOf(at)
    ensures ViewOf(WithoutBelow(at, nod)) == Replay(ViewOf(at), Delete(nod.id))
  {
    hide Descends;
    var a, b := ViewOf(WithoutBelow(at, nod)), Replay(ViewOf(at), Delete(nod.id));
    forall id | id in at ensures id in a <==> id in b { }
  }

  /** The children lists after a node was disposed, as far as they matter. */
  ghost predicate AfterDispose(all: set<ServerNode>, kids: Kids, kids': Kids, nod: ServerNode)
    requires kids.Keys == all && kids'.Keys == all && nod in all
  {
    && (forall m | m in all && m !in Below(all, nod) && m != nod.parent :: kids'[m] == kids[m])
    && (nod.parent != null ==> nod.parent in all && kids'[nod.parent] == Removed(kids[nod.parent], nod))
  }

  lemma DisposedSo(all: set<ServerNode>, kids: Kids, kids': Kids, nod: ServerNode)
    requires kids.Keys == all && kids'.Keys == all && nod in all && nod.parent != null && nod.parent in all
    requires forall m | m in all && m !in Below(all, nod) && m != nod.parent :: kids'[m] == kids[m]
    requires kids'[nod.parent] == Removed(kids[nod.parent], nod)
    ensures AfterDispose(all, kids, kids', nod)
  {
  }

  lemma KidAfter(all: set<ServerNode>, kids: Kids, kids': Kids, nod: ServerNode, m: ServerNode, c: ServerNode)
    requires kids.Keys == all && kids'.Keys == all && nod in all && AfterDispose(all, kids, kids', nod)
    requires BornApart(all)
    requires (forall x | x in all :: KidsFine(x, kids[x], all)) && m in all && m !in Below(all, nod)
    requires nod.parent != null && nod.path == nod.parent.path + [nod.born]
    ensures c in kids'[m] <==> c in kids[m] && c !in Below(all, nod)
  {
    assert KidsFine(m, kids[m], all);
    RemovedFacts(kids[m], nod);
    if c in kids[m] {
      PathSnoc(nod.path, m.path, c.born);
      if nod.path == m.path + [c.born] {
        assert nod.born == (m.path + [c.born])[|m.path|];
        assert c == nod;
      }
    }
    assert nod in Below(all, nod);
    assert nod in kids[m] ==> m == nod.parent;
  }

  lemma ReachedAfter(root: ServerNode, all: set<ServerNode>, ever: set<nat>, bound: nat, at: map<nat, ServerNode>,
                     kids: Kids,
                     dead: set<ServerNode>, nod: ServerNode, kids': Kids, gone: set<ServerNode>)
    requires World(root, all, ever, bound, at, kids, dead) && nod in all && nod != root && kids'.Keys == all
    requires AfterDispose(all, kids, kids', nod) && gone <= Below(all, nod)
    ensures Reached(root, all, WithoutBelow(at, nod), kids', dead + gone)
  {
    var at' := WithoutBelow(at, nod);
    assert nod.path != [];
    forall id | id in at' ensures KidsOn(at', kids'[at'[id]]) && (id != 0 ==> Hangs(at', kids', at'[id])) {
      ParentOnTree(root, all, ever, bound, at, kids, dead, id);
      assert KidsOn(at, kids[at[id]]);
      forall c | c in kids'[at[id]] ensures c.id in at' && at'[c.id] == c {
        KidAfter(all, kids, kids', nod, at[id], c);
        assert KidsFine(at[id], kids[at[id]], all);
      }
      if id != 0 {
        var up := at[id].parent;
        assert Hangs(at, kids, at[id]);
        PathSnoc(nod.path, up.path, at[id].born);
        KidAfter(all, kids, kids', nod, up, at[id]);
      }
    }
  }

  lemma MapAfter(all: set<ServerNode>, at: map<nat, ServerNode>, m: map<nat, ServerNode>, dead: set<ServerNode>,
                 nod: ServerNode, gone: set<ServerNode>)
    requires MapOk(all, at, m, dead) && IdsUnique(all) && gone <= Below(all, nod)
    ensures MapOk(all, WithoutBelow(at, nod), m - IdsOf(gone), dead + gone)
  {
    forall id | id in WithoutBelow(at, nod) ensures id in m - IdsOf(gone) {
      assert at[id] !in gone;
      IdGone(all, gone, m[id]);
    }
  }

  lemma IdGone(all: set<ServerNode>, gone: set<ServerNode>, n: ServerNode)
    requires IdsUnique(all) && gone <= all && n in all
    ensures n.id in IdsOf(gone) ==> n in gone
  {
    if n.id in IdsOf(gone) {
      var x :| x in gone && x.id == n.id;
      assert x == n;
    }
  }

  lemma SoundMeans(t: ServerTree)
    ensures t.Sound() <==>
      && Shape(t.all) && LiveIn(t.all) && Forest(t.root, t.all, t.ever, t.bound, KidsNow(t.all))
      && MapAlive(t.all, t.rootNodeMap, Disposed(t.all))
  {
  }

  lemma ValidMeans(t: ServerTree)
    ensures t.Valid() <==>
      && t.Sound() && World(t.root, t.all, t.ever, t.bound, t.at, KidsNow(t.all), Disposed(t.all))
      && MapOk(t.all, t.at, t.rootNodeMap, Disposed(t.all))
    ensures t.View() == ViewOf(t.at)
  {
  }

  lemma WorldFrom(root: ServerNode, all: set<ServerNode>, ever: set<nat>, bound: nat, at: map<nat, ServerNode>,
                  kids: Kids, dead: set<ServerNode>)
    requires Forest(root, all, ever, bound, kids) && IdsUnique(all) && Reached(root, all, at, kids, dead)
    ensures World(root, all, ever, bound, at, kids, dead)
  {
  }

  lemma DisposeReady(t: ServerTree, nod: ServerNode)
    requires t.Sound() && nod in t.all && nod != t.root
    ensures KidsBelow(t.all, nod, KidsNow(t.all), t.bound) && AsWere(Below(t.all, nod), KidsNow(t.all))
    ensures LiveIn(Below(t.all, nod))
    ensures nod.parent != null && nod.parent in t.all && nod.path == nod.parent.path + [nod.born]
    ensures nod.parent !in Below(t.all, nod)
    ensures LiveKids(t.all, KidsNow(t.all), Disposed(t.all)) && Below(t.all, nod) <= t.all
    ensures KidsNow(t.all).Keys == t.all && forall m | m in t.all :: KidsNow(t.all)[m] == m.children
  {
  }

  lemma ForestAfter(root: ServerNode, all: set<ServerNode>, ever: set<nat>, bound: nat, kids: Kids,
                    dead: set<ServerNode>, nod: ServerNode, gone: set<ServerNode>)
    requires Forest(root, all, ever, bound, kids) && nod in all && nod != root && gone <= Below(all, nod)
    requires Shape(all) && LiveIn(Below(all, nod)) && Disposed(all) == dead + gone && LiveKids(all, kids, dead)
    requires AfterDispose(all, kids, KidsNow(all), nod)
    ensures Forest(root, all, ever, bound, KidsNow(all)) && LiveIn(all)
  {
    forall m, c | m in all && c in m.children ensures !c.disposed {
      if m !in Below(all, nod) {
        KidAfter(all, kids, KidsNow(all), nod, m, c);
        assert KidsFine(m, m.children, all) && c in kids[m];
        assert c in Disposed(all) <==> c.disposed;
      }
    }
  }

  /** The tree without a subtree, where no id was sent twice. */
  lemma ValidAfter(root: ServerNode, all: set<ServerNode>, ever: set<nat>, bound: nat, at: map<nat, ServerNode>,
                   kids: Kids, dead: set<ServerNode>, m: map<nat, ServerNode>, nod: ServerNode, gone: set<ServerNode>,
                   kids': Kids)
    requires World(root, all, ever, bound, at, kids, dead) && MapOk(all, at, m, dead) && nod in all && nod != root
    requires Forest(root, all, ever, bound, kids') && kids'.Keys == all && gone <= Below(all, nod)
    requires kids.Keys == all && AfterDispose(all, kids, kids', nod)
    ensures World(root, all, ever, bound, WithoutBelow(at, nod), kids', dead + gone)
    ensures MapOk(all, WithoutBelow(at, nod), m - IdsOf(gone), dead + gone)
    ensures ViewOf(WithoutBelow(at, nod)) == Replay(ViewOf(at), Delete(nod.id))
  {
    hide *;
    WorldMeans(root, all, ever, bound, at, kids, dead);
    ReachedAfter(root, all, ever, bound, at, kids, dead, nod, kids', gone);
    MapAfter(all, at, m, dead, nod, gone);
    ViewDisposed(root, all, ever, bound, at, kids, dead, nod);
    WorldFrom(root, all, ever, bound, WithoutBelow(at, nod), kids', dead + gone);
  }

  lemma AliveAfter(all: set<ServerNode>, m: map<nat, ServerNode>, dead: set<ServerNode>, gone: set<ServerNode>)
    requires MapAlive(all, m, dead)
    ensures MapAlive(all, m - IdsOf(gone), dead + gone)
  {
  }

  lemma GoneFromMap(m: map<nat, ServerNode>, gone: set<ServerNode>, nod: ServerNode)
    requires nod in gone
    ensures nod.id !in m - IdsOf(gone)
  {
  }

  // ----- what a new node does to the tree

  ghost predicate On(at: map<nat, ServerNode>, m: ServerNode) {
    m.id in at && at[m.id] == m
  }

  ghost function Grown(at: map<nat, ServerNode>, qt: ServerNode, nnod: ServerNode): map<nat, ServerNode> {
    if On(at, qt) then at[nnod.id := nnod] else at
  }

  lemma GrownOn(at: map<nat, ServerNode>, qt: ServerNode, nnod: ServerNode)
    requires nnod.id !in at
    ensures On(Grown(at, qt, nnod), nnod) == On(at, qt)
    ensures forall m: ServerNode | m.id != nnod.id :: On(Grown(at, qt, nnod), m) == On(at, m)
  {
  }

  ghost function KidsPushed(kids: Kids, qt: ServerNode, nnod: ServerNode): Kids
    requires qt in kids
  {
    kids[qt := kids[qt] + [nnod]][nnod := []]
  }

  lemma ValidLive(all: set<ServerNode>, kids: Kids, dead: set<ServerNode>)
    requires Shape(all) && LiveIn(all) && kids == KidsNow(all) && dead == Disposed(all)
    ensures LiveKids(all, kids, dead)
  {
  }

  lemma WorldMeans(root: ServerNode, all: set<ServerNode>, ever: set<nat>, bound: nat, at: map<nat, ServerNode>,
                   kids: Kids, dead: set<ServerNode>)
    requires World(root, all, ever, bound, at, kids, dead)
    ensures Forest(root, all, ever, bound, kids) && IdsUnique(all)
    ensures kids.Keys == all && root in all && root.id == 0 && (forall m | m in all :: m.id in ever)
    ensures (forall id | id in at :: at[id] in all && at[id].id == id)
    ensures at.Keys <= ever
  {
    forall id | id in at ensures id in ever { assert at[id] in all; }
  }

  lemma ForestMeans(root: ServerNode, all: set<ServerNode>, ever: set<nat>, bound: nat, kids: Kids)
    requires Forest(root, all, ever, bound, kids)
    ensures kids.Keys == all && root in all && root.id == 0
  {
  }

  lemma MintKids(all: set<ServerNode>, kids: Kids, qt: ServerNode, nnod: ServerNode)
    requires kids.Keys == all && qt in all && nnod !in all && nnod.children == []
    requires forall m | m in all :: m.children == if m == qt then kids[m] + [nnod] else kids[m]
    ensures KidsNow(all + {nnod}) == KidsPushed(kids, qt, nnod)
  {
  }

  lemma MintDead(all: set<ServerNode>, dead: set<ServerNode>, nnod: ServerNode)
    requires dead <= all && !nnod.disposed && forall m | m in all :: m.disposed <==> m in dead
    ensures Disposed(all + {nnod}) == dead
  {
  }

  ghost predicate Joins(all: set<ServerNode>, bound: nat, qt: ServerNode, nnod: ServerNode) {
    && qt in all && nnod !in all && nnod.parent == qt && nnod.path == qt.path + [nnod.born] && nnod.born == bound
  }

  lemma NewJoins(all: set<ServerNode>, bound: nat, qt: ServerNode, nnod: ServerNode)
    requires qt in all && nnod !in all && nnod.parent == qt && nnod.path == qt.path + [nnod.born] && nnod.born == bound
    ensures Joins(all, bound, qt, nnod)
  {
  }

  ghost predicate IsNew(all: set<ServerNode>, ever: set<nat>, qt: ServerNode, nnod: ServerNode) {
    qt in all && nnod !in all && nnod.id !in ever && nnod.parent == qt && qt.id < nnod.id
  }

  lemma NewIs(all: set<ServerNode>, ever: set<nat>, qt: ServerNode, nnod: ServerNode)
    requires qt in all && nnod !in all && nnod.id !in ever && nnod.parent == qt && qt.id < nnod.id
    ensures IsNew(all, ever, qt, nnod)
  {
  }

  lemma MintKid(all: set<ServerNode>, kids: Kids, bound: nat, qt: ServerNode, nnod: ServerNode, m: ServerNode)
    requires kids.Keys == all && Joins(all, bound, qt, nnod) && m in all + {nnod}
    requires forall x | x in all :: KidsFine(x, kids[x], all)
    ensures KidsFine(m, KidsPushed(kids, qt, nnod)[m], all + {nnod})
  {
    if m in all {
      assert KidsFine(m, kids[m], all);
      assert nnod !in kids[m];
    }
  }

  lemma MintForest(root: ServerNode, all: set<ServerNode>, ever: set<nat>, bound: nat, kids: Kids,
                   qt: ServerNode, nnod: ServerNode)
    requires Forest(root, all, ever, bound, kids) && Joins(all, bound, qt, nnod)
    ensures Forest(root, all + {nnod}, ever + {nnod.id}, bound + 1, KidsPushed(kids, qt, nnod))
  {
    hide AllOk, KidsFine, BornApart;
    MintAll(root, all, ever, bound, qt, nnod);
    forall m | m in all + {nnod} ensures KidsFine(m, KidsPushed(kids, qt, nnod)[m], all + {nnod}) {
      MintKid(all, kids, bound, qt, nnod, m);
    }
  }

  lemma MintAll(root: ServerNode, all: set<ServerNode>, ever: set<nat>, bound: nat, qt: ServerNode, nnod: ServerNode)
    requires BornApart(all) && AllOk(root, all, ever, bound) && Joins(all, bound, qt, nnod)
    ensures BornApart(all + {nnod}) && AllOk(root, all + {nnod}, ever + {nnod.id}, bound + 1)
  {
    assert forall m | m in all :: m.born < bound;
  }

  lemma MintUnique(all: set<ServerNode>, ever: set<nat>, qt: ServerNode, nnod: ServerNode)
    requires IdsUnique(all) && (forall m | m in all :: m.id in ever) && IsNew(all, ever, qt, nnod)
    ensures IdsUnique(all + {nnod})
  {
    assert forall m | m in all :: m.id != nnod.id;
  }

  lemma MintAlive(all: set<ServerNode>, dead: set<ServerNode>, m: map<nat, ServerNode>, nnod: ServerNode)
    requires MapAlive(all, m, dead) && nnod !in all && dead <= all
    ensures MapAlive(all + {nnod}, m[nnod.id := nnod], dead)
  {
  }

  lemma MintReached(root: ServerNode, all: set<ServerNode>, ever: set<nat>, bound: nat, at: map<nat, ServerNode>,
                    kids: Kids, dead: set<ServerNode>,
                    qt: ServerNode, nnod: ServerNode)
    requires World(root, all, ever, bound, at, kids, dead) && IsNew(all, ever, qt, nnod) && dead <= all
    ensures Reached(root, all + {nnod}, Grown(at, qt, nnod), KidsPushed(kids, qt, nnod), dead)
  {
    WorldMeans(root, all, ever, bound, at, kids, dead);
    var kids', at' := KidsPushed(kids, qt, nnod), Grown(at, qt, nnod);
    forall id | id in at'
      ensures at'[id] in all + {nnod} && at'[id].id == id && at'[id] !in dead
      ensures at'[id] in kids' && KidsOn(at', kids'[at'[id]]) && (id != 0 ==> Hangs(at', kids', at'[id]))
    {
      if id in at {
        OldReached(root, all, ever, bound, at, kids, dead, qt, nnod, id);
      } else {
        NewReached(all, ever, at, kids, dead, qt, nnod);
      }
    }
    assert 0 in at && at[0] == root;
  }

  lemma OldReached(root: ServerNode, all: set<ServerNode>, ever: set<nat>, bound: nat, at: map<nat, ServerNode>,
                   kids: Kids, dead: set<ServerNode>,
                   qt: ServerNode, nnod: ServerNode, id: nat)
    requires World(root, all, ever, bound, at, kids, dead) && IsNew(all, ever, qt, nnod) && id in at && nnod.id !in at
    ensures var kids', at' := KidsPushed(kids, qt, nnod), Grown(at, qt, nnod);
            id in at' && at'[id] == at[id] && at[id] !in dead && at[id] in all && at[id].id == id
            && at[id] in kids' && KidsOn(at', kids'[at[id]]) && (id != 0 ==> Hangs(at', kids', at[id]))
  {
    hide KidsOn, Hangs, KidsFine, AllOk, IdsUnique, BornApart;
    OldGrown(at, kids, qt, nnod, at[id]);
  }

  lemma OldGrown(at: map<nat, ServerNode>, kids: Kids, qt: ServerNode, nnod: ServerNode, m: ServerNode)
    requires On(at, m) && m in kids && qt in kids && nnod !in kids && nnod.id !in at && KidsOn(at, kids[m])
    requires nnod.parent == qt
    ensures var kids', at' := KidsPushed(kids, qt, nnod), Grown(at, qt, nnod);
            On(at', m) && m in kids' && KidsOn(at', kids'[m]) && (Hangs(at, kids, m) ==> Hangs(at', kids', m))
  {
  }

  lemma NewReached(all: set<ServerNode>, ever: set<nat>, at: map<nat, ServerNode>, kids: Kids, dead: set<ServerNode>,
                   qt: ServerNode, nnod: ServerNode)
    requires IsNew(all, ever, qt, nnod) && dead <= all && qt in kids && nnod.id !in at && On(at, qt)
    ensures var kids', at' := KidsPushed(kids, qt, nnod), Grown(at, qt, nnod);
            nnod.id in at' && at'[nnod.id] == nnod && nnod !in dead
            && nnod in kids' && KidsOn(at', kids'[nnod]) && Hangs(at', kids', nnod)
  {
    assert KidsPushed(kids, qt, nnod)[qt][|kids[qt]|] == nnod;
  }

  lemma MintMap(all: set<ServerNode>, ever: set<nat>, at: map<nat, ServerNode>, dead: set<ServerNode>,
                m: map<nat, ServerNode>, qt: ServerNode, nnod: ServerNode)
    requires MapOk(all, at, m, dead) && IsNew(all, ever, qt, nnod) && dead <= all && at.Keys <= ever
    ensures MapOk(all + {nnod}, Grown(at, qt, nnod), m[nnod.id := nnod], dead)
  {
  }

  /** The tree with a new node, where no id was sent twice. */
  lemma ValidMinted(root: ServerNode, all: set<ServerNode>, ever: set<nat>, bound: nat, at: map<nat, ServerNode>,
                    kids: Kids, dead: set<ServerNode>, m: map<nat, ServerNode>, qt: ServerNode, nnod: ServerNode)
    requires World(root, all, ever, bound, at, kids, dead) && MapOk(all, at, m, dead) && Joins(all, bound, qt, nnod)
    requires nnod.parent == qt && qt.id < nnod.id && nnod.id !in ever && dead <= all && qt in all && nnod !in all
    requires qt in kids
    ensures var at' := Grown(at, qt, nnod);
            && World(root, all + {nnod}, ever + {nnod.id}, bound + 1, at', KidsPushed(kids, qt, nnod), dead)
            && MapOk(all + {nnod}, at', m[nnod.id := nnod], dead)
            && On(at', nnod) == On(at, qt) && (forall x | x in all :: On(at', x) == On(at, x))
            && ViewOf(at') == if On(at, qt) then ViewOf(at)[nnod.id := QN(qt.id, nnod.key)] else ViewOf(at)
  {
    hide *;
    WorldMeans(root, all, ever, bound, at, kids, dead);
    GrownOn(at, qt, nnod);
    NewIs(all, ever, qt, nnod);
    MintUnique(all, ever, qt, nnod);
    MintForest(root, all, ever, bound, kids, qt, nnod);
    MintReached(root, all, ever, bound, at, kids, dead, qt, nnod);
    MintMap(all, ever, at, dead, m, qt, nnod);
    MintView(root, all, ever, bound, at, kids, dead, qt, nnod);
    WorldFrom(root, all + {nnod}, ever + {nnod.id}, bound + 1, Grown(at, qt, nnod), KidsPushed(kids, qt, nnod), dead);
  }

  lemma MintShape(t: ServerTree, qt: ServerNode, nnod: ServerNode, kids: Kids, dead: set<ServerNode>,
                  all: set<ServerNode>)
    requires t.all == all + {nnod} && kids.Keys == all && qt in all && nnod !in all
    requires KidsNow(t.all) == KidsPushed(kids, qt, nnod) && Disposed(t.all) == dead
    requires Forest(t.root, t.all, t.ever, t.bound, KidsPushed(kids, qt, nnod))
    requires LiveKids(all, kids, dead) && dead <= all
    ensures Shape(t.all) && LiveIn(t.all)
  {
    NowIs(t.all);
    forall m | m in t.all ensures KidsFine(m, m.children, t.all) {
      assert KidsFine(m, KidsPushed(kids, qt, nnod)[m], t.all);
    }
    forall m, c | m in t.all && c in m.children ensures !c.disposed {
      assert KidsFine(m, m.children, t.all);
      assert c == nnod || c in kids[m];
      assert c !in Disposed(t.all);
    }
  }

  lemma MintView(root: ServerNode, all: set<ServerNode>, ever: set<nat>, bound: nat, at: map<nat, ServerNode>,
                 kids: Kids, dead: set<ServerNode>,
                 qt: ServerNode, nnod: ServerNode)
    requires World(root, all, ever, bound, at, kids, dead) && IsNew(all, ever, qt, nnod)
    ensures ViewOf(Grown(at, qt, nnod)) ==
            if On(at, qt) then ViewOf(at)[nnod.id := QN(qt.id, nnod.key)] else ViewOf(at)
  {
  }
}
