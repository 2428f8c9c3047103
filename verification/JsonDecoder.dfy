/** What a JSON decoder holds: the selected part of the result tree, as long as every cursor that may
    bring it something carries its handler; and the replay of a stored tree to a decoder that comes
    late (client/result-tree-node.ts, client/result-tree.ts). */
module JsonDecoders {
  import opened Messages
  import opened AliasSpec
  import opened ResultNodes
  import opened JsonHandlers
  import opened JsonResponses
  import opened QueryTreeSpec
  import opened QueryTreeProofs
  import opened AliasRuns
  import opened Joint
  import Clients
  import ResultTrees
  import ResultPurge
  import QueryTreeNodes
  import QueryMaps
  import Lru

  // ----- what a result object should hold

  ghost predicate Selected(q: Query, p: Path) {
    HandlerAt(q, p).Some?
  }

  ghost function PosOf(q: Query, p: Path): JPath {
    if Selected(q, p) then HandlerAt(q, p).value.pos else []
  }

  ghost predicate Opens(q: Query, t: Trie, p: Path, s: Step) {
    p + [s] in t && Selected(q, p + [s])
  }

  /** Something that is selected hangs below the node. */
  ghost predicate Open(q: Query, t: Trie, p: Path) {
    exists s :: Opens(q, t, p, s)
  }

  ghost predicate TrieClosed(t: Trie) {
    [] in t && forall p, s {:trigger p + [s]} | p + [s] in t :: p in t
  }

  /** Positions that hold a value are disjoint from those with something below them, and nothing is a
      list and an object at once. */
  ghost predicate KindsOk(q: Query, t: Trie) {
    && (forall p, s {:trigger Opens(q, t, p, s)} | Opens(q, t, p, s) && p in t ::
      t[p] == None && (p == [] ==> s.Field?))
    && (forall p, s, s' {:trigger Opens(q, t, p, s), Opens(q, t, p, s')}
          | Opens(q, t, p, s) && Opens(q, t, p, s') :: s.Field? == s'.Field?)
  }

  /** The cell of a selected node. */
  ghost predicate CellOk(q: Query, j: Json, t: Trie, p: Path)
    requires p in t
  {
    var pos := PosOf(q, p);
    && (t[p].Some? ==> pos in j && j[pos] == Leaf(t[p].value))
    && (forall s {:trigger Opens(q, t, p, s)} | Opens(q, t, p, s) :: pos in j && j[pos] == ContainerFor(s))
    && (t[p] == None && !Open(q, t, p) ==> pos !in j)
  }

  ghost predicate Backed(q: Query, t: Trie, pos: JPath, p: Path) {
    p in t && p != [] && Selected(q, p) && PosOf(q, p) == pos && (t[p].Some? || Open(q, t, p))
  }

  /** The result object shows exactly the selected part of the tree. */
  ghost predicate Shows(q: Query, j: Json, t: Trie) {
    && [] in j && j[[]] == ObjectCell
    && (forall p | p in t && p != [] && Selected(q, p) :: CellOk(q, j, t, p))
    && (forall pos | pos in j && pos != [] :: exists p :: Backed(q, t, pos, p))
  }

  // ----- positions

  /** No two selections side by side have the same key. */
  ghost predicate KeysApart(q: Query) {
    forall p, a, b {:trigger HandlerAt(q, p + [Field(a)]), HandlerAt(q, p + [Field(b)])} ::
      && Selected(q, p + [Field(a)]) && Selected(q, p + [Field(b)])
      && PosOf(q, p + [Field(a)]) == PosOf(q, p + [Field(b)]) ==>
        a == b
  }

  lemma HandlerSnoc(q: Query, p: Path, s: Step)
    ensures HandlerAt(q, p + [s]) == if HandlerAt(q, p).None? then None else StepHandler(q, HandlerAt(q, p).value, s)
    ensures Selected(q, p + [s]) ==>
        Selected(q, p) && !HandlerAt(q, p + [s]).value.top && |PosOf(q, p + [s])| == |PosOf(q, p)| + 1
    ensures Selected(q, p + [s]) ==> PosOf(q, p + [s])[..|PosOf(q, p)|] == PosOf(q, p)
  {
    assert (p + [s])[..|p|] == p;
  }

  lemma {:induction false} HandlerFacts(q: Query, p: Path)
    requires Selected(q, p)
    ensures |PosOf(q, p)| == |p| && (HandlerAt(q, p).value.top <==> p == [])
    decreases |p|
  {
    if p != [] {
      assert p == p[..|p| - 1] + [p[|p| - 1]];
      HandlerSnoc(q, p[..|p| - 1], p[|p| - 1]);
      HandlerFacts(q, p[..|p| - 1]);
    }
  }

  /** A position belongs to one path only. */
  lemma {:induction false} PosInjective(q: Query, p: Path, r: Path)
    requires KeysApart(q) && Selected(q, p) && Selected(q, r) && PosOf(q, p) == PosOf(q, r)
    ensures p == r
    decreases |p|
  {
    HandlerFacts(q, p);
    HandlerFacts(q, r);
    if p != [] {
      var p0, r0, s, t := p[..|p| - 1], r[..|r| - 1], p[|p| - 1], r[|r| - 1];
      assert p == p0 + [s] && r == r0 + [t];
      HandlerSnoc(q, p0, s);
      HandlerSnoc(q, r0, t);
      HandlerFacts(q, p0);
      HandlerFacts(q, r0);
      PosInjective(q, p0, r0);
      LastStep(q, p0, s, t);
    }
  }

  lemma LastStep(q: Query, p: Path, s: Step, t: Step)
    requires KeysApart(q) && Selected(q, p + [s]) && Selected(q, p + [t]) && PosOf(q, p + [s]) == PosOf(q, p + [t])
    ensures s == t
  {
    HandlerSnoc(q, p, s);
    HandlerSnoc(q, p, t);
    var n := |PosOf(q, p)|;
    if s.Field? && t.Field? {
      assert HandlerAt(q, p + [Field(s.id)]).Some? && HandlerAt(q, p + [Field(t.id)]).Some?;
    } else {
      assert PosOf(q, p + [s])[n] == PosOf(q, p + [t])[n];
    }
  }

  /** A position below another belongs to a path below the other's. */
  lemma {:induction false} PosPrefix(q: Query, p: Path, r: Path)
    requires KeysApart(q) && Selected(q, p) && Selected(q, r) && PosOf(q, p) <= PosOf(q, r)
    ensures p <= r
    decreases |r|
  {
    HandlerFacts(q, p);
    HandlerFacts(q, r);
    if |p| == |r| {
      PosInjective(q, p, r);
    } else {
      var r0, t := r[..|r| - 1], r[|r| - 1];
      assert r == r0 + [t];
      HandlerSnoc(q, r0, t);
      HandlerFacts(q, r0);
      assert PosOf(q, r0) == PosOf(q, r)[..|r0|];
      PosPrefix(q, p, r0);
    }
  }

  /** Two objects that show the same tree are the same. */
  lemma ShowsUnique(q: Query, j: Json, j': Json, t: Trie)
    requires Shows(q, j, t) && Shows(q, j', t)
    ensures j == j'
  {
    forall pos | pos in j ensures pos in j' && j'[pos] == j[pos] { SameCell(q, j, j', t, pos); }
    forall pos | pos in j' ensures pos in j { SameCell(q, j', j, t, pos); }
  }

  lemma SameCell(q: Query, j: Json, j': Json, t: Trie, pos: JPath)
    requires Shows(q, j, t) && Shows(q, j', t) && pos in j
    ensures pos in j' && j'[pos] == j[pos]
  {
    if pos != [] {
      var p :| Backed(q, t, pos, p);
      assert CellOk(q, j, t, p) && CellOk(q, j', t, p);
      if t[p].None? {
        var s :| Opens(q, t, p, s);
      }
    }
  }

  // ----- one step

  /** The tree after a step from `p`: the node is there, and a value overwrites. */
  ghost function Stepped(t: Trie, p: Path, s: Step, v: Option<Primitive>): Trie {
    if p + [s] in t && v == None then t else t[p + [s] := v]
  }

  lemma SteppedOpens(q: Query, t: Trie, p: Path, s: Step, v: Option<Primitive>, r: Path, x: Step)
    ensures Opens(q, Stepped(t, p, s, v), r, x) <==> Opens(q, t, r, x) || (r + [x] == p + [s] && Selected(q, p + [s]))
    ensures r + [x] == p + [s] <==> r == p && x == s
  {
    if r + [x] == p + [s] {
      assert (r + [x])[..|r|] == r && (p + [s])[..|p|] == p;
      assert (r + [x])[|r|] == x && (p + [s])[|p|] == s;
    }
  }

  /** Unselected nodes do not matter. */
  lemma StepUnselected(q: Query, j: Json, t: Trie, p: Path, s: Step, v: Option<Primitive>)
    requires Shows(q, j, t) && !Selected(q, p + [s])
    ensures Shows(q, j, Stepped(t, p, s, v))
  {
    var t' := Stepped(t, p, s, v);
    forall r, x ensures Opens(q, t', r, x) <==> Opens(q, t, r, x) { SteppedOpens(q, t, p, s, v, r, x); }
    forall r | r in t' && r != [] && Selected(q, r) ensures CellOk(q, j, t', r) {
      assert CellOk(q, j, t, r);
      SameOpen(q, t, t', r);
    }
    forall pos | pos in j && pos != [] ensures exists r :: Backed(q, t', pos, r) {
      var r :| Backed(q, t, pos, r);
      SameOpen(q, t, t', r);
      assert Backed(q, t', pos, r);
    }
  }

  lemma SameOpen(q: Query, t: Trie, t': Trie, r: Path)
    requires forall x :: Opens(q, t', r, x) <==> Opens(q, t, r, x)
    ensures Open(q, t', r) <==> Open(q, t, r)
  {
    if x :| Opens(q, t', r, x) { assert Opens(q, t, r, x); }
    if x :| Opens(q, t, r, x) { assert Opens(q, t', r, x); }
  }

  /** The container of the node stepped from is there, or can be made. */
  lemma ContainerReady(q: Query, j: Json, t: Trie, p: Path, s: Step, v: Option<Primitive>)
    requires Shows(q, j, t) && TrieClosed(t) && p in t && Selected(q, p + [s]) && KindsOk(q, Stepped(t, p, s, v))
    ensures Selected(q, p) && t[p] == None
    ensures p == [] ==> s.Field? && PosOf(q, p) == [] && HandlerAt(q, p).value.top
    ensures p != [] ==> !HandlerAt(q, p).value.top && PosOf(q, p) != []
    ensures PosOf(q, p) in j ==> j[PosOf(q, p)] == ContainerFor(s)
    ensures PosOf(q, p) !in j ==> Assignable(j, PosOf(q, p))
  {
    var t' := Stepped(t, p, s, v);
    HandlerSnoc(q, p, s);
    HandlerFacts(q, p);
    SteppedOpens(q, t, p, s, v, p, s);
    assert Opens(q, t', p, s);
    assert p in t' && t'[p] == t[p];
    if p != [] {
      assert CellOk(q, j, t, p);
      if PosOf(q, p) in j {
        var x :| Opens(q, t, p, x);
        SteppedOpens(q, t, p, s, v, p, x);
        assert Opens(q, t', p, x);
      } else {
        ParentThere(q, j, t, p);
      }
    }
  }

  /** A selected node hangs off a container. */
  lemma ParentThere(q: Query, j: Json, t: Trie, p: Path)
    requires Shows(q, j, t) && TrieClosed(t) && p in t && p != [] && Selected(q, p)
    ensures Assignable(j, PosOf(q, p))
  {
    var up, x := p[..|p| - 1], p[|p| - 1];
    assert p == up + [x];
    HandlerSnoc(q, up, x);
    HandlerFacts(q, up);
    HandlerFacts(q, p);
    hide HandlerAt, Backed;
    assert up in t && Opens(q, t, up, x);
    if up != [] { assert CellOk(q, j, t, up); }
    assert PosOf(q, p)[..|PosOf(q, p)| - 1] == PosOf(q, up);
  }

  /** Nothing is below a position that is about to hold a value. */
  lemma NothingBelow(q: Query, j: Json, t: Trie, r: Path, pos: JPath)
    requires KeysApart(q) && Shows(q, j, t) && TrieClosed(t) && Selected(q, r) && r != [] && pos in j
    requires PosOf(q, r) <= pos
    requires forall x :: !Opens(q, t, r, x)
    ensures pos == PosOf(q, r)
  {
    HandlerFacts(q, r);
    var p :| Backed(q, t, pos, p);
    PosPrefix(q, r, p);
    if p != r { NoWayDown(q, t, r, p); }
  }

  lemma {:induction false} NoWayDown(q: Query, t: Trie, r: Path, p: Path)
    requires TrieClosed(t) && p in t && Selected(q, p) && r <= p && r != p
    ensures exists x :: Opens(q, t, r, x)
    decreases |p|
  {
    var up, x := p[..|p| - 1], p[|p| - 1];
    assert p == up + [x];
    HandlerSnoc(q, up, x);
    assert up in t;
    if up == r {
      assert Opens(q, t, r, x);
    } else {
      assert r <= up;
      NoWayDown(q, t, r, up);
    }
  }

  /** The object after a step: the container, and then the value. */
  ghost function StepJson(q: Query, j: Json, p: Path, s: Step, v: Option<Primitive>): Json {
    var j1 := if PosOf(q, p) in j then j else j[PosOf(q, p) := ContainerFor(s)];
    if v.None? then j1 else Replace(j1, PosOf(q, p + [s]), v.value)
  }

  /** What a step needs, and what it changes. */
  ghost predicate Stepping(q: Query, j: Json, t: Trie, p: Path, s: Step, v: Option<Primitive>) {
    && KeysApart(q) && Shows(q, j, t) && TrieClosed(t) && p in t && Selected(q, p + [s])
    && KindsOk(q, Stepped(t, p, s, v))
  }

  lemma StepCells(q: Query, j: Json, t: Trie, p: Path, s: Step, v: Option<Primitive>, pos: JPath)
    requires Stepping(q, j, t, p, s, v)
    ensures var j' := StepJson(q, j, p, s, v);
            && PosOf(q, p) in j' && j'[PosOf(q, p)] == ContainerFor(s)
            && (v.Some? ==> PosOf(q, p + [s]) in j' && j'[PosOf(q, p + [s])] == Leaf(v.value))
            && (pos != PosOf(q, p) && (v.None? || pos != PosOf(q, p + [s])) ==>
                  (pos in j' <==> pos in j) && (pos in j ==> j'[pos] == j[pos]))
    ensures PosOf(q, p) != PosOf(q, p + [s]) && PosOf(q, p + [s]) != []
  {
    ContainerReady(q, j, t, p, s, v);
    HandlerSnoc(q, p, s);
    HandlerFacts(q, p);
    HandlerFacts(q, p + [s]);
    if v.Some? {
      var t' := Stepped(t, p, s, v);
      forall x ensures !Opens(q, t, p + [s], x) {
        SteppedOpens(q, t, p, s, v, p + [s], x);
        assert Opens(q, t, p + [s], x) ==> Opens(q, t', p + [s], x);
      }
      forall r | r in j && PosOf(q, p + [s]) <= r ensures r == PosOf(q, p + [s]) { NothingBelow(q, j, t, p + [s], r); }
    }
  }

  lemma StepCell(q: Query, j: Json, t: Trie, p: Path, s: Step, v: Option<Primitive>, r: Path)
    requires Stepping(q, j, t, p, s, v) && r in Stepped(t, p, s, v) && r != [] && Selected(q, r)
    ensures CellOk(q, StepJson(q, j, p, s, v), Stepped(t, p, s, v), r)
  {
    var t', j', next := Stepped(t, p, s, v), StepJson(q, j, p, s, v), p + [s];
    StepCells(q, j, t, p, s, v, PosOf(q, r));
    ContainerReady(q, j, t, p, s, v);
    forall x ensures Opens(q, t', r, x) <==> Opens(q, t, r, x) || (r == p && x == s) {
      SteppedOpens(q, t, p, s, v, r, x);
    }
    if r == p {
      assert Opens(q, t', p, s);
    } else if r == next && v.Some? {
    } else {
      if PosOf(q, r) == PosOf(q, p) { PosInjective(q, r, p); }
      if v.Some? && PosOf(q, r) == PosOf(q, next) { PosInjective(q, r, next); }
      SameOpen(q, t, t', r);
      if r in t {
        assert CellOk(q, j, t, r);
      } else {
        NewNode(q, j, t, r);
      }
    }
  }

  /** A node that is new has no cell and nothing below it. */
  lemma NewNode(q: Query, j: Json, t: Trie, r: Path)
    requires KeysApart(q) && Shows(q, j, t) && TrieClosed(t) && r !in t && Selected(q, r) && r != []
    ensures PosOf(q, r) !in j && forall x :: !Opens(q, t, r, x)
  {
    HandlerFacts(q, r);
    if PosOf(q, r) in j {
      var p :| Backed(q, t, PosOf(q, r), p);
      PosInjective(q, p, r);
    }
  }

  /** A step keeps showing the tree. */
  lemma StepShows(q: Query, j: Json, t: Trie, p: Path, s: Step, v: Option<Primitive>)
    requires Stepping(q, j, t, p, s, v)
    ensures Shows(q, StepJson(q, j, p, s, v), Stepped(t, p, s, v))
  {
    var t', j', next := Stepped(t, p, s, v), StepJson(q, j, p, s, v), p + [s];
    StepCells(q, j, t, p, s, v, []);
    ContainerReady(q, j, t, p, s, v);
    forall r | r in t' && r != [] && Selected(q, r) ensures CellOk(q, j', t', r) { StepCell(q, j, t, p, s, v, r); }
    SteppedOpens(q, t, p, s, v, p, s);
    forall pos | pos in j' && pos != [] ensures exists r :: Backed(q, t', pos, r) {
      StepCells(q, j, t, p, s, v, pos);
      if v.Some? && pos == PosOf(q, next) {
        assert Backed(q, t', pos, next);
      } else if pos == PosOf(q, p) {
        assert Opens(q, t', p, s);
        assert Backed(q, t', pos, p);
      } else {
        var r :| Backed(q, t, pos, r);
        StillBacked(q, t, p, s, v, pos, r);
      }
    }
  }

  lemma StillBacked(q: Query, t: Trie, p: Path, s: Step, v: Option<Primitive>, pos: JPath, r: Path)
    requires Backed(q, t, pos, r)
    ensures Backed(q, Stepped(t, p, s, v), pos, r)
  {
    if x :| Opens(q, t, r, x) {
      SteppedOpens(q, t, p, s, v, r, x);
      assert Opens(q, Stepped(t, p, s, v), r, x);
    }
  }

  /** handleValue on a handler of the tree never throws, hands on the handler for the next node, and
      keeps showing the tree. */
  lemma HandlerStep(q: Query, j: Json, t: Trie, p: Path, f: RGQLValue)
    requires KeysApart(q) && Shows(q, j, t) && TrieClosed(t) && p in t && Selected(q, p) && StepOf(f).Some?
    requires KindsOk(q, Stepped(t, p, StepOf(f).value, f.value))
    ensures var s := StepOf(f).value;
            var r := Went1(q, j, HandlerAt(q, p).value, f);
            r.Went? && r.next == HandlerAt(q, p + [s]) && Shows(q, r.json, Stepped(t, p, s, f.value))
  {
    var s := StepOf(f).value;
    HandlerSnoc(q, p, s);
    if Selected(q, p + [s]) {
      ContainerReady(q, j, t, p, s, f.value);
      StepCells(q, j, t, p, s, f.value, []);
      StepShows(q, j, t, p, s, f.value);
    } else {
      StepUnselected(q, j, t, p, s, f.value);
    }
  }

  // ----- the query is one that was attached

  ghost function NamesOf(nodes: Nodes): map<nat, string> {
    map id | id in nodes :: nodes[id].key.name
  }

  /** The query an attach gives to a decoder. */
  ghost function QueryOf(c: Client, sels: seq<Sel>): Query {
    Query.Query(QueryMaps.Built(c.tree, 0, sels, false), NamesOf(Walk(c.tree, 0, sels, false).tree.nodes))
  }

  ghost predicate NamesFit(names: map<nat, string>, nodes: Nodes, ids: set<nat>) {
    forall id :: id in ids && id in nodes ==> id in names && names[id] == nodes[id].key.name
  }

  /** `q` is what query `n`, which asked for `sels`, has decoded, and that query is attached. */
  ghost predicate Decodes(q: Query, c: Client, n: nat, sels: seq<Sel>) {
    && QueryMaps.MapHeld(c, n, q.top, sels)
    && NamesFit(q.names, c.tree.nodes, QueryMaps.References(c, n))
  }

  lemma AttachDecodes(c: Client, sels: seq<Sel>)
    requires ClientOk(c) && !Walk(c.tree, 0, sels, false).failed
    ensures Decodes(QueryOf(c, sels), Apply(c, Attach(sels)), |c.queries|, sels)
  {
    QueryMaps.AttachHolds(c, sels);
  }

  /** It is attached until it is detached. */
  lemma DecodesStays(q: Query, c: Client, n: nat, sels: seq<Sel>, op: Op)
    requires ClientOk(c) && Decodes(q, c, n, sels) && op != Detach(n)
    ensures Decodes(q, Apply(c, op), n, sels)
  {
    QueryMaps.MapStaysHeld(c, n, q.top, sels, op);
    QueryMaps.NodesHeld(c, n, op);
    ReferencesThere(c, n);
    hide Apply, QueryMaps.MapHeld, QueryMaps.References;
  }

  lemma ReferencesThere(c: Client, n: nat)
    requires ClientOk(c)
    ensures forall id | id in QueryMaps.References(c, n) :: id in c.tree.nodes
  {
    if n < |c.queries| { assert ParentClosed(c.tree.nodes, 0, c.queries[n]); }
  }

  /** The query node a path ends in. */
  function NodeAt(p: Path): nat {
    if Proj(p) == [] then 0 else Proj(p)[|Proj(p)| - 1]
  }

  /** Different fields next to each other have different keys in the result. */
  ghost predicate ResponsesApart(sels: seq<Sel>)
    decreases sels
  {
    && (forall i, j :: 0 <= i < j < |sels| && sels[i].key != sels[j].key ==> Response(sels[i]) != Response(sels[j]))
    && (forall i :: 0 <= i < |sels| ==> ResponsesApart(sels[i].sels))
  }

  /** Where a selected path leads in the query tree, and which selections the handler there has. */
  lemma {:induction false} SelectedNode(q: Query, c: Client, n: nat, sels: seq<Sel>, p: Path) returns (sub: seq<Sel>)
    requires ClientOk(c) && Decodes(q, c, n, sels) && Selected(q, p)
    ensures Proj(p) == PathOf(c.tree.nodes, NodeAt(p)) && (NodeAt(p) == 0 || NodeAt(p) in c.tree.nodes)
    ensures var selections := HandlerAt(q, p).value.selections;
            selections.Some? ==>
              QueryMaps.MapFrom(c.tree.nodes, QueryMaps.References(c, n), NodeAt(p), selections.value, sub)
    ensures ResponsesApart(sels) ==> ResponsesApart(sub)
    decreases |p|
  {
    hide ClientOk, NamesFit, ResponsesApart, QueryMaps.MapFrom, QueryMaps.Mirrors, QueryMaps.References;
    if p == [] {
      sub := sels;
    } else {
      var up, s := p[..|p| - 1], p[|p| - 1];
      assert p == up + [s];
      HandlerSnoc(q, up, s);
      ProjSnoc(up, s);
      sub := SelectedNode(q, c, n, sels, up);
      if s.Field? { sub := FieldNode(q, c, n, up, s.id, sub); }
    }
  }

  /** A selected field: its node is the child with that id, and has the name the query has for it. */
  lemma FieldNode(q: Query, c: Client, n: nat, up: Path, id: nat, above: seq<Sel>) returns (sub: seq<Sel>)
    requires ClientOk(c) && NamesFit(q.names, c.tree.nodes, QueryMaps.References(c, n)) && 0 < id
    requires Selected(q, up) && Selected(q, up + [Field(id)])
    requires Proj(up) == PathOf(c.tree.nodes, NodeAt(up))
    requires var selections := HandlerAt(q, up).value.selections;
             selections.Some? ==>
               QueryMaps.MapFrom(c.tree.nodes, QueryMaps.References(c, n), NodeAt(up), selections.value, above)
    ensures id in c.tree.nodes && c.tree.nodes[id].parent == NodeAt(up) && NodeAt(up + [Field(id)]) == id
    ensures id in q.names && q.names[id] == c.tree.nodes[id].key.name
    ensures Proj(up + [Field(id)]) == PathOf(c.tree.nodes, id)
    ensures var selections := HandlerAt(q, up + [Field(id)]).value.selections;
            selections.Some? ==> QueryMaps.MapFrom(c.tree.nodes, QueryMaps.References(c, n), id, selections.value, sub)
    ensures ResponsesApart(above) ==> ResponsesApart(sub)
  {
    HandlerSnoc(q, up, Field(id));
    ProjSnoc(up, Field(id));
    var qm, occ := HandlerAt(q, up).value.selections.value, QueryMaps.References(c, n);
    var k :| 0 <= k < |above| && QueryMaps.FromSel(c.tree.nodes, occ, NodeAt(up), id, qm.elems[id], above[k]);
    sub := above[k].sels;
  }

  /** What lookupChildByID and getName find at a handler, for a selected field. */
  lemma LookupFinds(q: Query, c: Client, n: nat, sels: seq<Sel>, up: Path, id: Pos)
    requires ClientOk(c) && Decodes(q, c, n, sels) && Selected(q, up + [Field(id)])
    ensures id in c.tree.nodes && c.tree.nodes[id].parent == NodeAt(up)
    ensures id in q.names && q.names[id] == c.tree.nodes[id].key.name
  {
    HandlerSnoc(q, up, Field(id));
    var above := SelectedNode(q, c, n, sels, up);
    var sub := FieldNode(q, c, n, up, id, above);
  }

  /** All an attached query selects is in the query tree. */
  lemma DecodesAttached(q: Query, c: Client, n: nat, sels: seq<Sel>)
    requires ClientOk(c) && Decodes(q, c, n, sels)
    ensures Attached(q, Live(c.tree.nodes))
  {
    forall p | Selected(q, p) ensures Proj(p) in Live(c.tree.nodes) {
      var sub := SelectedNode(q, c, n, sels, p);
    }
  }

  lemma EntrySel(c: Client, occ: set<nat>, parent: nat, qm: QueryMap, sels: seq<Sel>, names: map<nat, string>, id: nat)
    returns (k: nat)
    requires QueryMaps.MapFrom(c.tree.nodes, occ, parent, qm, sels) && NamesFit(names, c.tree.nodes, occ)
    requires id in qm.elems
    ensures k < |sels| && id in c.tree.nodes && c.tree.nodes[id] == QN(parent, sels[k].key)
    ensures KeyOf(names, id, qm.elems[id]) == Some(Name(Response(sels[k])))
  {
    k :| 0 <= k < |sels| && QueryMaps.FromSel(c.tree.nodes, occ, parent, id, qm.elems[id], sels[k]);
  }

  /** Keys are apart when the query's own response keys are. */
  lemma ResponsesKeys(q: Query, c: Client, n: nat, sels: seq<Sel>)
    requires ClientOk(c) && Decodes(q, c, n, sels) && ResponsesApart(sels)
    ensures KeysApart(q)
  {
    forall p, a: Pos, b: Pos
      | Selected(q, p + [Field(a)]) && Selected(q, p + [Field(b)])
        && PosOf(q, p + [Field(a)]) == PosOf(q, p + [Field(b)])
      ensures a == b
    {
      HandlerSnoc(q, p, Field(a));
      HandlerSnoc(q, p, Field(b));
      var sub := SelectedNode(q, c, n, sels, p);
      var qm, occ := HandlerAt(q, p).value.selections.value, QueryMaps.References(c, n);
      var i := EntrySel(c, occ, NodeAt(p), qm, sub, q.names, a);
      var j := EntrySel(c, occ, NodeAt(p), qm, sub, q.names, b);
      var at := |PosOf(q, p)|;
      assert PosOf(q, p + [Field(a)])[at] == PosOf(q, p + [Field(b)])[at];
      assert Response(sub[i]) == Response(sub[j]);
      if sub[i].key == sub[j].key { assert c.tree.nodes[a] == c.tree.nodes[b]; }
    }
  }

  // ----- the handlers are at the places of the response

  /** What a handler has to do with a place of the response. */
  ghost predicate Standing(nodes: Nodes, occ: set<nat>, h: Handler, at: Place) {
    && h.pos == at.pos && (h.selections.None? ==> at.sels == [])
    && (h.selections.Some? ==> QueryMaps.Mirrors(nodes, occ, at.node, h.selections.value, at.sels))
  }

  lemma FieldPlace(q: Query, c: Client, occ: set<nat>, h: Handler, at: Place, id: Pos)
    requires ClientOk(c) && NamesFit(q.names, c.tree.nodes, occ) && Standing(c.tree.nodes, occ, h, at)
    ensures
      var nodes := c.tree.nodes;
      var sel :=
        if id in nodes && nodes[id].parent == at.node then QueryMaps.Counting(at.sels, nodes[id].key) else None;
      var next := StepHandler(q, h, Field(id));
      && (next.Some? <==> sel.Some?)
      && (next.Some? ==>
            Standing(nodes, occ, next.value, Place(at.pos + [Name(Response(sel.value))], id, sel.value.sels)))
  {
    var nodes := c.tree.nodes;
    hide QueryMaps.Mirrors;
    if h.selections.Some? {
      var qm := h.selections.value;
      QueryMaps.MirrorsFinds(nodes, c.tree.next, occ, at.node, qm, at.sels, id);
      if id in qm.elems { QueryMaps.MirrorAt(nodes, occ, at.node, qm, at.sels, id); }
    } else {
      assert forall key :: QueryMaps.Counting([], key) == None;
    }
  }

  /** The handler for a path stands at its place in the response, and there is one exactly when the query
      asks for it. */
  lemma {:induction false} HandlerPlace(q: Query, c: Client, n: nat, sels: seq<Sel>, p: Path)
    requires ClientOk(c) && Decodes(q, c, n, sels)
    ensures Selected(q, p) <==> PlaceAt(c.tree.nodes, sels, p).Some?
    ensures Selected(q, p) ==>
        Standing(c.tree.nodes, QueryMaps.References(c, n), HandlerAt(q, p).value, PlaceAt(c.tree.nodes, sels, p).value)
    decreases |p|
  {
    hide ClientOk, NamesFit, StepHandler, QueryMaps.Mirrors;
    if p != [] {
      var up, s := p[..|p| - 1], p[|p| - 1];
      assert p == up + [s];
      HandlerPlace(q, c, n, sels, up);
      StepAt(q, p);
      PlaceSnoc(c.tree.nodes, sels, up, s);
      if Selected(q, up) {
        var h, at := HandlerAt(q, up).value, PlaceAt(c.tree.nodes, sels, up).value;
        match s {
          case Field(id) => FieldPlace(q, c, QueryMaps.References(c, n), h, at, id);
          case Index(idx) => IndexStep(q, h, idx);
        }
      }
    }
  }

  lemma StepAt(q: Query, p: Path)
    requires p != []
    ensures HandlerAt(q, p) ==
            if HandlerAt(q, p[..|p| - 1]).None? then None
            else StepHandler(q, HandlerAt(q, p[..|p| - 1]).value, p[|p| - 1])
  {
  }

  lemma IndexStep(q: Query, h: Handler, idx: Pos)
    ensures StepHandler(q, h, Index(idx)) == Some(Handler(h.selections, h.pos + [At(idx - 1)], false))
  {
  }

  /** The positions of the decoder are those of the response. */
  lemma PositionsAre(q: Query, c: Client, n: nat, sels: seq<Sel>)
    requires ClientOk(c) && Decodes(q, c, n, sels)
    ensures forall p {:trigger Selected(q, p)} {:trigger PlaceAt(c.tree.nodes, sels, p)} ::
              Selected(q, p) <==> PlaceAt(c.tree.nodes, sels, p).Some?
    ensures forall p | Selected(q, p) :: PosOf(q, p) == PlaceAt(c.tree.nodes, sels, p).value.pos
  {
    hide Decodes, ClientOk, PlaceAt, QueryMaps.Mirrors;
    forall p
      ensures Selected(q, p) <==> PlaceAt(c.tree.nodes, sels, p).Some?
      ensures Selected(q, p) ==> PosOf(q, p) == PlaceAt(c.tree.nodes, sels, p).value.pos
    {
      HandlerPlace(q, c, n, sels, p);
    }
  }

  /** To show the tree to a decoder is to display it as the response to its query. */
  lemma ShowsDisplays(q: Query, c: Client, n: nat, sels: seq<Sel>, j: Json, t: Trie)
    requires ClientOk(c) && Decodes(q, c, n, sels)
    ensures Shows(q, j, t) <==> Displays(c.tree.nodes, sels, j, t)
  {
    PositionsAre(q, c, n, sels);
    var nodes := c.tree.nodes;
    hide Decodes, ClientOk, PlaceAt, Selected, PosOf, HandlerAt;
    forall p, s ensures Opens(q, t, p, s) <==> WantedBelow(nodes, sels, t, p, s) { }
    if Shows(q, j, t) { IsDisplayed(q, nodes, sels, j, t); }
    if Displays(nodes, sels, j, t) { IsShown(q, nodes, sels, j, t); }
  }

  /** Both have the same positions. */
  ghost predicate SamePlaces(q: Query, nodes: Nodes, sels: seq<Sel>, t: Trie) {
    && (forall p {:trigger Selected(q, p)} {:trigger PlaceAt(nodes, sels, p)} ::
          Selected(q, p) <==> PlaceAt(nodes, sels, p).Some?)
    && (forall p | Selected(q, p) :: PosOf(q, p) == PlaceAt(nodes, sels, p).value.pos)
    && (forall p, s {:trigger Opens(q, t, p, s)} {:trigger WantedBelow(nodes, sels, t, p, s)} ::
          Opens(q, t, p, s) <==> WantedBelow(nodes, sels, t, p, s))
  }

  lemma IsDisplayed(q: Query, nodes: Nodes, sels: seq<Sel>, j: Json, t: Trie)
    requires SamePlaces(q, nodes, sels, t) && Shows(q, j, t)
    ensures Displays(nodes, sels, j, t)
  {
    hide PlaceAt, Selected, PosOf, HandlerAt, Opens, WantedBelow;
    forall p | p != [] && Wanted(nodes, sels, t, p) ensures Showing(nodes, sels, j, t, p) {
      CellShowing(q, nodes, sels, j, t, p);
    }
    forall pos | pos in j && pos != [] ensures exists p :: Accounts(nodes, sels, t, pos, p) {
      var p :| Backed(q, t, pos, p);
      if t[p] == None {
        var s :| Opens(q, t, p, s);
        assert WantedBelow(nodes, sels, t, p, s);
      }
      assert Accounts(nodes, sels, t, pos, p);
    }
  }

  lemma IsShown(q: Query, nodes: Nodes, sels: seq<Sel>, j: Json, t: Trie)
    requires SamePlaces(q, nodes, sels, t) && Displays(nodes, sels, j, t)
    ensures Shows(q, j, t)
  {
    hide PlaceAt, Selected, PosOf, HandlerAt, Opens, WantedBelow;
    forall p | p in t && p != [] && Selected(q, p) ensures CellOk(q, j, t, p) {
      assert Showing(nodes, sels, j, t, p);
      forall s {:trigger Opens(q, t, p, s)} | Opens(q, t, p, s)
        ensures PosOf(q, p) in j && j[PosOf(q, p)] == ContainerFor(s)
      {
        assert WantedBelow(nodes, sels, t, p, s);
        match s {
          case Field(id) => assert WantedBelow(nodes, sels, t, p, Field(id));
          case Index(i) => assert WantedBelow(nodes, sels, t, p, Index(i));
        }
      }
      if !Open(q, t, p) { forall s ensures !WantedBelow(nodes, sels, t, p, s) { assert !Opens(q, t, p, s); } }
    }
    forall pos | pos in j && pos != [] ensures exists p :: Backed(q, t, pos, p) {
      var p :| Accounts(nodes, sels, t, pos, p);
      if t[p] == None {
        var s :| WantedBelow(nodes, sels, t, p, s);
        assert Opens(q, t, p, s);
      }
      assert Backed(q, t, pos, p);
    }
  }

  lemma CellShowing(q: Query, nodes: Nodes, sels: seq<Sel>, j: Json, t: Trie, p: Path)
    requires Shows(q, j, t) && p != [] && Wanted(nodes, sels, t, p)
    requires Selected(q, p) && PosOf(q, p) == PlaceAt(nodes, sels, p).value.pos
    requires forall s {:trigger Opens(q, t, p, s)} {:trigger WantedBelow(nodes, sels, t, p, s)} ::
               Opens(q, t, p, s) <==> WantedBelow(nodes, sels, t, p, s)
    ensures Showing(nodes, sels, j, t, p)
  {
    assert CellOk(q, j, t, p);
    hide Shows, PlaceAt, Selected, PosOf, HandlerAt, Opens, WantedBelow;
    if s :| Opens(q, t, p, s) { assert WantedBelow(nodes, sels, t, p, s); }
  }

  // ----- live: a decoder attached from the start

  /** The query that is decoded is attached: all it selects is in the query tree. */
  ghost predicate Attached(q: Query, live: set<QPath>) {
    forall p {:trigger Selected(q, p)} | Selected(q, p) :: Proj(p) in live
  }

  lemma TrieOkClosed(live: set<QPath>, t: Trie)
    requires TrieOk(live, t)
    ensures TrieClosed(t)
  {
    forall p, s | p + [s] in t ensures p in t { assert (p + [s])[..|p|] == p; }
  }

  /** Nothing can come below this node that the query selects: it does not lead there, or the node holds
      a value, or it is the root of a query without fields. */
  ghost predicate Idle(q: Query, t: Trie, p: Path) {
    || !Selected(q, p)
    || (p in t && t[p].Some?)
    || (p == [] && forall id: Pos {:trigger Field(id)} :: !Selected(q, [Field(id)]))
  }

  /** A cursor carries the handler of its path, or needs none. */
  ghost predicate Carries(q: Query, t: Trie, cur: Cursor, h: Option<Handler>) {
    !cur.oob ==> h == HandlerAt(q, cur.path) || (h == None && Idle(q, t, cur.path))
  }

  /** The decoder hears whatever may come. */
  ghost predicate Tuned(q: Query, d: Dec, e: Ears) {
    && e.root == Some(TopHandler(q)) && e.cached.Keys == d.cache.vals.Keys
    && (forall k :: k in d.cache.vals ==> Carries(q, d.trie, d.cache.vals[k], e.cached[k]))
    && (d.cursor.Some? ==> Carries(q, d.trie, d.cursor.value, e.cursor))
  }

  /** What the query selects of the tree keeps its values. */
  ghost predicate ValuesStay(q: Query, t: Trie, t': Trie) {
    forall p :: p in t && t[p].Some? && Selected(q, p) ==> p in t' && t'[p].Some?
  }

  lemma CarriesStays(q: Query, t: Trie, t': Trie, cur: Cursor, h: Option<Handler>)
    requires Carries(q, t, cur, h) && ValuesStay(q, t, t')
    ensures Carries(q, t', cur, h)
  {
  }

  lemma StoreKeepsValues(q: Query, live: set<QPath>, t: Trie, cur: Cursor, f: RGQLValue)
    ensures ValuesStay(q, t, Store(live, t, cur, f))
  {
  }

  lemma RestrictKeepsValues(q: Query, t: Trie, live: set<QPath>)
    requires Attached(q, live)
    ensures ValuesStay(q, t, Restrict(t, live))
  {
  }

  /** One frame, at a cursor that carries its handler or needs none: the object keeps showing the result
      tree, and the cursor still carries its handler or needs none. */
  lemma FrameFollows(q: Query, live: set<QPath>, j: Json, t: Trie, cur: Cursor, h: Option<Handler>, f: RGQLValue)
    requires KeysApart(q) && Attached(q, live) && Shows(q, j, t) && TrieOk(live, t) && CursorSound(live, t, cur)
    requires FrameOk(f) && Carries(q, t, cur, h)
    requires KindsOk(q, Store(live, t, cur, f))
    ensures
      var t', r := Store(live, t, cur, f), Call(q, live, j, cur, h, f);
      r.Went? && Shows(q, r.json, t') && Carries(q, t', Advance(live, cur, f), r.next)
  {
    if Advance(live, cur, f).oob {
      OutOfBounds(q, live, j, t, cur, h, f);
    } else {
      OffTree(q, live, t, cur);
      if h == HandlerAt(q, cur.path) {
        HeardFrame(q, live, j, t, cur, f);
      } else {
        UnheardFrame(q, live, j, t, cur, f);
      }
    }
  }

  lemma OutOfBounds(q: Query, live: set<QPath>, j: Json, t: Trie, cur: Cursor, h: Option<Handler>, f: RGQLValue)
    requires Advance(live, cur, f).oob
    ensures Call(q, live, j, cur, h, f) == Went(j, h) && Store(live, t, cur, f) == t
    ensures Carries(q, t, Advance(live, cur, f), h)
  {
  }

  lemma OffTree(q: Query, live: set<QPath>, t: Trie, cur: Cursor)
    requires Attached(q, live) && CursorSound(live, t, cur)
    ensures cur.path !in t && !cur.oob ==> !Selected(q, cur.path)
  {
    assert cur.path[..|cur.path|] == cur.path;
  }

  /** What a frame in bounds does, as a step. */
  lemma FrameCases(q: Query, live: set<QPath>, j: Json, t: Trie, cur: Cursor, h: Option<Handler>, f: RGQLValue)
    requires FrameOk(f) && !Advance(live, cur, f).oob
    ensures !cur.oob
    ensures Advance(live, cur, f).path == if StepOf(f).Some? then cur.path + [StepOf(f).value] else cur.path
    ensures Call(q, live, j, cur, h, f) == if h.None? then Went(j, None) else Went1(q, j, h.value, f)
    ensures StepOf(f).None? && h.Some? ==> Went1(q, j, h.value, f) == Went(j, h)
    ensures Store(live, t, cur, f) ==
              if cur.path in t && StepOf(f).Some? then Stepped(t, cur.path, StepOf(f).value, f.value) else t
  {
  }

  lemma HeardFrame(q: Query, live: set<QPath>, j: Json, t: Trie, cur: Cursor, f: RGQLValue)
    requires KeysApart(q) && Shows(q, j, t) && TrieOk(live, t) && FrameOk(f) && !Advance(live, cur, f).oob
    requires cur.path !in t ==> !Selected(q, cur.path)
    requires KindsOk(q, Store(live, t, cur, f))
    ensures
      var t', r := Store(live, t, cur, f), Call(q, live, j, cur, HandlerAt(q, cur.path), f);
      r.Went? && Shows(q, r.json, t') && Carries(q, t', Advance(live, cur, f), r.next)
  {
    TrieOkClosed(live, t);
    FrameCases(q, live, j, t, cur, HandlerAt(q, cur.path), f);
    SelectedIs(q, cur.path);
    hide *;
    if StepOf(f).Some? {
      var s := StepOf(f).value;
      HandlerSnoc(q, cur.path, s);
      SelectedIs(q, cur.path + [s]);
      if Selected(q, cur.path) {
        HandlerStep(q, j, t, cur.path, f);
      } else if cur.path in t {
        StepUnselected(q, j, t, cur.path, s, f.value);
      }
      CarriesOwn(q, Store(live, t, cur, f), Advance(live, cur, f));
    } else {
      CarriesOwn(q, t, Advance(live, cur, f));
    }
  }

  lemma SelectedIs(q: Query, p: Path)
    ensures Selected(q, p) <==> HandlerAt(q, p).Some?
  {
  }

  lemma CarriesOwn(q: Query, t: Trie, cur: Cursor)
    ensures Carries(q, t, cur, HandlerAt(q, cur.path))
  {
  }

  /** Without a handler: what the frame brings is not selected, or there would be a clash. */
  lemma UnheardFrame(q: Query, live: set<QPath>, j: Json, t: Trie, cur: Cursor, f: RGQLValue)
    requires Shows(q, j, t) && TrieOk(live, t) && FrameOk(f) && !Advance(live, cur, f).oob
    requires cur.path in t || !Selected(q, cur.path)
    requires KindsOk(q, Store(live, t, cur, f)) && Idle(q, t, cur.path)
    ensures
      var t', r := Store(live, t, cur, f), Call(q, live, j, cur, None, f);
      r.Went? && Shows(q, r.json, t') && Carries(q, t', Advance(live, cur, f), r.next)
  {
    FrameCases(q, live, j, t, cur, None, f);
    if StepOf(f).Some? {
      var p, s := cur.path, StepOf(f).value;
      HandlerSnoc(q, p, s);
      if Selected(q, p + [s]) { NoClash(q, t, p, s, f.value); }
      if p in t { StepUnselected(q, j, t, p, s, f.value); }
    }
  }

  lemma NoClash(q: Query, t: Trie, p: Path, s: Step, v: Option<Primitive>)
    requires p in t && Selected(q, p + [s]) && Selected(q, p) && KindsOk(q, Stepped(t, p, s, v))
    ensures !Idle(q, t, p)
  {
    var t' := Stepped(t, p, s, v);
    assert Opens(q, t', p, s);
    assert p in t' && t'[p] == t[p] by { assert |p + [s]| != |p|; }
    if p == [] { assert p + [s] == [s] && s == Field(s.id); }
  }

  /** Purging what the query does not select changes nothing it shows. */
  lemma PurgeFollows(q: Query, j: Json, t: Trie, live: set<QPath>)
    requires Shows(q, j, t) && Attached(q, live)
    ensures Shows(q, j, Restrict(t, live))
  {
    var t' := Restrict(t, live);
    forall r, x ensures Opens(q, t', r, x) <==> Opens(q, t, r, x) { }
    forall r | r in t' && r != [] && Selected(q, r) ensures CellOk(q, j, t', r) {
      assert CellOk(q, j, t, r);
      SameOpen(q, t, t', r);
    }
    forall pos | pos in j && pos != [] ensures exists r :: Backed(q, t', pos, r) {
      var r :| Backed(q, t, pos, r);
      SameOpen(q, t, t', r);
      assert Backed(q, t', pos, r);
    }
  }

  /** The client and one decoder, fed frames and operations in any order, until a frame is refused. */
  ghost function Decode(q: Query, c: Client, d: Dec, e: Ears, j: Json, hs: seq<Happening>, size: nat): Heard
    decreases |hs|
  {
    if hs == [] then Heard(j, e)
    else
      match hs[0]
      case Frame(f) =>
        var live := Live(c.tree.nodes);
        var h := Handle(live, d, f, size);
        if h.UnknownId? then Heard(j, e)
        else
          var r := Hear(q, live, d, e, j, f, h.dec);
          if r.HeardThrow? then HeardThrow else Decode(q, c, h.dec, r.ears, r.json, hs[1..], size)
      case Query(op) =>
        var c' := Apply(c, op);
        Decode(q, c', d.(trie := Restrict(d.trie, Live(c'.tree.nodes))), e, j, hs[1..], size)
  }

  /** The object follows the result tree over this run. */
  ghost predicate Follows(q: Query, c: Client, d: Dec, e: Ears, j: Json, hs: seq<Happening>, size: nat) {
    var r := Decode(q, c, d, e, j, hs, size);
    r.Heard? && Shows(q, r.json, Happen(c, d, hs, size).1.trie)
  }

  /** The frames are well-formed, and no position is a value and a container, or a list and an object. */
  ghost predicate Decodable(q: Query, c: Client, d: Dec, hs: seq<Happening>, size: nat)
    decreases |hs|
  {
    && KindsOk(q, d.trie)
    && (hs != [] ==>
          match hs[0]
          case Frame(f) =>
            && FrameOk(f)
            && var h := Handle(Live(c.tree.nodes), d, f, size);
               h.Handled? ==> Decodable(q, c, h.dec, hs[1..], size)
          case Query(op) =>
            var c' := Apply(c, op);
            Decodable(q, c', d.(trie := Restrict(d.trie, Live(c'.tree.nodes))), hs[1..], size))
  }

  lemma HandleParts(live: set<QPath>, d: Dec, f: RGQLValue, size: nat)
    requires PrefixClosed(live) && DecSound(live, d, size) && FrameOk(f) && Handle(live, d, f, size).Handled?
    ensures DecSound(live, Handle(live, d, f, size).dec, size) && CursorSound(live, d.trie, Moved(d, f))
    ensures Handle(live, d, f, size).dec.trie == Store(live, d.trie, Moved(d, f), f)
  {
    ResultTrees.HandleIs(live, d, f, size);
    assert Proj([]) == [];
    var d' := if d.cursor.None? && f.posIdentifier != 0
              then d.(cache := Lru.Renew(d.cache, f.posIdentifier), cursor := Some(Moved(d, f)))
              else d.(cursor := Some(Moved(d, f)));
    var f' := if d.cursor.None? then f.(posIdentifier := 0) else f;
    ResultTrees.ArriveOk(live, d', Moved(d, f), f', size);
  }

  /** The decoded query is not detached in this run. */
  ghost predicate Undetached(hs: seq<Happening>, n: nat) {
    forall i :: 0 <= i < |hs| ==> hs[i] != Happening.Query(Detach(n))
  }

  /** A frame keeps every cursor tuned. */
  lemma TunedFrame(q: Query, live: set<QPath>, d: Dec, e: Ears, j: Json, f: RGQLValue, size: nat)
    requires KeysApart(q) && Attached(q, live) && Shows(q, j, d.trie) && Tuned(q, d, e)
    requires PrefixClosed(live) && DecSound(live, d, size) && FrameOk(f) && Handle(live, d, f, size).Handled?
    requires KindsOk(q, Handle(live, d, f, size).dec.trie)
    ensures
      var d' := Handle(live, d, f, size).dec;
      var r := Hear(q, live, d, e, j, f, d');
      r.Heard? && Shows(q, r.json, d'.trie) && Tuned(q, d', r.ears)
  {
    var cur, h, d' := Moved(d, f), EarAt(d, e, f), Handle(live, d, f, size).dec;
    HandleParts(live, d, f, size);
    MovedCarries(q, d, e, f);
    SoundTrie(live, d, size);
    FrameFollows(q, live, j, d.trie, cur, h, f);
    StoreKeepsValues(q, live, d.trie, cur, f);
    HandledParts(live, d, f, size);
    HearIs(q, live, d, e, j, f, d');
    var next := Call(q, live, j, cur, h, f).next;
    hide *;
    forall k | k in d'.cache.vals ensures Carries(q, d'.trie, d'.cache.vals[k], EarsFiled(d, e, f, next, d')[k]) {
      if k in d.cache.vals { TunedAt(q, d, e, k); CarriesStays(q, d.trie, d'.trie, d.cache.vals[k], e.cached[k]); }
    }
    TunedFrom(q, d', Hear(q, live, d, e, j, f, d').ears);
  }

  lemma SoundTrie(live: set<QPath>, d: Dec, size: nat)
    requires DecSound(live, d, size)
    ensures TrieOk(live, d.trie)
  {
  }

  lemma MovedCarries(q: Query, d: Dec, e: Ears, f: RGQLValue)
    requires Tuned(q, d, e)
    ensures Carries(q, d.trie, Moved(d, f), EarAt(d, e, f)) && e.root == Some(TopHandler(q))
    ensures e.cached.Keys == d.cache.vals.Keys
  {
  }

  lemma TunedAt(q: Query, d: Dec, e: Ears, k: nat)
    requires Tuned(q, d, e) && k in d.cache.vals
    ensures k in e.cached && Carries(q, d.trie, d.cache.vals[k], e.cached[k])
  {
  }

  lemma TunedFrom(q: Query, d: Dec, e: Ears)
    requires e.root == Some(TopHandler(q)) && e.cached.Keys == d.cache.vals.Keys
    requires forall k :: k in d.cache.vals ==> Carries(q, d.trie, d.cache.vals[k], e.cached[k])
    requires d.cursor.Some? ==> Carries(q, d.trie, d.cursor.value, e.cursor)
    ensures Tuned(q, d, e)
  {
  }

  /** Which cursors there are after a frame. */
  lemma HandledParts(live: set<QPath>, d: Dec, f: RGQLValue, size: nat)
    requires DecSound(live, d, size) && Handle(live, d, f, size).Handled?
    ensures
      var d', next := Handle(live, d, f, size).dec, Advance(live, Moved(d, f), f);
      && d'.cursor == (if f.value.Some? then None else Some(next))
      && (forall k :: k in d'.cache.vals ==>
            if d.cursor.Some? && f.posIdentifier != 0 && k == f.posIdentifier then d'.cache.vals[k] == next
            else k in d.cache.vals && d'.cache.vals[k] == d.cache.vals[k])
  {
    if d.cursor.None? && f.posIdentifier != 0 {
      Lru.RenewWf(d.cache, f.posIdentifier);
      assert Advance(live, Moved(d, f), f) == Advance(live, Moved(d, f), f.(posIdentifier := 0));
    }
  }

  lemma HearIs(q: Query, live: set<QPath>, d: Dec, e: Ears, j: Json, f: RGQLValue, d': Dec)
    ensures
      var r := Call(q, live, j, Moved(d, f), EarAt(d, e, f), f);
      && (r.Went? ==>
            Hear(q, live, d, e, j, f, d') ==
            Heard(r.json, Ears(e.root, EarsFiled(d, e, f, r.next, d'), if f.value.Some? then None else r.next)))
      && (r.Threw? ==> Hear(q, live, d, e, j, f, d') == HeardThrow)
    ensures forall next ::
      EarsFiled(d, e, f, next, d').Keys == d'.cache.vals.Keys
      && forall k :: k in d'.cache.vals ==>
           EarsFiled(d, e, f, next, d')[k] ==
             if d.cursor.Some? && f.posIdentifier != 0 && k == f.posIdentifier then next
             else if k in e.cached then e.cached[k]
             else None
  {
  }

  lemma TunedOp(q: Query, d: Dec, e: Ears, live: set<QPath>)
    requires Tuned(q, d, e) && Attached(q, live)
    ensures Tuned(q, d.(trie := Restrict(d.trie, live)), e)
  {
    RestrictKeepsValues(q, d.trie, live);
    hide Carries, Restrict, ValuesStay;
    var d' := d.(trie := Restrict(d.trie, live));
    forall k | k in d.cache.vals ensures Carries(q, d'.trie, d.cache.vals[k], e.cached[k]) {
      CarriesStays(q, d.trie, d'.trie, d.cache.vals[k], e.cached[k]);
    }
    if d.cursor.Some? { CarriesStays(q, d.trie, d'.trie, d.cursor.value, e.cursor); }
  }

  /** The decoder follows the result tree: over any interleaving of frames, attaches, failed attaches
      and detaches of other queries, through whatever aliases the values arrive, the result object is
      the response to the query, exactly what the result tree has of what it asks for, with aliases
      applied; provided that every cursor carries the handler of its path, or stands where nothing more
      can come. */
  lemma DecoderFollows(q: Query, n: nat, sels: seq<Sel>, c: Client, d: Dec, e: Ears, j: Json, hs: seq<Happening>,
                       size: nat)
    requires ClientOk(c) && DecSound(Live(c.tree.nodes), d, size) && Clients.CursorsBounded(d, c.tree.next)
    requires ResponsesApart(sels) && Decodes(q, c, n, sels) && Undetached(hs, n)
    requires Shows(q, j, d.trie) && Tuned(q, d, e) && Decodable(q, c, d, hs, size)
    ensures Follows(q, c, d, e, j, hs, size)
    ensures Responds(q, sels, c, d, e, j, hs, size)
  {
    hide *;
    DecoderKeepsUp(q, n, sels, c, d, e, j, hs, size);
    FollowsResponds(q, n, sels, c, d, e, j, hs, size);
  }

  /** Over this run, the object stays the response to the query. */
  ghost predicate Responds(q: Query, sels: seq<Sel>, c: Client, d: Dec, e: Ears, j: Json, hs: seq<Happening>,
                           size: nat)
  {
    var r := Decode(q, c, d, e, j, hs, size);
    r.Heard? && Displays(c.tree.nodes, sels, r.json, Happen(c, d, hs, size).1.trie)
  }

  lemma FollowsResponds(q: Query, n: nat, sels: seq<Sel>, c: Client, d: Dec, e: Ears, j: Json, hs: seq<Happening>,
                        size: nat)
    requires ClientOk(c) && Decodes(q, c, n, sels)
    ensures Follows(q, c, d, e, j, hs, size) <==> Responds(q, sels, c, d, e, j, hs, size)
  {
    var r := Decode(q, c, d, e, j, hs, size);
    if r.Heard? { ShowsDisplays(q, c, n, sels, r.json, Happen(c, d, hs, size).1.trie); }
    hide Decode, Happen, Shows, Displays;
  }

  lemma FollowsMeans(q: Query, c: Client, d: Dec, e: Ears, j: Json, hs: seq<Happening>, size: nat)
    requires Follows(q, c, d, e, j, hs, size)
    ensures var r := Decode(q, c, d, e, j, hs, size); r.Heard? && Shows(q, r.json, Happen(c, d, hs, size).1.trie)
  {
  }

  lemma {:induction false} DecoderKeepsUp(q: Query, n: nat, sels: seq<Sel>, c: Client, d: Dec, e: Ears, j: Json,
                                          hs: seq<Happening>, size: nat)
    requires ClientOk(c) && DecSound(Live(c.tree.nodes), d, size) && Clients.CursorsBounded(d, c.tree.next)
    requires ResponsesApart(sels) && Decodes(q, c, n, sels) && Undetached(hs, n)
    requires Shows(q, j, d.trie) && Tuned(q, d, e) && Decodable(q, c, d, hs, size)
    ensures Follows(q, c, d, e, j, hs, size)
    decreases |hs|
  {
    ResponsesKeys(q, c, n, sels);
    DecodesAttached(q, c, n, sels);
    if hs != [] {
      LivePrefixClosed(c.tree.next, c.tree.nodes);
      Later(hs, n);
      hide Decodes, ResponsesApart, Undetached, Shows, KeysApart, Attached, Tuned, Hear;
      match hs[0] {
        case Frame(f) =>
          var live := Live(c.tree.nodes);
          var h := Handle(live, d, f, size);
          if h.Handled? {
            HandleParts(live, d, f, size);
            Clients.LiveIsBelow(c.tree.next, c.tree.nodes);
            Clients.HandleBounded(live, d, f, size, c.tree.next);
            DecodableNow(q, c, h.dec, hs[1..], size);
            TunedFrame(q, live, d, e, j, f, size);
            var r := Hear(q, live, d, e, j, f, h.dec);
            DecoderKeepsUp(q, n, sels, c, h.dec, r.ears, r.json, hs[1..], size);
          }
        case Query(op) =>
          var c' := Apply(c, op);
          Clients.OpKeepsDec(c, op, d, size);
          ReferencesConserved(c, op);
          DecodesStays(q, c, n, sels, op);
          DecodesAttached(q, c', n, sels);
          PurgeFollows(q, j, d.trie, Live(c'.tree.nodes));
          TunedOp(q, d, e, Live(c'.tree.nodes));
          DecoderKeepsUp(q, n, sels, c', d.(trie := Restrict(d.trie, Live(c'.tree.nodes))), e, j, hs[1..], size);
      }
    }
  }

  lemma Later(hs: seq<Happening>, n: nat)
    requires Undetached(hs, n) && hs != []
    ensures hs[0] != Happening.Query(Detach(n)) && Undetached(hs[1..], n)
  {
  }

  lemma DecodableNow(q: Query, c: Client, d: Dec, hs: seq<Happening>, size: nat)
    requires Decodable(q, c, d, hs, size)
    ensures KindsOk(q, d.trie)
  {
  }

  /** A handler that is called once more with a node of the tree, as the purge does along its way
      (client/result-tree.ts:221-249), changes nothing. */
  lemma KnownStep(q: Query, j: Json, t: Trie, p: Path, f: RGQLValue)
    requires KeysApart(q) && Shows(q, j, t) && TrieClosed(t) && KindsOk(q, t) && Selected(q, p) && StepOf(f).Some?
    requires p + [StepOf(f).value] in t && t[p + [StepOf(f).value]] == f.value
    ensures Went1(q, j, HandlerAt(q, p).value, f) == Went(j, HandlerAt(q, p + [StepOf(f).value]))
  {
    assert Stepped(t, p, StepOf(f).value, f.value) == t;
    HandlerStep(q, j, t, p, f);
    ShowsUnique(q, j, Went1(q, j, HandlerAt(q, p).value, f).json, t);
  }

  // ----- late: a decoder attached to a tree that is there already

  /** A part of a tree, with the same values. */
  ghost predicate PartOf(a: Trie, t: Trie) {
    a.Keys <= t.Keys && forall p | p in a :: a[p] == t[p]
  }

  /** What has been replayed once the first `i` children, with all below them, have been. */
  ghost function Covered(seen: Trie, t: Trie, cs: seq<ResultTreeNode>, i: int): Trie {
    map p | p in t && (p in seen || exists k :: 0 <= k < i && k < |cs| && cs[k].path <= p) :: t[p]
  }

  ghost function CoveredAt(seen: Trie, t: Trie, path: Path): Trie {
    map p | p in t && (p in seen || path <= p) :: t[p]
  }

  /** More nodes, none of them selected. */
  lemma ShowsMore(q: Query, j: Json, a: Trie, t: Trie)
    requires Shows(q, j, a) && PartOf(a, t) && forall p | p in t && p !in a :: !Selected(q, p)
    ensures Shows(q, j, t)
  {
    forall r, x ensures Opens(q, t, r, x) <==> Opens(q, a, r, x) { }
    forall r | r in t && r != [] && Selected(q, r) ensures CellOk(q, j, t, r) {
      assert CellOk(q, j, a, r);
      SameOpen(q, a, t, r);
    }
    forall pos | pos in j && pos != [] ensures exists r :: Backed(q, t, pos, r) {
      var r :| Backed(q, a, pos, r);
      SameOpen(q, a, t, r);
      assert Backed(q, t, pos, r);
    }
  }

  lemma {:induction false} BelowUnselected(q: Query, p: Path, r: Path)
    requires !Selected(q, p) && p <= r
    ensures !Selected(q, r)
    decreases |r|
  {
    if p != r {
      var up, x := r[..|r| - 1], r[|r| - 1];
      assert r == up + [x] && p <= up;
      HandlerSnoc(q, up, x);
      BelowUnselected(q, p, up);
    }
  }

  lemma KindsPart(q: Query, a: Trie, t: Trie)
    requires KindsOk(q, t) && PartOf(a, t)
    ensures KindsOk(q, a)
  {
    forall p, s | Opens(q, a, p, s) ensures Opens(q, t, p, s) { }
  }

  /** One child replayed: its step, and what is to be covered below it. */
  lemma ChildReplay(q: Query, j: Json, seen: Trie, t: Trie, p: Path, f: RGQLValue, c: Path)
    requires KeysApart(q) && Shows(q, j, seen) && TrieClosed(seen) && PartOf(seen, t) && KindsOk(q, t) && p in seen
    requires Selected(q, p)
    requires StepOf(f).Some? && c == p + [StepOf(f).value] && c in t && t[c] == f.value
    ensures var r := Went1(q, j, HandlerAt(q, p).value, f);
            var seen' := seen[c := t[c]];
            && r.Went? && r.next == HandlerAt(q, c) && Shows(q, r.json, seen') && TrieClosed(seen') && PartOf(seen', t)
  {
    var s := StepOf(f).value;
    var seen' := seen[c := t[c]];
    assert Stepped(seen, p, s, f.value) == seen';
    KindsPart(q, seen', t);
    HandlerStep(q, j, seen, p, f);
    forall r, x | r + [x] in seen' ensures r in seen' {
      if r + [x] == c { SteppedOpens(q, seen, p, s, f.value, r, x); }
    }
  }

  lemma CoveredNext(seen: Trie, t: Trie, cs: seq<ResultTreeNode>, i: nat)
    requires i < |cs| && cs[i].path in t
    ensures
      CoveredAt(Covered(seen, t, cs, i)[cs[i].path := t[cs[i].path]], t, cs[i].path) == Covered(seen, t, cs, i + 1)
    ensures PartOf(seen, t) ==> Covered(seen, t, cs, 0) == seen
  {
    var a, b := CoveredAt(Covered(seen, t, cs, i)[cs[i].path := t[cs[i].path]], t, cs[i].path),
      Covered(seen, t, cs, i + 1);
    forall p | p in t ensures p in a <==> p in b {
      if p in b && p !in seen {
        var k :| 0 <= k < i + 1 && k < |cs| && cs[k].path <= p;
        if k < i { assert p in Covered(seen, t, cs, i); }
      }
      if p in Covered(seen, t, cs, i) && p !in seen {
        var k :| 0 <= k < i && k < |cs| && cs[k].path <= p;
        assert 0 <= k < i + 1;
      }
      if cs[i].path <= p { assert 0 <= i < i + 1; }
    }
  }

  lemma KidsThere(at: Places, gone: set<ResultTreeNode>, kids: ResultNodes.Kids, vals: Vals, path: Path)
    requires Placed(at, gone, kids, vals) && path in at
    ensures at[path] in kids
  {
  }

  /** Every node below is below a child, so covering the children covers everything. */
  lemma CoveredAll(seen: Trie, at: Places, gone: set<ResultTreeNode>, kids: ResultNodes.Kids, vals: Vals, t: Trie,
                   path: Path)
    requires Placed(at, gone, kids, vals) && t.Keys == at.Keys && path in seen && path in at
    ensures Covered(seen, t, kids[at[path]], |kids[at[path]]|) == CoveredAt(seen, t, path)
  {
    KidsThere(at, gone, kids, vals, path);
    hide Placed;
    var cs := kids[at[path]];
    var a, b := Covered(seen, t, cs, |cs|), CoveredAt(seen, t, path);
    forall p | p in t ensures p in a <==> p in b {
      if p in b && p !in seen {
        var c := ResultPurge.UnderChild(at, gone, kids, vals, path, p);
        var k :| 0 <= k < |cs| && cs[k] == c;
        assert cs[k].path <= p;
      }
      if p in a && p !in seen {
        var k :| 0 <= k < |cs| && cs[k].path <= p;
        ResultPurge.ChildStep(at, gone, kids, vals, path, cs[k]);
        assert path <= cs[k].path;
        assert p[..|cs[k].path|][..|path|] == path;
      }
    }
  }

  /** What replaying has shown so far. */
  ghost predicate Replaying(q: Query, j: Json, seen: Trie, t: Trie, path: Path) {
    && KeysApart(q) && Shows(q, j, seen) && TrieClosed(seen) && PartOf(seen, t) && TrieClosed(t) && KindsOk(q, t)
    && path in seen && Selected(q, path)
  }

  /** callHandler: hands every selected node below `rnode` to the handler. */
  method CallHandler(rnode: ResultTreeNode, dec: JSONDecoder, handler: Handler, ghost at: Places,
                     ghost gone: set<ResultTreeNode>,
                     ghost path: Path, ghost seen: Trie, ghost bound: nat)
    returns (threw: bool)
    requires PlacesOk(at, gone) && path in at && at[path] == rnode && ResultPurge.Within(at, bound)
    requires HandlerAt(dec.query, path) == Some(handler) && Replaying(dec.query, dec.result, seen, TrieOf(at), path)
    modifies dec
    ensures !threw && Replaying(dec.query, dec.result, CoveredAt(seen, TrieOf(at), path), TrieOf(at), path)
    decreases bound - |path|
  {
    hide *;
    ghost var t, q := TrieOf(at), dec.query;
    PlacesMean(at, gone);
    ResultTrees.TrieKeys(at);
    InHeap(at, path);
    ghost var cs := rnode.children;
    ReplayStarts(q, dec.result, seen, t, cs, path);
    for i := 0 to |rnode.children|
      invariant rnode.children == cs && Replaying(q, dec.result, Covered(seen, t, cs, i), t, path)
    {
      var child := rnode.children[i];
      ChildFacts(at, gone, path, child, bound);
      RoundStarts(q, dec.result, seen, t, cs, i, path, child.value);
      var next;
      threw, next := dec.HandleValue(handler, child.value);
      if next.Some? {
        threw := CallHandler(child, dec, next.value, at, gone, child.path,
          Covered(seen, t, cs, i)[child.path := t[child.path]], bound);
        RoundEnds(q, dec.result, seen, t, cs, i, path);
      }
    }
    CoveredAll(seen, at, gone, KidsNow(at.Values + gone), ValsNow(at.Values), t, path);
    threw := false;
  }

  lemma ReplayStarts(q: Query, j: Json, seen: Trie, t: Trie, cs: seq<ResultTreeNode>, path: Path)
    requires Replaying(q, j, seen, t, path)
    ensures Replaying(q, j, Covered(seen, t, cs, 0), t, path) && path in seen && PartOf(seen, t)
  {
    assert Covered(seen, t, cs, 0) == seen;
  }

  lemma ChildFacts(at: Places, gone: set<ResultTreeNode>, path: Path, child: ResultTreeNode, bound: nat)
    requires PlacesOk(at, gone) && path in at && child in at[path].children && ResultPurge.Within(at, bound)
    ensures child.path in at && at[child.path] == child && StepOf(child.value).Some?
    ensures child.path == path + [StepOf(child.value).value]
    ensures child.path in TrieOf(at) && TrieOf(at)[child.path] == child.value.value && |path| < |child.path| <= bound
    ensures TrieOf(at).Keys == at.Keys
  {
    PlacesMean(at, gone);
    InHeap(at, path);
    ResultPurge.ChildStep(at, gone, KidsNow(at.Values + gone), ValsNow(at.Values), path, child);
  }

  lemma RoundStarts(q: Query, j: Json, seen: Trie, t: Trie, cs: seq<ResultTreeNode>, i: nat, path: Path, f: RGQLValue)
    requires i < |cs| && Replaying(q, j, Covered(seen, t, cs, i), t, path) && path in seen
    requires StepOf(f).Some? && cs[i].path == path + [StepOf(f).value] && cs[i].path in t && t[cs[i].path] == f.value
    ensures HandlerAt(q, path).Some?
    ensures var c := cs[i].path; var r := Went1(q, j, HandlerAt(q, path).value, f);
            && r.Went? && r.next == HandlerAt(q, c)
            && (r.next.Some? ==> Replaying(q, r.json, Covered(seen, t, cs, i)[c := t[c]], t, c))
            && (r.next.None? ==> Replaying(q, r.json, Covered(seen, t, cs, i + 1), t, path))
  {
    var c := cs[i].path;
    var a := Covered(seen, t, cs, i);
    ChildReplay(q, j, a, t, path, f, c);
    CoveredNext(seen, t, cs, i);
    var r := Went1(q, j, HandlerAt(q, path).value, f);
    if r.next.None? {
      var b := Covered(seen, t, cs, i + 1);
      forall p | p in b && p !in a[c := t[c]] ensures !Selected(q, p) { BelowUnselected(q, c, p); }
      ShowsMore(q, r.json, a[c := t[c]], b);
      CoveredClosed(a[c := t[c]], t, c);
    }
  }

  lemma CoveredClosed(seen: Trie, t: Trie, c: Path)
    requires TrieClosed(seen) && PartOf(seen, t) && c in seen
    ensures TrieClosed(t) ==> TrieClosed(CoveredAt(seen, t, c))
  {
    var a := CoveredAt(seen, t, c);
    if TrieClosed(t) {
      forall p, s | p + [s] in a ensures p in a {
        if p + [s] !in seen && p !in seen {
          if c == p + [s] { assert false; }
          assert c <= p + [s] && c != p + [s];
          assert c == (p + [s])[..|c|] == p[..|c|];
        }
      }
    }
  }

  lemma RoundEnds(q: Query, j: Json, seen: Trie, t: Trie, cs: seq<ResultTreeNode>, i: nat, path: Path)
    requires i < |cs| && cs[i].path in t && path in seen && path in t && Selected(q, path)
    requires
      Replaying(q, j, CoveredAt(Covered(seen, t, cs, i)[cs[i].path := t[cs[i].path]], t, cs[i].path), t, cs[i].path)
    ensures Replaying(q, j, Covered(seen, t, cs, i + 1), t, path)
  {
    CoveredNext(seen, t, cs, i);
  }

  /** An empty object shows a tree of which only the root has been looked at. */
  lemma EmptyShows(q: Query, t: Trie)
    requires KeysApart(q) && TrieClosed(t) && KindsOk(q, t)
    ensures Replaying(q, map[[] := ObjectCell], map[[] := t[[]]], t, [])
    ensures CoveredAt(map[[] := t[[]]], t, []) == t
  {
    var seen: Trie := map[[] := t[[]]];
    KindsPart(q, seen, t);
  }

  /** addResultHandler: a decoder that comes late is handed the tree as it is, and shows all of it. Its
      handler goes to the root cursor alone: no cursor that is cached or under way gets one. */
  method AddResultHandler(tree: ResultTrees.ResultTree, dec: JSONDecoder,
                          ghost qnodes: set<QueryTreeNodes.QueryTreeNode>)
    returns (threw: bool)
    requires tree.Valid(qnodes) && dec !in tree.listeners && dec.result == map[[] := ObjectCell]
    requires KeysApart(dec.query) && KindsOk(dec.query, tree.Model().trie)
    modifies dec, tree`handlers, tree`listeners, tree.rootCursor`resultHandlers
    ensures tree.Valid(qnodes) && tree.Model() == old(tree.Model()) && tree.listeners == old(tree.listeners) + {dec}
    ensures !threw && Shows(dec.query, dec.result, tree.Model().trie)
    ensures forall c, n, sels :: ClientOk(c) && Decodes(dec.query, c, n, sels) ==>
        Displays(c.tree.nodes, sels, dec.result, tree.Model().trie)
    ensures EarsBy(tree.Carrying(), dec) == LateEars(dec.query, tree.Model())
    ensures forall x | x in old(tree.listeners) ::
        EarsBy(tree.Carrying(), x) == old(EarsBy(tree.Carrying(), x)) && x.result == old(x.result)
  {
    hide *;
    TopFacts(dec.query);
    tree.AddHandler(dec, TopHandler(dec.query), qnodes);
    TreeFacts(tree, qnodes);
    ResultTrees.CursorsThere(tree);
    LateEarsAre(dec.query, tree.Model());
    ghost var bound := ResultTrees.HasBound(tree.at);
    EmptyShows(dec.query, TrieOf(tree.at));
    threw := CallHandler(tree.root, dec, TopHandler(dec.query), tree.at, tree.gone, [],
      map[[] := TrieOf(tree.at)[[]]], bound);
    ReplayMeans(dec.query, dec.result, TrieOf(tree.at), TrieOf(tree.at), []);
    forall c, n, sels | ClientOk(c) && Decodes(dec.query, c, n, sels)
      ensures Displays(c.tree.nodes, sels, dec.result, tree.Model().trie)
    {
      ShowsDisplays(dec.query, c, n, sels, dec.result, tree.Model().trie);
    }
  }

  lemma LateEarsAre(q: Query, d: Dec)
    ensures LateEars(q, d) == Ears(Some(TopHandler(q)), map k | k in d.cache.vals :: None, None)
  {
  }

  lemma TopFacts(q: Query)
    ensures HandlerAt(q, []) == Some(TopHandler(q))
  {
  }

  lemma ReplayMeans(q: Query, j: Json, seen: Trie, t: Trie, path: Path)
    requires Replaying(q, j, seen, t, path)
    ensures Shows(q, j, seen)
  {
  }

  lemma TreeFacts(tree: ResultTrees.ResultTree, qnodes: set<QueryTreeNodes.QueryTreeNode>)
    requires tree.Valid(qnodes)
    ensures PlacesOk(tree.at, tree.gone) && [] in tree.at && tree.at[[]] == tree.root
    ensures tree.Model().trie == TrieOf(tree.at)
    ensures TrieClosed(TrieOf(tree.at)) && [] in TrieOf(tree.at)
  {
    var t := TrieOf(tree.at);
    forall p, s | p + [s] in t ensures p in t {
      ParentPlaced(tree.at, tree.gone, p, FrameOf(s, 0, None, []));
    }
  }

  /** Replay equals live delivery: a decoder that has followed the stream from the start and one that
      was attached to the tree just now hold the same object. */
  lemma ReplayEqualsLive(q: Query, n: nat, sels: seq<Sel>, c: Client, d: Dec, hs: seq<Happening>, size: nat, late: Json)
    requires ClientOk(c) && DecSound(Live(c.tree.nodes), d, size) && Clients.CursorsBounded(d, c.tree.next)
    requires ResponsesApart(sels) && Decodes(q, c, n, sels) && Undetached(hs, n)
    requires d.trie == map[[] := None] && d.cursor == None && d.cache.vals == map[] && Decodable(q, c, d, hs, size)
    requires Shows(q, late, Happen(c, d, hs, size).1.trie)
    ensures
      var r := Decode(q, c, d, LateEars(q, d), map[[] := ObjectCell], hs, size);
      r.Heard? && r.json == late
  {
    var j: Json, e := map[[] := ObjectCell], LateEars(q, d);
    assert Shows(q, j, d.trie);
    assert Tuned(q, d, e);
    DecoderFollows(q, n, sels, c, d, e, j, hs, size);
    ShowsUnique(q, Decode(q, c, d, e, j, hs, size).json, late, Happen(c, d, hs, size).1.trie);
  }
}
