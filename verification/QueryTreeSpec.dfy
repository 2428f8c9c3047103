/** The shared query tree as values: what attaching and detaching a query does to it, which
    mutations are emitted, and what replaying them gives. The classes in QueryTree.dfy and
    ServerTree.dfy are proved to compute these. */
module QueryTreeSpec {
  import opened Messages

  /** What identifies a field among its siblings: its name and its arguments. */
  datatype FieldKey = FieldKey(name: string, args: map<string, nat>)

  /** A node below the root; the root itself is id 0 and is not stored. */
  datatype QN = QN(parent: nat, key: FieldKey)

  type Nodes = map<nat, QN>

  /** nextID, the nodes, and every node's reference count as a multiplicity. */
  datatype Tree = Tree(next: nat, nodes: Nodes, refs: multiset<nat>)

  /** A field of a query. `ok` is whether the schema resolves it where it stands; resolveChild
      throws when it does not. `alias` is empty when there is none. */
  datatype Sel = Sel(key: FieldKey, ok: bool, sels: seq<Sel>, alias: string)

  /** The wire form of a subtree. */
  datatype Proto = Proto(id: nat, key: FieldKey, children: seq<Proto>)

  datatype Mutation = AddChild(nodeId: nat, node: Proto) | Delete(nodeId: nat)

  // ----- attaching

  ghost predicate HasChild(nodes: Nodes, parent: nat, key: FieldKey) {
    exists id :: id in nodes && nodes[id] == QN(parent, key)
  }

  ghost function ChildOf(nodes: Nodes, parent: nat, key: FieldKey): nat
    requires HasChild(nodes, parent, key)
  {
    var id :| id in nodes && nodes[id] == QN(parent, key);
    id
  }

  /** resolveChild, once the schema has been consulted: the matching child, or a new one. */
  ghost function Resolve(t: Tree, parent: nat, key: FieldKey): (nat, Tree) {
    if HasChild(t.nodes, parent, key) then (ChildOf(t.nodes, parent, key), t)
    else (t.next, t.(next := t.next + 1, nodes := t.nodes[t.next := QN(parent, key)]))
  }

  /** A walk over a query: the nodes referenced, in order, the new nodes announced, and whether a
      field failed to resolve. */
  datatype Walked = Walked(tree: Tree, occ: seq<nat>, added: seq<nat>, failed: bool)

  function SelsSize(sels: seq<Sel>): nat {
    if sels == [] then 0 else 1 + SelsSize(sels[0].sels) + SelsSize(sels[1..])
  }

  /** The visitor of attach, below `parent`. `inNew` is whether newNodeDepth is positive. */
  ghost function Walk(t: Tree, parent: nat, sels: seq<Sel>, inNew: bool): Walked
    decreases SelsSize(sels)
  {
    if sels == [] then Walked(t, [], [], false)
    else if !sels[0].ok then Walked(t, [], [], true)
    else
      var (id, t1) := Resolve(t, parent, sels[0].key);
      var isNew := id !in t1.refs;
      var announced := if isNew && !inNew then [id] else [];
      var below := Walk(t1.(refs := t1.refs + multiset{id}), id, sels[0].sels, inNew || isNew);
      if below.failed then Walked(below.tree, [id] + below.occ, announced + below.added, true)
      else
        var rest := Walk(below.tree, parent, sels[1..], inNew);
        Walked(rest.tree, [id] + below.occ + rest.occ, announced + below.added + rest.added, rest.failed)
  }

  /** What a query selects below a node, by query node id. */
  datatype QueryMap = QueryMap(elems: map<nat, QueryMapElem>)
  datatype QueryMapElem = QueryMapElem(alias: string, selections: Option<QueryMap>)

  /** The query map the visitor builds along the way: a field selected again replaces what is there. */
  ghost function MapWalk(t: Tree, parent: nat, sels: seq<Sel>, inNew: bool, qm: QueryMap): QueryMap
    decreases SelsSize(sels)
  {
    if sels == [] || !sels[0].ok then qm
    else
      var (id, t1) := Resolve(t, parent, sels[0].key);
      var t2, inNew2 := t1.(refs := t1.refs + multiset{id}), inNew || id !in t1.refs;
      var below := MapWalk(t2, id, sels[0].sels, inNew2, QueryMap(map[]));
      var elem := QueryMapElem(sels[0].alias, if sels[0].sels == [] then None else Some(below));
      MapWalk(Walk(t2, id, sels[0].sels, inNew2).tree, parent, sels[1..], inNew, QueryMap(qm.elems[id := elem]))
  }

  /** A full prune: the nodes that are still referenced. */
  function Prune(t: Tree): Tree {
    t.(nodes := map id | id in t.nodes && id in t.refs :: t.nodes[id])
  }

  /** The roots of the maximal unreferenced subtrees. */
  function Unreferenced(t: Tree): set<nat> {
    set id | id in t.nodes && id !in t.refs && (t.nodes[id].parent == 0 || t.nodes[id].parent in t.refs)
  }

  /** Giving up the references of one query, and sweeping. */
  function Release(t: Tree, occ: seq<nat>): Tree {
    Prune(t.(refs := t.refs - multiset(occ)))
  }

  // ----- the client's history

  /** The tree and, by query id, the references of each query; detached and failed ones hold none. */
  datatype Client = Client(tree: Tree, queries: seq<seq<nat>>)

  datatype Op = Attach(sels: seq<Sel>) | Detach(queryId: nat)

  ghost function Apply(c: Client, op: Op): Client {
    match op
    case Attach(sels) =>
      var w := Walk(c.tree, 0, sels, false);
      if w.failed then Client(Release(w.tree, w.occ), c.queries + [[]])
      else Client(w.tree, c.queries + [w.occ])
    case Detach(q) =>
      if q < |c.queries| then Client(Release(c.tree, c.queries[q]), c.queries[q := []]) else c
  }

  ghost function ApplyAll(c: Client, ops: seq<Op>): Client
    decreases |ops|
  {
    if ops == [] then c else ApplyAll(Apply(c, ops[0]), ops[1..])
  }

  /** Every reference any attached query holds. */
  function Held(queries: seq<seq<nat>>): multiset<nat> {
    if queries == [] then multiset{} else Held(queries[..|queries| - 1]) + multiset(queries[|queries| - 1])
  }

  /** Query ids start at 1. */
  const NEW_CLIENT := Client(Tree(1, map[], multiset{}), [[]])

  // ----- invariants

  /** Ids are below `next`, parents have smaller ids and are there, siblings differ. */
  ghost predicate NodesOk(next: nat, nodes: Nodes) {
    && 0 < next
    && (forall id :: id in nodes ==> 0 < id < next)
    && ParentsIn(nodes)
    && (forall i, j {:trigger nodes[i], nodes[j]} :: i in nodes && j in nodes && nodes[i] == nodes[j] ==> i == j)
  }

  ghost predicate ParentsIn(nodes: Nodes) {
    forall id {:trigger nodes[id].parent} :: id in nodes ==>
      nodes[id].parent < id && (nodes[id].parent != 0 ==> nodes[id].parent in nodes)
  }

  /** Between steps of a walk every node is referenced, and only nodes are. */
  ghost predicate TreeOk(t: Tree) {
    && NodesOk(t.next, t.nodes)
    && (forall id :: id in t.nodes <==> id in t.refs)
  }

  /** A query that references a node references its parent. */
  ghost predicate ParentClosed(nodes: Nodes, top: nat, occ: seq<nat>) {
    forall id :: id in occ ==> id in nodes && (nodes[id].parent == top || nodes[id].parent in occ)
  }

  /** Reference conservation: the counts are exactly what the attached queries hold. */
  ghost predicate ClientOk(c: Client) {
    && TreeOk(c.tree)
    && c.tree.refs == Held(c.queries)
    && AllClosed(c.tree.nodes, c.queries)
  }

  ghost predicate AllClosed(nodes: Nodes, queries: seq<seq<nat>>) {
    forall q :: 0 <= q < |queries| ==> ParentClosed(nodes, 0, queries[q])
  }

  // ----- what is emitted

  /** Each added root goes out once, in order, with its whole subtree. */
  ghost predicate Announces(nodes: Nodes, added: seq<nat>, ms: seq<Mutation>) {
    && |ms| == |added|
    && forall i :: 0 <= i < |ms| ==>
         && ms[i].AddChild? && ms[i].node.id == added[i]
         && added[i] in nodes && ms[i].nodeId == nodes[added[i]].parent
         && Flatten(ms[i].nodeId, ms[i].node) == Sub(nodes, added[i])
         && Tidy(ms[i].nodeId, [ms[i].node])
  }

  /** Each dropped root goes out once. */
  ghost predicate Drops(dropped: set<nat>, ms: seq<Mutation>) {
    && (forall i :: 0 <= i < |ms| ==> ms[i].Delete? && ms[i].nodeId in dropped)
    && (forall i, j :: 0 <= i < j < |ms| ==> ms[i] != ms[j])
    && (forall id :: id in dropped ==> Delete(id) in ms)
  }

  /** The mutations of one operation, up to the order of siblings. */
  ghost predicate Emits(c: Client, op: Op, ms: seq<Mutation>) {
    match op
    case Attach(sels) =>
      var w := Walk(c.tree, 0, sels, false);
      if w.failed then ms == [] else Announces(w.tree.nodes, w.added, ms)
    case Detach(q) =>
      if q < |c.queries|
      then Drops(Unreferenced(c.tree.(refs := c.tree.refs - multiset(c.queries[q]))), ms)
      else ms == []
  }

  /** No two sibling selections are for the same field. */
  ghost predicate Distinct(sels: seq<Sel>)
    decreases SelsSize(sels)
  {
    sels != [] ==>
      && (forall k :: 0 < k < |sels| ==> sels[k].key != sels[0].key)
      && Distinct(sels[0].sels)
      && Distinct(sels[1..])
  }

  // ----- replaying mutations

  function ProtosSize(ps: seq<Proto>): nat {
    if ps == [] then 0 else 1 + ProtosSize(ps[0].children) + ProtosSize(ps[1..])
  }

  /** The nodes wire subtrees stand for, below `parent`. */
  function FlattenAll(parent: nat, ps: seq<Proto>): Nodes
    decreases ProtosSize(ps)
  {
    if ps == [] then map[]
    else FlattenAll(ps[0].id, ps[0].children)[ps[0].id := QN(parent, ps[0].key)] + FlattenAll(parent, ps[1..])
  }

  function Flatten(parent: nat, p: Proto): Nodes {
    FlattenAll(p.id, p.children)[p.id := QN(parent, p.key)]
  }

  /** No id occurs twice in these subtrees, and children have larger ids. */
  ghost predicate Tidy(parent: nat, ps: seq<Proto>)
    decreases ProtosSize(ps)
  {
    ps != [] ==>
      && parent < ps[0].id && Tidy(ps[0].id, ps[0].children) && Tidy(parent, ps[1..])
      && ps[0].id !in FlattenAll(ps[0].id, ps[0].children)
      && Flatten(parent, ps[0]).Keys !! FlattenAll(parent, ps[1..]).Keys
  }

  /** `id` is `anc` or below it. */
  ghost predicate Descends(nodes: Nodes, id: nat, anc: nat)
    decreases id
  {
    id == anc || (id in nodes && nodes[id].parent < id && Descends(nodes, nodes[id].parent, anc))
  }

  /** The subtree at `root`. */
  ghost function Sub(nodes: Nodes, root: nat): Nodes {
    map id | id in nodes && Descends(nodes, id, root) :: nodes[id]
  }

  /** ApplyTreeMutation on the reachable nodes: an ADD_CHILD to an unknown node and a
      SUBTREE_DELETE of an unknown node are skipped. */
  ghost function Replay(nodes: Nodes, m: Mutation): Nodes {
    match m
    case AddChild(at, p) => if at == 0 || at in nodes then nodes + Flatten(at, p) else nodes
    case Delete(id) => map x | x in nodes && !(id in nodes && Descends(nodes, x, id)) :: nodes[x]
  }

  ghost function ReplayAll(nodes: Nodes, ms: seq<Mutation>): Nodes {
    if ms == [] then nodes else Replay(ReplayAll(nodes, ms[..|ms| - 1]), ms[|ms| - 1])
  }

  /** The server knows every node that is named, and none that is added. */
  ghost predicate Replayable(nodes: Nodes, ms: seq<Mutation>) {
    ms != [] ==>
      && Replayable(nodes, ms[..|ms| - 1])
      && var before := ReplayAll(nodes, ms[..|ms| - 1]);
         match ms[|ms| - 1]
         case AddChild(at, p) => (at == 0 || at in before) && Flatten(at, p).Keys !! before.Keys
         case Delete(id) => id in before
  }

  /** Every id the mutations add. */
  function AddedIds(ms: seq<Mutation>): set<nat> {
    if ms == [] then {}
    else AddedIds(ms[..|ms| - 1])
           + if ms[|ms| - 1].AddChild? then Flatten(ms[|ms| - 1].nodeId, ms[|ms| - 1].node).Keys else {}
  }

  /** Whatever is added is new: no id was used before. */
  ghost predicate Freshly(ever: set<nat>, ms: seq<Mutation>) {
    ms != [] ==>
      && Freshly(ever, ms[..|ms| - 1])
      && (ms[|ms| - 1].AddChild? ==>
            && Tidy(ms[|ms| - 1].nodeId, [ms[|ms| - 1].node])
            && Flatten(ms[|ms| - 1].nodeId, ms[|ms| - 1].node).Keys !! ever + AddedIds(ms[..|ms| - 1]))
  }

  // ----- paths

  /** The ids from the root down to `id`. */
  ghost function PathOf(nodes: Nodes, id: nat): QPath
    decreases id
  {
    if id in nodes && nodes[id].parent < id then PathOf(nodes, nodes[id].parent) + [id] else []
  }

  /** The paths of the query tree. */
  ghost function Live(nodes: Nodes): set<QPath> {
    {[]} + set id | id in nodes :: PathOf(nodes, id)
  }
}
