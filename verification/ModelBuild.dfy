/** Matching a schema against Go types: analysis/model-build.go, with the memo it fills while it
    recurses (analysis/resolve-object.go, analysis/resolve-list.go). What go/types says about one Go
    type is a table here; the code that resolvers print is not part of this model. */
module ModelBuild {

  /** A Go type, as an opaque identity. */
  type GoType = nat

  /** A type of the schema. Object stands for the definition with that name. */
  datatype AstType =
    | Named(name: string)
    | NonNull(inner: AstType)
    | ListOf(elem: AstType)
    | Object(def: string)
    | Unsupported

  datatype Pair = Pair(ast: AstType, go: GoType)

  datatype FieldDef = FieldDef(name: string, typ: AstType)

  /** What findResolverFunc and the checks on its signature come to: the type the function yields,
      and whether it yields through a channel argument. */
  datatype Func = Func(output: GoType, isChannel: bool)

  datatype Program = Program(
    lookup: map<string, AstType>,
    primitives: set<string>,
    primitiveFits: set<(GoType, string)>,
    objectFits: set<GoType>,
    fields: map<string, seq<FieldDef>>,
    funcs: map<(GoType, string), Func>,
    sliceElem: map<GoType, GoType>)

  /** A child of a resolver, or none where a field has no fitting function. */
  datatype Child = Child(name: string, target: Target)
  datatype Target = NoFunc | To(pair: Pair)

  /** What one call of buildResolver looks at: it fails by itself, needs nothing more, passes on to
      another pair, or builds a resolver with children. */
  datatype Local = Fails | Leaf | Follow(next: Pair) | Through(next: Pair) | Node(children: seq<Child>)

  /** The fields that are resolved: the introspection field and nameless ones are skipped. */
  function Children(prog: Program, go: GoType, fs: seq<FieldDef>): seq<Child> {
    if fs == [] then []
    else if fs[0].name == "" || fs[0].name == "__schema" then Children(prog, go, fs[1..])
    else [Child(fs[0].name, FieldTarget(prog, go, fs[0]))] + Children(prog, go, fs[1..])
  }

  /** buildFuncResolver: a channel of a list field yields the elements. */
  function FieldTarget(prog: Program, go: GoType, f: FieldDef): Target {
    if (go, f.name) !in prog.funcs then NoFunc
    else
      var func := prog.funcs[(go, f.name)];
      To(Pair(if func.isChannel && f.typ.ListOf? then f.typ.elem else f.typ, func.output))
  }

  function FieldsOf(prog: Program, def: string): seq<FieldDef> {
    if def in prog.fields then prog.fields[def] else []
  }

  function StepOf(prog: Program, p: Pair): Local {
    match p.ast
    case Named(n) =>
      if n in prog.primitives then (if (p.go, n) in prog.primitiveFits then Leaf else Fails)
      else if n in prog.lookup then Follow(Pair(prog.lookup[n], p.go))
      else Fails
    case NonNull(t) => Through(Pair(t, p.go))
    case Object(n) =>
      if p.go in prog.objectFits then Node(Children(prog, p.go, FieldsOf(prog, n)))
      else Fails
    case ListOf(t) =>
      if p.go in prog.sliceElem then Node([Child("", To(Pair(t, prog.sliceElem[p.go])))]) else Fails
    case Unsupported => Fails
  }

  /** The pairs a pair leads to. */
  function Next(prog: Program, p: Pair): set<Pair> {
    match StepOf(prog, p)
    case Fails => {}
    case Leaf => {}
    case Follow(q) => {q}
    case Through(q) => {q}
    case Node(cs) => set c | c in cs && c.target.To? :: c.target.pair
  }

  /** The schema type and the Go type fit, as far as one can see without going further. */
  ghost predicate FitsLocally(prog: Program, p: Pair) {
    && !StepOf(prog, p).Fails?
    && (StepOf(prog, p).Node? ==> forall c | c in StepOf(prog, p).children :: c.target.To?)
  }

  ghost predicate FieldsApart(fs: seq<FieldDef>) {
    forall i, j {:trigger fs[i], fs[j]} | 0 <= i < j < |fs| :: fs[i].name != fs[j].name
  }

  ghost predicate ChildrenApart(cs: seq<Child>) {
    forall i, j {:trigger cs[i], cs[j]} | 0 <= i < j < |cs| :: cs[i].name != cs[j].name
  }

  /** Lookup gives definitions, and fields of one object have different names. */
  ghost predicate ProgramOk(prog: Program) {
    && (forall n | n in prog.lookup :: prog.lookup[n].Object? || prog.lookup[n].Unsupported?)
    && (forall n | n in prog.fields :: FieldsApart(prog.fields[n]))
  }

  ghost predicate Closed(prog: Program, universe: set<Pair>) {
    forall p, q {:trigger q in Next(prog, p)} | p in universe && q in Next(prog, p) :: q in universe
  }

  /** How far a pair can be passed on before a resolver is built. */
  function Rank(t: AstType): nat {
    match t
    case Named(_) => 1
    case NonNull(inner) => 1 + Rank(inner)
    case _ => 0
  }

  // ----- reachability

  /** A walk from pair to pair. */
  ghost predicate Chain(prog: Program, ch: seq<Pair>) {
    ch != [] && forall i | 0 <= i < |ch| - 1 :: ch[i + 1] in Next(prog, ch[i])
  }

  ghost predicate Reaches(prog: Program, p: Pair, q: Pair) {
    exists ch :: Chain(prog, ch) && ch[0] == p && ch[|ch| - 1] == q
  }

  /** Every pair reachable from the root fits locally. */
  ghost predicate AllFit(prog: Program, root: Pair) {
    forall ch {:trigger Chain(prog, ch)} | Chain(prog, ch) && ch[0] == root :: FitsLocally(prog, ch[|ch| - 1])
  }

  lemma ChainCons(prog: Program, p: Pair, ch: seq<Pair>)
    requires Chain(prog, ch) && ch[0] in Next(prog, p)
    ensures Chain(prog, [p] + ch) && ([p] + ch)[|ch|] == ch[|ch| - 1]
  {
    var r := [p] + ch;
    forall i | 0 <= i < |r| - 1 ensures r[i + 1] in Next(prog, r[i]) {
      if i > 0 { assert ch[i] in Next(prog, ch[i - 1]); }
    }
  }

  // ----- the memo

  /** objectResolver and listResolver: the resolvers of the fields, or of the element. */
  class NodeResolver {
    var parts: map<string, Resolver>

    constructor ()
      ensures parts == map[]
    {
      parts := map[];
    }
  }

  datatype Resolver = PrimitiveResolver(name: string, go: GoType) | NodeResolverOf(node: NodeResolver)

  type Memo = map<Pair, Resolver>

  /** Where the resolver of a pair is kept: a name is followed to its definition. */
  function Home(prog: Program, p: Pair): Pair {
    if StepOf(prog, p).Follow? then StepOf(prog, p).next else p
  }

  ghost predicate Resolved(prog: Program, memo: Memo, p: Pair) {
    StepOf(prog, p).Leaf? || Home(prog, p) in memo
  }

  ghost function ResolverOf(prog: Program, memo: Memo, p: Pair): Resolver
    requires Resolved(prog, memo, p)
  {
    if StepOf(prog, p).Leaf? then PrimitiveResolver(p.ast.name, p.go) else memo[Home(prog, p)]
  }

  /** The memo's entry for a pair is complete: it holds the resolver of everything it leads to. */
  ghost predicate Done(prog: Program, memo: Memo, p: Pair)
    requires p in memo
    reads if memo[p].NodeResolverOf? && StepOf(prog, p).Node? then {memo[p].node} else {}
  {
    match StepOf(prog, p)
    case Through(q) => Resolved(prog, memo, q) && memo[p] == ResolverOf(prog, memo, q)
    case Node(cs) => memo[p].NodeResolverOf? && PartsDone(prog, memo, memo[p].node.parts, cs, |cs|)
    case _ => false
  }

  ghost predicate PartsDone(prog: Program, memo: Memo, parts: map<string, Resolver>, cs: seq<Child>, upTo: int) {
    && 0 <= upTo <= |cs| && parts.Keys == (set k | 0 <= k < upTo :: cs[k].name)
    && forall k | 0 <= k < upTo ::
         && cs[k].target.To? && Resolved(prog, memo, cs[k].target.pair)
         && cs[k].name in parts && parts[cs[k].name] == ResolverOf(prog, memo, cs[k].target.pair)
  }

  /** These entries are complete, and their resolvers with children are among `nodes`. */
  ghost predicate AllDone(prog: Program, memo: Memo, ps: set<Pair>, nodes: set<NodeResolver>)
    reads nodes
  {
    forall p | p in ps ::
      p in memo && (StepOf(prog, p).Node? ==> memo[p].NodeResolverOf? && memo[p].node in nodes) && Done(prog, memo, p)
  }

  ghost predicate Grows(memo: Memo, memo': Memo) {
    memo.Keys <= memo'.Keys && forall p | p in memo :: memo'[p] == memo[p]
  }

  // ----- growing the memo

  lemma ResolvedGrows(prog: Program, memo: Memo, memo': Memo, p: Pair)
    requires Grows(memo, memo') && Resolved(prog, memo, p)
    ensures Resolved(prog, memo', p) && ResolverOf(prog, memo', p) == ResolverOf(prog, memo, p)
  {
  }

  lemma PartsGrow(prog: Program, memo: Memo, memo': Memo, parts: map<string, Resolver>, cs: seq<Child>, upTo: nat)
    requires Grows(memo, memo') && PartsDone(prog, memo, parts, cs, upTo)
    ensures PartsDone(prog, memo', parts, cs, upTo)
  {
  }

  lemma DoneGrows(prog: Program, memo: Memo, memo': Memo, ps: set<Pair>, nodes: set<NodeResolver>)
    requires Grows(memo, memo') && AllDone(prog, memo, ps, nodes)
    ensures AllDone(prog, memo', ps, nodes)
  {
    forall p | p in ps ensures Done(prog, memo', p) {
      assert Done(prog, memo, p);
      if StepOf(prog, p).Node? {
        PartsGrow(prog, memo, memo', memo[p].node.parts, StepOf(prog, p).children, |StepOf(prog, p).children|);
      }
    }
  }

  lemma OneMorePart(prog: Program, memo: Memo, parts: map<string, Resolver>, cs: seq<Child>, k: nat, r: Resolver)
    requires k < |cs| && PartsDone(prog, memo, parts, cs, k) && ChildrenApart(cs)
    requires cs[k].target.To? && Resolved(prog, memo, cs[k].target.pair)
    requires r == ResolverOf(prog, memo, cs[k].target.pair)
    ensures PartsDone(prog, memo, parts[cs[k].name := r], cs, k + 1)
  {
  }

  lemma {:induction false} ChildrenFrom(prog: Program, go: GoType, fs: seq<FieldDef>)
    ensures forall c | c in Children(prog, go, fs) :: exists j :: 0 <= j < |fs| && fs[j].name == c.name
    decreases |fs|
  {
    if fs != [] {
      ChildrenFrom(prog, go, fs[1..]);
      forall c | c in Children(prog, go, fs) ensures exists j :: 0 <= j < |fs| && fs[j].name == c.name {
        if c in Children(prog, go, fs[1..]) {
          var j :| 0 <= j < |fs[1..]| && fs[1..][j].name == c.name;
          assert fs[j + 1].name == c.name;
        } else {
          assert fs[0].name == c.name;
        }
      }
    }
  }

  lemma {:induction false} ChildrenDiffer(prog: Program, go: GoType, fs: seq<FieldDef>)
    requires FieldsApart(fs)
    ensures ChildrenApart(Children(prog, go, fs))
    decreases |fs|
  {
    if fs != [] {
      ChildrenDiffer(prog, go, fs[1..]);
      ChildrenFrom(prog, go, fs[1..]);
      var rest := Children(prog, go, fs[1..]);
      forall c | c in rest ensures c.name != fs[0].name {
        var j :| 0 <= j < |fs[1..]| && fs[1..][j].name == c.name;
        assert fs[j + 1].name == c.name;
      }
      var cs := Children(prog, go, fs);
      forall i, j | 0 <= i < j < |cs| ensures cs[i].name != cs[j].name {
        if cs != rest { assert cs[j] == rest[j - 1] && rest[j - 1] in rest; }
      }
    }
  }

  lemma NodeFacts(prog: Program, p: Pair)
    requires ProgramOk(prog) && StepOf(prog, p).Node?
    ensures ChildrenApart(StepOf(prog, p).children)
  {
    if p.ast.Object? { ChildrenDiffer(prog, p.go, FieldsOf(prog, p.ast.def)); }
  }

  // ----- the builder

  /** A walk that ends in a pair that does not fit. */
  ghost predicate Blames(prog: Program, p: Pair, ch: seq<Pair>) {
    Chain(prog, ch) && ch[0] == p && !FitsLocally(prog, ch[|ch| - 1])
  }

  lemma BlameNext(prog: Program, p: Pair, q: Pair, ch: seq<Pair>)
    requires Blames(prog, q, ch) && q in Next(prog, p)
    ensures Blames(prog, p, [p] + ch)
  {
    ChainCons(prog, p, ch);
  }

  lemma BlameSelf(prog: Program, p: Pair)
    requires !FitsLocally(prog, p)
    ensures Blames(prog, p, [p])
  {
  }

  lemma StepsOn(prog: Program, universe: set<Pair>, p: Pair)
    requires ProgramOk(prog) && Closed(prog, universe) && p in universe
    ensures StepOf(prog, p).Follow? ==>
        var q := StepOf(prog, p).next; q in Next(prog, p) && q in universe && Rank(q.ast) < Rank(p.ast)
    ensures StepOf(prog, p).Through? ==>
        var q := StepOf(prog, p).next; q in Next(prog, p) && q in universe && Rank(q.ast) < Rank(p.ast)
    ensures StepOf(prog, p).Node? ==>
      forall c | c in StepOf(prog, p).children && c.target.To? ::
        c.target.pair in Next(prog, p) && c.target.pair in universe
  {
    forall q | q in Next(prog, p) ensures q in universe { }
  }

  /** How many pairs have no entry yet; this is why the search ends. */
  ghost function Missing(universe: set<Pair>, memo: Memo): nat {
    |universe - memo.Keys|
  }

  lemma MemoGrew(universe: set<Pair>, a: Memo, b: Memo, pair: Pair)
    requires pair in universe && pair !in a && pair in b && a.Keys <= b.Keys
    ensures Missing(universe, b) < Missing(universe, a)
  {
    Smaller(universe - b.Keys, universe - a.Keys, pair);
  }

  lemma Smaller(x: set<Pair>, y: set<Pair>, pair: Pair)
    requires x <= y && pair in y && pair !in x
    ensures |x| < |y|
  {
    assert x <= y - {pair};
    SubsetSize(x, y - {pair});
  }

  lemma {:induction false} SubsetSize(x: set<Pair>, y: set<Pair>)
    requires x <= y
    ensures |x| <= |y|
    decreases x
  {
    if p :| p in x { SubsetSize(x - {p}, y - {p}); }
  }

  lemma DoneJoin(prog: Program, memo: Memo, a: set<Pair>, an: set<NodeResolver>, b: set<Pair>, bn: set<NodeResolver>,
                 ab: set<Pair>)
    requires ab <= a + b && AllDone(prog, memo, a, an) && AllDone(prog, memo, b, bn)
    ensures AllDone(prog, memo, ab, an + bn)
  {
  }

  lemma DoneOne(prog: Program, memo: Memo, p: Pair, nodes: set<NodeResolver>)
    requires p in memo && (StepOf(prog, p).Node? ==> memo[p].NodeResolverOf? && memo[p].node in nodes)
    requires Done(prog, memo, p)
    ensures AllDone(prog, memo, {p}, nodes)
  {
  }

  /** Only pairs that are passed on as they are, or have children, get an entry. */
  ghost predicate Stored(prog: Program, memo: Memo) {
    forall p | p in memo :: StepOf(prog, p).Through? || StepOf(prog, p).Node?
  }

  lemma NothingNew(prog: Program, memo: Memo)
    ensures Grows(memo, memo) && AllDone(prog, memo, memo.Keys - memo.Keys, {})
  {
  }

  lemma InMemo(prog: Program, memo: Memo, p: Pair)
    requires Stored(prog, memo) && p in memo
    ensures Resolved(prog, memo, p) && ResolverOf(prog, memo, p) == memo[p]
  {
  }

  lemma LocalFacts(prog: Program, memo: Memo, p: Pair)
    ensures StepOf(prog, p).Fails? ==> !FitsLocally(prog, p)
    ensures StepOf(prog, p).Leaf? ==>
        p.ast.Named? && Resolved(prog, memo, p) && ResolverOf(prog, memo, p) == PrimitiveResolver(p.ast.name, p.go)
  {
  }

  lemma FollowFacts(prog: Program, memo: Memo, p: Pair, q: Pair)
    requires ProgramOk(prog) && StepOf(prog, p) == Follow(q) && Resolved(prog, memo, q)
    ensures Resolved(prog, memo, p) && ResolverOf(prog, memo, p) == ResolverOf(prog, memo, q)
  {
  }

  lemma ThroughFacts(prog: Program, before: Memo, memo: Memo, p: Pair, q: Pair, r: Resolver, nodes: set<NodeResolver>)
    requires Stored(prog, memo) && Grows(before, memo) && p !in before && StepOf(prog, p) == Through(q)
    requires Resolved(prog, memo, q) && r == ResolverOf(prog, memo, q)
    requires AllDone(prog, memo, memo.Keys - before.Keys, nodes)
    ensures var memo' := memo[p := r];
            && Stored(prog, memo') && Grows(before, memo') && AllDone(prog, memo', memo'.Keys - before.Keys, nodes)
            && Resolved(prog, memo', p) && ResolverOf(prog, memo', p) == r
  {
    var memo' := memo[p := r];
    assert p in memo ==> Done(prog, memo, p);
    assert Grows(memo, memo');
    DoneGrows(prog, memo, memo', memo.Keys - before.Keys, nodes);
    ResolvedGrows(prog, memo, memo', q);
    DoneOne(prog, memo', p, nodes);
    DoneJoin(prog, memo', memo.Keys - before.Keys, nodes, {p}, nodes, memo'.Keys - before.Keys);
    assert nodes + nodes == nodes;
  }

  lemma Entered(prog: Program, before: Memo, p: Pair, node: NodeResolver, cs: seq<Child>)
    requires Stored(prog, before) && StepOf(prog, p) == Node(cs) && node.parts == map[]
    ensures var entered := before[p := NodeResolverOf(node)];
            && Stored(prog, entered) && Grows(entered, entered)
            && AllDone(prog, entered, entered.Keys - entered.Keys, {})
            && PartsDone(prog, entered, node.parts, cs, 0) && entered.Keys == before.Keys + {p}
  {
  }

  lemma GrowsKeys(entered: Memo, memo: Memo)
    requires Grows(entered, memo)
    ensures entered.Keys <= memo.Keys
  {
  }

  lemma NoFuncFails(prog: Program, p: Pair, cs: seq<Child>, k: nat)
    requires StepOf(prog, p) == Node(cs) && k < |cs| && cs[k].target.NoFunc?
    ensures !FitsLocally(prog, p)
  {
    assert cs[k] in cs;
  }

  lemma GrowsFrom(before: Memo, entered: Memo, memo: Memo, p: Pair, node: NodeResolver)
    requires entered == before[p := NodeResolverOf(node)] && p !in before && Grows(entered, memo)
    ensures Grows(before, memo) && p in memo && memo[p] == NodeResolverOf(node)
  {
  }

  lemma GrowsMore(a: Memo, b: Memo, c: Memo)
    requires Grows(a, b) && Grows(b, c)
    ensures Grows(a, c)
  {
  }

  lemma RoundDone(prog: Program, entered: Memo, was: Memo, memo: Memo, parts: map<string, Resolver>, cs: seq<Child>,
                  k: nat, child: Resolver,
                  nodes: set<NodeResolver>, more: set<NodeResolver>)
    requires Grows(entered, was) && Grows(was, memo) && k < |cs| && PartsDone(prog, was, parts, cs, k)
    requires ChildrenApart(cs)
    requires AllDone(prog, was, was.Keys - entered.Keys, nodes) && AllDone(prog, memo, memo.Keys - was.Keys, more)
    requires cs[k].target.To? && Resolved(prog, memo, cs[k].target.pair)
    requires child == ResolverOf(prog, memo, cs[k].target.pair)
    ensures AllDone(prog, memo, memo.Keys - entered.Keys, nodes + more)
    ensures PartsDone(prog, memo, parts[cs[k].name := child], cs, k + 1)
  {
    hide AllDone, Resolved, ResolverOf, PartsDone;
    DoneGrows(prog, was, memo, was.Keys - entered.Keys, nodes);
    DoneJoin(prog, memo, was.Keys - entered.Keys, nodes, memo.Keys - was.Keys, more, memo.Keys - entered.Keys);
    PartsGrow(prog, was, memo, parts, cs, k);
    OneMorePart(prog, memo, parts, cs, k, child);
  }

  lemma NodeDone(prog: Program, before: Memo, entered: Memo, memo: Memo, p: Pair, node: NodeResolver, cs: seq<Child>,
                 nodes: set<NodeResolver>)
    requires entered.Keys == before.Keys + {p} && before.Keys <= memo.Keys && StepOf(prog, p) == Node(cs) && p in memo
    requires memo[p] == NodeResolverOf(node)
    requires entered.Keys <= memo.Keys && AllDone(prog, memo, memo.Keys - entered.Keys, nodes)
    requires PartsDone(prog, memo, node.parts, cs, |cs|)
    ensures AllDone(prog, memo, memo.Keys - before.Keys, nodes + {node}) && Resolved(prog, memo, p)
    ensures ResolverOf(prog, memo, p) == NodeResolverOf(node)
  {
    DoneOne(prog, memo, p, {node});
    DoneJoin(prog, memo, memo.Keys - entered.Keys, nodes, {p}, {node}, memo.Keys - before.Keys);
  }

  /** The first `k` children of a node are filled in; what was added since the entry was made is done. */
  ghost predicate Filling(prog: Program, universe: set<Pair>, entered: Memo, memo: Memo, node: NodeResolver,
                          nodes: set<NodeResolver>, cs: seq<Child>, k: int)
    reads node, nodes
  {
    && Grows(entered, memo) && memo.Keys <= universe && Stored(prog, memo) && node !in nodes
    && AllDone(prog, memo, memo.Keys - entered.Keys, nodes) && PartsDone(prog, memo, node.parts, cs, k)
  }

  lemma FillingMeans(prog: Program, universe: set<Pair>, entered: Memo, memo: Memo, node: NodeResolver,
                     nodes: set<NodeResolver>, cs: seq<Child>, k: int)
    requires Filling(prog, universe, entered, memo, node, nodes, cs, k)
    ensures Grows(entered, memo) && entered.Keys <= memo.Keys <= universe && Stored(prog, memo) && node !in nodes
    ensures AllDone(prog, memo, memo.Keys - entered.Keys, nodes) && PartsDone(prog, memo, node.parts, cs, k)
  {
  }

  lemma FillingFrom(prog: Program, universe: set<Pair>, entered: Memo, memo: Memo, node: NodeResolver,
                    nodes: set<NodeResolver>, cs: seq<Child>, k: int)
    requires Grows(entered, memo) && memo.Keys <= universe && Stored(prog, memo) && node !in nodes
    requires AllDone(prog, memo, memo.Keys - entered.Keys, nodes) && PartsDone(prog, memo, node.parts, cs, k)
    ensures Filling(prog, universe, entered, memo, node, nodes, cs, k)
  {
  }

  class ModelBuilder {
    const prog: Program
    var resolvers: Memo

    constructor (prog: Program)
      ensures this.prog == prog && resolvers == map[]
    {
      this.prog, resolvers := prog, map[];
    }

    /** buildResolver: the memo grows only by complete entries, or the failure is the fault of a pair
        that can be reached. `universe` holds every pair there is. */
    method BuildResolver(pair: Pair, ghost universe: set<Pair>)
      returns (ok: bool, resolver: Resolver, ghost nodes: set<NodeResolver>, ghost blame: seq<Pair>)
      requires ProgramOk(prog) && Closed(prog, universe) && pair in universe && resolvers.Keys <= universe
      requires Stored(prog, resolvers)
      modifies this`resolvers
      ensures Grows(old(resolvers), resolvers) && resolvers.Keys <= universe && Stored(prog, resolvers)
      ensures ok ==> Resolved(prog, resolvers, pair) && resolver == ResolverOf(prog, resolvers, pair)
      ensures ok ==> AllDone(prog, resolvers, resolvers.Keys - old(resolvers).Keys, nodes)
      ensures fresh(nodes)
      ensures !ok ==> Blames(prog, pair, blame)
      decreases Missing(universe, resolvers), Rank(pair.ast), 1
    {
      hide *;
      ghost var before := resolvers;
      nodes, blame := {}, [];
      resolver := PrimitiveResolver("", 0);
      NothingNew(prog, before);
      if pair in resolvers {
        InMemo(prog, resolvers, pair);
        ok, resolver := true, resolvers[pair];
        return;
      }
      StepsOn(prog, universe, pair);
      LocalFacts(prog, resolvers, pair);
      match StepOf(prog, pair) {
        case Fails =>
          BlameSelf(prog, pair);
          ok, blame := false, [pair];
        case Leaf =>
          ok, resolver := true, PrimitiveResolver(pair.ast.name, pair.go);
        case Follow(q) =>
          ok, resolver, nodes, blame := BuildResolver(q, universe);
          if ok {
            FollowFacts(prog, resolvers, pair, q);
          } else {
            BlameNext(prog, pair, q, blame);
            blame := [pair] + blame;
          }
        case Through(q) =>
          ok, resolver, nodes, blame := BuildResolver(q, universe);
          if ok {
            ThroughFacts(prog, before, resolvers, pair, q, resolver, nodes);
            resolvers := resolvers[pair := resolver];
          } else {
            BlameNext(prog, pair, q, blame);
            blame := [pair] + blame;
          }
        case Node(cs) =>
          ok, resolver, nodes, blame := BuildNodeResolver(pair, cs, universe);
      }
    }

    /** buildObjectResolver and buildListResolver: the entry is made before the recursion, and filled
        in as it goes. */
    method BuildNodeResolver(pair: Pair, cs: seq<Child>, ghost universe: set<Pair>)
      returns (ok: bool, resolver: Resolver, ghost nodes: set<NodeResolver>, ghost blame: seq<Pair>)
      requires ProgramOk(prog) && Closed(prog, universe) && pair in universe && resolvers.Keys <= universe
      requires Stored(prog, resolvers)
      requires pair !in resolvers && StepOf(prog, pair) == Node(cs)
      modifies this`resolvers
      ensures Grows(old(resolvers), resolvers) && resolvers.Keys <= universe && Stored(prog, resolvers)
      ensures ok ==> Resolved(prog, resolvers, pair) && resolver == ResolverOf(prog, resolvers, pair)
      ensures ok ==> AllDone(prog, resolvers, resolvers.Keys - old(resolvers).Keys, nodes)
      ensures fresh(nodes)
      ensures !ok ==> Blames(prog, pair, blame)
      decreases Missing(universe, resolvers), Rank(pair.ast), 0
    {
      hide *;
      ghost var before := resolvers;
      var node := new NodeResolver();
      resolver := NodeResolverOf(node);
      resolvers := resolvers[pair := resolver];
      ghost var entered := resolvers;
      Entered(prog, before, pair, node, cs);
      nodes, blame := {}, [];
      FillingFrom(prog, universe, entered, resolvers, node, nodes, cs, 0);
      for k := 0 to |cs|
        invariant Filling(prog, universe, entered, resolvers, node, nodes, cs, k) && fresh(nodes)
      {
        FillingMeans(prog, universe, entered, resolvers, node, nodes, cs, k);
        MemoGrew(universe, before, resolvers, pair);
        ok, nodes, blame := BuildChild(pair, cs, k, node, entered, nodes, universe);
        if !ok {
          GrowsFrom(before, entered, resolvers, pair, node);
          return;
        }
      }
      FillingMeans(prog, universe, entered, resolvers, node, nodes, cs, |cs|);
      GrowsFrom(before, entered, resolvers, pair, node);
      GrowsKeys(before, resolvers);
      NodeDone(prog, before, entered, resolvers, pair, node, cs, nodes);
      nodes := nodes + {node};
      ok := true;
    }

    /** One round of that loop: the resolver of the next child is built and filled in. */
    method BuildChild(pair: Pair, cs: seq<Child>, k: nat, node: NodeResolver, ghost entered: Memo,
                      ghost nodes: set<NodeResolver>, ghost universe: set<Pair>)
      returns (ok: bool, ghost nodes': set<NodeResolver>, ghost blame: seq<Pair>)
      requires ProgramOk(prog) && Closed(prog, universe) && pair in universe
      requires StepOf(prog, pair) == Node(cs) && k < |cs|
      requires Filling(prog, universe, entered, resolvers, node, nodes, cs, k)
      modifies this`resolvers, node
      ensures Grows(entered, resolvers) && resolvers.Keys <= universe && Stored(prog, resolvers)
      ensures ok ==> Filling(prog, universe, entered, resolvers, node, nodes', cs, k + 1)
      ensures fresh(nodes' - nodes)
      ensures !ok ==> Blames(prog, pair, blame)
      decreases Missing(universe, resolvers), if cs[k].target.To? then Rank(cs[k].target.pair.ast) else 0, 2
    {
      hide *;
      ghost var was := resolvers;
      FillingMeans(prog, universe, entered, was, node, nodes, cs, k);
      nodes', blame := nodes, [pair];
      if cs[k].target.NoFunc? {
        NoFuncFails(prog, pair, cs, k);
        BlameSelf(prog, pair);
        return false, nodes', blame;
      }
      StepsOn(prog, universe, pair);
      assert cs[k] in cs;
      var child;
      ghost var more;
      ok, child, more, blame := BuildResolver(cs[k].target.pair, universe);
      GrowsMore(entered, was, resolvers);
      if !ok {
        BlameNext(prog, pair, cs[k].target.pair, blame);
        blame := [pair] + blame;
        return;
      }
      NodeFacts(prog, pair);
      RoundDone(prog, entered, was, resolvers, node.parts, cs, k, child, nodes, more);
      nodes' := nodes + more;
      node.parts := node.parts[cs[k].name := child];
      FillingFrom(prog, universe, entered, resolvers, node, nodes', cs, k + 1);
    }
  }

  // ----- what it is for a schema type and a Go type to fit

  /** The introspection field and nameless ones are not resolved. */
  predicate Skipped(f: FieldDef) {
    f.name == "" || f.name == "__schema"
  }

  /** What a field asks of the function that resolves it: a channel for a list gives its elements. */
  ghost predicate FieldAsks(prog: Program, go: GoType, f: FieldDef, q: Pair) {
    && (go, f.name) in prog.funcs && q.go == prog.funcs[(go, f.name)].output
    && if f.typ.ListOf? && prog.funcs[(go, f.name)].isChannel then f.typ == ListOf(q.ast) else q.ast == f.typ
  }

  /** This pair fits, if the pairs in `fits` do. */
  ghost predicate FitsAmong(prog: Program, fits: set<Pair>, p: Pair) {
    match p.ast
    case Named(n) =>
      if n in prog.primitives then (p.go, n) in prog.primitiveFits
      else n in prog.lookup && Pair(prog.lookup[n], p.go) in fits
    case NonNull(t) => Pair(t, p.go) in fits
    case ListOf(t) => p.go in prog.sliceElem && Pair(t, prog.sliceElem[p.go]) in fits
    case Object(def) =>
      && p.go in prog.objectFits
      && forall f | f in FieldsOf(prog, def) && !Skipped(f) :: exists q :: q in fits && FieldAsks(prog, p.go, f, q)
    case Unsupported => false
  }

  /** All of these pairs fit, taken together: types may refer to each other in circles. */
  ghost predicate FitTogether(prog: Program, fits: set<Pair>) {
    forall p | p in fits :: FitsAmong(prog, fits, p)
  }

  ghost predicate Fits(prog: Program, p: Pair) {
    exists fits :: p in fits && FitTogether(prog, fits)
  }

  /** The resolver that is kept for a pair. */
  ghost predicate Resolves(prog: Program, memo: Memo, p: Pair, r: Resolver) {
    match p.ast
    case Named(n) =>
      if n in prog.primitives then r == PrimitiveResolver(n, p.go)
      else n in prog.lookup && var q := Pair(prog.lookup[n], p.go); q in memo && r == memo[q]
    case _ => p in memo && r == memo[p]
  }

  /** The pair has a resolver with parts of its own. */
  ghost predicate HasParts(memo: Memo, p: Pair) {
    (p.ast.Object? || p.ast.ListOf?) && p in memo && memo[p].NodeResolverOf?
  }

  /** The resolver of a pair is complete: one for every field that is resolved, or for the element. */
  ghost predicate Built(prog: Program, memo: Memo, p: Pair)
    reads if HasParts(memo, p) then {memo[p].node} else {}
  {
    match p.ast
    case Named(n) => n in prog.primitives || (n in prog.lookup && Pair(prog.lookup[n], p.go) in memo)
    case NonNull(t) => p in memo && Resolves(prog, memo, Pair(t, p.go), memo[p])
    case ListOf(t) =>
      && HasParts(memo, p) && memo[p].node.parts.Keys == {""}
      && p.go in prog.sliceElem && Resolves(prog, memo, Pair(t, prog.sliceElem[p.go]), memo[p].node.parts[""])
    case Object(def) =>
      && HasParts(memo, p)
      && memo[p].node.parts.Keys == (set f | f in FieldsOf(prog, def) && !Skipped(f) :: f.name)
      && forall f | f in FieldsOf(prog, def) && !Skipped(f) ::
           exists q :: FieldAsks(prog, p.go, f, q) && Resolves(prog, memo, q, memo[p].node.parts[f.name])
    case Unsupported => false
  }

  ghost predicate AllBuilt(prog: Program, memo: Memo, fits: set<Pair>, nodes: set<NodeResolver>)
    reads nodes
  {
    forall p | p in fits :: (HasParts(memo, p) ==> memo[p].node in nodes) && Built(prog, memo, p)
  }

  // ----- the builder's own case split comes to the same

  /** The children of an object are its fields that are resolved, in order. */
  lemma {:induction false} ChildrenExact(prog: Program, go: GoType, fs: seq<FieldDef>)
    ensures forall c :: c in Children(prog, go, fs) <==>
              exists f :: f in fs && !Skipped(f) && c == Child(f.name, FieldTarget(prog, go, f))
    decreases |fs|
  {
    if fs != [] {
      ChildrenExact(prog, go, fs[1..]);
      hide FieldTarget;
      forall c
        ensures c in Children(prog, go, fs) <==>
                exists f :: f in fs && !Skipped(f) && c == Child(f.name, FieldTarget(prog, go, f))
      {
        assert forall f :: f in fs <==> f == fs[0] || f in fs[1..];
      }
    }
  }

  lemma TargetAsks(prog: Program, go: GoType, f: FieldDef, q: Pair)
    ensures FieldTarget(prog, go, f) == To(q) <==> FieldAsks(prog, go, f, q)
    ensures FieldTarget(prog, go, f).NoFunc? <==> (go, f.name) !in prog.funcs
  {
  }

  /** An object fits when each of its fields does. */
  lemma ObjectFits(prog: Program, fits: set<Pair>, p: Pair)
    requires p.ast.Object?
    ensures FitsAmong(prog, fits, p) <==> FitsLocally(prog, p) && Next(prog, p) <= fits
  {
    var fs := FieldsOf(prog, p.ast.def);
    ChildrenExact(prog, p.go, fs);
    if p.go in prog.objectFits {
      var cs := Children(prog, p.go, fs);
      assert StepOf(prog, p) == Node(cs);
      hide Children, FieldTarget, FieldAsks;
      if FitsAmong(prog, fits, p) {
        forall c | c in cs ensures c.target.To? && c.target.pair in fits {
          var f :| f in fs && !Skipped(f) && c == Child(f.name, FieldTarget(prog, p.go, f));
          var q :| q in fits && FieldAsks(prog, p.go, f, q);
          TargetAsks(prog, p.go, f, q);
        }
      }
      if FitsLocally(prog, p) && Next(prog, p) <= fits {
        forall f | f in fs && !Skipped(f) ensures exists q :: q in fits && FieldAsks(prog, p.go, f, q) {
          var c := Child(f.name, FieldTarget(prog, p.go, f));
          assert c in cs;
          TargetAsks(prog, p.go, f, c.target.pair);
          assert c.target.pair in Next(prog, p);
        }
      }
    }
  }

  lemma LocalExact(prog: Program, fits: set<Pair>, p: Pair)
    ensures FitsAmong(prog, fits, p) <==> FitsLocally(prog, p) && Next(prog, p) <= fits
  {
    if p.ast.Object? {
      ObjectFits(prog, fits, p);
    } else if p.ast.ListOf? && p.go in prog.sliceElem {
      var c := Child("", To(Pair(p.ast.elem, prog.sliceElem[p.go])));
      assert StepOf(prog, p) == Node([c]);
      assert Next(prog, p) == {c.target.pair} by { assert c in [c]; }
    }
  }

  /** A walk cannot leave pairs that fit together. */
  lemma {:induction false} WalkStays(prog: Program, fits: set<Pair>, ch: seq<Pair>)
    requires FitTogether(prog, fits) && Chain(prog, ch) && ch[0] in fits
    ensures ch[|ch| - 1] in fits && FitsLocally(prog, ch[|ch| - 1])
    decreases |ch|
  {
    LocalExact(prog, fits, ch[0]);
    if |ch| > 1 {
      assert ch[0 + 1] in Next(prog, ch[0]);
      ChainTail(prog, ch);
      WalkStays(prog, fits, ch[1..]);
    }
  }

  lemma ChainTail(prog: Program, ch: seq<Pair>)
    requires Chain(prog, ch) && |ch| > 1
    ensures Chain(prog, ch[1..])
  {
    forall i | 0 <= i < |ch[1..]| - 1 ensures ch[1..][i + 1] in Next(prog, ch[1..][i]) {
      assert ch[i + 2] in Next(prog, ch[i + 1]);
    }
  }

  // ----- there are only so many pairs

  ghost function Within(t: AstType): set<AstType> {
    match t
    case NonNull(inner) => {t} + Within(inner)
    case ListOf(elem) => {t} + Within(elem)
    case _ => {t}
  }

  ghost function Asts(prog: Program, root: AstType): set<AstType> {
    Within(root) + (set n, t | n in prog.lookup && t in Within(prog.lookup[n]) :: t)
    + (set n, i, t | n in prog.fields && 0 <= i < |prog.fields[n]| && t in Within(prog.fields[n][i].typ) :: t)
  }

  ghost function Gos(prog: Program, root: GoType): set<GoType> {
    {root} + (set k | k in prog.funcs :: prog.funcs[k].output) + (set g | g in prog.sliceElem :: prog.sliceElem[g])
  }

  /** Every pair of a type that is written down somewhere and a Go type that occurs somewhere. */
  ghost function Universe(prog: Program, root: Pair): set<Pair> {
    set t, g | t in Asts(prog, root.ast) && g in Gos(prog, root.go) :: Pair(t, g)
  }

  lemma {:induction false} WithinInner(t: AstType, x: AstType)
    requires x in Within(t)
    ensures t in Within(t)
    ensures x.NonNull? ==> x.inner in Within(t)
    ensures x.ListOf? ==> x.elem in Within(t)
    decreases t
  {
    match t
    case NonNull(inner) =>
      WithinSelf(inner);
      if x != t { WithinInner(inner, x); }
    case ListOf(elem) =>
      WithinSelf(elem);
      if x != t { WithinInner(elem, x); }
    case _ =>
  }

  lemma WithinSelf(t: AstType)
    ensures t in Within(t)
  {
  }

  lemma AstsInner(prog: Program, root: AstType, x: AstType)
    requires x in Asts(prog, root)
    ensures x.NonNull? ==> x.inner in Asts(prog, root)
    ensures x.ListOf? ==> x.elem in Asts(prog, root)
  {
    if x in Within(root) {
      WithinInner(root, x);
    } else if n :| n in prog.lookup && x in Within(prog.lookup[n]) {
      WithinInner(prog.lookup[n], x);
    } else {
      var n, i :| n in prog.fields && 0 <= i < |prog.fields[n]| && x in Within(prog.fields[n][i].typ);
      WithinInner(prog.fields[n][i].typ, x);
    }
  }

  lemma AstsKnown(prog: Program, root: AstType)
    ensures forall n | n in prog.lookup :: prog.lookup[n] in Asts(prog, root)
    ensures forall n, f {:trigger n in prog.fields, f in FieldsOf(prog, n)} |
              n in prog.fields && f in FieldsOf(prog, n) :: f.typ in Asts(prog, root)
  {
    forall n | n in prog.lookup ensures prog.lookup[n] in Asts(prog, root) { WithinSelf(prog.lookup[n]); }
    forall n, f | n in prog.fields && f in FieldsOf(prog, n) ensures f.typ in Asts(prog, root) {
      var i :| 0 <= i < |prog.fields[n]| && prog.fields[n][i] == f;
      WithinSelf(prog.fields[n][i].typ);
    }
  }

  lemma NextWithin(prog: Program, root: Pair, p: Pair, q: Pair)
    requires p in Universe(prog, root) && q in Next(prog, p)
    ensures q in Universe(prog, root)
  {
    AstsInner(prog, root.ast, p.ast);
    AstsKnown(prog, root.ast);
    hide Asts;
    if p.ast.Object? {
      var fs := FieldsOf(prog, p.ast.def);
      ChildrenExact(prog, p.go, fs);
      var c :| c in Children(prog, p.go, fs) && c.target == To(q);
      var f :| f in fs && !Skipped(f) && c == Child(f.name, FieldTarget(prog, p.go, f));
      assert f.typ in Asts(prog, root.ast);
      AstsInner(prog, root.ast, f.typ);
      TargetAsks(prog, p.go, f, q);
    }
  }

  lemma UniverseClosed(prog: Program, root: Pair)
    ensures Closed(prog, Universe(prog, root)) && root in Universe(prog, root)
  {
    WithinSelf(root.ast);
    forall p, q {:trigger q in Next(prog, p)} | p in Universe(prog, root) && q in Next(prog, p)
      ensures q in Universe(prog, root)
    {
      NextWithin(prog, root, p, q);
    }
  }

  // ----- the whole search

  lemma ResolvedFits(prog: Program, memo: Memo, p: Pair, nodes: set<NodeResolver>)
    requires ProgramOk(prog) && Stored(prog, memo) && AllDone(prog, memo, memo.Keys, nodes) && Resolved(prog, memo, p)
    ensures FitsLocally(prog, p) && forall q | q in Next(prog, p) :: Resolved(prog, memo, q)
  {
    if p in memo {
      assert Done(prog, memo, p);
      match StepOf(prog, p) {
        case Node(cs) =>
          forall c | c in cs ensures c.target.To? && Resolved(prog, memo, c.target.pair) {
            var k :| 0 <= k < |cs| && cs[k] == c;
          }
        case _ =>
      }
    }
  }

  /** Every walk from a resolved pair stays among resolved pairs that fit. */
  lemma {:induction false} WalkFits(prog: Program, memo: Memo, ch: seq<Pair>, nodes: set<NodeResolver>)
    requires ProgramOk(prog) && Stored(prog, memo) && AllDone(prog, memo, memo.Keys, nodes)
    requires Chain(prog, ch) && Resolved(prog, memo, ch[0])
    ensures Resolved(prog, memo, ch[|ch| - 1]) && FitsLocally(prog, ch[|ch| - 1])
    decreases |ch|
  {
    ResolvedFits(prog, memo, ch[0], nodes);
    if |ch| > 1 {
      assert ch[0 + 1] in Next(prog, ch[0]);
      forall i | 0 <= i < |ch[1..]| - 1 ensures ch[1..][i + 1] in Next(prog, ch[1..][i]) {
        assert ch[i + 2] in Next(prog, ch[i + 1]);
      }
      WalkFits(prog, memo, ch[1..], nodes);
    }
  }

  /** What is kept for a resolved pair is its resolver. */
  lemma ResolvedKept(prog: Program, memo: Memo, p: Pair)
    requires Stored(prog, memo) && Resolved(prog, memo, p)
    ensures Resolves(prog, memo, p, ResolverOf(prog, memo, p))
  {
  }

  /** An object whose entry is complete has a resolver for every field that is resolved, and no other. */
  lemma ObjectBuilt(prog: Program, memo: Memo, p: Pair)
    requires Stored(prog, memo) && p in memo && p.ast.Object? && Done(prog, memo, p)
    ensures Built(prog, memo, p)
  {
    var fs := FieldsOf(prog, p.ast.def);
    var cs := Children(prog, p.go, fs);
    assert StepOf(prog, p) == Node(cs);
    var parts := memo[p].node.parts;
    ChildrenExact(prog, p.go, fs);
    hide Children, FieldTarget, FieldAsks, Resolves, Resolved, ResolverOf;
    forall f | f in fs && !Skipped(f)
      ensures f.name in parts && exists q :: FieldAsks(prog, p.go, f, q) && Resolves(prog, memo, q, parts[f.name])
    {
      var c := Child(f.name, FieldTarget(prog, p.go, f));
      assert c in cs;
      var k :| 0 <= k < |cs| && cs[k] == c;
      TargetAsks(prog, p.go, f, c.target.pair);
      ResolvedKept(prog, memo, c.target.pair);
    }
    forall name | name in parts ensures exists f :: f in fs && !Skipped(f) && f.name == name {
      var k :| 0 <= k < |cs| && cs[k].name == name;
      assert cs[k] in cs;
    }
    assert parts.Keys == (set f | f in fs && !Skipped(f) :: f.name);
  }

  lemma DoneIsBuilt(prog: Program, memo: Memo, p: Pair)
    requires ProgramOk(prog) && Stored(prog, memo) && Resolved(prog, memo, p) && (p in memo ==> Done(prog, memo, p))
    ensures Built(prog, memo, p)
  {
    if p in memo {
      match p.ast {
        case Object(_) => ObjectBuilt(prog, memo, p);
        case NonNull(t) => ResolvedKept(prog, memo, Pair(t, p.go));
        case ListOf(t) =>
          var c := Child("", To(Pair(t, prog.sliceElem[p.go])));
          assert StepOf(prog, p) == Node([c]) && [c][0] == c;
          ResolvedKept(prog, memo, c.target.pair);
          assert memo[p].node.parts.Keys == {""};
        case _ =>
      }
    }
  }

  lemma EntryDone(prog: Program, memo: Memo, p: Pair, nodes: set<NodeResolver>)
    requires Stored(prog, memo) && AllDone(prog, memo, memo.Keys, nodes) && p in memo
    ensures Done(prog, memo, p) && (HasParts(memo, p) ==> memo[p].node in nodes)
  {
  }

  /** When the memo is complete, all that is resolved fits together and is built. */
  lemma ResolvedTogether(prog: Program, memo: Memo, root: Pair, nodes: set<NodeResolver>) returns (fits: set<Pair>)
    requires ProgramOk(prog) && Stored(prog, memo) && AllDone(prog, memo, memo.Keys, nodes)
    requires Resolved(prog, memo, root)
    ensures root in fits && FitTogether(prog, fits) && AllBuilt(prog, memo, fits, nodes)
  {
    var universe := Universe(prog, root);
    UniverseClosed(prog, root);
    fits := set q | q in universe && Resolved(prog, memo, q);
    hide StepOf, Next, FitsLocally, FitsAmong, Done, Resolved, Built, Universe, AllDone, Stored, ProgramOk;
    forall p | p in fits ensures FitsAmong(prog, fits, p) {
      ResolvedFits(prog, memo, p, nodes);
      forall q | q in Next(prog, p) ensures q in fits { }
      LocalExact(prog, fits, p);
    }
    forall p | p in fits ensures (HasParts(memo, p) ==> memo[p].node in nodes) && Built(prog, memo, p) {
      if p in memo { EntryDone(prog, memo, p, nodes); }
      DoneIsBuilt(prog, memo, p);
    }
  }

  /** A walk to a pair that does not fit shows that the first one does not. */
  lemma BlamedMisfit(prog: Program, p: Pair, ch: seq<Pair>)
    requires Blames(prog, p, ch)
    ensures !Fits(prog, p)
  {
    if Fits(prog, p) {
      var fits :| p in fits && FitTogether(prog, fits);
      WalkStays(prog, fits, ch);
    }
  }

  /** BuildModel: on any schema and Go types, possibly mutually recursive, the search ends. It succeeds
      exactly when the schema type fits the Go type, which is when every pair that can be reached fits;
      and then there is a complete resolver for each of them. */
  method BuildModel(prog: Program, root: Pair)
    returns (ok: bool, resolver: Resolver, resolvers: Memo, ghost fits: set<Pair>, ghost nodes: set<NodeResolver>)
    requires ProgramOk(prog)
    ensures ok <==> Fits(prog, root)
    ensures ok <==> AllFit(prog, root)
    ensures ok ==> Resolves(prog, resolvers, root, resolver)
    ensures ok ==> root in fits && FitTogether(prog, fits) && AllBuilt(prog, resolvers, fits, nodes)
    ensures ok ==> Resolved(prog, resolvers, root) && resolver == ResolverOf(prog, resolvers, root)
    ensures ok ==>
        forall q | Reaches(prog, root, q) ::
          q in fits && Resolved(prog, resolvers, q) && (q in resolvers ==> Done(prog, resolvers, q))
  {
    var rt := new ModelBuilder(prog);
    ghost var blame;
    UniverseClosed(prog, root);
    ok, resolver, nodes, blame := rt.BuildResolver(root, Universe(prog, root));
    resolvers := rt.resolvers;
    fits := {};
    if ok {
      assert resolvers.Keys - {} == resolvers.Keys;
      fits := ResolvedTogether(prog, resolvers, root, nodes);
      ResolvedKept(prog, resolvers, root);
      forall ch | Chain(prog, ch) && ch[0] == root
        ensures Resolved(prog, resolvers, ch[|ch| - 1]) && FitsLocally(prog, ch[|ch| - 1]) && ch[|ch| - 1] in fits
      {
        WalkFits(prog, resolvers, ch, nodes);
        WalkStays(prog, fits, ch);
      }
    } else {
      BlamedMisfit(prog, root, blame);
      assert Chain(prog, blame) && blame[0] == root && !FitsLocally(prog, blame[|blame| - 1]);
    }
  }
}
