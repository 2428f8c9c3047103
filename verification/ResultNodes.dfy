/** Result tree nodes and cursors, in place: client/result-tree-node.ts and client/path-cursor.ts. */
module ResultNodes {
  import opened Messages
  import opened Lists
  import opened AliasSpec
  import opened QueryTreeNodes
  import opened QueryTreeVisit
  import opened JsonHandlers

  class ResultTreeNode {
    var value: RGQLValue
    var children: seq<ResultTreeNode>
    /** The steps from the root down to this node. */
    ghost const path: Path

    constructor (value: RGQLValue, ghost path: Path)
      ensures this.value == value && children == [] && this.path == path
    {
      this.value, children, this.path := value, [], path;
    }
  }

  // ----- the heap tree as a trie

  /** The result nodes on the tree, by path. */
  type Places = map<Path, ResultTreeNode>

  /** The children lists and the values of some nodes. */
  type Kids = map<ResultTreeNode, seq<ResultTreeNode>>
  type Vals = map<ResultTreeNode, RGQLValue>

  ghost function KidsNow(ns: set<ResultTreeNode>): Kids
    reads ns`children
  {
    map n | n in ns :: n.children
  }

  ghost function ValsNow(ns: set<ResultTreeNode>): Vals
    reads ns`value
  {
    map n | n in ns :: n.value
  }

  /** A node is found under the last step of its path. */
  ghost predicate Labelled(n: ResultTreeNode, v: RGQLValue) {
    n.path != [] && StepOf(v) == Some(n.path[|n.path| - 1]) && (v.queryNodeId == 0 || v.arrayIndex == 0)
  }

  ghost predicate IsChild(at: Places, p: Path, c: ResultTreeNode) {
    c.path in at && at[c.path] == c && |c.path| == |p| + 1 && c.path[..|p|] == p
  }

  ghost predicate NodeOk(at: Places, p: Path, cs: seq<ResultTreeNode>) {
    NoRepeats(cs) && forall c | c in cs :: IsChild(at, p, c)
  }

  ghost predicate Hangs(at: Places, p: Path, kids: Kids, vals: Vals)
    requires p in at
  {
    p != [] ==>
      && p[..|p| - 1] in at && at[p[..|p| - 1]] in kids && at[p] in kids[at[p[..|p| - 1]]]
      && at[p] in vals && Labelled(at[p], vals[at[p]])
  }

  ghost predicate GoneOk(at: Places, gone: set<ResultTreeNode>, kids: Kids) {
    && (forall p | p in at :: at[p] !in gone)
    && (forall n | n in gone :: n in kids && AllIn(kids[n], gone))
  }

  ghost predicate AllIn(cs: seq<ResultTreeNode>, s: set<ResultTreeNode>) {
    forall c | c in cs :: c in s
  }

  /** `at` is the tree, and `gone` are nodes that were purged from it: nothing leads back. */
  ghost predicate Placed(at: Places, gone: set<ResultTreeNode>, kids: Kids, vals: Vals) {
    && [] in at
    && (forall p | p in at :: at[p].path == p && at[p] in kids && NodeOk(at, p, kids[at[p]]))
    && (forall p | p in at :: Hangs(at, p, kids, vals))
    && GoneOk(at, gone, kids)
  }

  ghost predicate PlacesOk(at: Places, gone: set<ResultTreeNode>)
    reads at.Values`children, at.Values`value, gone`children
  {
    Placed(at, gone, KidsNow(at.Values + gone), ValsNow(at.Values))
  }

  ghost function TrieOf(at: Places): map<Path, Option<Primitive>>
    reads at.Values`value
  {
    map p | p in at :: at[p].value.value
  }

  // ----- cursors

  /** The query nodes a cursor may point to, dropped ones included: a node finds exactly the
      children the query tree still has. */
  ghost predicate QueryView(live: set<QPath>, qnodes: set<QueryTreeNode>)
    reads qnodes`children
  {
    forall n | n in qnodes ::
      && (forall c | c in n.children :: c in qnodes && c.path == n.path + [c.id] && c.path in live)
      && (forall id | n.path + [id] in live :: exists c :: c in n.children && c.id == id)
  }

  /** Where a cursor with this path points. */
  ghost predicate PointsTo(at: Places, gone: set<ResultTreeNode>, qnodes: set<QueryTreeNode>, path: Path,
                           qnode: QueryTreeNode, rnode: ResultTreeNode)
  {
    && qnode in qnodes && qnode.path == Proj(path)
    && (if path in at then rnode == at[path] else rnode in gone)
  }

  class PathCursor {
    var qnode: QueryTreeNode
    var rnode: ResultTreeNode
    var outOfBounds: bool
    var resultHandlers: seq<Listening>
    /** Every step the cursor was given. */
    ghost var path: Path

    ghost function View(): Cursor
      reads this`path, this`outOfBounds
    {
      Cursor(path, outOfBounds)
    }

    ghost predicate Linked(at: Places, gone: set<ResultTreeNode>, qnodes: set<QueryTreeNode>)
      reads this`path, this`outOfBounds, this`qnode, this`rnode
    {
      !outOfBounds ==> PointsTo(at, gone, qnodes, path, qnode, rnode)
    }

    /** The handlers it carries are of these decoders, one each. */
    ghost predicate Heeds(heard: set<JSONDecoder>)
      reads this`resultHandlers
    {
      Single(resultHandlers) && DecodersOf(resultHandlers) <= heard
    }

    constructor (qnode: QueryTreeNode, rnode: ResultTreeNode, ghost path: Path)
      ensures this.qnode == qnode && this.rnode == rnode && !outOfBounds && this.path == path && resultHandlers == []
    {
      this.qnode, this.rnode, outOfBounds, resultHandlers, this.path := qnode, rnode, false, [], path;
    }

    method Clone() returns (n: PathCursor)
      ensures fresh(n) && n.View() == View() && n.qnode == qnode && n.rnode == rnode
      ensures n.resultHandlers == resultHandlers
    {
      n := new PathCursor(qnode, rnode, path);
      n.resultHandlers := resultHandlers;
      if outOfBounds {
        n.outOfBounds := true;
      }
    }

    /** Where a step leads in the query tree: out of bounds when the field is not selected. */
    method LookUp(val: RGQLValue, ghost live: set<QPath>, ghost qnodes: set<QueryTreeNode>)
      returns (nqn: QueryTreeNode)
      requires QueryView(live, qnodes) && (!outOfBounds ==> qnode in qnodes && qnode.path == Proj(path))
      modifies this`outOfBounds
      ensures outOfBounds == Advance(live, old(View()), val).oob
      ensures !outOfBounds ==> nqn in qnodes && nqn.path == Proj(Extend(path, val))
    {
      hide *;
      ViewIs(this);
      AdvanceIs(live, View(), val);
      nqn := qnode;
      if !outOfBounds && val.queryNodeId != 0 {
        var child := LookupChildByID(qnode, val.queryNodeId);
        LookupIs(live, qnodes, qnode, val.queryNodeId, child);
        if child == null {
          outOfBounds := true;
        } else {
          nqn := child;
        }
      }
    }

    /** The first half of apply: the cursor takes the step, and the tree is stored into. */
    method Take(val: RGQLValue, ghost live: set<QPath>, ghost qnodes: set<QueryTreeNode>,
                ghost at: Places, ghost gone: set<ResultTreeNode>)
      returns (ghost at': Places, ghost gone': set<ResultTreeNode>)
      requires QueryView(live, qnodes) && PlacesOk(at, gone) && FrameOk(val) && Linked(at, gone, qnodes)
      modifies this`qnode, this`rnode, this`outOfBounds, this`path
      modifies at.Values`children, at.Values`value, gone`children, gone`value
      ensures PlacesOk(at', gone') && gone <= gone' && fresh(gone' - gone)
      ensures View() == Advance(live, old(View()), val) && Linked(at', gone', qnodes)
      ensures TrieOf(at') == Store(live, old(TrieOf(at)), old(View()), val)
      ensures GrownBy(at, at', path) && fresh(set p | p in at' && p !in at :: at'[p])
    {
      hide *;
      ghost var view, before, trie := View(), path, TrieOf(at);
      PointsMean(at, gone, qnodes, this);
      AdvanceIs(live, view, val);
      StoreIs(live, trie, view, val);
      at', gone' := at, gone;
      GrownFacts(at, at, Extend(before, val));
      var nqn := LookUp(val, live, qnodes);
      path := Extend(before, val);
      if !outOfBounds {
        InHeap(at, before);
        var rtn;
        rtn, at', gone' := StepNode(rnode, val, at, gone, before);
        SteppedTo(at, at', gone', before, val, rtn);
        qnode, rnode := nqn, rtn;
        PointsOn(at', gone', qnodes, path, nqn, rtn);
      }
      PointsMean(at', gone', qnodes, this);
    }

    /** The second half: the handlers are called in turn, and those they return replace them. */
    method Notify(val: RGQLValue, ghost heard: set<JSONDecoder>) returns (threw: bool)
      requires Heeds(heard)
      modifies this`resultHandlers, heard
      ensures Heeds(heard) && (threw ==> resultHandlers == old(resultHandlers))
      ensures CalledIn(heard, val, old(Results(heard)), old(resultHandlers), threw, Results(heard), resultHandlers)
    {
      hide *;
      ghost var before, hs := Results(heard), resultHandlers;
      HeedsMean(this, heard);
      var nextHandlers: seq<Listening> := [];
      CallsStart(heard, val, before, hs);
      for i := 0 to |resultHandlers|
        invariant resultHandlers == hs && Calls(heard, val, before, hs, i, Results(heard), nextHandlers)
      {
        var l := resultHandlers[i];
        ListeningHeard(hs, heard, i);
        CallNow(heard, val, before, hs, i, Results(heard), nextHandlers);
        ghost var now, called := Results(heard), nextHandlers;
        ResultKeys(heard);
        var next;
        threw, next := l.decoder.HandleValue(l.handler, val);
        ResultKeys(heard);
        OneResult(heard, now, l.decoder);
        if threw {
          HeedsFrom(this, heard);
          CalledThrew(heard, val, before, hs, Results(heard), hs, l.decoder);
          return;
        }
        if next.Some? {
          nextHandlers := nextHandlers + [Listening(l.decoder, next.value)];
        }
        CallsMore(heard, val, before, hs, i, now, Results(heard), called, next, nextHandlers);
      }
      CallsEnd(heard, val, before, hs, Results(heard), nextHandlers);
      resultHandlers := nextHandlers;
      HeedsFrom(this, heard);
      threw := false;
    }

    /** apply: the step, and the handlers unless the cursor is out of bounds. */
    method Apply(val: RGQLValue, ghost live: set<QPath>, ghost qnodes: set<QueryTreeNode>,
                 ghost at: Places, ghost gone: set<ResultTreeNode>, ghost heard: set<JSONDecoder>)
      returns (threw: bool, ghost at': Places, ghost gone': set<ResultTreeNode>)
      requires QueryView(live, qnodes) && PlacesOk(at, gone) && FrameOk(val) && Linked(at, gone, qnodes) && Heeds(heard)
      modifies this, at.Values`children, at.Values`value, gone`children, gone`value, heard
      ensures PlacesOk(at', gone') && gone <= gone' && fresh(gone' - gone)
      ensures View() == Advance(live, old(View()), val) && Linked(at', gone', qnodes) && Heeds(heard)
      ensures TrieOf(at') == Store(live, old(TrieOf(at)), old(View()), val)
      ensures GrownBy(at, at', path) && fresh(set p | p in at' && p !in at :: at'[p])
      ensures Called(heard, live, old(View()), val, old(Results(heard)), old(resultHandlers), threw, Results(heard),
                     resultHandlers)
    {
      hide *;
      ghost var cur, before, hs := View(), Results(heard), resultHandlers;
      ResultKeys(heard);
      at', gone' := Take(val, live, qnodes, at, gone);
      threw := false;
      ViewIs(this);
      if !outOfBounds {
        threw := Notify(val, heard);
      }
      ResultKeys(heard);
      ApplyCalled(heard, live, cur, val, before, hs, threw, Results(heard), resultHandlers, outOfBounds);
    }
  }

  lemma ViewIs(cur: PathCursor)
    ensures cur.View() == Cursor(cur.path, cur.outOfBounds)
  {
  }

  lemma HeedsMean(cur: PathCursor, heard: set<JSONDecoder>)
    requires cur.Heeds(heard)
    ensures Single(cur.resultHandlers) && DecodersOf(cur.resultHandlers) <= heard
  {
  }

  lemma HeedsFrom(cur: PathCursor, heard: set<JSONDecoder>)
    requires Single(cur.resultHandlers) && DecodersOf(cur.resultHandlers) <= heard
    ensures cur.Heeds(heard)
  {
  }

  lemma ResultKeys(heard: set<JSONDecoder>)
    ensures Results(heard).Keys == heard && forall dec | dec in heard :: Results(heard)[dec] == dec.result
  {
  }

  /** What one decoder does with a frame, given the handler it has there, if any. */
  ghost function CallIn(q: Query, j: Json, h: Option<Handler>, f: RGQLValue): Outcome {
    if h.None? then Went(j, None) else Went1(q, j, h.value, f)
  }

  /** Called, in bounds. */
  ghost predicate CalledIn(heard: set<JSONDecoder>, f: RGQLValue, before: map<JSONDecoder, Json>, hs: seq<Listening>,
                           threw: bool, after: map<JSONDecoder, Json>, hs': seq<Listening>)
  {
    && before.Keys == heard && after.Keys == heard
    && if threw
       then exists dec :: dec in heard && CallIn(dec.query, before[dec], HandlerIn(hs, dec), f) == Threw
       else forall dec :: dec in heard ==>
              CallIn(dec.query, before[dec], HandlerIn(hs, dec), f) == Went(after[dec], HandlerIn(hs', dec))
  }

  /** The first `i` handlers have been called. */
  ghost predicate Calls(heard: set<JSONDecoder>, f: RGQLValue, before: map<JSONDecoder, Json>, hs: seq<Listening>,
                        i: nat, now: map<JSONDecoder, Json>, next: seq<Listening>)
  {
    && i <= |hs| && before.Keys == heard && now.Keys == heard && Single(next) && DecodersOf(next) <= heard
    && (forall dec :: dec in heard ==>
          if dec in DecodersOf(hs[..i])
          then CallIn(dec.query, before[dec], HandlerIn(hs, dec), f) == Went(now[dec], HandlerIn(next, dec))
          else now[dec] == before[dec] && HandlerIn(next, dec) == None)
  }

  lemma CallsStart(heard: set<JSONDecoder>, f: RGQLValue, before: map<JSONDecoder, Json>, hs: seq<Listening>)
    ensures before == Results(heard) ==> Calls(heard, f, before, hs, 0, before, [])
  {
  }

  lemma ListeningHeard(hs: seq<Listening>, heard: set<JSONDecoder>, i: nat)
    requires DecodersOf(hs) <= heard && i < |hs|
    ensures hs[i].decoder in heard
  {
    assert hs[i] in hs;
  }

  lemma NotYet(hs: seq<Listening>, i: nat)
    requires Single(hs) && i < |hs|
    ensures hs[i].decoder !in DecodersOf(hs[..i])
    ensures DecodersOf(hs[..i + 1]) == DecodersOf(hs[..i]) + {hs[i].decoder}
  {
    assert hs[..i + 1] == hs[..i] + [hs[i]];
    forall l | l in hs[..i] ensures l.decoder != hs[i].decoder {
      var k :| 0 <= k < i && hs[k] == l;
    }
  }

  lemma CallNow(heard: set<JSONDecoder>, f: RGQLValue, before: map<JSONDecoder, Json>, hs: seq<Listening>, i: nat,
                now: map<JSONDecoder, Json>, next: seq<Listening>)
    requires Calls(heard, f, before, hs, i, now, next) && Single(hs) && i < |hs| && hs[i].decoder in heard
    ensures hs[i].decoder in now && hs[i].decoder in before && now[hs[i].decoder] == before[hs[i].decoder]
    ensures before.Keys == heard && now.Keys == heard
    ensures CallIn(hs[i].decoder.query, before[hs[i].decoder], HandlerIn(hs, hs[i].decoder), f) ==
            Went1(hs[i].decoder.query, now[hs[i].decoder], hs[i].handler, f)
  {
    NotYet(hs, i);
    HandlerFound(hs, i);
  }

  lemma OneResult(heard: set<JSONDecoder>, now: map<JSONDecoder, Json>, dec: JSONDecoder)
    requires dec in heard && now.Keys == heard && forall x | x in heard && x != dec :: x.result == now[x]
    ensures Results(heard) == now[dec := dec.result]
  {
  }

  lemma CalledThrew(heard: set<JSONDecoder>, f: RGQLValue, before: map<JSONDecoder, Json>, hs: seq<Listening>,
                    after: map<JSONDecoder, Json>, hs': seq<Listening>, dec: JSONDecoder)
    requires before.Keys == heard && after.Keys == heard && dec in heard
    requires CallIn(dec.query, before[dec], HandlerIn(hs, dec), f) == Threw
    ensures CalledIn(heard, f, before, hs, true, after, hs')
  {
  }

  lemma CallsMore(heard: set<JSONDecoder>, f: RGQLValue, before: map<JSONDecoder, Json>, hs: seq<Listening>, i: nat,
                  now: map<JSONDecoder, Json>, after: map<JSONDecoder, Json>, next: seq<Listening>, h: Option<Handler>,
                  next': seq<Listening>)
    requires Calls(heard, f, before, hs, i, now, next) && Single(hs) && i < |hs| && hs[i].decoder in heard
    requires after.Keys == heard && after == now[hs[i].decoder := after[hs[i].decoder]]
    requires Went1(hs[i].decoder.query, now[hs[i].decoder], hs[i].handler, f) == Went(after[hs[i].decoder], h)
    requires next' == if h.Some? then next + [Listening(hs[i].decoder, h.value)] else next
    ensures Calls(heard, f, before, hs, i + 1, after, next')
  {
    var dec := hs[i].decoder;
    NotYet(hs, i);
    CallNow(heard, f, before, hs, i, now, next);
    HandlerAbsent(next, dec);
    if h.Some? {
      SingleAdded(next, Listening(dec, h.value));
      forall x | x in heard
        ensures HandlerIn(next', x) == if x == dec then h else HandlerIn(next, x)
        ensures DecodersOf(next') == DecodersOf(next) + {dec}
      {
        HandlerAdded(next, Listening(dec, h.value), x);
      }
    }
  }

  lemma CallsEnd(heard: set<JSONDecoder>, f: RGQLValue, before: map<JSONDecoder, Json>, hs: seq<Listening>,
                 now: map<JSONDecoder, Json>, next: seq<Listening>)
    requires Calls(heard, f, before, hs, |hs|, now, next)
    ensures CalledIn(heard, f, before, hs, false, now, next) && Single(next) && DecodersOf(next) <= heard
  {
    assert hs[..|hs|] == hs;
    forall dec | dec in heard
      ensures CallIn(dec.query, before[dec], HandlerIn(hs, dec), f) == Went(now[dec], HandlerIn(next, dec))
    {
      HandlerAbsent(hs, dec);
    }
  }

  lemma ApplyCalled(heard: set<JSONDecoder>, live: set<QPath>, cur: Cursor, f: RGQLValue,
                    before: map<JSONDecoder, Json>, hs: seq<Listening>, threw: bool,
                    after: map<JSONDecoder, Json>, hs': seq<Listening>, oob: bool)
    requires oob == Advance(live, cur, f).oob && before.Keys == heard && after.Keys == heard
    requires if oob then !threw && after == before && hs' == hs else CalledIn(heard, f, before, hs, threw, after, hs')
    ensures Called(heard, live, cur, f, before, hs, threw, after, hs')
  {
  }

  // ----- finding a child

  /** The child of `rnode` under a step. */
  method FindChild(rnode: ResultTreeNode, step: Step) returns (rtn: ResultTreeNode?)
    ensures rtn != null ==> rtn in rnode.children && Matches(rtn.value, step)
    ensures rtn == null ==> forall c | c in rnode.children :: !Matches(c.value, step)
  {
    for i := 0 to |rnode.children|
      invariant forall k :: 0 <= k < i ==> !Matches(rnode.children[k].value, step)
    {
      var child := rnode.children[i];
      if if step.Field? then child.value.queryNodeId == step.id else child.value.arrayIndex == step.idx {
        return child;
      }
    }
    return null;
  }

  ghost predicate Matches(v: RGQLValue, step: Step) {
    match step
    case Field(id) => v.queryNodeId == id
    case Index(idx) => v.arrayIndex == idx
  }

  lemma PathParts(p: Path, q: Path)
    requires |p| == |q| + 1 && p[..|q|] == q
    ensures p == q + [p[|q|]]
  {
  }

  lemma FoundOnTree(at: Places, gone: set<ResultTreeNode>, kids: Kids, vals: Vals, path: Path, step: Step,
                    c: ResultTreeNode)
    requires Placed(at, gone, kids, vals) && path in at && c in kids[at[path]] && c in vals && Matches(vals[c], step)
    ensures c.path == path + [step] && path + [step] in at && at[path + [step]] == c
  {
    assert IsChild(at, path, c);
    assert Hangs(at, c.path, kids, vals);
    PathParts(c.path, path);
  }

  lemma OnTreeFound(at: Places, gone: set<ResultTreeNode>, kids: Kids, vals: Vals, path: Path, step: Step)
    requires Placed(at, gone, kids, vals) && path in at
    ensures path + [step] in at ==> exists c :: c in kids[at[path]] && c in vals && Matches(vals[c], step)
  {
    if path + [step] in at {
      assert Hangs(at, path + [step], kids, vals);
      assert (path + [step])[..|path|] == path;
    }
  }

  lemma PushNode(at: Places, p: Path, cs: seq<ResultTreeNode>, nod: ResultTreeNode)
    requires NodeOk(at, p, cs) && nod.path !in at
    ensures NodeOk(at[nod.path := nod], p, cs)
    ensures |nod.path| == |p| + 1 && nod.path[..|p|] == p ==> NodeOk(at[nod.path := nod], p, cs + [nod])
  {
    forall c | c in cs ensures IsChild(at[nod.path := nod], p, c) && c != nod { assert IsChild(at, p, c); }
    RepeatsNot(cs, nod) by { assert nod !in cs; }
  }

  lemma PushHangs(at: Places, p: Path, kids: Kids, vals: Vals, at': Places, kids': Kids, vals': Vals)
    requires p in at && p in at' && Hangs(at, p, kids, vals) && at'[p] == at[p]
    requires forall q | q in at :: q in at' && at'[q] == at[q]
    requires forall n | n in kids :: n in kids' && forall c | c in kids[n] :: c in kids'[n]
    requires forall n | n in vals && n == at[p] :: n in vals' && vals'[n] == vals[n]
    ensures Hangs(at', p, kids', vals')
  {
  }

  /** A new node at the end of the children of `at[path]`. */
  lemma PlacedPush(at: Places, gone: set<ResultTreeNode>, kids: Kids, vals: Vals, path: Path, step: Step,
                   nod: ResultTreeNode, v: RGQLValue)
    requires Placed(at, gone, kids, vals) && path in at && path + [step] !in at
    requires
      && nod !in gone && nod !in at.Values && nod !in kids && nod.path == path + [step] && StepOf(v) == Some(step)
      && (v.queryNodeId == 0 || v.arrayIndex == 0)
    ensures Placed(at[nod.path := nod], gone, kids[at[path] := kids[at[path]] + [nod]][nod := []], vals[nod := v])
  {
    hide Hangs;
    var at', kids', vals' := at[nod.path := nod], kids[at[path] := kids[at[path]] + [nod]][nod := []], vals[nod := v];
    assert nod.path[..|path|] == path && at[path] != nod;
    assert kids'[at[path]] == kids[at[path]] + [nod];
    assert forall p | p in at :: at[p].path == p && at[p] != nod && at[p] in kids;
    assert GoneOk(at', gone, kids') by { assert forall n | n in gone :: n != at[path] && n != nod; }
    forall p | p in at' ensures at'[p].path == p && at'[p] in kids' && NodeOk(at', p, kids'[at'[p]]) {
      if p != nod.path { PushedNode(at, kids, path, p, nod); }
    }
    forall p | p in at' ensures Hangs(at', p, kids', vals') {
      if p == nod.path {
        assert kids'[at[path]][|kids[at[path]]|] == nod;
        HangsNew(at', path, nod, kids', vals', v);
      } else {
        PushHangs(at, p, kids, vals, at', kids', vals');
      }
    }
  }

  lemma HangsNew(at: Places, path: Path, nod: ResultTreeNode, kids: Kids, vals: Vals, v: RGQLValue)
    requires path in at && nod.path in at && at[nod.path] == nod && at[path] in kids && nod in kids[at[path]]
    requires nod in vals && vals[nod] == v
    requires |nod.path| == |path| + 1 && nod.path[..|path|] == path && Labelled(nod, v)
    ensures Hangs(at, nod.path, kids, vals)
  {
  }

  lemma PushedNode(at: Places, kids: Kids, path: Path, p: Path, nod: ResultTreeNode)
    requires p in at && path in at && at[p] in kids && at[path] in kids && at[p].path == p && at[path].path == path
    requires NodeOk(at, p, kids[at[p]]) && nod.path !in at && at[p] != nod && at[path] != nod
    requires |nod.path| == |path| + 1 && nod.path[..|path|] == path
    ensures NodeOk(at[nod.path := nod], p, kids[at[path] := kids[at[path]] + [nod]][nod := []][at[p]])
  {
    PushNode(at, p, kids[at[p]], nod);
  }

  lemma PlacedPushGone(at: Places, gone: set<ResultTreeNode>, kids: Kids, vals: Vals, n: ResultTreeNode,
                       nod: ResultTreeNode)
    requires Placed(at, gone, kids, vals) && n in gone && nod !in at.Values
    ensures Placed(at, gone + {nod}, kids[n := kids[n] + [nod]][nod := []], vals)
  {
    var kids' := kids[n := kids[n] + [nod]][nod := []];
    forall p | p in at ensures at[p] in kids' && kids'[at[p]] == kids[at[p]] && at[p] !in gone + {nod} { }
    forall p | p in at ensures Hangs(at, p, kids', vals) { assert Hangs(at, p, kids, vals); }
  }

  /** A value overwritten by one for the same step. */
  lemma PlacedWrite(at: Places, gone: set<ResultTreeNode>, kids: Kids, vals: Vals, path: Path, step: Step, v: RGQLValue)
    requires
      && Placed(at, gone, kids, vals) && path + [step] in at && StepOf(v) == Some(step)
      && (v.queryNodeId == 0 || v.arrayIndex == 0)
    ensures Placed(at, gone, kids, vals[at[path + [step]] := v])
  {
    var vals' := vals[at[path + [step]] := v];
    forall p | p in at ensures Hangs(at, p, kids, vals') {
      assert Hangs(at, p, kids, vals);
      assert at[p].path == p && at[path + [step]].path == path + [step];
    }
  }

  // ----- apply, on the tree

  ghost function TrieIn(at: Places, vals: Vals): map<Path, Option<Primitive>>
    requires forall p | p in at :: at[p] in vals
  {
    map p | p in at :: vals[at[p]].value
  }

  lemma PlacesMean(at: Places, gone: set<ResultTreeNode>)
    ensures
      var kids, vals := KidsNow(at.Values + gone), ValsNow(at.Values);
      && (PlacesOk(at, gone) <==> Placed(at, gone, kids, vals))
      && kids.Keys == at.Values + gone && vals.Keys == at.Values
      && (forall n | n in kids :: kids[n] == n.children) && (forall n | n in vals :: vals[n] == n.value)
      && (forall p | p in at :: at[p] in vals) && TrieOf(at) == TrieIn(at, vals)
  {
  }

  lemma SnapIs(ns: set<ResultTreeNode>, kids: Kids)
    requires kids.Keys == ns && forall n | n in ns :: kids[n] == n.children
    ensures KidsNow(ns) == kids
  {
  }

  lemma ValsIs(ns: set<ResultTreeNode>, vals: Vals)
    requires vals.Keys == ns && forall n | n in ns :: vals[n] == n.value
    ensures ValsNow(ns) == vals
  {
  }

  lemma TriePushed(at: Places, vals: Vals, nod: ResultTreeNode, v: RGQLValue)
    requires forall p | p in at :: at[p] in vals && at[p] != nod
    requires nod.path !in at
    ensures TrieIn(at[nod.path := nod], vals[nod := v]) == TrieIn(at, vals)[nod.path := v.value]
  {
  }

  lemma TrieWritten(at: Places, gone: set<ResultTreeNode>, kids: Kids, vals: Vals, next: Path, v: RGQLValue)
    requires Placed(at, gone, kids, vals) && next in at && forall p | p in at :: at[p] in vals
    ensures TrieIn(at, vals[at[next] := v]) == TrieIn(at, vals)[next := v.value]
  {
    hide Hangs, NodeOk, GoneOk;
    assert forall p | p in at :: at[p].path == p;
  }

  /** A node pushed below `path` for a frame that matches no child there. */
  lemma PushedOnTree(at: Places, gone: set<ResultTreeNode>, kids: Kids, vals: Vals, path: Path, nod: ResultTreeNode,
                     val: RGQLValue)
    requires Placed(at, gone, kids, vals) && path in at && FrameOk(val) && StepOf(val).Some?
    requires nod !in kids && nod.path == path + [StepOf(val).value] && at.Values + gone <= kids.Keys
    requires !exists c :: c in kids[at[path]] && c in vals && Matches(vals[c], StepOf(val).value)
    requires forall p | p in at :: at[p] in vals
    ensures
      var at', kids' := at[nod.path := nod], kids[at[path] := kids[at[path]] + [nod]][nod := []];
      && Placed(at', gone, kids', vals[nod := val]) && at'.Values == at.Values + {nod}
      && nod.path !in at && nod.path == Extend(path, val)
      && TrieIn(at', vals[nod := val]) == TrieIn(at, vals)[nod.path := val.value]
  {
    hide Placed, TrieIn;
    OnTreeFound(at, gone, kids, vals, path, StepOf(val).value);
    forall p | p in at ensures at[p] != nod { assert at[p] in at.Values; }
    assert nod !in at.Values && nod !in gone;
    PlacedPush(at, gone, kids, vals, path, StepOf(val).value, nod, val);
    ValuesPushed(at, nod);
    TriePushed(at, vals, nod, val);
    ExtendIs(path, val);
  }

  /** A child that a frame matches is the node of the next path, and takes the frame's value. */
  lemma FoundHere(at: Places, gone: set<ResultTreeNode>, kids: Kids, vals: Vals, path: Path, c: ResultTreeNode,
                  val: RGQLValue)
    requires Placed(at, gone, kids, vals) && path in at && FrameOk(val) && StepOf(val).Some?
    requires c in kids[at[path]] && c in vals && Matches(vals[c], StepOf(val).value)
    requires forall p | p in at :: at[p] in vals
    ensures
      var next := Extend(path, val);
      && next in at && at[next] == c
      && Placed(at, gone, kids, vals[c := val]) && TrieIn(at, vals[c := val]) == TrieIn(at, vals)[next := val.value]
  {
    hide Placed, TrieIn;
    FoundOnTree(at, gone, kids, vals, path, StepOf(val).value, c);
    PlacedWrite(at, gone, kids, vals, path, StepOf(val).value, val);
    ExtendIs(path, val);
    TrieWritten(at, gone, kids, vals, Extend(path, val), val);
  }

  /** The second half of apply: the node for the frame is found or pushed, and a value overwrites. */
  method StepInto(rnode: ResultTreeNode, val: RGQLValue, ghost path: Path) returns (rtn: ResultTreeNode, created: bool)
    requires FrameOk(val)
    modifies rnode`children, (set c | c in rnode.children)`value
    ensures StepOf(val).None? ==> rtn == rnode && !created
    ensures StepOf(val).Some? && !created ==> rtn in old(rnode.children) && old(Matches(rtn.value, StepOf(val).value))
    ensures !created ==> rnode.children == old(rnode.children)
    ensures forall c | c in old(rnode.children) ::
        c.value == if !created && c == rtn && val.value.Some? then val else old(c.value)
    ensures created ==> fresh(rtn) && StepOf(val).Some? && rnode.children == old(rnode.children) + [rtn]
    ensures created ==> rtn.value == val && rtn.children == [] && rtn.path == path + [StepOf(val).value]
    ensures created ==> forall c | c in old(rnode.children) :: !old(Matches(c.value, StepOf(val).value))
  {
    var step := StepOf(val);
    var found: ResultTreeNode? := rnode;
    if step.Some? {
      found := FindChild(rnode, step.value);
    }
    created := found == null;
    if found == null {
      rtn := new ResultTreeNode(val, path + [step.value]);
      rnode.children := rnode.children + [rtn];
    } else {
      rtn := found;
      if val.value.Some? {
        rtn.value := val;
      }
    }
  }

  /** That half, as it changes the snapshots: `onTree` are the nodes of the tree, among them those
      below `rnode` when the cursor is on the tree. */
  method StepSnapshots(rnode: ResultTreeNode, val: RGQLValue, ghost onTree: set<ResultTreeNode>,
                       ghost gone: set<ResultTreeNode>, ghost live: bool, ghost path: Path)
    returns (rtn: ResultTreeNode, created: bool)
    requires FrameOk(val) && rnode in onTree + gone && onTree !! gone
    requires forall c | c in rnode.children :: if live then c in onTree else c in gone
    modifies rnode`children, onTree`value, gone`value
    ensures StepOf(val).None? ==> rtn == rnode && !created
    ensures StepOf(val).Some? && !created ==> rtn in old(rnode.children) && old(Matches(rtn.value, StepOf(val).value))
    ensures created ==> fresh(rtn) && StepOf(val).Some? && rtn.path == path + [StepOf(val).value]
    ensures created ==> forall c | c in old(rnode.children) :: !old(Matches(c.value, StepOf(val).value))
    ensures KidsNow(onTree + gone + if created then {rtn} else {}) ==
            KidsAfter(old(KidsNow(onTree + gone)), rnode, rtn, created)
    ensures ValsNow(if live && created then onTree + {rtn} else onTree) ==
            ValsAfter(old(ValsNow(onTree)), live, rtn, created, val)
  {
    hide *;
    ghost var kids, vals := KidsNow(onTree + gone), ValsNow(onTree);
    NowMeans(onTree + gone, onTree);
    NoStepNoValue(val);
    rtn, created := StepInto(rnode, val, path);
    KidsAfterIs(kids, vals, live, rnode, rtn, created, val);
    SnapIs(onTree + gone + if created then {rtn} else {}, KidsAfter(kids, rnode, rtn, created));
    ValsIs(if live && created then onTree + {rtn} else onTree, ValsAfter(vals, live, rtn, created, val));
  }

  lemma NowMeans(ns: set<ResultTreeNode>, vs: set<ResultTreeNode>)
    ensures KidsNow(ns).Keys == ns && forall n | n in ns :: KidsNow(ns)[n] == n.children
    ensures ValsNow(vs).Keys == vs && forall n | n in vs :: ValsNow(vs)[n] == n.value
  {
  }

  lemma NoStepNoValue(val: RGQLValue)
    requires FrameOk(val)
    ensures StepOf(val).None? ==> val.value == None
  {
  }

  /** That half, with the cursor on the tree: the trie is stored into. With the cursor on a purged
      node the trie is left alone. */
  method StepNode(rnode: ResultTreeNode, val: RGQLValue, ghost at: Places, ghost gone: set<ResultTreeNode>,
                  ghost path: Path)
    returns (rtn: ResultTreeNode, ghost at': Places, ghost gone': set<ResultTreeNode>)
    requires PlacesOk(at, gone) && FrameOk(val) && if path in at then at[path] == rnode else rnode in gone
    modifies rnode`children, at.Values`value, gone`value
    ensures PlacesOk(at', gone') && gone <= gone' && fresh(gone' - gone)
    ensures var next := Extend(path, val);
            if path in at
            then && gone' == gone && at' == at[next := rtn] && (next in at ==> at[next] == rtn)
                 && (next !in at ==> fresh(rtn))
            else at' == at && rtn in gone'
    ensures TrieOf(at') == StoreAt(old(TrieOf(at)), path, val)
  {
    hide *;
    ghost var kids, vals := KidsNow(at.Values + gone), ValsNow(at.Values);
    PlacesMean(at, gone);
    NodesInside(at, gone, kids, vals, path, rnode);
    var created;
    rtn, created := StepSnapshots(rnode, val, at.Values, gone, path in at, path);
    if path in at {
      at', gone' := if created then at[rtn.path := rtn] else at, gone;
      if created { NoneOfThese(kids[rnode], vals, StepOf(val).value); }
      SteppedOnTree(at, gone, kids, vals, path, rtn, created, val);
      assert at'.Values + gone' == at.Values + gone + if created then {rtn} else {};
    } else {
      at', gone' := at, if created then gone + {rtn} else gone;
      SteppedOff(at, gone, kids, vals, rnode, rtn, created, val);
      assert at'.Values + gone' == at.Values + gone + if created then {rtn} else {};
    }
    PlacesMean(at', gone');
    StoreAtIs(TrieIn(at, vals), path, val);
    PlacesSame(at, Extend(path, val));
  }

  lemma SteppedOff(at: Places, gone: set<ResultTreeNode>, kids: Kids, vals: Vals, rnode: ResultTreeNode,
                   rtn: ResultTreeNode, created: bool, val: RGQLValue)
    requires Placed(at, gone, kids, vals) && rnode in gone && rnode in kids
    requires if created then rtn !in at.Values else rtn == rnode || rtn in gone
    ensures Placed(at, if created then gone + {rtn} else gone, KidsAfter(kids, rnode, rtn, created), vals)
    ensures ValsAfter(vals, false, rtn, created, val) == vals
  {
    if created { PlacedPushGone(at, gone, kids, vals, rnode, rtn); }
  }

  /** The snapshots after a step. */
  ghost function KidsAfter(kids: Kids, rnode: ResultTreeNode, rtn: ResultTreeNode, created: bool): Kids
    requires rnode in kids
  {
    if created then kids[rnode := kids[rnode] + [rtn]][rtn := []] else kids
  }

  ghost function ValsAfter(vals: Vals, live: bool, rtn: ResultTreeNode, created: bool, val: RGQLValue): Vals {
    if live && (created || val.value.Some?) then vals[rtn := val] else vals
  }

  lemma KidsAfterIs(kids: Kids, vals: Vals, live: bool, rnode: ResultTreeNode, rtn: ResultTreeNode, created: bool,
                    val: RGQLValue)
    requires rnode in kids
    ensures
      KidsAfter(kids, rnode, rtn, created) == if created then kids[rnode := kids[rnode] + [rtn]][rtn := []] else kids
    ensures ValsAfter(vals, live, rtn, created, val) ==
            if live && (created || val.value.Some?) then vals[rtn := val] else vals
  {
  }

  /** A step from a node of the tree, on snapshots: the tree and what it stores. */
  lemma SteppedOnTree(at: Places, gone: set<ResultTreeNode>, kids: Kids, vals: Vals, path: Path, rtn: ResultTreeNode,
                      created: bool, val: RGQLValue)
    requires Placed(at, gone, kids, vals) && path in at && at[path] in kids && FrameOk(val)
    requires at.Values + gone <= kids.Keys && forall p | p in at :: at[p] in vals
    requires StepOf(val).None? ==> rtn == at[path] && !created
    requires created ==> rtn !in kids && StepOf(val).Some? && rtn.path == path + [StepOf(val).value]
    requires created ==> !exists c :: c in kids[at[path]] && c in vals && Matches(vals[c], StepOf(val).value)
    requires StepOf(val).Some? && !created ==>
               rtn in kids[at[path]] && rtn in vals && Matches(vals[rtn], StepOf(val).value)
    ensures
      var at', next := if created then at[rtn.path := rtn] else at, Extend(path, val);
      && Placed(at', gone, KidsAfter(kids, at[path], rtn, created), ValsAfter(vals, true, rtn, created, val))
      && at'.Values == (if created then at.Values + {rtn} else at.Values)
      && at' == at[next := rtn] && (created <==> next !in at)
      && TrieIn(at', ValsAfter(vals, true, rtn, created, val)) ==
         if next in at && val.value == None then TrieIn(at, vals) else TrieIn(at, vals)[next := val.value]
  {
    hide Placed, TrieIn, Matches;
    ExtendIs(path, val);
    if created {
      PushedOnTree(at, gone, kids, vals, path, rtn, val);
    } else {
      if StepOf(val).Some? { FoundHere(at, gone, kids, vals, path, rtn, val); }
      PlacesSame(at, Extend(path, val));
    }
  }

  lemma PlacesSame(at: Places, path: Path)
    ensures path in at ==> at[path := at[path]] == at
  {
  }

  /** Store, for a cursor in bounds. */
  ghost function StoreAt(trie: map<Path, Option<Primitive>>, path: Path, f: RGQLValue): map<Path, Option<Primitive>> {
    if path !in trie then trie
    else if Extend(path, f) in trie && f.value == None then trie
    else trie[Extend(path, f) := f.value]
  }

  lemma StoreAtIs(trie: map<Path, Option<Primitive>>, path: Path, f: RGQLValue)
    ensures
      StoreAt(trie, path, f) ==
        if path !in trie || (Extend(path, f) in trie
        && f.value == None) then trie else trie[Extend(path, f) := f.value]
  {
  }

  lemma NodesInside(at: Places, gone: set<ResultTreeNode>, kids: Kids, vals: Vals, path: Path, rnode: ResultTreeNode)
    requires Placed(at, gone, kids, vals) && if path in at then at[path] == rnode else rnode in gone
    requires forall p | p in at :: at[p] in vals
    ensures rnode in kids && TrieIn(at, vals).Keys == at.Keys && at.Values !! gone
    ensures forall c | c in kids[rnode] :: if path in at then c in at.Values else c in gone
  {
    hide Hangs;
    if path in at {
      forall c | c in kids[rnode] ensures c in at.Values { assert IsChild(at, path, c); }
    }
  }

  lemma ExtendIs(path: Path, f: RGQLValue)
    ensures Extend(path, f) == if StepOf(f).Some? then path + [StepOf(f).value] else path
    ensures FrameOk(f) ==> (f.queryNodeId == 0 || f.arrayIndex == 0) && (f.value.Some? ==> StepOf(f).Some?)
  {
  }

  lemma NoneOfThese(cs: seq<ResultTreeNode>, vals: Vals, step: Step)
    requires forall c | c in cs && c in vals :: !Matches(vals[c], step)
    ensures !exists c :: c in cs && c in vals && Matches(vals[c], step)
  {
  }

  lemma ValuesPushed(at: Places, nod: ResultTreeNode)
    requires nod.path !in at
    ensures at[nod.path := nod].Values == at.Values + {nod}
  {
    forall n | n in at.Values ensures n in at[nod.path := nod].Values {
      var p :| p in at && at[p] == n;
      assert at[nod.path := nod][p] == n;
    }
    assert at[nod.path := nod][nod.path] == nod;
  }

  // ----- apply, on the cursor

  lemma LookupIs(live: set<QPath>, qnodes: set<QueryTreeNode>, qnode: QueryTreeNode, id: nat, nqn: QueryTreeNode?)
    requires QueryView(live, qnodes) && qnode in qnodes
    requires nqn == null ==> forall c | c in qnode.children :: c.id != id
    requires nqn != null ==> nqn in qnode.children && nqn.id == id
    ensures nqn == null <==> qnode.path + [id] !in live
    ensures nqn != null ==> nqn in qnodes && nqn.path == qnode.path + [id]
  {
  }

  lemma AdvanceIs(live: set<QPath>, cur: Cursor, f: RGQLValue)
    ensures Advance(live, cur, f).path == Extend(cur.path, f)
    ensures Advance(live, cur, f).oob <==> cur.oob || (f.queryNodeId != 0 && Proj(cur.path) + [f.queryNodeId] !in live)
    ensures Proj(Extend(cur.path, f)) == if f.queryNodeId != 0 then Proj(cur.path) + [f.queryNodeId] else Proj(cur.path)
  {
    if StepOf(f).Some? { ProjSnoc(cur.path, StepOf(f).value); }
  }

  lemma StoreIs(live: set<QPath>, trie: map<Path, Option<Primitive>>, cur: Cursor, f: RGQLValue)
    ensures Advance(live, cur, f).oob ==> Store(live, trie, cur, f) == trie
    ensures !Advance(live, cur, f).oob ==> Store(live, trie, cur, f) == StoreAt(trie, cur.path, f)
  {
  }

  lemma ParentPlaced(at: Places, gone: set<ResultTreeNode>, path: Path, f: RGQLValue)
    requires PlacesOk(at, gone)
    ensures Extend(path, f) in at ==> path in at
  {
    if Extend(path, f) in at {
      assert Hangs(at, Extend(path, f), KidsNow(at.Values + gone), ValsNow(at.Values));
    }
  }

  /** The tree has only grown, at most by a node for `next`. */
  ghost predicate GrownBy(at: Places, at': Places, next: Path) {
    at.Keys <= at'.Keys <= at.Keys + {next} && forall p | p in at :: at'[p] == at[p]
  }

  lemma GrownFacts(at: Places, at': Places, next: Path)
    requires at' == at || (next in at' && at' == at[next := at'[next]] && (next in at ==> at[next] == at'[next]))
    ensures GrownBy(at, at', next)
  {
  }

  /** Where a step has led on the tree. */
  lemma SteppedTo(at: Places, at': Places, gone': set<ResultTreeNode>, before: Path, f: RGQLValue, rtn: ResultTreeNode)
    requires PlacesOk(at', gone')
    requires var next := Extend(before, f);
             if before in at then at' == at[next := rtn] && (next in at ==> at[next] == rtn)
             else at' == at && rtn in gone'
    ensures var next := Extend(before, f);
            GrownBy(at, at', next) && (if next in at' then rtn == at'[next] else rtn in gone')
            && (forall p :: p in at' && p !in at ==> p == next && before in at && at'[p] == rtn)
  {
    hide PlacesOk;
    ParentPlaced(at', gone', before, f);
    GrownFacts(at, at', Extend(before, f));
  }

  lemma PointsOn(at: Places, gone: set<ResultTreeNode>, qnodes: set<QueryTreeNode>, path: Path, qnode: QueryTreeNode,
                 rnode: ResultTreeNode)
    requires qnode in qnodes && qnode.path == Proj(path) && if path in at then rnode == at[path] else rnode in gone
    ensures PointsTo(at, gone, qnodes, path, qnode, rnode)
  {
  }

  lemma PointsMean(at: Places, gone: set<ResultTreeNode>, qnodes: set<QueryTreeNode>, cur: PathCursor)
    ensures cur.View() == Cursor(cur.path, cur.outOfBounds)
    ensures
      cur.Linked(at, gone, qnodes) <==> cur.outOfBounds || PointsTo(at, gone, qnodes, cur.path, cur.qnode, cur.rnode)
    ensures PointsTo(at, gone, qnodes, cur.path, cur.qnode, cur.rnode) ==>
              && cur.qnode in qnodes && cur.qnode.path == Proj(cur.path)
              && if cur.path in at then cur.rnode == at[cur.path] else cur.rnode in gone
  {
  }

  lemma InHeap(at: Places, path: Path)
    ensures path in at ==> at[path] in at.Values
  {
  }
}
