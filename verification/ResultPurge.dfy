/** Purging the results of a dropped query node: purgeQtNodesRecursive of client/result-tree.ts.
    Telling the result handlers is not part of this model. */
module ResultPurge {
  import opened Messages
  import opened Lists
  import opened ResultNodes

  /** The query node ids still to match, from `idx` down. */
  function Rest(ids: seq<nat>, idx: nat): QPath
    requires idx < |ids|
  {
    if idx == 0 then [ids[0]] else [ids[idx]] + Rest(ids, idx - 1)
  }

  ghost predicate SubPlaces(at': Places, at: Places) {
    at'.Keys <= at.Keys && forall p | p in at' :: at'[p] == at[p]
  }

  /** Nothing is missing but results at or below `path` that extend the target. */
  ghost predicate OnlyPurged(at: Places, at': Places, path: Path, target: QPath) {
    forall q | q in at && q !in at' :: path <= q && target <= Proj(q)
  }

  /** No result at or below `path` extends the target. */
  ghost predicate ClearUnder(at: Places, path: Path, target: QPath) {
    forall q | q in at && path <= q :: !(target <= Proj(q))
  }

  ghost predicate FirstClear(at: Places, cs: seq<ResultTreeNode>, i: int, target: QPath) {
    0 <= i <= |cs| && forall j | 0 <= j < i :: ClearUnder(at, cs[j].path, target)
  }

  ghost predicate Within(at: Places, bound: nat) {
    forall p | p in at :: |p| <= bound
  }

  // ----- one child

  lemma ChildStep(at: Places, gone: set<ResultTreeNode>, kids: Kids, vals: Vals, path: Path, c: ResultTreeNode)
    requires Placed(at, gone, kids, vals) && path in at && c in kids[at[path]]
    ensures c.path in at && at[c.path] == c && c in vals && Labelled(c, vals[c])
    ensures StepOf(vals[c]).Some? && c.path == path + [StepOf(vals[c]).value]
  {
    assert IsChild(at, path, c);
    assert Hangs(at, c.path, kids, vals);
    PathParts(c.path, path);
  }

  lemma ProjExtends(p: Path, q: Path)
    requires p <= q
    ensures Proj(p) <= Proj(q)
  {
    ProjPrefix(p, q);
  }

  /** A field of another id: nothing below it extends the target. */
  lemma OtherField(at: Places, path: Path, id: Pos, ids: seq<nat>, idx: nat)
    requires idx < |ids| && id != ids[idx]
    ensures ClearUnder(at, path + [Field(id)], Proj(path) + Rest(ids, idx))
  {
    var target := Proj(path) + Rest(ids, idx);
    ProjSnoc(path, Field(id));
    forall q | q in at && path + [Field(id)] <= q ensures !(target <= Proj(q)) {
      ProjExtends(path + [Field(id)], q);
      assert Proj(q)[|Proj(path)|] == id && target[|Proj(path)|] == ids[idx];
    }
  }

  lemma TheField(path: Path, id: Pos, ids: seq<nat>, idx: nat)
    requires idx < |ids| && id == ids[idx]
    ensures idx == 0 ==> Proj(path + [Field(id)]) == Proj(path) + Rest(ids, idx)
    ensures idx > 0 ==> Proj(path + [Field(id)]) + Rest(ids, idx - 1) == Proj(path) + Rest(ids, idx)
  {
    ProjSnoc(path, Field(id));
    if idx > 0 {
      var a, b := Proj(path), Rest(ids, idx - 1);
      assert Rest(ids, idx) == [id as nat] + b;
      hide *;
      assert a + [id as nat] + b == a + ([id as nat] + b);
    }
  }

  // ----- dropping a child with everything below it

  ghost function Without(at: Places, c: Path): Places {
    map q | q in at && !(c <= q) :: at[q]
  }

  ghost function Under(at: Places, c: Path): set<ResultTreeNode> {
    set q | q in at && c <= q :: at[q]
  }

  lemma UpOrSelf(c: Path, d: Path, up: Path)
    requires |d| == |up| + 1 && d[..|up|] == up
    ensures c <= d <==> c == d || c <= up
  {
    if c <= d && c != d { assert c == d[..|up|][..|c|]; }
    if c <= up { assert c == d[..|c|]; }
  }

  lemma DropNode(at: Places, gone: set<ResultTreeNode>, kids: Kids, vals: Vals, path: Path, i: nat, p: Path)
    requires Placed(at, gone, kids, vals) && path in at && i < |kids[at[path]]|
    requires p in Without(at, kids[at[path]][i].path)
    ensures var c := kids[at[path]][i]; var at' := Without(at, c.path);
            NodeOk(at', p, kids[at[path] := SwapRemove(kids[at[path]], i)][at[p]])
  {
    hide Hangs, GoneOk;
    var cs := kids[at[path]];
    var c := cs[i];
    assert IsChild(at, path, c);
    SwapRemoveFacts(cs, i);
    assert NodeOk(at, p, kids[at[p]]);
    forall d | d in kids[at[p]] && d != c ensures IsChild(Without(at, c.path), p, d) {
      assert IsChild(at, p, d);
      UpOrSelf(c.path, d.path, p);
    }
    if p == path {
      assert at[p] == at[path];
    } else {
      assert at[p].path == p && at[path].path == path;
      assert c in kids[at[p]] ==> IsChild(at, p, c);
    }
  }

  lemma NodeMeans(at: Places, path: Path, cs: seq<ResultTreeNode>)
    requires NodeOk(at, path, cs)
    ensures NoRepeats(cs) && forall c | c in cs :: IsChild(at, path, c)
  {
  }

  lemma DropHangs(at: Places, gone: set<ResultTreeNode>, kids: Kids, vals: Vals, path: Path, i: nat, p: Path)
    requires Placed(at, gone, kids, vals) && path in at && i < |kids[at[path]]|
    requires p in Without(at, kids[at[path]][i].path)
    ensures var c := kids[at[path]][i]; var at' := Without(at, c.path);
            Hangs(at', p, kids[at[path] := SwapRemove(kids[at[path]], i)], vals)
  {
    hide GoneOk, NodeOk;
    var cs := kids[at[path]];
    var c := cs[i];
    assert Hangs(at, p, kids, vals);
    NodeMeans(at, path, cs);
    SwapRemoveFacts(cs, i);
    if p != [] {
      var up := p[..|p| - 1];
      UpOrSelf(c.path, p, up);
      assert at[p] != c by { assert at[p].path == p; }
    }
  }

  lemma DropGone(at: Places, gone: set<ResultTreeNode>, kids: Kids, vals: Vals, path: Path, i: nat)
    requires Placed(at, gone, kids, vals) && path in at && i < |kids[at[path]]|
    ensures var c := kids[at[path]][i];
            GoneOk(Without(at, c.path), gone + Under(at, c.path), kids[at[path] := SwapRemove(kids[at[path]], i)])
  {
    hide Hangs;
    var cs := kids[at[path]];
    var c := cs[i];
    assert IsChild(at, path, c);
    var kids', gone' := kids[at[path] := SwapRemove(cs, i)], gone + Under(at, c.path);
    assert forall q | q in at :: at[q].path == q;
    assert forall p | p in Without(at, c.path) :: at[p] !in gone';
    forall n | n in gone' ensures n in kids' && AllIn(kids'[n], gone') {
      if n in gone {
        assert n != at[path] && AllIn(kids[n], gone);
      } else {
        var q :| q in at && c.path <= q && at[q] == n;
        assert at[q].path == q && at[path].path == path && q != path;
        forall d | d in kids[n] ensures d in Under(at, c.path) {
          assert IsChild(at, q, d);
          assert c.path <= d.path;
        }
      }
    }
  }

  /** Swap-removing a child takes it, and everything below it, off the tree. */
  lemma PlacedDrop(at: Places, gone: set<ResultTreeNode>, kids: Kids, vals: Vals, path: Path, i: nat)
    requires Placed(at, gone, kids, vals) && path in at && i < |kids[at[path]]|
    ensures var c := kids[at[path]][i];
            Placed(Without(at, c.path), gone + Under(at, c.path), kids[at[path] := SwapRemove(kids[at[path]], i)], vals)
  {
    var c := kids[at[path]][i];
    var at', kids' := Without(at, c.path), kids[at[path] := SwapRemove(kids[at[path]], i)];
    assert IsChild(at, path, c);
    DropGone(at, gone, kids, vals, path, i);
    forall p | p in at' ensures Hangs(at', p, kids', vals) { DropHangs(at, gone, kids, vals, path, i, p); }
    hide Hangs, GoneOk, NodeOk;
    forall p | p in at' ensures at'[p].path == p && at'[p] in kids' && NodeOk(at', p, kids'[at'[p]]) {
      DropNode(at, gone, kids, vals, path, i, p);
    }
  }

  /** Everything below a node is at or below one of its children. */
  lemma {:induction false} UnderChild(at: Places, gone: set<ResultTreeNode>, kids: Kids, vals: Vals, path: Path,
                                      q: Path)
    returns (c: ResultTreeNode)
    requires Placed(at, gone, kids, vals) && path in at && q in at && path <= q && path != q
    ensures c in kids[at[path]] && c.path <= q
    decreases |q|
  {
    assert Hangs(at, q, kids, vals);
    var up := q[..|q| - 1];
    if up == path {
      c := at[q];
      assert at[q].path == q;
    } else {
      assert path <= up;
      c := UnderChild(at, gone, kids, vals, path, up);
    }
  }

  // ----- the recursion

  /** What has been done so far at `path`: `at'` is still a tree, only purged results are missing,
      and the first `i` children are clear. */
  ghost predicate Purging(at: Places, gone: set<ResultTreeNode>, at': Places, gone': set<ResultTreeNode>, path: Path,
                          target: QPath)
  {
    && SubPlaces(at', at) && OnlyPurged(at, at', path, target) && path in at'
    && gone <= gone' <= gone + at.Values && (forall p | p in at && p !in at' :: at[p] in gone')
  }

  /** A child is matched: it leaves the tree, with its value. */
  method Drop(rnode: ResultTreeNode, i: nat, rchild: ResultTreeNode, ghost at: Places, ghost gone: set<ResultTreeNode>,
              ghost path: Path)
    requires PlacesOk(at, gone) && path in at && at[path] == rnode && i < |rnode.children|
    requires rnode.children[i] == rchild
    modifies rnode`children, rchild`value
    ensures PlacesOk(Without(at, rchild.path), gone + Under(at, rchild.path))
    ensures rnode.children == SwapRemove(old(rnode.children), i)
    ensures rchild.path in at && at[rchild.path] == rchild
  {
    hide *;
    ghost var kids, vals := KidsNow(at.Values + gone), ValsNow(at.Values);
    PlacesMean(at, gone);
    InHeap(at, path);
    ChildStep(at, gone, kids, vals, path, rchild);
    PathsAre(at, gone, kids, vals);
    PlacedDrop(at, gone, kids, vals, path, i);
    rchild.value := rchild.value.(value := None);
    rnode.children := SwapRemove(rnode.children, i);
    DropSnap(at, gone, rchild.path, kids[rnode := rnode.children], vals);
  }

  lemma PathsAre(at: Places, gone: set<ResultTreeNode>, kids: Kids, vals: Vals)
    requires Placed(at, gone, kids, vals)
    ensures forall p | p in at :: at[p].path == p
  {
    hide Hangs, NodeOk, GoneOk;
  }

  lemma DropSnap(at: Places, gone: set<ResultTreeNode>, c: Path, kids: Kids, vals: Vals)
    requires forall p | p in at :: at[p].path == p
    requires Placed(Without(at, c), gone + Under(at, c), kids, vals)
    requires kids.Keys == at.Values + gone && forall n | n in kids :: kids[n] == n.children
    requires vals.Keys == at.Values && forall n | n in vals && !(c <= n.path) :: vals[n] == n.value
    ensures PlacesOk(Without(at, c), gone + Under(at, c))
  {
    var at', gone' := Without(at, c), gone + Under(at, c);
    SplitValues(at, c);
    hide Placed, Under;
    SnapIs(at'.Values + gone', kids);
    forall p | p in at' ensures at'[p] in vals && ValsNow(at'.Values)[at'[p]] == vals[at'[p]] {
      assert at[p] in at.Values;
    }
    PlacedVals(at', gone', kids, vals, ValsNow(at'.Values));
    PlacesMean(at', gone');
  }

  lemma SplitValues(at: Places, c: Path)
    ensures Without(at, c).Values + Under(at, c) == at.Values
  {
    forall n | n in at.Values ensures n in Without(at, c).Values + Under(at, c) {
      var p :| p in at && at[p] == n;
      if !(c <= p) { assert Without(at, c)[p] == n; }
    }
  }

  lemma PlacedVals(at: Places, gone: set<ResultTreeNode>, kids: Kids, vals: Vals, vals': Vals)
    requires Placed(at, gone, kids, vals)
    requires forall p | p in at :: at[p] in vals && at[p] in vals' && vals'[at[p]] == vals[at[p]]
    ensures Placed(at, gone, kids, vals')
  {
    hide GoneOk, NodeOk;
    forall p | p in at ensures Hangs(at, p, kids, vals') { assert Hangs(at, p, kids, vals); }
  }

  lemma PurgingStarts(at: Places, gone: set<ResultTreeNode>, path: Path, target: QPath, cs: seq<ResultTreeNode>)
    requires path in at
    ensures Purging(at, gone, at, gone, path, target) && FirstClear(at, cs, 0, target)
  {
  }

  lemma PurgingTrans(a: Places, ag: set<ResultTreeNode>, b: Places, bg: set<ResultTreeNode>, c: Places,
                     cg: set<ResultTreeNode>, path: Path, target: QPath)
    requires Purging(a, ag, b, bg, path, target) && Purging(b, bg, c, cg, path, target)
    ensures Purging(a, ag, c, cg, path, target)
  {
    assert b.Values <= a.Values by { forall n | n in b.Values ensures n in a.Values { var p :| p in b
      && b[p] == n; assert a[p] == n; } }
    forall p | p in a && p !in c ensures a[p] in cg { if p in b { assert b[p] in cg; } }
  }

  lemma PurgingWider(a: Places, ag: set<ResultTreeNode>, b: Places, bg: set<ResultTreeNode>, path: Path, c: Path,
                     target: QPath)
    requires Purging(a, ag, b, bg, c, target) && path in a && path <= c && path != c
    ensures Purging(a, ag, b, bg, path, target)
  {
    forall q | q in a && q !in b ensures path <= q { assert c <= q; assert q[..|c|][..|path|] == path; }
    assert !(c <= path);
  }

  /** A matched child is gone with everything below it, all of which extends the target. */
  lemma PurgingDrop(at: Places, gone: set<ResultTreeNode>, path: Path, c: Path, target: QPath)
    requires path in at && path <= c && path != c && Proj(c) == target && forall p | p in at :: at[p].path == p
    ensures Purging(at, gone, Without(at, c), gone + Under(at, c), path, target)
    ensures forall p | p in at && p in Without(at, c) && c in at :: at[p] != at[c]
  {
    forall q | q in at && q !in Without(at, c) ensures path <= q && target <= Proj(q) {
      ProjExtends(c, q);
      assert q[..|c|][..|path|] == path;
    }
  }

  lemma ClearKept(at: Places, at': Places, cs: seq<ResultTreeNode>, cs': seq<ResultTreeNode>, i: nat, target: QPath)
    requires FirstClear(at, cs, i, target) && SubPlaces(at', at) && i <= |cs'| && cs'[..i] == cs[..i]
    ensures FirstClear(at', cs', i, target)
  {
    forall j | 0 <= j < i ensures cs'[j] == cs[j] { assert cs'[..i][j] == cs[..i][j]; }
  }

  lemma ClearNext(at: Places, cs: seq<ResultTreeNode>, i: nat, target: QPath)
    requires FirstClear(at, cs, i, target) && i < |cs| && ClearUnder(at, cs[i].path, target)
    ensures FirstClear(at, cs, i + 1, target)
  {
  }

  lemma PurgingMeans(at: Places, gone: set<ResultTreeNode>, at': Places, gone': set<ResultTreeNode>, path: Path,
                     target: QPath)
    requires Purging(at, gone, at', gone', path, target)
    ensures SubPlaces(at', at) && path in at' && path in at && at'[path] == at[path] && at'.Values <= at.Values
    ensures forall p | p in at' :: p in at && at'[p] == at[p]
    ensures forall p | p in at && !(path <= p) :: p in at'
  {
    forall n | n in at'.Values ensures n in at.Values { var p :| p in at' && at'[p] == n; assert at[p] == n; }
  }

  /** The full purge below `path`. */
  ghost function Purged(at: Places, path: Path, target: QPath): Places {
    map q | q in at && !(path <= q && target <= Proj(q)) :: at[q]
  }

  lemma PurgingEnds(at: Places, gone: set<ResultTreeNode>, at': Places, gone': set<ResultTreeNode>, kids: Kids,
                    vals: Vals, path: Path,
                    ids: seq<nat>, idx: nat)
    requires idx < |ids|
    requires var target := Proj(path) + Rest(ids, idx);
             && Placed(at', gone', kids, vals) && Purging(at, gone, at', gone', path, target)
             && FirstClear(at', kids[at'[path]], |kids[at'[path]]|, target)
    ensures at' == Purged(at, path, Proj(path) + Rest(ids, idx))
    ensures ClearUnder(at', path, Proj(path) + Rest(ids, idx))
  {
    var target := Proj(path) + Rest(ids, idx);
    forall q | q in at' && path <= q ensures !(target <= Proj(q)) {
      if q != path {
        var c := UnderChild(at', gone', kids, vals, path, q);
        var j :| 0 <= j < |kids[at'[path]]| && kids[at'[path]][j] == c;
        assert ClearUnder(at', c.path, target);
      }
    }
  }

  lemma StepChoice(at: Places, path: Path, c: ResultTreeNode, v: RGQLValue, ids: seq<nat>, idx: nat)
    requires idx < |ids| && StepOf(v).Some? && c.path == path + [StepOf(v).value] && Labelled(c, v)
    requires forall k | 0 <= k <= idx :: ids[k] != 0
    ensures var target := Proj(path) + Rest(ids, idx);
            if v.queryNodeId == ids[idx] then
              (if idx == 0 then Proj(c.path) == target else Proj(c.path) + Rest(ids, idx - 1) == target)
            else if v.arrayIndex != 0 then Proj(c.path) + Rest(ids, idx) == target
            else ClearUnder(at, c.path, target)
    ensures path <= c.path && path != c.path && |c.path| == |path| + 1
  {
    ProjSnoc(path, StepOf(v).value);
    if v.queryNodeId == ids[idx] {
      TheField(path, ids[idx], ids, idx);
    } else if v.arrayIndex == 0 {
      OtherField(at, path, v.queryNodeId, ids, idx);
    }
  }

  lemma BoundKept(at: Places, at': Places, bound: nat, c: Path)
    requires Within(at, bound) && SubPlaces(at', at)
    ensures Within(at', bound) && (c in at ==> |c| <= bound)
  {
  }

  /** One round of the loop over the children. */
  method PurgeChild(idx: nat, ids: seq<nat>, rnode: ResultTreeNode, i: nat, ghost at: Places,
                    ghost gone: set<ResultTreeNode>,
                    ghost path: Path, ghost bound: nat)
    returns (removed: bool, ghost at': Places, ghost gone': set<ResultTreeNode>)
    requires PlacesOk(at, gone) && path in at && at[path] == rnode && i < |rnode.children| && Within(at, bound)
    requires |path| <= bound
    requires idx < |ids| && forall k | 0 <= k <= idx :: ids[k] != 0
    modifies at.Values`children, at.Values`value
    ensures PlacesOk(at', gone') && Purging(at, gone, at', gone', path, Proj(path) + Rest(ids, idx))
    ensures removed ==> rnode.children == SwapRemove(old(rnode.children), i)
    ensures !removed ==>
        rnode.children == old(rnode.children) && ClearUnder(at', rnode.children[i].path, Proj(path) + Rest(ids, idx))
    ensures forall p | p in at && !(path <= p) :: at[p].children == old(at[p].children)
    ensures forall p | p in at && p in at' :: at[p].value == old(at[p].value)
    decreases bound - |path|, 0
  {
    hide *;
    ghost var kids, vals, target := KidsNow(at.Values + gone), ValsNow(at.Values), Proj(path) + Rest(ids, idx);
    PlacesMean(at, gone);
    InHeap(at, path);
    var rchild := rnode.children[i];
    ChildStep(at, gone, kids, vals, path, rchild);
    StepChoice(at, path, rchild, rchild.value, ids, idx);
    PurgingStarts(at, gone, path, target, rnode.children);
    BoundKept(at, at, bound, rchild.path);
    removed, at', gone' := false, at, gone;
    if rchild.value.queryNodeId == ids[idx] {
      if idx == 0 {
        removed := true;
        PathsAre(at, gone, kids, vals);
        at', gone' := Without(at, rchild.path), gone + Under(at, rchild.path);
        PurgingDrop(at, gone, path, rchild.path, target);
        Drop(rnode, i, rchild, at, gone, path);
      } else {
        at', gone' := PurgeInto(idx - 1, ids, rnode, rchild, at, gone, path, bound);
      }
    } else if rchild.value.arrayIndex != 0 {
      at', gone' := PurgeInto(idx, ids, rnode, rchild, at, gone, path, bound);
    }
    PurgingMeans(at, gone, at', gone', path, target);
  }

  /** The recursive call for one child. */
  method PurgeInto(idx: nat, ids: seq<nat>, rnode: ResultTreeNode, rchild: ResultTreeNode, ghost at: Places,
                   ghost gone: set<ResultTreeNode>, ghost path: Path, ghost bound: nat)
    returns (ghost at': Places, ghost gone': set<ResultTreeNode>)
    requires PlacesOk(at, gone) && path in at && at[path] == rnode && Within(at, bound)
    requires path <= rchild.path && path != rchild.path && rchild.path in at && at[rchild.path] == rchild
    requires |path| < |rchild.path| <= bound && idx < |ids| && forall k | 0 <= k <= idx :: ids[k] != 0
    modifies at.Values`children, at.Values`value
    ensures PlacesOk(at', gone') && Purging(at, gone, at', gone', path, Proj(rchild.path) + Rest(ids, idx))
    ensures rnode.children == old(rnode.children) && ClearUnder(at', rchild.path, Proj(rchild.path) + Rest(ids, idx))
    ensures forall p | p in at && !(path <= p) :: at[p].children == old(at[p].children)
    ensures forall p | p in at && p in at' :: at[p].value == old(at[p].value)
    decreases bound - |rchild.path|, 2
  {
    hide *;
    at', gone' := PurgeBelow(idx, ids, rchild, at, gone, rchild.path, bound);
    PurgingWider(at, gone, at', gone', path, rchild.path, Proj(rchild.path) + Rest(ids, idx));
    NotBelow(at, path, rchild.path);
  }

  lemma NotBelow(at: Places, path: Path, c: Path)
    requires path <= c && path != c
    ensures !(c <= path) && forall p | p in at && c <= p :: path <= p
  {
    forall p | p in at && c <= p ensures path <= p { assert p[..|c|][..|path|] == path; }
  }

  /** purgeQtNodesRecursive: whatever extends the purged path below `path` leaves the tree, and
      nothing else does. */
  method PurgeBelow(idx: nat, ids: seq<nat>, rnode: ResultTreeNode, ghost at: Places, ghost gone: set<ResultTreeNode>,
                    ghost path: Path, ghost bound: nat)
    returns (ghost at': Places, ghost gone': set<ResultTreeNode>)
    requires PlacesOk(at, gone) && path in at && at[path] == rnode && Within(at, bound) && |path| <= bound
    requires idx < |ids| && forall k | 0 <= k <= idx :: ids[k] != 0
    modifies at.Values`children, at.Values`value
    ensures PlacesOk(at', gone') && Purging(at, gone, at', gone', path, Proj(path) + Rest(ids, idx))
    ensures at' == Purged(at, path, Proj(path) + Rest(ids, idx)) && ClearUnder(at', path, Proj(path) + Rest(ids, idx))
    ensures forall p | p in at && !(path <= p) :: at[p].children == old(at[p].children)
    ensures forall p | p in at && p in at' :: at[p].value == old(at[p].value)
    decreases bound - |path|, 1
  {
    hide *;
    ghost var target := Proj(path) + Rest(ids, idx);
    at', gone' := at, gone;
    PurgingStarts(at, gone, path, target, rnode.children);
    var i := 0;
    while i < |rnode.children|
      invariant 0 <= i <= |rnode.children|
      invariant PlacesOk(at', gone') && Purging(at, gone, at', gone', path, target)
      invariant FirstClear(at', rnode.children, i, target)
      invariant forall p | p in at && !(path <= p) :: at[p].children == old(at[p].children)
      invariant forall p | p in at && p in at' :: at[p].value == old(at[p].value)
      decreases |rnode.children| - i
    {
      PurgingMeans(at, gone, at', gone', path, target);
      BoundKept(at, at', bound, path);
      ghost var cs, was, wasGone := rnode.children, at', gone';
      var removed;
      removed, at', gone' := PurgeChild(idx, ids, rnode, i, at', gone', path, bound);
      PurgingTrans(at, gone, was, wasGone, at', gone', path, target);
      PurgingMeans(was, wasGone, at', gone', path, target);
      if removed {
        SwapKeeps(cs, i);
      }
      ClearKept(was, at', cs, rnode.children, i, target);
      if !removed {
        ClearNext(at', rnode.children, i, target);
        i := i + 1;
      }
    }
    PurgingMeans(at, gone, at', gone', path, target);
    PlacesMean(at', gone');
    InHeap(at', path);
    PurgingEnds(at, gone, at', gone', KidsNow(at'.Values + gone'), ValsNow(at'.Values), path, ids, idx);
  }

  lemma SwapKeeps(cs: seq<ResultTreeNode>, i: nat)
    requires i < |cs|
    ensures |SwapRemove(cs, i)| == |cs| - 1 && SwapRemove(cs, i)[..i] == cs[..i]
  {
  }
}
