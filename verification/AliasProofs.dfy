/** Decoding what the encoder sends: one value at a time. */
module AliasProofs {
  import opened Messages
  import opened Resolver
  import opened Lru
  import opened AliasSpec

  // ----- one frame

  /** A frame with a step visits exactly the next path: the node is stored if and only if the
      query tree still selects it, whatever state a stale cursor is in. */
  lemma StepTarget(live: set<QPath>, trie: map<Path, Option<Primitive>>, cur: Cursor, f: RGQLValue)
    requires PrefixClosed(live) && TrieOk(live, trie) && CursorOk(live, trie, cur)
    requires StepOf(f).Some?
    ensures
      var next := Advance(live, cur, f);
      && next.path == cur.path + [StepOf(f).value]
      && (Proj(next.path) in live ==> !next.oob)
      && Store(live, trie, cur, f) ==
           if Proj(next.path) in live && (f.value.Some? || next.path !in trie)
           then trie[next.path := f.value] else trie
  {
    var next := Advance(live, cur, f);
    ProjSnoc(cur.path, StepOf(f).value);
    var q := Proj(next.path);
    assert cur.path[..|cur.path|] == cur.path;
    assert q[..|Proj(cur.path)|] == Proj(cur.path);
    if q in live {
      assert Proj(cur.path) in live;
    }
  }

  lemma SnocPrefix(p: Path, s: Step, i: nat)
    requires i <= |p| + 1
    ensures (p + [s])[..i] == if i <= |p| then p[..i] else p + [s]
  {
  }

  /** A node put below a node that is there leaves the tree closed under parents. */
  lemma GrownTrieOk(live: set<QPath>, trie: map<Path, Option<Primitive>>, p: Path, s: Step, v: Option<Primitive>)
    requires TrieOk(live, trie) && p in trie && Proj(p + [s]) in live
    ensures TrieOk(live, trie[p + [s] := v])
  {
    var grown := p + [s];
    var trie' := trie[grown := v];
    forall r, i | r in trie' && 0 <= i <= |r| ensures r[..i] in trie' {
      if r == grown {
        SnocPrefix(p, s, i);
      }
    }
  }

  /** A frame with a step keeps the tree and the cursor good. */
  lemma StepStores(live: set<QPath>, trie: map<Path, Option<Primitive>>, cur: Cursor, f: RGQLValue)
    requires PrefixClosed(live) && TrieOk(live, trie) && CursorOk(live, trie, cur)
    requires StepOf(f).Some?
    ensures
      var next := Advance(live, cur, f);
      var trie' := Store(live, trie, cur, f);
      && next.path == cur.path + [StepOf(f).value]
      && TrieOk(live, trie') && CursorOk(live, trie', next) && trie.Keys <= trie'.Keys
      && trie' == if Proj(next.path) in live && (f.value.Some? || next.path !in trie)
                  then trie[next.path := f.value] else trie
  {
    var s := StepOf(f).value;
    var next := Advance(live, cur, f);
    var trie' := Store(live, trie, cur, f);
    StepTarget(live, trie, cur, f);
    ProjSnoc(cur.path, s);
    if Proj(next.path) in live {
      assert Proj(next.path)[..|Proj(cur.path)|] == Proj(cur.path);
      assert cur.path[..|cur.path|] == cur.path;
      GrownTrieOk(live, trie, cur.path, s, f.value);
    }
    forall i | 0 <= i <= |next.path| && Proj(next.path[..i]) in live ensures next.path[..i] in trie' {
      if i < |next.path| { assert next.path[..i] == cur.path[..i]; } else { assert next.path[..i] == next.path; }
    }
  }

  /** More nodes never spoil a cursor. */
  lemma CursorsKept(live: set<QPath>, trie: map<Path, Option<Primitive>>, trie': map<Path, Option<Primitive>>,
                    cur: Cursor)
    requires trie.Keys <= trie'.Keys && CursorOk(live, trie, cur)
    ensures CursorOk(live, trie', cur)
  {
  }

  /** A node on the way to `path` may be created beforehand: the direct store creates it anyway. */
  lemma DirectAbsorbs(live: set<QPath>, trie: map<Path, Option<Primitive>>, p: Path, path: Path, v: Option<Primitive>)
    requires p <= path && p !in trie && Proj(p) in live
    ensures Direct(live, trie[p := None], path, v) == Direct(live, trie, path, v)
  {
    assert p == path[..|p|];
  }

  /** The only node the direct store can add is the last one, if the rest was followed. */
  lemma PassedLast(live: set<QPath>, trie: map<Path, Option<Primitive>>, path: Path)
    requires path != [] && Reached(live, trie, path[..|path| - 1])
    ensures forall p :: p in Passed(live, path) && p !in trie ==> p == path
    ensures path in Passed(live, path) <==> Proj(path) in live
  {
    forall p | p in Passed(live, path) && p !in trie ensures p == path {
      var i :| 0 <= i <= |path| && Proj(path[..i]) in live && p == path[..i];
      if i < |path| {
        TakeTake(path, i);
        assert false;
      }
    }
    assert path[..|path|] == path;
  }

  lemma TakeTake(path: Path, i: nat)
    requires i < |path|
    ensures path[..|path| - 1][..i] == path[..i]
  {
  }

  /** Storing at the end of a path that was followed up to its last step is the direct store. */
  lemma DirectLast(live: set<QPath>, trie: map<Path, Option<Primitive>>, path: Path, v: Option<Primitive>)
    requires path != [] && Reached(live, trie, path[..|path| - 1])
    ensures Direct(live, trie, path, v) ==
            if Proj(path) in live && (v.Some? || path !in trie) then trie[path := v] else trie
  {
    PassedLast(live, trie, path);
    DirectOf(live, trie, path, v);
  }

  lemma DirectOf(live: set<QPath>, trie: map<Path, Option<Primitive>>, path: Path, v: Option<Primitive>)
    requires forall p :: p in Passed(live, path) && p !in trie ==> p == path
    requires path in Passed(live, path) <==> Proj(path) in live
    ensures Direct(live, trie, path, v) ==
            if Proj(path) in live && (v.Some? || path !in trie) then trie[path := v] else trie
  {
    var passed := Passed(live, path);
    var d := Direct(live, trie, path, v);
    assert d.Keys == trie.Keys + passed;
  }

  // ----- the chain of components

  ghost predicate IsChain(comps: seq<Context>) {
    && comps != []
    && (forall k :: 0 <= k < |comps| ==> Chained(comps[k]))
    && (forall k {:trigger comps[k].parent} :: 0 <= k < |comps| - 1 ==> comps[k].parent == comps[k + 1])
  }

  lemma {:induction false} ClimbChain(labels: map<Context, nat>, c: Context)
    requires Chained(c)
    ensures
      var comps := Climb(labels, c);
      && IsChain(comps)
      && (forall k :: 0 <= k < |comps| - 1 ==> LabelIn(labels, comps[k]) == 0)
      && (LabelIn(labels, comps[|comps| - 1]) == 0 ==> comps[|comps| - 1].parent == null)
    decreases |c.path|
  {
    if LabelIn(labels, c) == 0 && c.parent != null {
      ClimbChain(labels, c.parent);
    }
  }

  lemma {:induction false} ClimbKnown(labels: map<Context, nat>, c: Context)
    requires Chained(c) && c in labels
    requires ClosedUp(labels)
    ensures forall x :: x in Climb(labels, c) ==> x in labels
    decreases |c.path|
  {
    if LabelIn(labels, c) == 0 && c.parent != null {
      ClimbKnown(labels, c.parent);
    }
  }

  lemma BelowTop(c: Context)
    requires Chained(c) && c.parent != null
    ensures |c.path| > 1
  {
    assert Chained(c.parent);
  }

  /** The climb from a known context: unlabelled components below a root none of them equals. */
  lemma ClimbFacts(e: Enc, c: Context, size: nat)
    requires EncOk(e, size) && c in e.labels
    ensures
      var comps := Climb(e.labels, c);
      && IsChain(comps)
      && (forall x :: x in comps ==> x in e.labels)
      && (forall k :: 0 <= k < |comps| - 1 ==>
            LabelIn(e.labels, comps[k]) == 0 && comps[k].parent != null && comps[k] != comps[|comps| - 1])
  {
    var comps := Climb(e.labels, c);
    ClimbChain(e.labels, c);
    ClimbKnown(e.labels, c);
    forall k | 0 <= k < |comps| - 1 ensures comps[k].parent != null && comps[k] != comps[|comps| - 1] {
      ChainShrinks(comps, k, |comps| - 1);
      assert comps[k].parent == comps[k + 1];
    }
  }

  /** The components of a chain are different contexts. */
  lemma {:induction false} ChainShrinks(comps: seq<Context>, i: nat, j: nat)
    requires IsChain(comps) && i < j < |comps|
    ensures |comps[j].path| < |comps[i].path| && comps[j].path <= comps[i].path
    decreases j
  {
    assert comps[j - 1].parent == comps[j];
    if i < j - 1 {
      ChainShrinks(comps, i, j - 1);
    }
  }

  // ----- the frames below the root of the climb

  /** Whatever the cursor, a frame with a step leaves every invariant of the client in place. */
  lemma ArriveKeepsOk(live: set<QPath>, d: Dec, cur: Cursor, f: RGQLValue, size: nat)
    requires PrefixClosed(live) && DecOk(live, d, size) && CursorOk(live, d.trie, cur) && StepOf(f).Some?
    ensures DecOk(live, Arrive(live, d, cur, f, size), size)
  {
    StepStores(live, d.trie, cur, f);
    var next := Advance(live, cur, f);
    var d' := Arrive(live, d, cur, f, size);
    if f.posIdentifier != 0 {
      AddWf(d.cache, f.posIdentifier, next, size);
    }
    forall k | k in d'.cache.vals ensures CursorOk(live, d'.trie, d'.cache.vals[k]) {
      if k in d.cache.vals { CursorsKept(live, d.trie, d'.trie, d.cache.vals[k]); }
    }
  }

  /** The hypotheses on the components below the root: none is labelled but the one at `j`, which
      carries the fresh identifier. */
  ghost predicate OneFresh(labels: map<Context, nat>, comps: seq<Context>, upto: nat, j: nat, fid: nat) {
    && 0 < fid
    && forall k :: 0 <= k < upto && k < |comps| ==> LabelIn(labels, comps[k]) == (if k == j then fid else 0)
  }

  /** The client reads the frames of comps[i], ..., comps[0] starting at the parent of comps[i]:
      the tree ends up as if the payload had been stored directly, and the only change to the
      alias cache is the fresh identifier, which denotes the labelled component. */
  lemma {:induction false} TailDecodes(live: set<QPath>, d: Dec, cur: Cursor, labels: map<Context, nat>,
                                      comps: seq<Context>, i: nat, p: Payload, j: nat, fid: nat, size: nat)
    returns (d': Dec, cj: Cursor)
    requires PrefixClosed(live) && DecOk(live, d, size) && CursorOk(live, d.trie, cur)
    requires IsChain(comps) && i < |comps| && comps[i].path == cur.path + [comps[i].step]
    requires OneFresh(labels, comps, i + 1, j, fid)
    requires d.cursor == Some(cur) || (d.cursor == None && cur == Cursor([], false) && i != j)
    ensures HandleAll(live, d, Tail(labels, comps, i, p), size) == Handled(d')
    ensures DecOk(live, d', size)
    ensures d'.trie == Direct(live, d.trie, comps[0].path, Carried(p))
    ensures d'.cache == if j <= i then Add(d.cache, fid, cj, size) else d.cache
    ensures j <= i ==> cj.path == comps[j].path
    ensures d'.cursor.None? <==> Carried(p).Some?
    decreases i
  {
    var f := Tail(labels, comps, i, p)[0];
    var next := Advance(live, cur, f);
    var d1 := Arrive(live, d, cur, f, size);
    assert StepOf(f) == Some(comps[i].step);
    StepStores(live, d.trie, cur, f);
    ArriveKeepsOk(live, d, cur, f, size);
    TailHead(live, d, cur, labels, comps, i, p, size);
    if i == 0 {
      d', cj := d1, next;
      assert cur.path == comps[0].path[..|comps[0].path| - 1];
      DirectLast(live, d.trie, comps[0].path, Carried(p));
    } else {
      assert comps[i - 1].parent == comps[i];
      d', cj := TailDecodes(live, d1, next, labels, comps, i - 1, p, j, fid, size);
      if j == i { cj := next; }
      ChainShrinks(comps, 0, i);
      if Proj(next.path) in live && next.path !in d.trie {
        DirectAbsorbs(live, d.trie, next.path, comps[0].path, Carried(p));
      }
    }
  }

  /** The first frame of a tail, and the rest. */
  lemma TailHead(live: set<QPath>, d: Dec, cur: Cursor, labels: map<Context, nat>, comps: seq<Context>, i: nat,
                 p: Payload, size: nat)
    requires i < |comps|
    requires d.cursor == Some(cur) ||
             (d.cursor == None && cur == Cursor([], false) && LabelIn(labels, comps[i]) == 0)
    ensures
      var d1 := Arrive(live, d, cur, Tail(labels, comps, i, p)[0], size);
      HandleAll(live, d, Tail(labels, comps, i, p), size) ==
        if i == 0 then Handled(d1) else HandleAll(live, d1, Tail(labels, comps, i - 1, p), size)
  {
    var fs := Tail(labels, comps, i, p);
    assert Handle(live, d, fs[0], size) == Handled(Arrive(live, d, cur, fs[0], size));
    if i > 0 {
      assert fs[1..] == Tail(labels, comps, i - 1, p);
    }
  }

  // ----- the labels

  /** Put labels or renews exactly one context; other labels stay or are cleared by the eviction. */
  lemma PutLabels(e: Enc, c: Context, size: nat, mode: Mode)
    requires EncOk(e, size) && c in e.labels
    ensures
      var e' := Put(e, c, size, mode);
      && e'.labels.Keys == e.labels.Keys
      && e'.labels[c] == (if e.labels[c] == 0 then e.nextId else e.labels[c])
      && (forall x :: x in e.labels && x != c ==> e'.labels[x] == e.labels[x] || e'.labels[x] == 0)
  {
    var held := e.labels[c];
    var id := if held == 0 then e.nextId else held;
    var key := if held == 0 && mode == AsWritten then 0 else id;
    AddWf(e.cache, key, c, size);
    assert id !in Evicted(e.cache.order, key, size);
  }

  lemma PutFacts(e: Enc, c: Context, size: nat, mode: Mode)
    requires EncOk(e, size) && c in e.labels && c.parent != null
    ensures
      var e' := Put(e, c, size, mode);
      && EncOk(e', size)
      && e'.labels.Keys == e.labels.Keys
      && e'.labels[c] == (if e.labels[c] == 0 then e.nextId else e.labels[c])
      && (forall x :: x in e.labels && x != c ==> e'.labels[x] == e.labels[x] || e'.labels[x] == 0)
  {
    PutLabels(e, c, size, mode);
    var held := e.labels[c];
    AddWf(e.cache, if held == 0 && mode == AsWritten then 0 else if held == 0 then e.nextId else held, c, size);
  }

  /** In the intended cache, a context is labelled exactly when it is cached under its label. */
  lemma PutKeepsCached(e: Enc, c: Context, size: nat)
    requires EncOk(e, size) && LabelsCached(e) && c in e.labels
    ensures LabelsCached(Put(e, c, size, Intended))
  {
    var held := e.labels[c];
    var id := if held == 0 then e.nextId else held;
    var e' := Put(e, c, size, Intended);
    PutLabels(e, c, size, Intended);
    AddWf(e.cache, id, c, size);
    var gone := Evicted(e.cache.order, id, size);
    forall x | x in e'.labels && e'.labels[x] != 0 && x != c
      ensures e'.labels[x] in e'.cache.vals && e'.cache.vals[e'.labels[x]] == x
    {
      var k := e.labels[x];
      assert e'.labels[x] == k && k in e.cache.vals && e.cache.vals[k] == x;
      assert k !in gone;
      assert k != id;
    }
    forall k | k in e'.cache.vals && k != id
      ensures k != 0 && e'.cache.vals[k] in e'.labels && e'.labels[e'.cache.vals[k]] == k
    {
      assert k in e.cache.vals && k !in gone && e'.cache.vals[k] == e.cache.vals[k];
      assert e.cache.vals[k] != c;
    }
  }

  // ----- one value

  /** What Run works with for one value, given the state before it. */
  datatype Round = Round(comps: seq<Context>, rid: nat, j: nat, e1: Enc, e2: Enc)

  ghost function RoundOf(e: Enc, c: Context, finals: set<Context>, size: nat, mode: Mode): Round
    requires Chained(c)
  {
    var comps := Climb(e.labels, c);
    var root := comps[|comps| - 1];
    var e1 := RenewRoot(e, root, size, mode);
    Round(comps, LabelIn(e.labels, root), FirstLive(comps[..|comps| - 1], finals),
          e1, LabelOne(e1, comps, finals, size, mode))
  }

  /** A label is minted for this value. */
  ghost predicate Mints(r: Round) {
    r.j + 1 < |r.comps|
  }

  lemma ChainDiffers(comps: seq<Context>, j: nat)
    requires IsChain(comps) && j < |comps|
    ensures forall k | 0 <= k < |comps| && k != j :: comps[k] != comps[j]
  {
    forall k | 0 <= k < |comps| && k != j ensures comps[k] != comps[j] {
      if k < j { ChainShrinks(comps, k, j); } else { ChainShrinks(comps, j, k); }
    }
  }

  /** The components of a value, before one is labelled: below the root none has a label. */
  ghost predicate Unlabelled(e: Enc, comps: seq<Context>) {
    && IsChain(comps) && (forall x :: x in comps ==> x in e.labels)
    && (forall k :: 0 <= k < |comps| - 1 ==> LabelIn(e.labels, comps[k]) == 0 && comps[k].parent != null)
  }

  /** Labels are as they were, or cleared. */
  ghost predicate OnlyCleared(labels: map<Context, nat>, labels': map<Context, nat>, but: set<Context>) {
    && labels'.Keys == labels.Keys
    && forall x :: x in labels && x !in but ==> labels'[x] == labels[x] || labels'[x] == 0
  }

  lemma RenewedRound(e: Enc, c: Context, finals: set<Context>, size: nat, mode: Mode)
    requires EncOk(e, size) && c in e.labels
    ensures
      var r := RoundOf(e, c, finals, size, mode);
      && Unlabelled(r.e1, r.comps) && EncOk(r.e1, size) && r.e1.nextId == e.nextId
      && OnlyCleared(e.labels, r.e1.labels, {})
      && r.e2 == LabelOne(r.e1, r.comps, finals, size, mode) && r.j == FirstLive(r.comps[..|r.comps| - 1], finals)
      && (r.rid == 0 ==> r.comps[|r.comps| - 1].parent == null && LabelIn(r.e1.labels, r.comps[|r.comps| - 1]) == 0)
  {
    var r := RoundOf(e, c, finals, size, mode);
    hide *;
    ClimbFacts(e, c, size);
    ClimbChain(e.labels, c);
    ClimbRoot(Climb(e.labels, c));
    RoundIs(e, c, finals, size, mode);
    RootRenewed(e, r.comps[|r.comps| - 1], size, mode);
    StillUnlabelled(e, r.e1, r.comps);
  }

  lemma RoundIs(e: Enc, c: Context, finals: set<Context>, size: nat, mode: Mode)
    requires Chained(c)
    ensures
      var r, comps := RoundOf(e, c, finals, size, mode), Climb(e.labels, c);
      && r.comps == comps && comps != [] && r.rid == LabelIn(e.labels, comps[|comps| - 1])
      && r.e1 == RenewRoot(e, comps[|comps| - 1], size, mode)
      && r.e2 == LabelOne(r.e1, comps, finals, size, mode) && r.j == FirstLive(comps[..|comps| - 1], finals)
  {
  }

  lemma StillUnlabelled(e: Enc, e1: Enc, comps: seq<Context>)
    requires IsChain(comps) && (forall x :: x in comps ==> x in e.labels) && OnlyCleared(e.labels, e1.labels, {})
    requires forall k :: 0 <= k < |comps| - 1 ==> LabelIn(e.labels, comps[k]) == 0 && comps[k].parent != null
    ensures Unlabelled(e1, comps)
    ensures comps != [] && (LabelIn(e.labels, comps[|comps| - 1]) == 0 ==> LabelIn(e1.labels, comps[|comps| - 1]) == 0)
  {
    hide Chained;
    forall k | 0 <= k < |comps| ensures comps[k] in comps { }
  }

  lemma ClimbRoot(comps: seq<Context>)
    requires IsChain(comps)
    ensures comps != [] && comps[|comps| - 1] in comps
  {
  }

  lemma RootRenewed(e: Enc, root: Context, size: nat, mode: Mode)
    requires EncOk(e, size) && root in e.labels
    ensures
      var e1 := RenewRoot(e, root, size, mode);
      && EncOk(e1, size) && e1.nextId == e.nextId && OnlyCleared(e.labels, e1.labels, {})
      && (LabelIn(e.labels, root) == 0 ==> e1 == e)
  {
    if e.labels[root] != 0 { PutFacts(e, root, size, mode); }
  }

  /** A label is minted for the first component below the root that is not final. */
  lemma MintedRound(e: Enc, comps: seq<Context>, finals: set<Context>, size: nat, mode: Mode)
    requires Unlabelled(e, comps) && EncOk(e, size)
    ensures
      var e', j := LabelOne(e, comps, finals, size, mode), FirstLive(comps[..|comps| - 1], finals);
      && EncOk(e', size) && e'.nextId == (if j + 1 < |comps| then e.nextId + 1 else e.nextId)
      && OneFresh(e'.labels, comps, |comps| - 1, j, e.nextId)
      && OnlyCleared(e.labels, e'.labels, if j + 1 < |comps| then {comps[j]} else {})
  {
    var j := FirstLive(comps[..|comps| - 1], finals);
    if j + 1 < |comps| {
      assert comps[j] in comps;
      PutFacts(e, comps[j], size, mode);
      ChainDiffers(comps, j);
      hide Put, EncOk;
      var e' := Put(e, comps[j], size, mode);
      forall k | 0 <= k < |comps| - 1 ensures LabelIn(e'.labels, comps[k]) == if k == j then e.nextId else 0 {
        assert comps[k] in comps;
      }
    }
  }

  /** Labelling changes nothing but the fresh label, and what evictions clear. */
  lemma RoundLabels(e: Enc, c: Context, finals: set<Context>, size: nat, mode: Mode)
    requires EncOk(e, size) && c in e.labels
    ensures
      var r := RoundOf(e, c, finals, size, mode);
      && IsChain(r.comps)
      && (forall x :: x in r.comps ==> x in e.labels)
      && EncOk(r.e2, size)
      && r.e2.labels.Keys == e.labels.Keys
      && r.e2.nextId == (if Mints(r) then e.nextId + 1 else e.nextId)
      && OneFresh(r.e2.labels, r.comps, |r.comps| - 1, r.j, e.nextId)
      && (forall x :: x in e.labels && !(Mints(r) && x == r.comps[r.j]) ==>
            r.e2.labels[x] == e.labels[x] || r.e2.labels[x] == 0)
      && (r.rid == 0 ==> r.comps[|r.comps| - 1].parent == null && LabelIn(r.e2.labels, r.comps[|r.comps| - 1]) == 0)
  {
    var r := RoundOf(e, c, finals, size, mode);
    RenewedRound(e, c, finals, size, mode);
    hide EncOk, RoundOf, LabelOne, RenewRoot, Put, Climb, FirstLive, OneFresh, OnlyCleared, Unlabelled, LabelIn,
      IsChain, Chained;
    MintedRound(r.e1, r.comps, finals, size, mode);
    RoundDone(e, r.e1, r.e2, r.comps, r.j);
  }

  lemma RoundDone(e: Enc, e1: Enc, e2: Enc, comps: seq<Context>, j: nat)
    requires Unlabelled(e1, comps) && OnlyCleared(e.labels, e1.labels, {})
    requires OnlyCleared(e1.labels, e2.labels, if j + 1 < |comps| then {comps[j]} else {})
    ensures IsChain(comps) && comps != [] && (forall x :: x in comps ==> x in e.labels)
    ensures e2.labels.Keys == e.labels.Keys
    ensures forall x :: x in e.labels && !(j + 1 < |comps| && x == comps[j]) ==>
                          e2.labels[x] == e.labels[x] || e2.labels[x] == 0
    ensures LabelIn(e1.labels, comps[|comps| - 1]) == 0 ==> LabelIn(e2.labels, comps[|comps| - 1]) == 0
  {
    if j + 1 < |comps| { ChainDiffers(comps, j); }
  }

  /** A reference, merged or on its own, puts the client's cursor where the alias points. */
  lemma ReferenceDecodes(live: set<QPath>, d: Dec, rid: nat, fs: seq<RGQLValue>, size: nat)
    requires d.cursor == None && rid != 0 && rid in d.cache.vals
    requires fs != []
    ensures
      var d0 := Dec(Some(d.cache.vals[rid]), Renew(d.cache, rid), d.trie);
      && HandleAll(live, d, [RGQLValue(0, 0, rid, None, [])] + fs, size) == HandleAll(live, d0, fs, size)
      && (fs[0].posIdentifier == 0 ==>
            HandleAll(live, d, fs[0 := fs[0].(posIdentifier := rid)], size) == HandleAll(live, d0, fs, size))
  {
    var ref := RGQLValue(0, 0, rid, None, []);
    var cur := d.cache.vals[rid];
    var d0 := Dec(Some(cur), Renew(d.cache, rid), d.trie);
    assert Advance(live, cur, ref.(posIdentifier := 0)) == cur;
    assert Handle(live, d, ref, size) == Handled(d0);
    assert ([ref] + fs)[0] == ref && ([ref] + fs)[1..] == fs;
    if fs[0].posIdentifier == 0 {
      var gs := fs[0 := fs[0].(posIdentifier := rid)];
      assert gs[0].(posIdentifier := 0) == fs[0] && gs[1..] == fs[1..];
      assert Handle(live, d, gs[0], size) == Handle(live, d0, fs[0], size);
    }
  }

  /** The client's recency order after one value, computed from the server's choices alone. */
  function OrderAfter(order: seq<nat>, rid: nat, mints: bool, fid: nat, size: nat): seq<nat> {
    var renewed := if rid != 0 then Touch(order, rid) else order;
    if mints then Use(renewed, fid, size) else renewed
  }

  /** The whole frame sequence of one value, given the labels it was made with. */
  /** Frames without a reference start at the root. */
  lemma PlainStart(live: set<QPath>, d: Dec, labels: map<Context, nat>, comps: seq<Context>, j: nat, fid: nat,
                   p: Payload, size: nat)
    requires DecOk(live, d, size) && IsChain(comps) && OneFresh(labels, comps, |comps| - 1, j, fid)
    requires LabelIn(labels, comps[|comps| - 1]) == 0 && comps[|comps| - 1].parent == null
    ensures
      var n := |comps|;
      && comps != [] && Frames(labels, comps, p) == Tail(labels, comps, n - 1, p)
      && comps[n - 1].path == [] + [comps[n - 1].step] && CursorOk(live, d.trie, Cursor([], false))
      && OneFresh(labels, comps, n, if j < n - 1 then j else n, fid)
  {
    assert Chained(comps[|comps| - 1]);
    assert Proj([]) == [];
  }

  lemma FramesDecode(live: set<QPath>, d: Dec, labels: map<Context, nat>, comps: seq<Context>,
                     rid: nat, j: nat, fid: nat, p: Payload, size: nat)
    returns (d': Dec, cj: Cursor)
    requires PrefixClosed(live) && DecOk(live, d, size) && d.cursor == None
    requires IsChain(comps) && OneFresh(labels, comps, |comps| - 1, j, fid)
    requires LabelIn(labels, comps[|comps| - 1]) == rid && (rid != 0 ==> |comps| > 1)
    requires rid != 0 ==> rid in d.cache.vals && d.cache.vals[rid].path == comps[|comps| - 1].path
    requires rid == 0 ==> comps[|comps| - 1].parent == null
    ensures HandleAll(live, d, Frames(labels, comps, p), size) == Handled(d')
    ensures DecOk(live, d', size)
    ensures d'.trie == Direct(live, d.trie, comps[0].path, Carried(p))
    ensures
      var cache := if rid != 0 then Renew(d.cache, rid) else d.cache;
      d'.cache == if j + 1 < |comps| then Add(cache, fid, cj, size) else cache
    ensures j + 1 < |comps| ==> cj.path == comps[j].path
    ensures d'.cursor.None? <==> Carried(p).Some?
  {
    var n := |comps|;
    if rid == 0 {
      var j' := if j < n - 1 then j else n;
      PlainStart(live, d, labels, comps, j, fid, p, size);
      hide *;
      d', cj := TailDecodes(live, d, Cursor([], false), labels, comps, n - 1, p, j', fid, size);
    } else {
      hide *;
      d', cj := AliasedDecode(live, d, labels, comps, rid, j, fid, p, size);
    }
  }

  lemma RenewedDecOk(live: set<QPath>, d: Dec, rid: nat, size: nat)
    requires DecOk(live, d, size) && rid in d.cache.vals
    ensures DecOk(live, Dec(Some(d.cache.vals[rid]), Renew(d.cache, rid), d.trie), size)
  {
    RenewWf(d.cache, rid);
  }

  /** Frames with a reference are read as the tail, from where the alias points. */
  lemma FramesAliased(live: set<QPath>, d: Dec, labels: map<Context, nat>, comps: seq<Context>, rid: nat, p: Payload,
                      size: nat)
    requires |comps| > 1 && LabelIn(labels, comps[|comps| - 1]) == rid && rid != 0
    requires d.cursor == None && rid in d.cache.vals
    ensures HandleAll(live, d, Frames(labels, comps, p), size) ==
            HandleAll(live, Dec(Some(d.cache.vals[rid]), Renew(d.cache, rid), d.trie),
              Tail(labels, comps, |comps| - 2, p), size)
  {
    ReferenceDecodes(live, d, rid, Tail(labels, comps, |comps| - 2, p), size);
  }

  lemma AliasedDecode(live: set<QPath>, d: Dec, labels: map<Context, nat>, comps: seq<Context>,
                      rid: nat, j: nat, fid: nat, p: Payload, size: nat)
    returns (d': Dec, cj: Cursor)
    requires PrefixClosed(live) && DecOk(live, d, size) && d.cursor == None
    requires IsChain(comps) && OneFresh(labels, comps, |comps| - 1, j, fid)
    requires LabelIn(labels, comps[|comps| - 1]) == rid && rid != 0 && |comps| > 1
    requires rid in d.cache.vals && d.cache.vals[rid].path == comps[|comps| - 1].path
    ensures HandleAll(live, d, Frames(labels, comps, p), size) == Handled(d')
    ensures DecOk(live, d', size)
    ensures d'.trie == Direct(live, d.trie, comps[0].path, Carried(p))
    ensures d'.cache == if j + 1 < |comps| then Add(Renew(d.cache, rid), fid, cj, size) else Renew(d.cache, rid)
    ensures j + 1 < |comps| ==> cj.path == comps[j].path
    ensures d'.cursor.None? <==> Carried(p).Some?
  {
    var n := |comps|;
    var cur := d.cache.vals[rid];
    var d0 := Dec(Some(cur), Renew(d.cache, rid), d.trie);
    RenewedDecOk(live, d, rid, size);
    assert comps[n - 2].parent == comps[n - 1];
    FramesAliased(live, d, labels, comps, rid, p, size);
    d', cj := TailDecodes(live, d0, cur, labels, comps, n - 2, p, j, fid, size);
  }

  /** In either mode, one value is decoded to the direct store provided that the root's label
      survives the labelling of another component and that the client still holds it. */
  lemma WriteDecodes(live: set<QPath>, e: Enc, d: Dec, c: Context, finals: set<Context>, p: Payload, size: nat,
                     mode: Mode)
    returns (d': Dec)
    requires PrefixClosed(live) && EncOk(e, size) && DecOk(live, d, size) && Denotes(e, d) && d.cursor == None
    requires c in e.labels && e.labels[c] == 0
    requires
      var r := RoundOf(e, c, finals, size, mode);
      && (r.rid != 0 ==> r.rid in d.cache.vals)
      && LabelIn(r.e2.labels, r.comps[|r.comps| - 1]) == r.rid
    ensures
      var s := Write(e, c, finals, p, size, mode);
      var r := RoundOf(e, c, finals, size, mode);
      && s.Sent? && s.enc == r.e2
      && HandleAll(live, d, s.frames, size) == Handled(d')
      && EncOk(s.enc, size) && DecOk(live, d', size) && Denotes(s.enc, d')
      && d'.trie == Direct(live, d.trie, c.path, Carried(p))
      && d'.cache.order == OrderAfter(d.cache.order, r.rid, Mints(r), e.nextId, size)
      && (forall k :: k in d'.cache.vals && k != e.nextId ==>
            k in d.cache.vals && d'.cache.vals[k] == d.cache.vals[k])
      && (e.nextId in d'.cache.vals ==> Mints(r) && d'.cache.vals[e.nextId].path == r.comps[r.j].path)
      && (d'.cursor.None? <==> Carried(p).Some?)
  {
    var r := RoundOf(e, c, finals, size, mode);
    hide *;
    RootKnown(e, d, c, finals, size, mode);
    DenotesMeans(live, e, d, size);
    RoundLabels(e, c, finals, size, mode);
    WriteIs(e, c, finals, p, size, mode);
    var cj;
    d', cj := FramesDecode(live, d, r.e2.labels, r.comps, r.rid, r.j, e.nextId, p, size);
    MintsIs(r);
    CacheKeys(d, d', r, cj, e.nextId, size);
    FreshOne(r.e2.labels, r.comps, r.j, e.nextId);
    DenotesAfter(e, d, r, d', cj);
  }

  lemma MintsIs(r: Round)
    ensures Mints(r) <==> r.j + 1 < |r.comps|
  {
  }

  lemma FreshOne(labels: map<Context, nat>, comps: seq<Context>, j: nat, fid: nat)
    requires comps != [] && OneFresh(labels, comps, |comps| - 1, j, fid)
    ensures 0 < fid && (j + 1 < |comps| ==> LabelIn(labels, comps[j]) == fid)
  {
  }

  /** What the encoder refers to is known to the client under its path. */
  lemma RootKnown(e: Enc, d: Dec, c: Context, finals: set<Context>, size: nat, mode: Mode)
    requires EncOk(e, size) && Denotes(e, d) && c in e.labels && e.labels[c] == 0
    requires var r := RoundOf(e, c, finals, size, mode); r.rid != 0 ==> r.rid in d.cache.vals
    ensures
      var r := RoundOf(e, c, finals, size, mode);
      && r.comps != []
      && (r.rid != 0 ==> |r.comps| > 1 && d.cache.vals[r.rid].path == r.comps[|r.comps| - 1].path)
  {
    var r := RoundOf(e, c, finals, size, mode);
    ClimbFacts(e, c, size);
    assert r.comps[|r.comps| - 1] in r.comps;
  }

  lemma DenotesMeans(live: set<QPath>, e: Enc, d: Dec, size: nat)
    requires EncOk(e, size) && DecOk(live, d, size) && Denotes(e, d)
    ensures Wf(d.cache) && |d.cache.order| <= size && 0 < size && e.nextId !in d.cache.vals && 0 < e.nextId
    ensures forall x :: x in e.labels ==> e.labels[x] < e.nextId
  {
  }

  /** What is sent, by its parts. */
  lemma WriteIs(e: Enc, c: Context, finals: set<Context>, p: Payload, size: nat, mode: Mode)
    requires Chained(c)
    requires
      var r := RoundOf(e, c, finals, size, mode);
      r.comps != [] && (|r.comps| == 1 ==> LabelIn(r.e2.labels, r.comps[0]) == 0)
    ensures
      var r := RoundOf(e, c, finals, size, mode);
      Write(e, c, finals, p, size, mode) == Sent(Frames(r.e2.labels, r.comps, p), r.e2)
    ensures RoundOf(e, c, finals, size, mode).comps[0] == c
  {
  }

  lemma CacheKeys(d: Dec, d': Dec, r: Round, cj: Cursor, fid: nat, size: nat)
    requires Wf(d.cache) && |d.cache.order| <= size && 0 < size && fid !in d.cache.vals
    requires r.rid != 0 ==> r.rid in d.cache.vals
    requires
      var cache := if r.rid != 0 then Renew(d.cache, r.rid) else d.cache;
      d'.cache == if Mints(r) then Add(cache, fid, cj, size) else cache
    ensures forall k :: k in d'.cache.vals ==>
              if Mints(r) && k == fid then d'.cache.vals[k] == cj
              else k in d.cache.vals && d'.cache.vals[k] == d.cache.vals[k]
    ensures d'.cache.order == OrderAfter(d.cache.order, r.rid, Mints(r), fid, size)
  {
    var cache := if r.rid != 0 then Renew(d.cache, r.rid) else d.cache;
    if r.rid != 0 { RenewWf(d.cache, r.rid); }
    AddWf(cache, fid, cj, size);
  }

  /** The fresh label denotes the component it was put on, and every other one is as before. */
  lemma DenotesAfter(e: Enc, d: Dec, r: Round, d': Dec, cj: Cursor)
    requires Denotes(e, d) && r.comps != []
    requires r.e2.labels.Keys == e.labels.Keys
    requires forall x :: x in e.labels ==> e.labels[x] < e.nextId
    requires r.e2.nextId == (if Mints(r) then e.nextId + 1 else e.nextId) && 0 < e.nextId
    requires forall x :: x in e.labels && !(Mints(r) && x == r.comps[r.j]) ==>
               r.e2.labels[x] == e.labels[x] || r.e2.labels[x] == 0
    requires Mints(r) ==> LabelIn(r.e2.labels, r.comps[r.j]) == e.nextId && cj.path == r.comps[r.j].path
    requires forall k :: k in d'.cache.vals ==>
               if Mints(r) && k == e.nextId then d'.cache.vals[k] == cj
               else k in d.cache.vals && d'.cache.vals[k] == d.cache.vals[k]
    ensures Denotes(r.e2, d')
  {
  }
}
