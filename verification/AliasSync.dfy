/** When one value survives the aliasing: the exact conditions, for both forms of Put. */
module AliasSync {
  import opened Messages
  import opened Resolver
  import opened Lru
  import opened AliasSpec
  import opened AliasProofs

  /** The value arrives: nothing panics or throws, the tree is as if it had been stored directly,
      the client is ready for the next value, and every alias still means what the server means. */
  ghost predicate Arrives(live: set<QPath>, e: Enc, d: Dec, c: Context, finals: set<Context>, p: Payload, size: nat,
                          mode: Mode)
    requires Chained(c)
  {
    var s := Write(e, c, finals, p, size, mode);
    && s.Sent?
    && var h := HandleAll(live, d, s.frames, size);
       && h.Handled?
       && h.dec.trie == Direct(live, d.trie, c.path, Carried(p))
       && h.dec.cursor == None
       && Denotes(s.enc, h.dec)
  }

  // ----- shape of the frame sequence

  /** What the client can tell from a frame sequence: the identifier on the first frame is `rid`,
      every other identifier is `fid`, and only the last frame carries the value. */
  ghost predicate Unambiguous(fs: seq<RGQLValue>, rid: nat, mints: bool, fid: nat, value: Option<Primitive>) {
    && fs != []
    && fs[0].posIdentifier == rid
    && (forall k :: 0 < k < |fs| && fs[k].posIdentifier != 0 ==> mints && fs[k].posIdentifier == fid)
    && (mints ==> exists k :: 0 < k < |fs| && fs[k].posIdentifier == fid)
    && (forall k :: 0 <= k < |fs| - 1 ==> fs[k].value == None)
    && fs[|fs| - 1].value == value
  }

  /** Frame sequences are unambiguous: an identifier on the first frame is the label of the root of
      the climb, an identifier on any other frame is the one minted for this value, and only the
      last frame carries the value. */
  lemma FramesUnambiguous(e: Enc, c: Context, finals: set<Context>, p: Payload, size: nat, mode: Mode)
    requires EncOk(e, size) && c in e.labels && e.labels[c] == 0
    requires
      var r := RoundOf(e, c, finals, size, mode);
      LabelIn(r.e2.labels, r.comps[|r.comps| - 1]) == r.rid
    ensures
      var r := RoundOf(e, c, finals, size, mode);
      var s := Write(e, c, finals, p, size, mode);
      s.Sent? && Unambiguous(s.frames, r.rid, Mints(r), e.nextId, Carried(p))
  {
    var r := RoundOf(e, c, finals, size, mode);
    RoundLabels(e, c, finals, size, mode);
    FramesShape(r.e2.labels, r.comps, r.rid, r.j, e.nextId, p);
  }

  lemma FramesShape(labels: map<Context, nat>, comps: seq<Context>, rid: nat, j: nat, fid: nat, p: Payload)
    requires comps != [] && OneFresh(labels, comps, |comps| - 1, j, fid)
    requires LabelIn(labels, comps[|comps| - 1]) == rid && (rid != 0 ==> |comps| > 1)
    ensures Unambiguous(Frames(labels, comps, p), rid, j + 1 < |comps|, fid, Carried(p))
  {
    var n := |comps|;
    var i := if rid == 0 then n - 1 else n - 2;
    var t := Tail(labels, comps, i, p);
    var fs := Frames(labels, comps, p);
    TailShape(labels, comps, i, p);
    assert forall k ::
             0 <= k <= i ==> t[k].posIdentifier == if i - k == n - 1 then rid else if i - k == j then fid else 0;
    if j + 1 < n {
      assert t[i - j].posIdentifier == fid;
      var m := if |fs| == |t| then i - j else 1 + i - j;
      assert fs[m] == t[i - j];
    }
  }

  lemma {:induction false} TailShape(labels: map<Context, nat>, comps: seq<Context>, i: nat, p: Payload)
    requires i < |comps|
    ensures |Tail(labels, comps, i, p)| == i + 1
    ensures forall k :: 0 <= k <= i ==>
              var f := Tail(labels, comps, i, p)[k];
              && f.posIdentifier == LabelIn(labels, comps[i - k])
              && f.value == (if k == i then Carried(p) else None)
              && StepOf(f) == Some(comps[i - k].step)
  {
    if i > 0 { TailShape(labels, comps, i - 1, p); }
  }

  /** What is written is what the last frame brings, and no frame before it brings anything. */
  ghost predicate LastBrings(fs: seq<RGQLValue>, value: Option<Primitive>, error: seq<Byte>) {
    && fs != [] && fs[|fs| - 1].value == value && fs[|fs| - 1].error == error
    && forall k :: 0 <= k < |fs| - 1 ==> fs[k].value == None && fs[k].error == []
  }

  lemma {:induction false} TailBrings(labels: map<Context, nat>, comps: seq<Context>, i: nat, p: Payload)
    requires i < |comps|
    ensures p.Val? ==> LastBrings(Tail(labels, comps, i, p), p.value, [])
    ensures p.Err? ==> LastBrings(Tail(labels, comps, i, p), None, p.msg)
    ensures |Tail(labels, comps, i, p)| == i + 1
    decreases i
  {
    if i > 0 { TailBrings(labels, comps, i - 1, p); }
  }

  /** The two ways to send a reference change nothing in what is brought. */
  lemma BringsOn(t: seq<RGQLValue>, id: nat, value: Option<Primitive>, error: seq<Byte>)
    requires LastBrings(t, value, error)
    ensures LastBrings(t[0 := t[0].(posIdentifier := id)], value, error)
    ensures LastBrings([RGQLValue(0, 0, id, None, [])] + t, value, error)
  {
    var u := [RGQLValue(0, 0, id, None, [])] + t;
    assert u[|u| - 1] == t[|t| - 1] && forall k :: 0 < k < |u| ==> u[k] == t[k - 1];
  }

  lemma FramesBring(labels: map<Context, nat>, comps: seq<Context>, p: Payload)
    requires comps != [] && (|comps| == 1 ==> LabelIn(labels, comps[0]) == 0)
    ensures p.Val? ==> LastBrings(Frames(labels, comps, p), p.value, [])
    ensures p.Err? ==> LastBrings(Frames(labels, comps, p), None, p.msg)
  {
    var n, rid := |comps|, LabelIn(labels, comps[|comps| - 1]);
    var i := if rid == 0 then n - 1 else n - 2;
    var t := Tail(labels, comps, i, p);
    TailBrings(labels, comps, i, p);
    hide Tail, LastBrings;
    if p.Val? { BringsOn(t, rid, p.value, []); } else { BringsOn(t, rid, None, p.msg); }
  }

  lemma UnlabelledIsSent(e: Enc, c: Context, finals: set<Context>, p: Payload, size: nat, mode: Mode)
    requires Chained(c) && LabelIn(e.labels, c) == 0
    ensures var s := Write(e, c, finals, p, size, mode);
            && s.Sent?
            && (p.Val? ==> LastBrings(s.frames, p.value, [])) && (p.Err? ==> LastBrings(s.frames, None, p.msg))
  {
    var comps := Climb(e.labels, c);
    var e1 := RenewRoot(e, comps[|comps| - 1], size, mode);
    var e2 := LabelOne(e1, comps, finals, size, mode);
    if |comps| == 1 { assert comps == [c] && e1 == e && e2 == e; }
    FramesBring(e2.labels, comps, p);
  }

  /** A written error arrives as it is, on the last frame, and without a value. */
  lemma ErrorIsSent(e: Enc, c: Context, finals: set<Context>, msg: seq<Byte>, size: nat, mode: Mode)
    requires Chained(c) && LabelIn(e.labels, c) == 0
    ensures var s := Write(e, c, finals, Err(msg), size, mode); s.Sent? && LastBrings(s.frames, None, msg)
  {
    UnlabelledIsSent(e, c, finals, Err(msg), size, mode);
  }

  /** A written value, or nil, arrives as it is, on the last frame, and without an error. */
  lemma ValueIsSent(e: Enc, c: Context, finals: set<Context>, v: Option<Primitive>, size: nat, mode: Mode)
    requires Chained(c) && LabelIn(e.labels, c) == 0
    ensures var s := Write(e, c, finals, Val(v), size, mode); s.Sent? && LastBrings(s.frames, v, [])
  {
    UnlabelledIsSent(e, c, finals, Val(v), size, mode);
  }

  // ----- the root's label

  /** After renewing a labelled root, it is the most recently used key. */
  lemma RenewedLast(e: Enc, root: Context, size: nat, mode: Mode)
    requires EncOk(e, size) && root in e.labels && e.labels[root] != 0
    ensures
      var e1 := Put(e, root, size, mode);
      && NoDups(e1.cache.order) && e1.cache.order != []
      && e1.cache.order[|e1.cache.order| - 1] == e.labels[root] == e1.labels[root]
      && root in e1.labels
  {
    PutFacts(e, root, size, mode);
  }

  /** Labelling another component spares the most recently used label, if two fit. */
  lemma MintSparesLast(e: Enc, x: Context, root: Context, size: nat, mode: Mode)
    requires NoDups(e.cache.order) && e.cache.order != [] && 2 <= size
    requires root in e.labels && x != root && LabelIn(e.labels, x) == 0
    requires e.cache.order[|e.cache.order| - 1] == e.labels[root]
    ensures LabelIn(Put(e, x, size, mode).labels, root) == e.labels[root]
  {
    LastSurvives(e.cache.order, if mode == AsWritten then 0 else e.nextId, size);
  }

  /** With room for two labels, labelling one component never costs the root its own label. */
  lemma RootKept(e: Enc, c: Context, finals: set<Context>, size: nat, mode: Mode)
    requires EncOk(e, size) && c in e.labels && 2 <= size
    ensures
      var r := RoundOf(e, c, finals, size, mode);
      LabelIn(r.e2.labels, r.comps[|r.comps| - 1]) == r.rid
  {
    var r := RoundOf(e, c, finals, size, mode);
    var root := r.comps[|r.comps| - 1];
    if r.rid == 0 {
      RoundLabels(e, c, finals, size, mode);
    } else {
      RenewedLast(e, root, size, mode);
      if Mints(r) {
        BelowRoot(e, c, finals, size, mode);
        MintSparesLast(r.e1, r.comps[r.j], root, size, mode);
      }
    }
  }

  /** The component about to be labelled is unlabelled, and is not the root. */
  lemma BelowRoot(e: Enc, c: Context, finals: set<Context>, size: nat, mode: Mode)
    requires EncOk(e, size) && c in e.labels
    requires Mints(RoundOf(e, c, finals, size, mode))
    ensures
      var r := RoundOf(e, c, finals, size, mode);
      && r.comps[r.j] in r.e1.labels && r.e1.labels[r.comps[r.j]] == 0
      && r.comps[r.j] != r.comps[|r.comps| - 1]
      && EncOk(r.e1, size) && r.e1.nextId == e.nextId
      && r.comps[r.j].parent != null
      && r.comps[|r.comps| - 1] in e.labels
  {
    var r := RoundOf(e, c, finals, size, mode);
    ClimbFacts(e, c, size);
    if r.rid != 0 {
      PutFacts(e, r.comps[|r.comps| - 1], size, mode);
    }
  }

  /** With room for a single label, minting one clears the label the frames would refer to. */
  lemma RootLost(e: Enc, c: Context, finals: set<Context>)
    requires EncOk(e, 1) && LabelsCached(e) && c in e.labels
    requires var r := RoundOf(e, c, finals, 1, Intended); r.rid != 0 && Mints(r)
    ensures
      var r := RoundOf(e, c, finals, 1, Intended);
      LabelIn(r.e2.labels, r.comps[|r.comps| - 1]) == 0
  {
    var r := RoundOf(e, c, finals, 1, Intended);
    var root := r.comps[|r.comps| - 1];
    BelowRoot(e, c, finals, 1, Intended);
    RenewedLast(e, root, 1, Intended);
    OnlyRoot(r.e1, root);
    MintClearsOnly(r.e1, r.comps[r.j], root);
  }

  /** A cache with room for one label has the root's, once that has been renewed. */
  lemma OnlyRoot(e: Enc, root: Context)
    requires EncOk(e, 1) && e.cache.order != [] && root in e.labels
    requires e.cache.order[|e.cache.order| - 1] == e.labels[root]
    ensures e.cache.order == [e.labels[root]] && e.labels[root] in e.cache.vals && e.labels[root] != e.nextId
  {
    assert |e.cache.order| <= 1;
    assert e.labels[root] in e.cache.order;
  }

  lemma MintClearsOnly(e: Enc, x: Context, root: Context)
    requires root in e.labels && x != root && LabelIn(e.labels, x) == 0 && e.labels[root] != e.nextId
    requires e.cache.order == [e.labels[root]]
    requires e.labels[root] in e.cache.vals && e.cache.vals[e.labels[root]] == root
    ensures LabelIn(Put(e, x, 1, Intended).labels, root) == 0
  {
    assert Evicted(e.cache.order, e.nextId, 1) == {e.labels[root]};
  }

  /** The intended server cache, after one value, in terms of the order it had. */
  lemma IntendedOrder(e: Enc, c: Context, finals: set<Context>, size: nat)
    requires EncOk(e, size) && LabelsCached(e) && c in e.labels
    ensures
      var r := RoundOf(e, c, finals, size, Intended);
      && LabelsCached(r.e2)
      && r.e2.cache.order == OrderAfter(e.cache.order, r.rid, Mints(r), e.nextId, size)
      && (r.rid != 0 ==> r.rid in e.cache.vals)
  {
    var r := RoundOf(e, c, finals, size, Intended);
    var root := r.comps[|r.comps| - 1];
    if r.rid != 0 {
      PutKeepsCached(e, root, size);
    }
    if Mints(r) {
      BelowRoot(e, c, finals, size, Intended);
      PutKeepsCached(r.e1, r.comps[r.j], size);
    }
  }

  // ----- why the other cases fail

  lemma TailFirst(labels: map<Context, nat>, comps: seq<Context>, i: nat, p: Payload)
    requires i < |comps|
    ensures var f := Tail(labels, comps, i, p)[0];
            && StepOf(f) == Some(comps[i].step) && f.posIdentifier == LabelIn(labels, comps[i])
            && (i > 0 ==> f.value == None)
  {
  }

  /** What a frame leaves in the cache, and which cursor goes on. */
  lemma ArriveFiles(live: set<QPath>, d: Dec, cur: Cursor, f: RGQLValue, size: nat)
    requires StepOf(f).Some?
    ensures var d1, next := Arrive(live, d, cur, f, size), Advance(live, cur, f);
            && |next.path| == |cur.path| + 1 && (f.value == None ==> d1.cursor == Some(next))
            && (f.posIdentifier == 0 ==> d1.cache == d.cache)
            && (f.posIdentifier != 0 ==>
                  f.posIdentifier in d1.cache.vals && d1.cache.vals[f.posIdentifier] == next)
  {
  }

  /** The alias defined by a tail of frames counts the steps since the cursor it started from. */
  lemma {:induction false} TailAliasLength(live: set<QPath>, d: Dec, cur: Cursor, labels: map<Context, nat>,
                                           comps: seq<Context>, i: nat, p: Payload, j: nat, fid: nat, size: nat)
    requires i < |comps| && OneFresh(labels, comps, i + 1, j, fid)
    requires d.cursor == Some(cur) || (d.cursor == None && cur == Cursor([], false) && i != j)
    requires j > i ==> fid in d.cache.vals
    ensures
      var h := HandleAll(live, d, Tail(labels, comps, i, p), size);
      && h.Handled?
      && fid in h.dec.cache.vals
      && (if j <= i then |h.dec.cache.vals[fid].path| == |cur.path| + i - j + 1
          else h.dec.cache.vals[fid] == d.cache.vals[fid])
    decreases i
  {
    var f := Tail(labels, comps, i, p)[0];
    TailFirst(labels, comps, i, p);
    TailHead(live, d, cur, labels, comps, i, p, size);
    var d1, next := Arrive(live, d, cur, f, size), Advance(live, cur, f);
    ArriveFiles(live, d, cur, f, size);
    hide Tail, Handle, Arrive, Advance, HandleAll;
    if i > 0 {
      TailAliasLength(live, d1, next, labels, comps, i - 1, p, j, fid, size);
    }
  }

  lemma {:induction false} ChainLengths(comps: seq<Context>, i: nat)
    requires IsChain(comps) && i < |comps|
    ensures |comps[i].path| == |comps[|comps| - 1].path| + |comps| - 1 - i
    decreases |comps| - i
  {
    if i < |comps| - 1 {
      assert comps[i].parent == comps[i + 1];
      ChainLengths(comps, i + 1);
    }
  }

  // ----- the exact conditions

  /** Writing to a labelled context makes Run index below the start of its path. */
  lemma LabelledPanics(e: Enc, c: Context, finals: set<Context>, p: Payload, size: nat, mode: Mode)
    requires EncOk(e, size) && c in e.labels
    ensures e.labels[c] != 0 ==> Write(e, c, finals, p, size, mode) == Panic
  {
    if e.labels[c] != 0 {
      PutFacts(e, c, size, mode);
      assert Climb(e.labels, c) == [c];
    }
  }

  /** The intended protocol, from any synchronised state and for any cache size: a value arrives
      exactly when the written context is unlabelled, the payload is a value rather than an error
      or nil, and the label being referred to is not evicted by the one being minted. The last
      can only happen with room for a single label. */
  lemma IntendedExact(live: set<QPath>, e: Enc, d: Dec, c: Context, finals: set<Context>, p: Payload, size: nat)
    requires PrefixClosed(live) && EncOk(e, size) && LabelsCached(e) && DecOk(live, d, size) && InSync(e, d)
    requires c in e.labels
    ensures
      var r := RoundOf(e, c, finals, size, Intended);
      Arrives(live, e, d, c, finals, p, size, Intended) <==>
        e.labels[c] == 0 && Carried(p).Some? && !(size == 1 && r.rid != 0 && Mints(r))
  {
    var r := RoundOf(e, c, finals, size, Intended);
    LabelledPanics(e, c, finals, p, size, Intended);
    if e.labels[c] == 0 {
      if size == 1 && r.rid != 0 && Mints(r) {
        WrongAlias(live, e, d, c, finals, p);
      } else {
        IntendedArrives(live, e, d, c, finals, p, size);
      }
    }
  }

  lemma IntendedArrives(live: set<QPath>, e: Enc, d: Dec, c: Context, finals: set<Context>, p: Payload, size: nat)
    requires PrefixClosed(live) && EncOk(e, size) && LabelsCached(e) && DecOk(live, d, size) && InSync(e, d)
    requires c in e.labels && e.labels[c] == 0
    requires var r := RoundOf(e, c, finals, size, Intended); !(size == 1 && r.rid != 0 && Mints(r))
    ensures Arrives(live, e, d, c, finals, p, size, Intended) <==> Carried(p).Some?
  {
    var r := RoundOf(e, c, finals, size, Intended);
    assert r.rid != 0 ==> r.rid in d.cache.order by { IntendedOrder(e, c, finals, size); }
    if size == 1 {
      SingleKept(e, c, finals);
    } else {
      RootKept(e, c, finals, size, Intended);
    }
    var d' := WriteDecodes(live, e, d, c, finals, p, size, Intended);
  }

  lemma SingleKept(e: Enc, c: Context, finals: set<Context>)
    requires EncOk(e, 1) && LabelsCached(e) && c in e.labels
    requires var r := RoundOf(e, c, finals, 1, Intended); !(r.rid != 0 && Mints(r))
    ensures
      var r := RoundOf(e, c, finals, 1, Intended);
      LabelIn(r.e2.labels, r.comps[|r.comps| - 1]) == r.rid
  {
    var r := RoundOf(e, c, finals, 1, Intended);
    RoundLabels(e, c, finals, 1, Intended);
    if r.rid != 0 {
      PutFacts(e, r.comps[|r.comps| - 1], 1, Intended);
    }
  }

  /** Room for one label: the frames start in the middle of the path, and the alias they define
      means a shorter path than the context it was minted for. */
  lemma WrongAlias(live: set<QPath>, e: Enc, d: Dec, c: Context, finals: set<Context>, p: Payload)
    requires EncOk(e, 1) && LabelsCached(e) && InSync(e, d)
    requires c in e.labels && e.labels[c] == 0
    requires var r := RoundOf(e, c, finals, 1, Intended); r.rid != 0 && Mints(r)
    ensures !Arrives(live, e, d, c, finals, p, 1, Intended)
  {
    var r := RoundOf(e, c, finals, 1, Intended);
    SyncCursor(e, d);
    hide *;
    RootLost(e, c, finals);
    RoundLabels(e, c, finals, 1, Intended);
    RoundFacts(e, c, finals);
    LongPath(e, c, finals);
    RootToo(r.e2.labels, r.comps, r.j, e.nextId);
    SuffixAlias(live, d, r.e2, r.comps, p, r.j, e.nextId);
    WriteIs(e, c, finals, p, 1, Intended);
    NotArrived(live, e, d, c, finals, p, r.e2);
  }

  lemma SyncCursor(e: Enc, d: Dec)
    requires InSync(e, d)
    ensures d.cursor == None
  {
  }

  lemma RoundFacts(e: Enc, c: Context, finals: set<Context>)
    requires EncOk(e, 1) && c in e.labels
    requires Mints(RoundOf(e, c, finals, 1, Intended))
    ensures var r := RoundOf(e, c, finals, 1, Intended);
            Chained(c) && 1 < |r.comps| && r.j + 1 < |r.comps| && r.comps[r.j] in e.labels
  {
    BelowRoot(e, c, finals, 1, Intended);
    ClimbFacts(e, c, 1);
    assert RoundOf(e, c, finals, 1, Intended).comps[RoundOf(e, c, finals, 1, Intended).j] in
      RoundOf(e, c, finals, 1, Intended).comps;
  }

  lemma NotArrived(live: set<QPath>, e: Enc, d: Dec, c: Context, finals: set<Context>, p: Payload, e': Enc)
    requires Chained(c)
    requires
      var s := Write(e, c, finals, p, 1, Intended);
      s.Sent? && s.enc == e' && var h := HandleAll(live, d, s.frames, 1); h.Handled? && !Denotes(e', h.dec)
    ensures !Arrives(live, e, d, c, finals, p, 1, Intended)
  {
  }

  /** A labelled root is not at the top, so the components are not the whole path. */
  lemma LongPath(e: Enc, c: Context, finals: set<Context>)
    requires EncOk(e, 1) && c in e.labels
    requires var r := RoundOf(e, c, finals, 1, Intended); r.rid != 0 && Mints(r)
    ensures var r := RoundOf(e, c, finals, 1, Intended); |r.comps[r.j].path| > |r.comps| - r.j
  {
    var r := RoundOf(e, c, finals, 1, Intended);
    var root := r.comps[|r.comps| - 1];
    ClimbFacts(e, c, 1);
    assert root in r.comps;
    ChainLengths(r.comps, r.j);
    BelowTop(root);
  }

  lemma RootToo(labels: map<Context, nat>, comps: seq<Context>, j: nat, fid: nat)
    requires comps != [] && OneFresh(labels, comps, |comps| - 1, j, fid) && LabelIn(labels, comps[|comps| - 1]) == 0
    requires j + 1 < |comps|
    ensures OneFresh(labels, comps, |comps|, j, fid)
  {
  }

  /** Frames that start in the middle of a path define an alias that is too short. */
  lemma SuffixAlias(live: set<QPath>, d: Dec, e: Enc, comps: seq<Context>, p: Payload, j: nat, fid: nat)
    requires d.cursor == None && j + 1 < |comps|
    requires OneFresh(e.labels, comps, |comps|, j, fid) && comps[j] in e.labels
    requires |comps[j].path| > |comps| - j
    ensures
      var h := HandleAll(live, d, Frames(e.labels, comps, p), 1);
      h.Handled? && !Denotes(e, h.dec)
  {
    TailAliasLength(live, d, Cursor([], false), e.labels, comps, |comps| - 1, p, j, fid, 1);
  }

  /** Put as written, with room for two labels: the server cannot tell which labels the client has
      evicted. A value arrives exactly when the written context is unlabelled, the payload is a
      value, and the label referred to is still in the client's cache. */
  lemma AsWrittenExact(live: set<QPath>, e: Enc, d: Dec, c: Context, finals: set<Context>, p: Payload, size: nat)
    requires PrefixClosed(live) && EncOk(e, size) && DecOk(live, d, size) && Denotes(e, d) && d.cursor == None
    requires c in e.labels && 2 <= size
    ensures
      var r := RoundOf(e, c, finals, size, AsWritten);
      Arrives(live, e, d, c, finals, p, size, AsWritten) <==>
        e.labels[c] == 0 && Carried(p).Some? && (r.rid != 0 ==> r.rid in d.cache.order)
  {
    var r := RoundOf(e, c, finals, size, AsWritten);
    LabelledPanics(e, c, finals, p, size, AsWritten);
    if e.labels[c] == 0 {
      RootKept(e, c, finals, size, AsWritten);
      if r.rid != 0 && r.rid !in d.cache.order {
        FramesUnambiguous(e, c, finals, p, size, AsWritten);
      } else {
        var d' := WriteDecodes(live, e, d, c, finals, p, size, AsWritten);
      }
    }
  }
}
