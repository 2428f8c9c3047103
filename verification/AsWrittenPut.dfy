/** encoder/path-cache.go:45 as written: three objects of a list are enough to lose a value. */
module AsWrittenPut {
  import opened Messages
  import opened Resolver
  import opened Lru
  import opened AliasSpec
  import opened AliasProofs
  import opened AliasSync
  import opened AliasRuns

  /** A final field of an object in a list whose components are not final. */
  ghost predicate ListField(leaf: Context, obj: Context, list: Context) {
    && Chained(leaf) && Chained(obj) && Chained(list)
    && leaf.parent == obj && obj.parent == list && list.parent == null
  }

  /** The server has filed nothing but key 0, and the context is known and unlabelled. */
  ghost predicate Untouched(e: Enc, c: Context) {
    c in e.labels && e.labels[c] == 0
  }

  ghost predicate OnlyKeyZero(e: Enc) {
    forall k :: k in e.cache.vals ==> k == 0
  }

  /** The first value below an object labels the object. */
  lemma FirstRound(e: Enc, leaf: Context, obj: Context, list: Context, finals: set<Context>, size: nat)
    requires EncOk(e, size) && ListField(leaf, obj, list) && leaf in finals && obj !in finals
    requires Untouched(e, leaf) && LabelIn(e.labels, obj) == 0 && LabelIn(e.labels, list) == 0
    ensures
      var r := RoundOf(e, leaf, finals, size, AsWritten);
      r == Round([leaf, obj, list], 0, 1, e, Put(e, obj, size, AsWritten))
  {
    assert Climb(e.labels, obj) == [obj, list];
    var comps := Climb(e.labels, leaf);
    assert comps == [leaf, obj, list];
    assert comps[..2] == [leaf, obj];
    assert [leaf, obj][1..] == [obj];
    assert FirstLive([obj], finals) == 0;
  }

  /** With Put as written, the server files every new label under key 0: its cache never grows and
      its labels are never cleared. */
  lemma FirstPut(e: Enc, obj: Context, size: nat)
    requires EncOk(e, size) && OnlyKeyZero(e) && Untouched(e, obj)
    ensures
      var e' := Put(e, obj, size, AsWritten);
      && OnlyKeyZero(e') && e'.labels == e.labels[obj := e.nextId] && e'.nextId == e.nextId + 1
  {
    PutLabels(e, obj, size, AsWritten);
    AddWf(e.cache, 0, obj, size);
    var e' := Put(e, obj, size, AsWritten);
    forall x | x in e.labels && x != obj ensures e'.labels[x] == e.labels[x] { }
  }

  lemma FirstVisit(w: World, leaf: Context, obj: Context, list: Context, finals: set<Context>, v: Primitive, size: nat)
    returns (w': World)
    requires WorldOk(w, size, AsWritten) && 2 <= size && ListField(leaf, obj, list)
    requires Untouched(w.enc, leaf) && LabelIn(w.enc.labels, obj) == 0 && LabelIn(w.enc.labels, list) == 0
    requires leaf in finals && obj !in finals && OnlyKeyZero(w.enc)
    ensures w' == Next(w, WriteValue(leaf, finals, Val(Some(v))), size, AsWritten)
    ensures WorldOk(w', size, AsWritten) && OnlyKeyZero(w'.enc)
    ensures w'.enc.nextId == w.enc.nextId + 1 && w'.enc.labels == w.enc.labels[obj := w.enc.nextId]
    ensures w'.uses == w.uses + [w.enc.nextId]
  {
    var ev := WriteValue(leaf, finals, Val(Some(v)));
    w' := Next(w, ev, size, AsWritten);
    FirstRound(w.enc, leaf, obj, list, finals, size);
    WriteKeepsOk(w, ev, size, AsWritten);
    assert obj in w.enc.labels by { assert leaf.parent in w.enc.labels; }
    FirstPut(w.enc, obj, size);
    WithoutId(w.uses, w.enc.nextId);
    NextAfter(w, ev, size);
  }

  lemma NextAfter(w: World, ev: Event, size: nat)
    requires ev.WriteValue? && Chained(ev.ctx)
    requires Arrives(w.live, w.enc, w.dec, ev.ctx, ev.finals, ev.payload, size, AsWritten)
    ensures
      var r := RoundOf(w.enc, ev.ctx, ev.finals, size, AsWritten);
      var w' := Next(w, ev, size, AsWritten);
      w'.enc == r.e2 && w'.uses == UsesAfter(w.uses, r.rid, Mints(r), w.enc.nextId)
  {
  }

  /** Three objects of a list with final fields; the first `n` objects are labelled, in order. */
  ghost predicate Visited(e: Enc, n: nat, list: Context, objs: seq<Context>, leaves: seq<Context>, finals: set<Context>)
  {
    && |objs| == 3 && |leaves| == 4 && n <= 3
    && e.nextId == n + 1 && OnlyKeyZero(e) && LabelIn(e.labels, list) == 0
    && (forall i :: 0 <= i < 3 ==> ListField(leaves[i], objs[i], list))
    && (forall i, j :: 0 <= i < j < 3 ==> objs[i] != objs[j])
    && (forall i :: 0 <= i < 4 ==> leaves[i] in finals && Untouched(e, leaves[i]))
    && (forall j :: 0 <= j < 3 ==> objs[j] !in finals && objs[j] != list)
    && (forall j :: 0 <= j < 3 ==> LabelIn(e.labels, objs[j]) == if j < n then j + 1 else 0)
  }

  /** Room for two labels, three objects, one field each, then a second field of the first object.
      The fourth value refers to a label the client has evicted, and the client throws. In the
      intended form of Put the same four values all arrive. */
  lemma AsWrittenLosesAValue(w: World, list: Context, objs: seq<Context>, leaves: seq<Context>, v: Primitive,
                             evs: seq<Event>)
    requires |leaves| == 4 && Visited(w.enc, 0, list, objs, leaves, (set c | c in leaves))
    requires ListField(leaves[3], objs[0], list)
    requires w.uses == [] && WorldOk(w, 2, AsWritten) && WorldOk(w, 2, Intended)
    requires |evs| == 4
    requires forall i :: 0 <= i < 4 ==> evs[i] == WriteValue(leaves[i], (set c | c in leaves), Val(Some(v)))
    ensures !AllArrive(w, evs, 2, AsWritten)
    ensures AllArrive(w, evs, 2, Intended)
  {
    var finals := set c | c in leaves;
    FourthThrows(w, list, objs, leaves, finals, v, evs);
    forall c | c in finals && c in w.enc.labels ensures w.enc.labels[c] == 0 {
      var i :| 0 <= i < 4 && leaves[i] == c;
      assert Untouched(w.enc, leaves[i]);
    }
    FinalLeavesArrive(w, evs, finals, 2);
  }

  lemma VisitNext(w: World, n: nat, list: Context, objs: seq<Context>, leaves: seq<Context>, finals: set<Context>,
                  v: Primitive)
    returns (w': World)
    requires WorldOk(w, 2, AsWritten) && n < 3 && Visited(w.enc, n, list, objs, leaves, finals)
    ensures w' == Next(w, WriteValue(leaves[n], finals, Val(Some(v))), 2, AsWritten)
    ensures WorldOk(w', 2, AsWritten) && Visited(w'.enc, n + 1, list, objs, leaves, finals)
    ensures w'.uses == w.uses + [n + 1]
  {
    w' := FirstVisit(w, leaves[n], objs[n], list, finals, v, 2);
    VisitedNext(w.enc, w'.enc, n, list, objs, leaves, finals);
  }

  lemma VisitedNext(e: Enc, e': Enc, n: nat, list: Context, objs: seq<Context>, leaves: seq<Context>,
                    finals: set<Context>)
    requires n < 3 && Visited(e, n, list, objs, leaves, finals)
    requires OnlyKeyZero(e') && e'.nextId == e.nextId + 1 && e'.labels == e.labels[objs[n] := e.nextId]
    ensures Visited(e', n + 1, list, objs, leaves, finals)
  {
    forall i | 0 <= i < 4 ensures Untouched(e', leaves[i]) {
      assert leaves[i] in finals && objs[n] !in finals;
    }
  }

  lemma FourthThrows(w: World, list: Context, objs: seq<Context>, leaves: seq<Context>, finals: set<Context>,
                     v: Primitive, evs: seq<Event>)
    requires Visited(w.enc, 0, list, objs, leaves, finals) && ListField(leaves[3], objs[0], list)
    requires w.uses == [] && WorldOk(w, 2, AsWritten)
    requires |evs| == 4 && forall i :: 0 <= i < 4 ==> evs[i] == WriteValue(leaves[i], finals, Val(Some(v)))
    ensures !AllArrive(w, evs, 2, AsWritten)
  {
    var w3 := VisitThree(w, list, objs, leaves, finals, v);
    EvictedReference(w3, leaves[3], objs[0], finals, v);
    LateFailure(w, evs, w3);
  }

  lemma VisitThree(w: World, list: Context, objs: seq<Context>, leaves: seq<Context>, finals: set<Context>,
                   v: Primitive)
    returns (w3: World)
    requires Visited(w.enc, 0, list, objs, leaves, finals) && w.uses == [] && WorldOk(w, 2, AsWritten)
    ensures w3 == Next(Next(Next(w, WriteValue(leaves[0], finals, Val(Some(v))), 2, AsWritten),
                            WriteValue(leaves[1], finals, Val(Some(v))), 2, AsWritten),
                       WriteValue(leaves[2], finals, Val(Some(v))), 2, AsWritten)
    ensures WorldOk(w3, 2, AsWritten) && w3.uses == [1, 2, 3]
    ensures Untouched(w3.enc, leaves[3]) && LabelIn(w3.enc.labels, objs[0]) == 1
  {
    var w1 := VisitNext(w, 0, list, objs, leaves, finals, v);
    assert w1.uses == [1];
    w3 := VisitTwo(w1, list, objs, leaves, finals, v);
  }

  lemma VisitTwo(w: World, list: Context, objs: seq<Context>, leaves: seq<Context>, finals: set<Context>, v: Primitive)
    returns (w3: World)
    requires Visited(w.enc, 1, list, objs, leaves, finals) && w.uses == [1] && WorldOk(w, 2, AsWritten)
    ensures w3 == Next(Next(w, WriteValue(leaves[1], finals, Val(Some(v))), 2, AsWritten),
                       WriteValue(leaves[2], finals, Val(Some(v))), 2, AsWritten)
    ensures WorldOk(w3, 2, AsWritten) && w3.uses == [1, 2, 3]
    ensures Untouched(w3.enc, leaves[3]) && LabelIn(w3.enc.labels, objs[0]) == 1
  {
    var w2 := VisitNext(w, 1, list, objs, leaves, finals, v);
    assert w2.uses == [1, 2];
    w3 := VisitLast(w2, list, objs, leaves, finals, v);
  }

  lemma VisitLast(w: World, list: Context, objs: seq<Context>, leaves: seq<Context>, finals: set<Context>, v: Primitive)
    returns (w3: World)
    requires Visited(w.enc, 2, list, objs, leaves, finals) && w.uses == [1, 2] && WorldOk(w, 2, AsWritten)
    ensures w3 == Next(w, WriteValue(leaves[2], finals, Val(Some(v))), 2, AsWritten)
    ensures WorldOk(w3, 2, AsWritten) && w3.uses == [1, 2, 3]
    ensures Untouched(w3.enc, leaves[3]) && LabelIn(w3.enc.labels, objs[0]) == 1
  {
    w3 := VisitNext(w, 2, list, objs, leaves, finals, v);
  }

  /** A reference to a label that is no longer among the last two uses does not arrive. */
  lemma EvictedReference(w: World, leaf: Context, obj: Context, finals: set<Context>, v: Primitive)
    requires WorldOk(w, 2, AsWritten) && Untouched(w.enc, leaf) && Chained(leaf) && leaf.parent == obj
    requires w.uses == [1, 2, 3] && LabelIn(w.enc.labels, obj) == 1
    ensures !Arrives(w.live, w.enc, w.dec, leaf, finals, Val(Some(v)), 2, AsWritten)
  {
    assert Climb(w.enc.labels, leaf) == [leaf, obj] by { assert Climb(w.enc.labels, obj) == [obj]; }
    assert LastN(w.uses, 2) == [2, 3];
    AsWrittenExact(w.live, w.enc, w.dec, leaf, finals, Val(Some(v)), 2);
  }

  lemma LateFailure(w: World, evs: seq<Event>, w3: World)
    requires |evs| == 4 && forall i :: 0 <= i < 4 ==> evs[i].WriteValue? && Chained(evs[i].ctx)
    requires w3 == Next(Next(Next(w, evs[0], 2, AsWritten), evs[1], 2, AsWritten), evs[2], 2, AsWritten)
    requires !Arrives(w3.live, w3.enc, w3.dec, evs[3].ctx, evs[3].finals, evs[3].payload, 2, AsWritten)
    ensures !AllArrive(w, evs, 2, AsWritten)
  {
    var w1 := Next(w, evs[0], 2, AsWritten);
    var w2 := Next(w1, evs[1], 2, AsWritten);
    assert evs[1..][1..] == evs[2..] && evs[2..][1..] == evs[3..];
    assert !AllArrive(w3, evs[3..], 2, AsWritten);
    assert !AllArrive(w2, evs[2..], 2, AsWritten);
    assert !AllArrive(w1, evs[1..], 2, AsWritten);
  }

  /** In the intended form, final contexts are never labelled, so any sequence of values written to
      final contexts arrives. */
  lemma {:induction false} FinalLeavesArrive(w: World, evs: seq<Event>, finals: set<Context>, size: nat)
    requires WorldOk(w, size, Intended) && 2 <= size
    requires forall i :: 0 <= i < |evs| ==>
               && evs[i].WriteValue? && evs[i].finals == finals && Carried(evs[i].payload).Some?
               && evs[i].ctx in finals && evs[i].ctx in w.enc.labels
    requires forall c :: c in finals && c in w.enc.labels ==> w.enc.labels[c] == 0
    ensures AllArrive(w, evs, size, Intended)
    decreases |evs|
  {
    if evs != [] {
      var ev := evs[0];
      var w' := Next(w, ev, size, Intended);
      WriteKeepsOk(w, ev, size, Intended);
      FinalsStayUnlabelled(w, ev, size);
      FinalLeavesArrive(w', evs[1..], finals, size);
    }
  }

  lemma FinalsStayUnlabelled(w: World, ev: Event, size: nat)
    requires EncOk(w.enc, size) && ev.WriteValue? && ev.ctx in w.enc.labels && Chained(ev.ctx)
    requires forall c :: c in ev.finals && c in w.enc.labels ==> w.enc.labels[c] == 0
    ensures
      var w' := Next(w, ev, size, Intended);
      w'.enc.labels.Keys == w.enc.labels.Keys &&
      forall c :: c in ev.finals && c in w'.enc.labels ==> w'.enc.labels[c] == 0
  {
    RoundLabels(w.enc, ev.ctx, ev.finals, size, Intended);
    MintedNotFinal(w.enc, ev.ctx, ev.finals, size);
    NextEnc(w, ev, size);
    hide *;
  }

  lemma MintedNotFinal(e: Enc, c: Context, finals: set<Context>, size: nat)
    requires Chained(c)
    ensures var r := RoundOf(e, c, finals, size, Intended);
            Mints(r) ==> 0 <= r.j < |r.comps| && r.comps[r.j] !in finals
  {
  }

  lemma NextEnc(w: World, ev: Event, size: nat)
    requires ev.WriteValue? && Chained(ev.ctx)
    ensures var e := Next(w, ev, size, Intended).enc;
            e == w.enc || e == RoundOf(w.enc, ev.ctx, ev.finals, size, Intended).e2
  {
    hide Climb, HandleAll;
  }

  // ----- the run

  /** A list of three objects: the first has two fields, the others one. */
  method ThreeObjects() returns (list: Context, objs: seq<Context>, leaves: seq<Context>)
    ensures |objs| == 3 && |leaves| == 4 && list.path == [Field(1)]
    ensures forall i :: 0 <= i < 3 ==> objs[i].parent == list && objs[i].path == [Field(1), Index(i + 1)]
    ensures forall i ::
        0 <= i < 3 ==> ListField(leaves[i], objs[i], list) && leaves[i].path == [Field(1), Index(i + 1), Field(2)]
    ensures ListField(leaves[3], objs[0], list) && leaves[3].path == [Field(1), Index(1), Field(3)]
  {
    list := new Context(null, Field(1));
    var o0 := new Context(list, Index(1));
    var o1 := new Context(list, Index(2));
    var o2 := new Context(list, Index(3));
    var l0 := new Context(o0, Field(2));
    var l1 := new Context(o1, Field(2));
    var l2 := new Context(o2, Field(2));
    var l3 := new Context(o0, Field(3));
    objs, leaves := [o0, o1, o2], [l0, l1, l2, l3];
  }

  /** Contexts that have just been opened, and a client that has asked for their fields. */
  ghost function JustOpened(known: set<Context>): World {
    var live := {[], [1], [1, 2], [1, 3]};
    Start(live, 4).(enc := Enc(1, map c | c in known :: 0, Cache([], map[])))
  }

  lemma JustOpenedOk(known: set<Context>, mode: Mode)
    requires forall c | c in known :: Chained(c) && Bounded(Proj(c.path), 4) && (c.parent != null ==> c.parent in known)
    ensures WorldOk(JustOpened(known), 2, mode)
  {
    var live := {[], [1], [1, 2], [1, 3]};
    assert PrefixClosed(live) by {
      forall q: QPath, i | q in live && 0 <= i <= |q| ensures q[..i] in live {
        if i < |q| { assert q[..i] == [] || q[..i] == [1]; } else { assert q[..i] == q; }
      }
    }
    StartOk(live, 4, 2, mode);
  }

  /** The run, built from nothing: in the form as written it loses its last value. */
  method LosingRun(v: Primitive)
    returns (list: Context, objs: seq<Context>, leaves: seq<Context>, ghost w: World, ghost evs: seq<Event>)
    ensures |leaves| == 4 && |evs| == 4 && w == JustOpened({list} + (set c | c in objs) + (set c | c in leaves))
    ensures forall i :: 0 <= i < 4 ==> evs[i] == WriteValue(leaves[i], (set c | c in leaves), Val(Some(v)))
    ensures WorldOk(w, 2, AsWritten) && WorldOk(w, 2, Intended)
    ensures !AllArrive(w, evs, 2, AsWritten) && AllArrive(w, evs, 2, Intended)
  {
    list, objs, leaves := ThreeObjects();
    ghost var known, finals := {list} + (set c | c in objs) + (set c | c in leaves), set c | c in leaves;
    w := JustOpened(known);
    evs := seq(4, i requires 0 <= i < 4 => WriteValue(leaves[i], finals, Val(Some(v))));
    RunBounded(list, objs, leaves, known);
    JustOpenedOk(known, AsWritten);
    JustOpenedOk(known, Intended);
    RunVisited(list, objs, leaves, known);
    AsWrittenLosesAValue(w, list, objs, leaves, v, evs);
  }

  lemma RunBounded(list: Context, objs: seq<Context>, leaves: seq<Context>, known: set<Context>)
    requires |objs| == 3 && |leaves| == 4 && list.path == [Field(1)]
    requires known == {list} + (set c | c in objs) + (set c | c in leaves)
    requires forall i :: 0 <= i < 3 ==> objs[i].parent == list && objs[i].path == [Field(1), Index(i + 1)]
    requires forall i ::
        0 <= i < 3 ==> ListField(leaves[i], objs[i], list) && leaves[i].path == [Field(1), Index(i + 1), Field(2)]
    requires ListField(leaves[3], objs[0], list) && leaves[3].path == [Field(1), Index(1), Field(3)]
    ensures forall c | c in known :: Chained(c) && Bounded(Proj(c.path), 4) && (c.parent != null ==> c.parent in known)
  {
    forall c | c in known ensures Chained(c) && Bounded(Proj(c.path), 4) && (c.parent != null ==> c.parent in known) {
      ShortPath(c.path);
    }
  }

  lemma ShortPath(p: Path)
    requires forall i | 0 <= i < |p| :: p[i].Field? ==> p[i].id < 4
    ensures Bounded(Proj(p), 4)
    decreases |p|
  {
    if p != [] {
      assert p == p[..|p| - 1] + [p[|p| - 1]];
      ShortPath(p[..|p| - 1]);
      ProjSnoc(p[..|p| - 1], p[|p| - 1]);
    }
  }

  lemma RunVisited(list: Context, objs: seq<Context>, leaves: seq<Context>, known: set<Context>)
    requires |objs| == 3 && |leaves| == 4 && list.path == [Field(1)]
    requires known == {list} + (set c | c in objs) + (set c | c in leaves)
    requires forall i :: 0 <= i < 3 ==> objs[i].parent == list && objs[i].path == [Field(1), Index(i + 1)]
    requires forall i ::
        0 <= i < 3 ==> ListField(leaves[i], objs[i], list) && leaves[i].path == [Field(1), Index(i + 1), Field(2)]
    requires ListField(leaves[3], objs[0], list) && leaves[3].path == [Field(1), Index(1), Field(3)]
    ensures Visited(JustOpened(known).enc, 0, list, objs, leaves, set c | c in leaves)
  {
    forall i, j | 0 <= i < j < 3 ensures objs[i] != objs[j] {
      assert objs[i].path[1] != objs[j].path[1];
    }
    forall j | 0 <= j < 3 ensures objs[j] !in leaves && objs[j] != list && objs[j] in known {
      forall i | 0 <= i < 4 ensures leaves[i] != objs[j] { assert |leaves[i].path| == 3; }
    }
  }
}
