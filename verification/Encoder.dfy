/** The server end, in place: encoder/path-cache.go and encoder/encoder.go. */
module Encoder {
  import opened Messages
  import opened Resolver
  import opened Lru
  import opened AliasSpec
  import opened AliasProofs
  import opened AliasSync

  /** PathCache: an LRU of labelled contexts. `known` is every context opened so far. */
  class PathCache {
    const size: nat
    const mode: Mode
    var id: nat
    var cache: Cache<Context>
    ghost var known: set<Context>

    ghost predicate Valid()
      reads this, known
    {
      && EncOk(Model(), size)
      && (forall k :: k in cache.vals ==> cache.vals[k] in known)
      && Restored()
    }

    /** No path component still carries the payload of a value. */
    ghost predicate Restored()
      reads this`known, known`value, known`error
    {
      forall c :: c in known ==> c.value == None && c.error == []
    }

    ghost function Model(): Enc
      reads this, known
    {
      Enc(id, Labels(), cache)
    }

    ghost function Labels(): map<Context, nat>
      reads this, known
    {
      map c | c in known :: c.posIdentifier
    }

    ghost function Finals(): set<Context>
      reads this`known, known`isFinal
    {
      set c | c in known && c.isFinal
    }

    /** NewPathCache; golang-lru refuses an empty cache. */
    constructor (size: nat, mode: Mode)
      requires 0 < size
      ensures Valid() && known == {} && this.size == size && this.mode == mode
      ensures Model() == Enc(1, map[], Cache([], map[]))
    {
      this.size, this.mode := size, mode;
      id, cache, known := 1, Cache([], map[]), {};
    }

    /** A context was opened below a known one. */
    ghost method Track(c: Context)
      requires Valid() && c !in known && Chained(c)
      requires c.posIdentifier == 0 && c.value == None && c.error == []
      requires c.parent != null ==> c.parent in known
      modifies this`known
      ensures Valid() && known == old(known) + {c}
      ensures Model() == old(Model()).(labels := old(Model()).labels[c := 0])
      ensures c !in old(Finals()) && Finals() == if c.isFinal then old(Finals()) + {c} else old(Finals())
    {
      hide *;
      var e, finals := Model(), Finals();
      KnownAre(this);
      ModelIs(this);
      LabelsAre(this);
      OpenedOk(e, c, size);
      RestoredIs(this);
      known := known + {c};
      FieldsAre(this, e.labels[c := 0], if c.isFinal then finals + {c} else finals);
      RestoredIs(this);
      StillValid(this, e.(labels := e.labels[c := 0]));
    }

    /** onEvicted: clears the label, unless the context has moved on to another one. */
    method OnEvicted(key: nat, ctx: Context)
      modifies ctx`posIdentifier
      ensures ctx.posIdentifier == if key == old(ctx.posIdentifier) then 0 else old(ctx.posIdentifier)
    {
      if key != ctx.posIdentifier { return; }
      ctx.posIdentifier := 0;
    }

    /** lru.Add, with the eviction callback. */
    method AddToLru(key: nat, ctx: Context)
      requires Wf(cache) && |cache.order| <= size && 0 < size
      requires ctx in known && forall k :: k in cache.vals ==> cache.vals[k] in known
      modifies this`cache, known`posIdentifier
      ensures known == old(known) && cache == Add(old(cache), key, ctx, size)
      ensures Labels() == ClearEvicted(old(Labels()), old(cache), Evicted(old(cache).order, key, size))
      ensures forall k :: k in cache.vals ==> cache.vals[k] in known
    {
      hide Use, Wf;
      var before := cache;
      AddWf(before, key, ctx, size);
      var gone := Evicted(before.order, key, size);
      cache := Add(before, key, ctx, size);
      if gone != {} {
        var oldest := before.order[0];
        assert gone == {oldest} && oldest in before.vals;
        OnEvicted(oldest, before.vals[oldest]);
      }
    }

    /** The first half of Put: an unlabelled context gets the next identifier. */
    method Assign(ctx: Context) returns (key: nat)
      requires ctx in known
      modifies this`id, ctx`posIdentifier
      ensures id == if old(ctx.posIdentifier) == 0 then old(id) + 1 else old(id)
      ensures ctx.posIdentifier == if old(ctx.posIdentifier) == 0 then old(id) else old(ctx.posIdentifier)
      ensures key == if old(ctx.posIdentifier) == 0 && mode == AsWritten then 0 else ctx.posIdentifier
      ensures Labels() == old(Labels())[ctx := ctx.posIdentifier]
    {
      key := ctx.posIdentifier;
      if key == 0 {
        var minted := id;
        id := id + 1;
        ctx.posIdentifier := minted;
        key := if mode == AsWritten then 0 else minted;
      }
    }

    /** Put adds or renews a label. */
    method Put(ctx: Context)
      requires Valid() && ctx in known && (ctx.posIdentifier == 0 ==> ctx.parent != null)
      modifies this`id, this`cache, known`posIdentifier
      ensures Valid() && known == old(known)
      ensures Model() == AliasSpec.Put(old(Model()), ctx, size, mode)
    {
      hide *;
      ghost var e := Model();
      PutStarts(this, ctx);
      PutFacts(e, ctx, size, mode);
      PutParts(e, ctx, size, mode);
      var key := Assign(ctx);
      AddToLru(key, ctx);
      PutEnds(this, e, ctx);
    }
  }

  lemma RestoredIs(cache: PathCache)
    ensures cache.Restored() <==> forall c :: c in cache.known ==> c.value == None && c.error == []
  {
  }

  /** The labels and the final contexts, by the contexts' own fields. */
  lemma FieldsAre(cache: PathCache, labels: map<Context, nat>, finals: set<Context>)
    requires forall x :: x in labels <==> x in cache.known
    requires forall x :: x in cache.known ==> labels[x] == x.posIdentifier
    requires forall x :: x in finals <==> x in cache.known && x.isFinal
    ensures cache.Labels() == labels && cache.Finals() == finals
  {
  }

  /** A context that is opened has no label. */
  lemma OpenedOk(e: Enc, c: Context, size: nat)
    requires EncOk(e, size) && c !in e.labels && Chained(c) && (c.parent != null ==> c.parent in e.labels)
    ensures EncOk(e.(labels := e.labels[c := 0]), size)
  {
    hide Wf;
    var labels := e.labels[c := 0];
    forall x | x in labels && x.parent != null ensures x.parent in labels { }
  }

  lemma PutStarts(c: PathCache, ctx: Context)
    requires c.Valid() && ctx in c.known && (ctx.posIdentifier == 0 ==> ctx.parent != null)
    ensures EncOk(c.Model(), c.size) && ctx in c.Model().labels && ctx.parent != null
    ensures Wf(c.cache) && |c.cache.order| <= c.size && 0 < c.size && c.Restored()
    ensures forall k :: k in c.cache.vals ==> c.cache.vals[k] in c.known
    ensures c.Model() == Enc(c.id, c.Labels(), c.cache) && LabelIn(c.Model().labels, ctx) == ctx.posIdentifier
  {
    assert c.Model().labels[ctx] == ctx.posIdentifier;
  }

  lemma PutEnds(c: PathCache, e: Enc, ctx: Context)
    requires c.Restored() && (forall k :: k in c.cache.vals ==> c.cache.vals[k] in c.known)
    requires Enc(c.id, c.Labels(), c.cache) == AliasSpec.Put(e, ctx, c.size, c.mode)
    requires EncOk(AliasSpec.Put(e, ctx, c.size, c.mode), c.size)
    ensures c.Valid() && c.Model() == AliasSpec.Put(e, ctx, c.size, c.mode)
  {
  }

  /** Put, taken apart. */
  lemma PutParts(e: Enc, ctx: Context, size: nat, mode: Mode)
    ensures var held := LabelIn(e.labels, ctx);
            var id := if held == 0 then e.nextId else held;
            var key := if held == 0 && mode == AsWritten then 0 else id;
            AliasSpec.Put(e, ctx, size, mode) ==
            Enc(if held == 0 then e.nextId + 1 else e.nextId,
                ClearEvicted(e.labels[ctx := id], e.cache, Evicted(e.cache.order, key, size)),
                  Add(e.cache, key, ctx, size))
  {
  }

  /** What the loop over the path sends at index `i`. */
  ghost function SentAt(labels: map<Context, nat>, comps: seq<Context>, i: nat, merge: bool, p: Payload): RGQLValue
    requires i < |comps|
  {
    var n := |comps|;
    var id := LabelIn(labels, comps[i]);
    var v, err := if i == 0 then Carried(p) else None, if i == 0 then ErrorText(p) else [];
    if merge && i == n - 2 then FrameOf(comps[i].step, LabelIn(labels, comps[n - 1]), v, err)
    else if i == n - 1 && id != 0 then RGQLValue(0, 0, id, None, [])
    else FrameOf(comps[i].step, id, v, err)
  }

  /** What the loop still has to send from index `i` on. */
  ghost function SentFrom(labels: map<Context, nat>, comps: seq<Context>, i: int, merge: bool,
                          p: Payload): seq<RGQLValue>
    requires -1 <= i < |comps|
    decreases i
  {
    if i < 0 then [] else [SentAt(labels, comps, i, merge, p)] + SentFrom(labels, comps, i - 1, merge, p)
  }

  lemma {:induction false} SentIsTail(labels: map<Context, nat>, comps: seq<Context>, i: nat, merge: bool, p: Payload)
    requires i < |comps| && (merge ==> i < |comps| - 2) && (i == |comps| - 1 ==> LabelIn(labels, comps[i]) == 0)
    ensures SentFrom(labels, comps, i, merge, p) == Tail(labels, comps, i, p)
  {
    if i > 0 {
      SentIsTail(labels, comps, i - 1, merge, p);
    } else {
      assert SentFrom(labels, comps, -1, merge, p) == [];
    }
  }

  /** The loop sends the frame sequence. */
  lemma SentIsFrames(labels: map<Context, nat>, comps: seq<Context>, p: Payload)
    requires comps != [] && (|comps| == 1 ==> LabelIn(labels, comps[0]) == 0)
    ensures
      var n := |comps|;
      var merge := LabelIn(labels, comps[n - 1]) != 0 && LabelIn(labels, comps[n - 2]) == 0;
      SentFrom(labels, comps, if merge then n - 2 else n - 1, merge, p) == Frames(labels, comps, p)
  {
    var n := |comps|;
    var rid := LabelIn(labels, comps[n - 1]);
    if rid == 0 {
      SentIsTail(labels, comps, n - 1, false, p);
    } else if LabelIn(labels, comps[n - 2]) != 0 {
      SentIsTail(labels, comps, n - 2, false, p);
    } else {
      SentMerged(labels, comps, p);
    }
  }

  lemma SentMerged(labels: map<Context, nat>, comps: seq<Context>, p: Payload)
    requires |comps| > 1 && LabelIn(labels, comps[|comps| - 1]) != 0 && LabelIn(labels, comps[|comps| - 2]) == 0
    ensures SentFrom(labels, comps, |comps| - 2, true, p) == Frames(labels, comps, p)
  {
    var n := |comps|;
    if n > 2 {
      SentIsTail(labels, comps, n - 3, true, p);
      var t := Tail(labels, comps, n - 2, p);
      assert t[1..] == SentFrom(labels, comps, n - 3, true, p);
    } else {
      assert SentFrom(labels, comps, -1, true, p) == [];
    }
  }

  lemma SendNext(out: seq<RGQLValue>, bin: RGQLValue, rest: seq<RGQLValue>)
    ensures out + ([bin] + rest) == (out + [bin]) + rest
  {
  }

  /** The component labelPathComponents stops at. */
  ghost predicate FirstThatIsNotFinal(components: seq<Context>, j: nat)
    requires j < |components|
    reads components
  {
    !components[j].isFinal && forall k :: 0 <= k < j ==> components[k].isFinal
  }

  /** The specification's maps and sets are the contexts' own fields. */
  lemma KnownAre(cache: PathCache)
    requires cache.Valid()
    ensures cache.Model().nextId == cache.id && cache.Model().cache == cache.cache && EncOk(cache.Model(), cache.size)
    ensures forall c :: c in cache.known <==> c in cache.Model().labels
    ensures forall c :: c in cache.known ==> cache.Model().labels[c] == c.posIdentifier
    ensures forall c :: c in cache.Finals() <==> c in cache.known && c.isFinal
  {
  }

  lemma StopsAt(e: Enc, comps: seq<Context>, j: nat, finals: set<Context>, size: nat, mode: Mode)
    requires j < |comps| - 1 && comps[j] !in finals && forall k :: 0 <= k < j ==> comps[k] in finals
    ensures LabelOne(e, comps, finals, size, mode) == AliasSpec.Put(e, comps[j], size, mode)
  {
    var up := comps[..|comps| - 1];
    assert up[j] == comps[j];
    var f := FirstLive(up, finals);
    if f < |up| { assert up[f] == comps[f]; }
  }

  lemma StopsNowhere(e: Enc, comps: seq<Context>, finals: set<Context>, size: nat, mode: Mode)
    requires comps != [] && forall k :: 0 <= k < |comps| - 1 ==> comps[k] in finals
    ensures LabelOne(e, comps, finals, size, mode) == e
  {
    var up := comps[..|comps| - 1];
    assert forall k :: 0 <= k < |up| ==> up[k] == comps[k];
  }

  lemma OnlyFirst(comps: seq<Context>, k: nat)
    requires k < |comps| - 1 && !comps[k].isFinal && forall j :: 0 <= j < k ==> comps[j].isFinal
    ensures forall j :: 0 <= j < |comps| - 1 ==> (FirstThatIsNotFinal(comps, j) <==> j == k)
  {
  }

  lemma NoFirst(comps: seq<Context>)
    requires comps != [] && forall j :: 0 <= j < |comps| - 1 ==> comps[j].isFinal
    ensures forall j :: 0 <= j < |comps| - 1 ==> !FirstThatIsNotFinal(comps, j)
  {
  }

  /** What is sent for a known context without a label. */
  lemma KnownUnlabelled(cache: PathCache, ctx: Context, p: Payload)
    requires cache.Valid() && ctx in cache.known
    ensures EncOk(cache.Model(), cache.size) && ctx in cache.Model().labels && Chained(ctx)
    ensures
      var s := Write(cache.Model(), ctx, cache.Finals(), p, cache.size, cache.mode);
      ctx.posIdentifier == 0 ==>
        && s.Sent?
        && (p.Val? ==> LastBrings(s.frames, p.value, [])) && (p.Err? ==> LastBrings(s.frames, None, p.msg))
  {
    assert ctx in cache.Model().labels && cache.Model().labels[ctx] == ctx.posIdentifier;
    assert Chained(ctx);
    hide PathCache.Valid, PathCache.Model, PathCache.Finals, EncOk, LastBrings, Write;
    if ctx.posIdentifier == 0 {
      UnlabelledIsSent(cache.Model(), ctx, cache.Finals(), p, cache.size, cache.mode);
    }
  }

  /** Write, taken apart. */
  lemma WriteParts(e: Enc, c: Context, finals: set<Context>, p: Payload, size: nat, mode: Mode)
    requires Chained(c)
    ensures
      var comps := Climb(e.labels, c);
      var e2 := LabelOne(RenewRoot(e, comps[|comps| - 1], size, mode), comps, finals, size, mode);
      Write(e, c, finals, p, size, mode) ==
        if |comps| == 1 && LabelIn(e2.labels, comps[0]) != 0 then Panic else Sent(Frames(e2.labels, comps, p), e2)
  {
  }

  /** The components of a climb are known, and only the last may be a top one. */
  lemma ClimbsKnown(cache: PathCache, ctx: Context)
    requires cache.Valid() && ctx in cache.known && Chained(ctx)
    ensures
      var comps := Climb(cache.Model().labels, ctx);
      && comps != [] && (forall c :: c in comps ==> c in cache.known)
      && (forall k :: 0 <= k < |comps| - 1 ==> comps[k].parent != null)
  {
    ClimbFacts(cache.Model(), ctx, cache.size);
  }

  lemma LabelsAre(cache: PathCache)
    requires cache.Valid()
    ensures cache.Model().labels == cache.Labels() && cache.Restored()
    ensures forall c :: c in cache.known ==> LabelIn(cache.Labels(), c) == c.posIdentifier
  {
  }

  lemma StillValid(cache: PathCache, was: Enc)
    requires EncOk(was, cache.size) && was == Enc(cache.id, cache.Labels(), cache.cache)
    requires (forall k :: k in cache.cache.vals ==> cache.cache.vals[k] in cache.known) && cache.Restored()
    ensures cache.Valid() && cache.Model() == was
  {
  }

  lemma ModelIs(cache: PathCache)
    requires cache.Valid()
    ensures cache.Model() == Enc(cache.id, cache.Labels(), cache.cache) && EncOk(cache.Model(), cache.size)
    ensures forall k :: k in cache.cache.vals ==> cache.cache.vals[k] in cache.known
  {
  }

  lemma PutRelabels(e: Enc, c: Context, size: nat, mode: Mode)
    requires EncOk(e, size) && c in e.labels
    ensures var e' := AliasSpec.Put(e, c, size, mode);
            && e'.nextId == e.nextId + (if e.labels[c] == 0 then 1 else 0)
            && c in e'.labels && e'.labels[c] == (if e.labels[c] == 0 then e.nextId else e.labels[c])
            && (forall x :: x in e.labels && x != c ==>
                  x in e'.labels && (e'.labels[x] == e.labels[x] || e'.labels[x] == 0))
  {
    PutLabels(e, c, size, mode);
  }

  /** ResultEncoder, without its channels: one call of Encode is one round of Run. */
  class ResultEncoder {
    const pathCache: PathCache

    constructor (pathCache: PathCache)
      ensures this.pathCache == pathCache
    {
      this.pathCache := pathCache;
    }

    /** labelPathComponents: labels the first component that is not final, never the last one. */
    method LabelPathComponents(components: seq<Context>)
      requires pathCache.Valid() && components != []
      requires forall c :: c in components ==> c in pathCache.known
      requires forall k :: 0 <= k < |components| - 1 ==> components[k].parent != null
      modifies pathCache`id, pathCache`cache, pathCache.known`posIdentifier
      ensures pathCache.Valid() && pathCache.known == old(pathCache.known)
      ensures pathCache.Model() ==
              LabelOne(old(pathCache.Model()), components, old(pathCache.Finals()), pathCache.size, pathCache.mode)
      // Nothing is labelled where every component below the root is final.
      ensures (forall k :: 0 <= k < |components| - 1 ==> components[k].isFinal) ==>
          && pathCache.id == old(pathCache.id) && pathCache.cache == old(pathCache.cache)
          && forall c :: c in pathCache.known ==> c.posIdentifier == old(c.posIdentifier)
      // The first one that is not gets the next identifier, or keeps the one it has.
      ensures forall j :: 0 <= j < |components| - 1 && FirstThatIsNotFinal(components, j) ==>
          && components[j].posIdentifier ==
             (if old(components[j].posIdentifier) == 0 then old(pathCache.id) else old(components[j].posIdentifier))
          && pathCache.id == old(pathCache.id) + (if old(components[j].posIdentifier) == 0 then 1 else 0)
          && (forall c :: c in pathCache.known && c != components[j] ==>
                c.posIdentifier == old(c.posIdentifier) || c.posIdentifier == 0)
    {
      hide *;
      ghost var e, finals := pathCache.Model(), pathCache.Finals();
      KnownAre(pathCache);
      var k := 0;
      while k < |components| - 1
        invariant 0 <= k <= |components| - 1
        invariant forall j :: 0 <= j < k ==> components[j].isFinal
      {
        var component := components[k];
        assert component in components;
        if !component.isFinal {
          StopsAt(e, components, k, finals, pathCache.size, pathCache.mode);
          PutRelabels(e, component, pathCache.size, pathCache.mode);
          pathCache.Put(component);
          KnownAre(pathCache);
          OnlyFirst(components, k);
          return;
        }
        k := k + 1;
      }
      StopsNowhere(e, components, finals, pathCache.size, pathCache.mode);
      NoFirst(components);
    }

    /** The climb: appends parents until one is labelled, which renews it, or there is none. */
    method ClimbToRoot(ctx: Context) returns (components: seq<Context>)
      requires pathCache.Valid() && ctx in pathCache.known
      modifies pathCache`id, pathCache`cache, pathCache.known`posIdentifier
      ensures pathCache.Valid() && pathCache.known == old(pathCache.known)
      ensures
        var e := old(pathCache.Model());
        && components == Climb(e.labels, ctx)
        && pathCache.Model() == RenewRoot(e, components[|components| - 1], pathCache.size, pathCache.mode)
    {
      ghost var e := pathCache.Model();
      var rootCtx := ctx;
      components := [ctx];
      while rootCtx.posIdentifier == 0 && rootCtx.parent != null
        invariant rootCtx in pathCache.known && Chained(rootCtx)
        invariant components != [] && components[|components| - 1] == rootCtx
        invariant Climb(e.labels, ctx) == components[..|components| - 1] + Climb(e.labels, rootCtx)
        decreases |rootCtx.path|
      {
        ghost var rest := Climb(e.labels, rootCtx.parent);
        assert components[..|components| - 1] + ([rootCtx] + rest) == components + rest;
        rootCtx := rootCtx.parent;
        components := components + [rootCtx];
        assert components[..|components| - 1] + rest == Climb(e.labels, ctx);
      }
      assert Climb(e.labels, ctx) == components;
      if rootCtx.posIdentifier != 0 {
        pathCache.Put(rootCtx);
      }
    }

    /** The body of the loop over the path: what is marshalled for one component. The overwritten
        identifier, value and error are put back. */
    method MarshalComponent(cmp: Context, reference: nat, last: bool, next: Payload) returns (bin: RGQLValue)
      requires cmp.value == None && cmp.error == []
      modifies cmp
      ensures cmp.posIdentifier == old(cmp.posIdentifier) && cmp.isFinal == old(cmp.isFinal)
      ensures cmp.value == None && cmp.error == []
      ensures bin == FrameOf(cmp.step, if reference != 0 then reference else cmp.posIdentifier,
                             if last then Carried(next) else None, if last then ErrorText(next) else [])
      ensures bin.value == (if last && next.Val? then next.value else None)
      ensures bin.error == (if last && next.Err? then next.msg else [])
      ensures bin.queryNodeId == (match cmp.step case Field(id) => id case Index(_) => 0)
      ensures bin.arrayIndex == (match cmp.step case Field(_) => 0 case Index(idx) => idx)
      ensures bin.posIdentifier == if reference != 0 then reference else cmp.posIdentifier
    {
      var posIDRestore := 0;
      if reference != 0 {
        posIDRestore := cmp.posIdentifier + 1;
        cmp.posIdentifier := reference;
      }
      if last {
        if next.Err? {
          cmp.error := next.msg;
        } else {
          cmp.value := next.value;
        }
      }
      bin := FrameOf(cmp.step, cmp.posIdentifier, cmp.value, cmp.error);
      if last {
        cmp.value := None;
        cmp.error := [];
      }
      if posIDRestore != 0 {
        cmp.posIdentifier := posIDRestore - 1;
      }
    }

    /** One turn of the loop over the path. */
    method SendComponent(components: seq<Context>, i: nat, mergePosIdentifier: bool, next: Payload)
      returns (bin: RGQLValue)
      requires pathCache.Restored() && i < |components|
      requires forall c :: c in components ==> c in pathCache.known
      requires mergePosIdentifier ==> |components| > 1 && components[|components| - 1].posIdentifier != 0
      modifies pathCache.known
      ensures pathCache.Restored() && pathCache.Labels() == old(pathCache.Labels())
      ensures pathCache.Finals() == old(pathCache.Finals())
      ensures bin == SentAt(pathCache.Labels(), components, i, mergePosIdentifier, next)
    {
      var n := |components|;
      var cmp := components[i];
      assert cmp in components && components[n - 1] in components;
      if mergePosIdentifier && i == n - 2 {
        bin := MarshalComponent(cmp, components[n - 1].posIdentifier, i == 0, next);
      } else if i == n - 1 && cmp.posIdentifier != 0 {
        // A message of its own, not the path component.
        bin := RGQLValue(0, 0, cmp.posIdentifier, None, []);
      } else {
        bin := MarshalComponent(cmp, 0, i == 0, next);
      }
      assert pathCache.Labels() == old(pathCache.Labels()) && pathCache.Finals() == old(pathCache.Finals());
    }

    /** The loop over the path, from the root of the climb down to the written context. */
    method SendPath(components: seq<Context>, next: Payload) returns (out: seq<RGQLValue>)
      requires pathCache.Restored() && components != []
      requires forall c :: c in components ==> c in pathCache.known
      requires |components| == 1 ==> components[0].posIdentifier == 0
      modifies pathCache.known
      ensures pathCache.Restored() && pathCache.Labels() == old(pathCache.Labels())
      ensures pathCache.Finals() == old(pathCache.Finals())
      ensures out == Frames(pathCache.Labels(), components, next)
    {
      ghost var labels := pathCache.Labels();
      var n := |components|;
      assert components[n - 1] in components && (n > 1 ==> components[n - 2] in components);
      var startFrom := n - 1;
      var mergePosIdentifier := components[startFrom].posIdentifier != 0
        && components[startFrom - 1].posIdentifier == 0;
      if mergePosIdentifier {
        startFrom := startFrom - 1;
      }
      SentIsFrames(labels, components, next);
      out := [];
      var i := startFrom;
      while 0 <= i
        invariant -1 <= i <= startFrom
        invariant pathCache.Restored() && pathCache.Labels() == labels
        invariant pathCache.Finals() == old(pathCache.Finals())
        invariant out + SentFrom(labels, components, i, mergePosIdentifier, next) == Frames(labels, components, next)
      {
        assert components[n - 1].posIdentifier == LabelIn(labels, components[n - 1]);
        var bin := SendComponent(components, i, mergePosIdentifier, next);
        SendNext(out, bin, SentFrom(labels, components, i - 1, mergePosIdentifier, next));
        out := out + [bin];
        i := i - 1;
      }
      assert out + [] == out;
    }

    /** One round of Run: the frames put on the output channel. */
    method Encode(ctx: Context, next: Payload) returns (panics: bool, out: seq<RGQLValue>)
      requires pathCache.Valid() && ctx in pathCache.known
      modifies pathCache`id, pathCache`cache, pathCache.known
      ensures pathCache.known == old(pathCache.known) && pathCache.Finals() == old(pathCache.Finals())
      ensures
        var sent := Write(old(pathCache.Model()), ctx, old(pathCache.Finals()), next, pathCache.size, pathCache.mode);
        if panics then sent == Panic
        else pathCache.Valid() && sent == Sent(out, pathCache.Model())
      ensures old(ctx.posIdentifier) == 0 ==>
          && !panics
          && (next.Val? ==> LastBrings(out, next.value, [])) && (next.Err? ==> LastBrings(out, None, next.msg))
    {
      hide *;
      ghost var e, finals := pathCache.Model(), pathCache.Finals();
      out := [];
      KnownUnlabelled(pathCache, ctx, next);
      WriteParts(e, ctx, finals, next, pathCache.size, pathCache.mode);
      ClimbsKnown(pathCache, ctx);
      var components := ClimbToRoot(ctx);
      LabelPathComponents(components);
      LabelsAre(pathCache);
      ModelIs(pathCache);
      ghost var e2 := pathCache.Model();
      var startFrom := |components| - 1;
      assert components[startFrom] in components;
      panics := components[startFrom].posIdentifier != 0 && startFrom - 1 < 0;
      if !panics {
        out := SendPath(components, next);
        StillValid(pathCache, e2);
      }
    }
  }
}
