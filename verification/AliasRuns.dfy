/** Whole runs: contexts are opened, values are written, and the client's query tree changes under
    the stream. */
module AliasRuns {
  import opened Messages
  import opened Resolver
  import opened Lru
  import opened AliasSpec
  import opened AliasProofs
  import opened AliasSync

  datatype Event =
    | Open(ctx: Context)
    | WriteValue(ctx: Context, finals: set<Context>, payload: Payload)
    | Requery(live: set<QPath>, bound: nat)

  /** Both ends, the paths of the query tree, a bound above every query node id allocated so far,
      and every identifier ever used, most recent use last. */
  datatype World = World(enc: Enc, dec: Dec, live: set<QPath>, bound: nat, uses: seq<nat>)

  /** Purging the result tree after the query tree changed. */
  function Restrict(trie: map<Path, Option<Primitive>>, live: set<QPath>): map<Path, Option<Primitive>> {
    map p | p in trie && Proj(p) in live :: trie[p]
  }

  /** What the surroundings guarantee. A context is opened under a known one, for query nodes that
      exist. A changed query tree never selects again what it dropped: ids are not reused. */
  ghost predicate Enabled(w: World, ev: Event) {
    match ev
    case Open(c) =>
      c !in w.enc.labels && Chained(c) && (c.parent != null ==> c.parent in w.enc.labels)
      && Bounded(Proj(c.path), w.bound)
    case WriteValue(c, _, _) => c in w.enc.labels
    case Requery(live, bound) =>
      PrefixClosed(live) && w.bound <= bound && forall q :: q in live && Bounded(q, w.bound) ==> q in w.live
  }

  /** The uses after a value: the root's label is renewed, then a fresh one may be minted. */
  function UsesAfter(uses: seq<nat>, rid: nat, mints: bool, fid: nat): seq<nat> {
    var renewed := if rid != 0 then Touch(uses, rid) else uses;
    if mints then Touch(renewed, fid) else renewed
  }

  ghost function Next(w: World, ev: Event, size: nat, mode: Mode): World
    requires ev.WriteValue? ==> Chained(ev.ctx)
  {
    match ev
    case Open(c) => w.(enc := w.enc.(labels := w.enc.labels[c := 0]))
    case WriteValue(c, finals, p) =>
      var r := RoundOf(w.enc, c, finals, size, mode);
      var s := Write(w.enc, c, finals, p, size, mode);
      if s.Panic? || HandleAll(w.live, w.dec, s.frames, size).UnknownId? then w
      else World(s.enc, HandleAll(w.live, w.dec, s.frames, size).dec, w.live, w.bound,
                 UsesAfter(w.uses, r.rid, Mints(r), w.enc.nextId))
    case Requery(live, bound) =>
      World(w.enc, w.dec.(trie := Restrict(w.dec.trie, live)), live, bound, w.uses)
  }

  /** The reference keeps only the plain tree. */
  ghost function Plain(trie: map<Path, Option<Primitive>>, live: set<QPath>, evs: seq<Event>)
    : map<Path, Option<Primitive>>
    decreases |evs|
  {
    if evs == [] then trie
    else
      match evs[0]
      case Open(_) => Plain(trie, live, evs[1..])
      case WriteValue(c, _, p) => Plain(Direct(live, trie, c.path, Carried(p)), live, evs[1..])
      case Requery(live', _) => Plain(Restrict(trie, live'), live', evs[1..])
  }

  ghost function Final(w: World, evs: seq<Event>, size: nat, mode: Mode): World
    decreases |evs|
  {
    if evs == [] || (evs[0].WriteValue? && !Chained(evs[0].ctx)) then w
    else Final(Next(w, evs[0], size, mode), evs[1..], size, mode)
  }

  /** Every value of the run arrives. */
  ghost predicate AllArrive(w: World, evs: seq<Event>, size: nat, mode: Mode)
    decreases |evs|
  {
    evs != [] ==>
      && (evs[0].WriteValue? ==>
            Chained(evs[0].ctx) &&
            Arrives(w.live, w.enc, w.dec, evs[0].ctx, evs[0].finals, evs[0].payload, size, mode))
      && AllArrive(Next(w, evs[0], size, mode), evs[1..], size, mode)
  }

  ghost predicate AllEnabled(w: World, evs: seq<Event>, size: nat, mode: Mode)
    decreases |evs|
  {
    evs != [] ==>
      && Enabled(w, evs[0])
      && (evs[0].WriteValue? ==> Chained(evs[0].ctx))
      && AllEnabled(Next(w, evs[0], size, mode), evs[1..], size, mode)
  }

  /** What a server could check before each value. With Put as written it also has to know that
      the alias it is about to use is among the last `size` identifiers used. */
  ghost predicate Clean(w: World, ev: Event, size: nat, mode: Mode)
    requires ev.WriteValue? ==> Chained(ev.ctx)
  {
    ev.WriteValue? ==>
      && LabelIn(w.enc.labels, ev.ctx) == 0
      && Carried(ev.payload).Some?
      && (mode == AsWritten ==>
            var r := RoundOf(w.enc, ev.ctx, ev.finals, size, mode);
            r.rid != 0 ==> r.rid in LastN(w.uses, size))
  }

  ghost predicate AllClean(w: World, evs: seq<Event>, size: nat, mode: Mode)
    decreases |evs|
  {
    evs != [] ==>
      && (evs[0].WriteValue? ==> Chained(evs[0].ctx))
      && Clean(w, evs[0], size, mode)
      && AllClean(Next(w, evs[0], size, mode), evs[1..], size, mode)
  }

  /** Every path in play is over query node ids allocated so far. */
  ghost predicate PathsBounded(e: Enc, d: Dec, bound: nat) {
    && (forall c :: c in e.labels ==> Bounded(Proj(c.path), bound))
    && (forall k :: k in d.cache.vals ==> Bounded(Proj(d.cache.vals[k].path), bound))
  }

  ghost predicate WorldOk(w: World, size: nat, mode: Mode) {
    && PrefixClosed(w.live)
    && EncOk(w.enc, size) && DecOk(w.live, w.dec, size) && Denotes(w.enc, w.dec) && w.dec.cursor == None
    && PathsBounded(w.enc, w.dec, w.bound)
    && NoDups(w.uses) && (forall k :: k in w.uses ==> 0 < k < w.enc.nextId)
    && w.dec.cache.order == LastN(w.uses, size)
    && (mode == Intended ==> LabelsCached(w.enc) && InSync(w.enc, w.dec))
  }

  // ----- one event

  lemma OpenKeepsOk(w: World, c: Context, size: nat, mode: Mode)
    requires WorldOk(w, size, mode) && Enabled(w, Open(c))
    ensures WorldOk(Next(w, Open(c), size, mode), size, mode)
  {
    var e, e' := w.enc, w.enc.(labels := w.enc.labels[c := 0]);
    assert forall x :: x in e'.labels <==> x in e.labels || x == c;
    assert forall x :: x in e.labels ==> e'.labels[x] == e.labels[x];
    assert EncOk(e', size) by {
      forall x | x in e'.labels && x.parent != null ensures x.parent in e'.labels { }
    }
    assert Denotes(e', w.dec);
    assert PathsBounded(e', w.dec, w.bound);
    if mode == Intended {
      assert LabelsCached(e');
    }
  }

  /** The purged tree is closed under parents and holds nothing for a dropped query node. */
  lemma RestrictOk(trie: map<Path, Option<Primitive>>, live: set<QPath>, live': set<QPath>)
    requires TrieOk(live, trie) && PrefixClosed(live')
    ensures TrieOk(live', Restrict(trie, live'))
  {
    var trie' := Restrict(trie, live');
    forall p, i | p in trie' && 0 <= i <= |p| ensures p[..i] in trie' {
      ProjPrefix(p[..i], p);
      assert Proj(p)[..|Proj(p[..i])|] == Proj(p[..i]);
    }
    assert [] in trie' by { assert Proj([]) == []; }
  }

  /** A cursor into a dropped part can never come back to life. */
  lemma CursorStaysOk(trie: map<Path, Option<Primitive>>, live: set<QPath>, live': set<QPath>, bound: nat, cur: Cursor)
    requires CursorOk(live, trie, cur) && Bounded(Proj(cur.path), bound)
    requires forall q :: q in live' && Bounded(q, bound) ==> q in live
    ensures CursorOk(live', Restrict(trie, live'), cur)
  {
    var path := cur.path;
    forall i | 0 <= i <= |path| && Proj(path[..i]) in live' ensures path[..i] in Restrict(trie, live') {
      ProjPrefix(path[..i], path);
      assert Bounded(Proj(path[..i]), bound);
    }
  }

  /** Data for dropped query nodes goes, and every alias stays good. */
  lemma RequeryKeepsOk(w: World, live: set<QPath>, bound: nat, size: nat, mode: Mode)
    requires WorldOk(w, size, mode) && Enabled(w, Requery(live, bound))
    ensures WorldOk(Next(w, Requery(live, bound), size, mode), size, mode)
  {
    var d' := w.dec.(trie := Restrict(w.dec.trie, live));
    RestrictOk(w.dec.trie, w.live, live);
    forall k | k in w.dec.cache.vals ensures CursorOk(live, d'.trie, w.dec.cache.vals[k]) {
      CursorStaysOk(w.dec.trie, w.live, live, w.bound, w.dec.cache.vals[k]);
    }
    assert DecOk(live, d', size);
    assert PathsBounded(w.enc, d', bound);
    assert Denotes(w.enc, d');
  }

  lemma UsesFollow(uses: seq<nat>, rid: nat, mints: bool, fid: nat, size: nat)
    requires NoDups(uses) && 0 < size && 0 < fid && forall k :: k in uses ==> 0 < k < fid
    requires rid != 0 ==> rid in LastN(uses, size)
    ensures OrderAfter(LastN(uses, size), rid, mints, fid, size) == LastN(UsesAfter(uses, rid, mints, fid), size)
    ensures NoDups(UsesAfter(uses, rid, mints, fid))
    ensures forall k :: k in UsesAfter(uses, rid, mints, fid) ==> 0 < k <= fid && (!mints ==> k < fid)
  {
    var renewed := if rid != 0 then Touch(uses, rid) else uses;
    if rid != 0 { TouchRecent(uses, rid, size); TouchNoDups(uses, rid); }
    if mints { UseRecent(renewed, fid, size); TouchNoDups(renewed, fid); }
  }

  /** The root's label, if any, is still known to the client. */
  lemma CleanRootHeld(w: World, ev: Event, size: nat, mode: Mode)
    requires WorldOk(w, size, mode) && ev.WriteValue? && Enabled(w, ev) && Chained(ev.ctx) && 2 <= size
    requires Clean(w, ev, size, mode)
    ensures
      var r := RoundOf(w.enc, ev.ctx, ev.finals, size, mode);
      && LabelIn(r.e2.labels, r.comps[|r.comps| - 1]) == r.rid
      && (r.rid != 0 ==> r.rid in w.dec.cache.vals && r.rid in LastN(w.uses, size))
      && (mode == Intended ==>
            && LabelsCached(r.e2)
            && r.e2.cache.order == OrderAfter(w.dec.cache.order, r.rid, Mints(r), w.enc.nextId, size))
  {
    RootKept(w.enc, ev.ctx, ev.finals, size, mode);
    if mode == Intended {
      IntendedOrder(w.enc, ev.ctx, ev.finals, size);
      var r := RoundOf(w.enc, ev.ctx, ev.finals, size, mode);
      assert r.rid != 0 ==> r.rid in w.dec.cache.order;
    }
  }

  /** One clean value arrives, and leaves both ends in step. */
  lemma WriteKeepsOk(w: World, ev: Event, size: nat, mode: Mode)
    requires WorldOk(w, size, mode) && ev.WriteValue? && Enabled(w, ev) && Chained(ev.ctx) && 2 <= size
    requires Clean(w, ev, size, mode)
    ensures Arrives(w.live, w.enc, w.dec, ev.ctx, ev.finals, ev.payload, size, mode)
    ensures WorldOk(Next(w, ev, size, mode), size, mode)
    ensures Next(w, ev, size, mode).dec.trie == Direct(w.live, w.dec.trie, ev.ctx.path, Carried(ev.payload))
  {
    CleanRootHeld(w, ev, size, mode);
    var d' := WriteDecodes(w.live, w.enc, w.dec, ev.ctx, ev.finals, ev.payload, size, mode);
    var r := RoundOf(w.enc, ev.ctx, ev.finals, size, mode);
    StepKeepsOk(w, ev, r, d', size, mode);
  }

  lemma StepKeepsOk(w: World, ev: Event, r: Round, d': Dec, size: nat, mode: Mode)
    requires ev.WriteValue? && Chained(ev.ctx) && ev.ctx in w.enc.labels
    requires r == RoundOf(w.enc, ev.ctx, ev.finals, size, mode)
    requires WorldOk(w, size, mode)
    requires r.rid != 0 ==> r.rid in LastN(w.uses, size)
    requires mode == Intended ==> LabelsCached(r.e2) && r.e2.cache.order == d'.cache.order
    requires
      var s := Write(w.enc, ev.ctx, ev.finals, ev.payload, size, mode);
      && s.Sent? && s.enc == r.e2
      && HandleAll(w.live, w.dec, s.frames, size) == Handled(d')
    requires EncOk(r.e2, size) && DecOk(w.live, d', size) && Denotes(r.e2, d') && d'.cursor == None
    requires d'.cache.order == OrderAfter(w.dec.cache.order, r.rid, Mints(r), w.enc.nextId, size)
    requires forall k :: k in d'.cache.vals ==>
               if k == w.enc.nextId then Mints(r) && d'.cache.vals[k].path == r.comps[r.j].path
               else k in w.dec.cache.vals && d'.cache.vals[k] == w.dec.cache.vals[k]
    ensures WorldOk(Next(w, ev, size, mode), size, mode)
    ensures Next(w, ev, size, mode).dec == d'
  {
    var uses := UsesAfter(w.uses, r.rid, Mints(r), w.enc.nextId);
    var w' := World(r.e2, d', w.live, w.bound, uses);
    assert Next(w, ev, size, mode) == w';
    WorldParts(w, size, mode);
    hide *;
    UsesFollow(w.uses, r.rid, Mints(r), w.enc.nextId, size);
    RoundLabels(w.enc, ev.ctx, ev.finals, size, mode);
    BoundsKept(w, ev.ctx, ev.finals, size, mode, d');
    WorldFrom(w', size, mode);
  }

  lemma WorldParts(w: World, size: nat, mode: Mode)
    requires WorldOk(w, size, mode)
    ensures PrefixClosed(w.live) && EncOk(w.enc, size) && PathsBounded(w.enc, w.dec, w.bound) && NoDups(w.uses)
    ensures (forall k :: k in w.uses ==> 0 < k < w.enc.nextId) && w.dec.cache.order == LastN(w.uses, size)
    ensures 0 < size && 0 < w.enc.nextId
  {
  }

  lemma WorldFrom(w: World, size: nat, mode: Mode)
    requires PrefixClosed(w.live) && EncOk(w.enc, size) && DecOk(w.live, w.dec, size) && Denotes(w.enc, w.dec)
    requires w.dec.cursor == None && PathsBounded(w.enc, w.dec, w.bound) && NoDups(w.uses)
    requires (forall k :: k in w.uses ==> 0 < k < w.enc.nextId) && w.dec.cache.order == LastN(w.uses, size)
    requires mode == Intended ==> LabelsCached(w.enc) && w.enc.cache.order == w.dec.cache.order
    ensures WorldOk(w, size, mode)
  {
  }

  lemma BoundsKept(w: World, c: Context, finals: set<Context>, size: nat, mode: Mode, d': Dec)
    requires EncOk(w.enc, size) && c in w.enc.labels && PathsBounded(w.enc, w.dec, w.bound)
    requires
      var r := RoundOf(w.enc, c, finals, size, mode);
      forall k :: k in d'.cache.vals ==>
        if k == w.enc.nextId then Mints(r) && d'.cache.vals[k].path == r.comps[r.j].path
        else k in w.dec.cache.vals && d'.cache.vals[k] == w.dec.cache.vals[k]
    ensures PathsBounded(RoundOf(w.enc, c, finals, size, mode).e2, d', w.bound)
  {
    var r := RoundOf(w.enc, c, finals, size, mode);
    RoundLabels(w.enc, c, finals, size, mode);
    assert Mints(r) ==> r.comps[r.j] in r.comps;
  }

  // ----- whole runs

  /** The main theorem, for both forms of Put, for every cache with room for two labels, for every
      run of opened contexts, written values and query tree changes. Every value arrives exactly
      when every write is clean; then the result tree is the one plain, unaliased storing gives,
      and both ends finish in step. */
  lemma {:induction false} RunExact(w: World, evs: seq<Event>, size: nat, mode: Mode)
    requires WorldOk(w, size, mode) && 2 <= size && AllEnabled(w, evs, size, mode)
    ensures AllArrive(w, evs, size, mode) <==> AllClean(w, evs, size, mode)
    ensures AllClean(w, evs, size, mode) ==>
              && Final(w, evs, size, mode).dec.trie == Plain(w.dec.trie, w.live, evs)
              && WorldOk(Final(w, evs, size, mode), size, mode)
    decreases |evs|
  {
    if evs != [] {
      var ev := evs[0];
      match ev
      case Open(c) =>
        OpenKeepsOk(w, c, size, mode);
        RunExact(Next(w, ev, size, mode), evs[1..], size, mode);
      case Requery(live, bound) =>
        RequeryKeepsOk(w, live, bound, size, mode);
        RunExact(Next(w, ev, size, mode), evs[1..], size, mode);
      case WriteValue(c, finals, p) =>
        if Clean(w, ev, size, mode) {
          WriteKeepsOk(w, ev, size, mode);
          RunExact(Next(w, ev, size, mode), evs[1..], size, mode);
        } else if mode == Intended {
          IntendedExact(w.live, w.enc, w.dec, c, finals, p, size);
        } else {
          AsWrittenExact(w.live, w.enc, w.dec, c, finals, p, size);
        }
    }
  }

  /** Before the first value: nothing labelled, nothing cached, an empty result tree. */
  ghost function Start(live: set<QPath>, bound: nat): World {
    World(Enc(1, map[], Cache([], map[])), Dec(None, Cache([], map[]), map[[] := None]), live, bound, [])
  }

  lemma StartOk(live: set<QPath>, bound: nat, size: nat, mode: Mode)
    requires PrefixClosed(live) && 0 < size
    ensures WorldOk(Start(live, bound), size, mode)
  {
    assert Proj([]) == [];
  }

  /** The intended protocol from the start of a stream: aliasing, merging and eviction are
      invisible, whatever contexts are final and however the query tree changes. */
  lemma AliasingIsInvisible(live: set<QPath>, bound: nat, evs: seq<Event>, size: nat)
    requires PrefixClosed(live) && 2 <= size
    requires AllEnabled(Start(live, bound), evs, size, Intended)
    requires AllClean(Start(live, bound), evs, size, Intended)
    ensures
      var w := Final(Start(live, bound), evs, size, Intended);
      && AllArrive(Start(live, bound), evs, size, Intended)
      && w.dec.trie == Plain(map[[] := None], live, evs)
      && InSync(w.enc, w.dec) && LabelsCached(w.enc)
      && (forall k :: k in w.enc.cache.vals ==>
            k in w.dec.cache.vals && w.dec.cache.vals[k].path == w.enc.cache.vals[k].path)
  {
    StartOk(live, bound, size, Intended);
    RunExact(Start(live, bound), evs, size, Intended);
    var w := Final(Start(live, bound), evs, size, Intended);
    forall k | k in w.enc.cache.vals
      ensures k in w.dec.cache.vals && w.dec.cache.vals[k].path == w.enc.cache.vals[k].path
    {
      assert k in w.enc.cache.order;
      assert w.enc.labels[w.enc.cache.vals[k]] == k;
    }
  }
}
