/** The server's encoder and the client together: a value that is written is a value that arrives. */
module Stream {
  import opened Messages
  import opened Resolver
  import opened Lru
  import opened AliasSpec
  import opened AliasProofs
  import opened AliasRuns
  import opened AliasSync
  import opened QueryTreeSpec
  import opened JsonHandlers
  import opened ResultNodes
  import opened Joint
  import Encoder
  import Clients
  import opened ResultTrees

  // ----- the frames are ones the client's cursors can take

  lemma {:induction false} TailFits(labels: map<Context, nat>, comps: seq<Context>, i: nat, p: Payload, next: nat)
    requires i < |comps| && forall k | 0 <= k <= i :: comps[k].step.Field? ==> comps[k].step.id < next
    requires 0 < next
    ensures |Tail(labels, comps, i, p)| == i + 1
    ensures forall f | f in Tail(labels, comps, i, p) :: FrameOk(f) && StepOf(f).Some? && f.queryNodeId < next
  {
    if i > 0 { TailFits(labels, comps, i - 1, p, next); }
  }

  lemma FramesFit(labels: map<Context, nat>, comps: seq<Context>, p: Payload, next: nat)
    requires comps != [] && 0 < next && (|comps| == 1 ==> LabelIn(labels, comps[0]) == 0)
    requires forall c | c in comps :: c.step.Field? ==> c.step.id < next
    ensures forall f | f in Frames(labels, comps, p) :: FrameOk(f) && f.queryNodeId < next
  {
    var n := |comps|;
    assert forall k | 0 <= k < n :: comps[k] in comps;
    TailFits(labels, comps, n - 1, p, next);
    if n > 1 { TailFits(labels, comps, n - 2, p, next); }
  }

  // ----- both ends, in place

  /** Both ends between two values: every label the server may use means the same path to the
      client, and every context is for query nodes the client gave out. */
  ghost predicate InTouch(enc: Encoder.ResultEncoder, client: Clients.Client)
    reads enc.pathCache, enc.pathCache.known, client, client.queryTree, client.queryTree.nodes, client.queryTree.dropped
    reads client.resultTree, client.resultTree.pathCache, client.resultTree.Cursors()
    reads client.resultTree.at.Values`children, client.resultTree.at.Values`value, client.resultTree.gone`children
  {
    && enc.pathCache.Valid() && client.Valid()
    && enc.pathCache.mode == Intended && enc.pathCache.size == client.resultTree.pathCache.limit
    && 2 <= enc.pathCache.size
    && Together(enc.pathCache.Model(), client.resultTree.Model(), client.queryTree.tree.next)
    && DecOk(Live(client.queryTree.tree.nodes), client.resultTree.Model(), client.resultTree.pathCache.limit)
  }

  ghost predicate Together(e: Enc, d: Dec, next: nat) {
    && LabelsCached(e) && InSync(e, d) && PathsBounded(e, d, next)
  }

  /** Both ends as a world of the runs. */
  ghost function Both(e: Enc, d: Dec, live: set<QPath>, next: nat): World {
    World(e, d, live, next, d.cache.order)
  }

  lemma BothOk(e: Enc, d: Dec, live: set<QPath>, next: nat, size: nat)
    requires PrefixClosed(live) && EncOk(e, size) && DecOk(live, d, size) && Together(e, d, next)
    ensures WorldOk(Both(e, d, live, next), size, Intended)
  {
  }

  /** What one value does to both ends. */
  lemma OneValue(e: Enc, d: Dec, live: set<QPath>, next: nat, size: nat, ctx: Context, finals: set<Context>, p: Payload)
    requires PrefixClosed(live) && EncOk(e, size) && DecOk(live, d, size) && Together(e, d, next) && 2 <= size
    requires 0 < next
    requires ctx in e.labels && Chained(ctx) && LabelIn(e.labels, ctx) == 0 && Carried(p).Some?
    ensures var s := Write(e, ctx, finals, p, size, Intended);
            && s.Sent? && (forall f | f in s.frames :: FrameOk(f) && f.queryNodeId < next)
            && var h := HandleAll(live, d, s.frames, size);
               && h.Handled? && Together(s.enc, h.dec, next) && DecOk(live, h.dec, size)
               && h.dec.trie == Direct(live, d.trie, ctx.path, Carried(p))
  {
    var w, ev := Both(e, d, live, next), WriteValue(ctx, finals, p);
    BothOk(e, d, live, next, size);
    WriteKeepsOk(w, ev, size, Intended);
    WriteFits(e, d, next, size, ctx, finals, p);
  }

  lemma StepBounded(c: Context, next: nat)
    requires Chained(c) && Bounded(Proj(c.path), next)
    ensures c.step.Field? ==> c.step.id < next
  {
    var up := c.path[..|c.path| - 1];
    assert c.path == up + [c.step];
    ProjSnoc(up, c.step);
    if c.step.Field? { assert Proj(c.path)[|Proj(up)|] == c.step.id; }
  }

  lemma WriteFits(e: Enc, d: Dec, next: nat, size: nat, ctx: Context, finals: set<Context>, p: Payload)
    requires EncOk(e, size) && PathsBounded(e, d, next) && 0 < next && ctx in e.labels && Chained(ctx)
    ensures var s := Write(e, ctx, finals, p, size, Intended);
            s.Sent? ==> forall f | f in s.frames :: FrameOk(f) && f.queryNodeId < next
  {
    var comps := Climb(e.labels, ctx);
    ClimbFacts(e, ctx, size);
    forall c | c in comps ensures c.step.Field? ==> c.step.id < next { StepBounded(c, next); }
    var e2 := LabelOne(RenewRoot(e, comps[|comps| - 1], size, Intended), comps, finals, size, Intended);
    if Write(e, ctx, finals, p, size, Intended).Sent? { FramesFit(e2.labels, comps, p, next); }
  }

  /** These are the frames of a value, and what the encoder has after it. */
  ghost predicate Sends(e: Enc, ctx: Context, finals: set<Context>, value: Primitive, size: nat,
                        frames: seq<RGQLValue>, e': Enc)
  {
    Chained(ctx) && Write(e, ctx, finals, Val(Some(value)), size, Intended) == Sent(frames, e')
  }

  /** The client can take the frames, and what it then stores. */
  ghost predicate HandledTo(live: set<QPath>, d: Dec, frames: seq<RGQLValue>, size: nat,
                            trie: map<Path, Option<Primitive>>)
  {
    && (forall f | f in frames :: FrameOk(f))
    && HandleAll(live, d, frames, size).Handled? && HandleAll(live, d, frames, size).dec.trie == trie
  }

  /** What is sent for a value written to an unlabelled context, and what the client makes of it. */
  lemma TouchMeans(enc: Encoder.ResultEncoder, client: Clients.Client, ctx: Context, value: Primitive)
    returns (frames: seq<RGQLValue>, e': Enc)
    requires InTouch(enc, client) && ctx in enc.pathCache.known && ctx.posIdentifier == 0
    ensures Sends(enc.pathCache.Model(), ctx, enc.pathCache.Finals(), value, enc.pathCache.size, frames, e')
    ensures HandledWell(client.queryTree.tree, client.resultTree.Model(), frames, enc.pathCache.size, e')
    ensures
      var live, d := Live(client.queryTree.tree.nodes), client.resultTree.Model();
      HandledTo(live, d, frames, enc.pathCache.size, Direct(live, d.trie, ctx.path, Some(value)))
  {
    var e, p := enc.pathCache.Model(), Val(Some(value));
    LivePrefixClosed(client.queryTree.tree.next, client.queryTree.tree.nodes);
    assert ctx in e.labels && e.labels[ctx] == 0;
    assert Chained(ctx);
    Clients.ClientMeans(client);
    OneValue(e, client.resultTree.Model(), Live(client.queryTree.tree.nodes), client.queryTree.tree.next,
      enc.pathCache.size, ctx, enc.pathCache.Finals(), p);
    var sent := Write(e, ctx, enc.pathCache.Finals(), p, enc.pathCache.size, Intended);
    frames, e' := sent.frames, sent.enc;
  }

  lemma SendsMeans(e: Enc, ctx: Context, finals: set<Context>, value: Primitive, size: nat, frames: seq<RGQLValue>,
                   e': Enc)
    requires Sends(e, ctx, finals, value, size, frames, e')
    ensures Chained(ctx) && Write(e, ctx, finals, Val(Some(value)), size, Intended) == Sent(frames, e')
  {
  }

  lemma HandledTrie(live: set<QPath>, d: Dec, frames: seq<RGQLValue>, size: nat, trie: map<Path, Option<Primitive>>)
    requires HandledTo(live, d, frames, size, trie)
    ensures (forall f | f in frames :: FrameOk(f)) && HandleAll(live, d, frames, size).Handled?
    ensures HandleAll(live, d, frames, size).dec.trie == trie
  {
  }

  lemma TouchFrom(enc: Encoder.ResultEncoder, client: Clients.Client)
    requires enc.pathCache.Valid() && client.Valid()
    requires enc.pathCache.mode == Intended && enc.pathCache.size == client.resultTree.pathCache.limit
    requires 2 <= enc.pathCache.size
    requires Together(enc.pathCache.Model(), client.resultTree.Model(), client.queryTree.tree.next)
    requires DecOk(Live(client.queryTree.tree.nodes), client.resultTree.Model(), client.resultTree.pathCache.limit)
    ensures InTouch(enc, client)
  {
  }

  /** A stream that has just been opened, with caches of the size the client asks for. */
  method Connect() returns (enc: Encoder.ResultEncoder, client: Clients.Client)
    ensures InTouch(enc, client) && enc.pathCache.known == {} && client.queryTree.View() == NEW_CLIENT
    ensures client.resultTree.Model() == Dec(None, Cache([], map[]), map[[] := None])
    ensures fresh(enc) && fresh(enc.pathCache) && fresh(client) && fresh(client.queryTree)
    ensures fresh(client.queryTree.nodes)
    ensures fresh(client.resultTree) && fresh(client.resultTree.pathCache) && client.resultTree.cursor == null
    ensures fresh(client.resultTree.Nodes()) && client.resultTree.listeners == {} && fresh(client.resultTree.rootCursor)
  {
    hide *;
    var pathCache := new Encoder.PathCache(100, Intended);
    enc := new Encoder.ResultEncoder(pathCache);
    client := new Clients.Client();
    ViewTree(client);
    NothingStored();
    Fresh();
    TouchFrom(enc, client);
  }

  lemma NothingStored()
    ensures Start(Live(NEW_CLIENT.tree.nodes), NEW_CLIENT.tree.next).dec == Dec(None, Cache([], map[]), map[[] := None])
  {
  }

  lemma Fresh()
    ensures var d := Start(Live(NEW_CLIENT.tree.nodes), NEW_CLIENT.tree.next).dec;
            && Together(Enc(1, map[], Cache([], map[])), d, NEW_CLIENT.tree.next)
            && DecOk(Live(NEW_CLIENT.tree.nodes), d, 100)
  {
    LivePrefixClosed(NEW_CLIENT.tree.next, NEW_CLIENT.tree.nodes);
    StartOk(Live(NEW_CLIENT.tree.nodes), NEW_CLIENT.tree.next, 100, Intended);
  }

  // ----- contexts are opened

  /** A new context has no label, so nothing that is agreed on changes. */
  lemma TogetherOpened(e: Enc, d: Dec, next: nat, c: Context)
    requires Together(e, d, next) && c !in e.labels && Bounded(Proj(c.path), next)
    ensures Together(e.(labels := e.labels[c := 0]), d, next)
  {
  }

  /** Opening leaves the client alone. */
  method TrackFirst(enc: Encoder.ResultEncoder, client: Clients.Client, parent: Context?, step: Step)
    returns (c: Context)
    requires enc.pathCache.Valid() && client.Valid() && (parent != null ==> parent in enc.pathCache.known)
    modifies enc.pathCache`known
    ensures client.Valid() && client.resultTree.Model() == old(client.resultTree.Model())
    ensures client.queryTree.View() == old(client.queryTree.View())
    ensures enc.pathCache.Valid() && fresh(c) && enc.pathCache.known == old(enc.pathCache.known) + {c}
    ensures enc.pathCache.Model() == old(enc.pathCache.Model()).(labels := old(enc.pathCache.Model()).labels[c := 0])
    ensures c.posIdentifier == 0 && !c.isFinal && c.path == (if parent == null then [] else parent.path) + [step]
    ensures c !in enc.pathCache.Finals() && enc.pathCache.Finals() == old(enc.pathCache.Finals())
  {
    hide *;
    CursorsThere(client.resultTree);
    if parent != null { KnownChained(enc, parent); }
    c := new Context(parent, step);
    enc.pathCache.Track(c);
  }

  lemma KnownChained(enc: Encoder.ResultEncoder, c: Context)
    requires enc.pathCache.Valid() && c in enc.pathCache.known
    ensures Chained(c) && c in enc.pathCache.Model().labels && enc.pathCache.Model().labels[c] == c.posIdentifier
  {
    assert c in enc.pathCache.Model().labels;
  }

  /** FieldChild and ArrayChild between two values: the new context can be written to, and both ends
      stay in touch. The server opens contexts for query nodes the client gave out. */
  method OpenContext(enc: Encoder.ResultEncoder, client: Clients.Client, parent: Context?, step: Step)
    returns (c: Context)
    requires InTouch(enc, client) && (parent != null ==> parent in enc.pathCache.known)
    requires Bounded(Proj((if parent == null then [] else parent.path) + [step]), client.queryTree.tree.next)
    modifies enc.pathCache`known
    ensures InTouch(enc, client) && client.resultTree.Model() == old(client.resultTree.Model())
    ensures client.queryTree.View() == old(client.queryTree.View())
    ensures fresh(c) && enc.pathCache.known == old(enc.pathCache.known) + {c}
    ensures c.posIdentifier == 0 && c.path == (if parent == null then [] else parent.path) + [step]
    ensures !c.isFinal && c !in enc.pathCache.Finals() && enc.pathCache.Finals() == old(enc.pathCache.Finals())
  {
    hide *;
    TouchParts(enc, client);
    ghost var e, d := enc.pathCache.Model(), client.resultTree.Model();
    KnownLabels(enc);
    c := TrackFirst(enc, client, parent, step);
    TogetherOpened(e, d, client.queryTree.tree.next, c);
    ViewTree(client);
    TouchFrom(enc, client);
  }

  lemma KnownLabels(enc: Encoder.ResultEncoder)
    ensures enc.pathCache.Model().labels.Keys == enc.pathCache.known
  {
  }

  /** A context becomes final, or stops being final: nothing that is agreed on changes. */
  method MarkContext(enc: Encoder.ResultEncoder, client: Clients.Client, c: Context, isFinal: bool)
    requires InTouch(enc, client) && c in enc.pathCache.known
    modifies c`isFinal
    ensures
      enc.pathCache.Finals() ==
        if isFinal then old(enc.pathCache.Finals()) + {c} else old(enc.pathCache.Finals()) - {c}
    ensures InTouch(enc, client) && client.resultTree.Model() == old(client.resultTree.Model())
    ensures client.queryTree.View() == old(client.queryTree.View())
  {
    hide *;
    TouchParts(enc, client);
    MarkFirst(enc, client, c, isFinal);
    ViewTree(client);
    TouchFrom(enc, client);
  }

  method MarkFirst(enc: Encoder.ResultEncoder, client: Clients.Client, c: Context, isFinal: bool)
    requires enc.pathCache.Valid() && client.Valid() && c in enc.pathCache.known
    modifies c`isFinal
    ensures client.Valid() && client.resultTree.Model() == old(client.resultTree.Model())
    ensures client.queryTree.View() == old(client.queryTree.View())
    ensures enc.pathCache.Valid() && enc.pathCache.Model() == old(enc.pathCache.Model())
    ensures
      enc.pathCache.Finals() ==
        if isFinal then old(enc.pathCache.Finals()) + {c} else old(enc.pathCache.Finals()) - {c}
  {
    hide EncOk, Views, TrieOf, PlacesOk, DecSound, CursorSound, TrieOk, Live, Clients.Client.Valid, ResultTree.Valid,
      ResultTree.Model;
    CursorsThere(client.resultTree);
    c.isFinal := isFinal;
    assert enc.pathCache.Labels() == old(enc.pathCache.Labels());
  }

  /** Encoding leaves the client alone. */
  method EncodeFirst(enc: Encoder.ResultEncoder, client: Clients.Client, ctx: Context, p: Payload)
    returns (panics: bool, frames: seq<RGQLValue>)
    requires enc.pathCache.Valid() && ctx in enc.pathCache.known && client.Valid()
    modifies enc.pathCache`id, enc.pathCache`cache, enc.pathCache.known
    ensures client.Valid() && client.resultTree.Model() == old(client.resultTree.Model())
    ensures client.queryTree.View() == old(client.queryTree.View())
    ensures Results(client.resultTree.listeners) == old(Results(client.resultTree.listeners))
    ensures client.resultTree.Carrying() == old(client.resultTree.Carrying())
    ensures client.resultTree.Nodes() == old(client.resultTree.Nodes())
    ensures
      var sent := Write(old(enc.pathCache.Model()), ctx, old(enc.pathCache.Finals()), p, enc.pathCache.size,
        enc.pathCache.mode);
            if panics then sent == Panic else enc.pathCache.Valid() && sent == Sent(frames, enc.pathCache.Model())
    ensures enc.pathCache.Finals() == old(enc.pathCache.Finals())
    ensures old(ctx.posIdentifier) == 0 && p.Val? ==> LastBrings(frames, p.value, [])
  {
    hide *;
    CursorsThere(client.resultTree);
    panics, frames := enc.Encode(ctx, p);
  }

  /** Without decoders nothing throws. */
  lemma NobodyThrows(heard: set<JSONDecoder>, live: set<QPath>, d: Dec, fs: seq<RGQLValue>, size: nat,
                     before: map<JSONDecoder, Json>, all: Handlers, threw: bool, after: map<JSONDecoder, Json>,
                     all': Handlers)
    requires AllHeard(heard, live, d, fs, size, before, all, threw, after, all')
    ensures heard == {} ==> !threw
  {
  }

  /** The frames of one value reach the client. */
  method Receive(enc: Encoder.ResultEncoder, client: Clients.Client, frames: seq<RGQLValue>,
                 ghost trie: map<Path, Option<Primitive>>)
    returns (threw: bool)
    requires enc.pathCache.Valid() && client.Valid()
    requires enc.pathCache.mode == Intended && enc.pathCache.size == client.resultTree.pathCache.limit
    requires 2 <= enc.pathCache.size
    requires HandledWell(client.queryTree.View().tree, client.resultTree.Model(), frames, enc.pathCache.size,
                         enc.pathCache.Model())
    requires HandledTo(Live(client.queryTree.View().tree.nodes), client.resultTree.Model(), frames, enc.pathCache.size,
                       trie)
    modifies client.resultTree`cursor, client.resultTree`at, client.resultTree`gone, client.resultTree.pathCache
    modifies client.resultTree.cursor, client.resultTree.Nodes()`children, client.resultTree.Nodes()`value,
      client.resultTree.listeners
    ensures (!threw ==> InTouch(enc, client)) && client.queryTree.View() == old(client.queryTree.View())
    ensures fresh(client.resultTree.Nodes() - old(client.resultTree.Nodes()))
    ensures
      || client.resultTree.cursor == null || client.resultTree.cursor == old(client.resultTree.cursor)
      || fresh(client.resultTree.cursor)
    ensures !threw ==>
              client.resultTree.Model().trie == trie
              && HandleAll(Live(client.queryTree.View().tree.nodes), old(client.resultTree.Model()), frames,
                           enc.pathCache.size) == Handled(client.resultTree.Model())
    ensures client.resultTree.listeners == {} ==> !threw
    ensures AllHeard(client.resultTree.listeners, Live(client.queryTree.View().tree.nodes),
                     old(client.resultTree.Model()), frames, enc.pathCache.size,
                     old(Results(client.resultTree.listeners)), old(client.resultTree.Carrying()), threw,
                     Results(client.resultTree.listeners), client.resultTree.Carrying())
  {
    hide *;
    ghost var d, now, all := client.resultTree.Model(), Results(client.resultTree.listeners),
      client.resultTree.Carrying();
    ViewTree(client);
    HandledMeans(client.queryTree.tree, d, frames, enc.pathCache.size, enc.pathCache.Model());
    HandledTrie(Live(client.queryTree.tree.nodes), d, frames, enc.pathCache.size, trie);
    var known;
    known, threw := client.HandleMessages(frames);
    NobodyThrows(client.resultTree.listeners, Live(client.queryTree.tree.nodes), d, frames,
      client.resultTree.pathCache.limit, now, all, threw, Results(client.resultTree.listeners),
      client.resultTree.Carrying());
    ViewTree(client);
    if !threw { TouchFrom(enc, client); }
  }

  /** The client can take the frames, and then has what the encoder has. */
  ghost predicate HandledWell(t: Tree, d: Dec, frames: seq<RGQLValue>, size: nat, e: Enc) {
    var h := HandleAll(Live(t.nodes), d, frames, size);
    h.Handled? && Together(e, h.dec, t.next) && DecOk(Live(t.nodes), h.dec, size)
  }

  lemma HandledMeans(t: Tree, d: Dec, frames: seq<RGQLValue>, size: nat, e: Enc)
    ensures
      HandledWell(t, d, frames, size, e) <==>
      var h := HandleAll(Live(t.nodes), d, frames, size);
      h.Handled? && Together(e, h.dec, t.next) && DecOk(Live(t.nodes), h.dec, size)
  {
  }

  /** A value written to an unlabelled context is encoded: the client can take what is sent. */
  method EncodeValue(enc: Encoder.ResultEncoder, client: Clients.Client, ctx: Context, value: Primitive)
    returns (frames: seq<RGQLValue>)
    requires InTouch(enc, client) && ctx in enc.pathCache.known && ctx.posIdentifier == 0
    modifies enc.pathCache`id, enc.pathCache`cache, enc.pathCache.known
    ensures enc.pathCache.Valid() && client.Valid()
    ensures enc.pathCache.mode == Intended && 2 <= enc.pathCache.size == client.resultTree.pathCache.limit
    ensures client.resultTree.Model() == old(client.resultTree.Model())
    ensures client.queryTree.View() == old(client.queryTree.View())
    ensures Results(client.resultTree.listeners) == old(Results(client.resultTree.listeners))
    ensures client.resultTree.Carrying() == old(client.resultTree.Carrying())
    ensures client.resultTree.Nodes() == old(client.resultTree.Nodes())
    ensures Sends(old(enc.pathCache.Model()), ctx, old(enc.pathCache.Finals()), value, enc.pathCache.size, frames,
                  enc.pathCache.Model())
    ensures enc.pathCache.Finals() == old(enc.pathCache.Finals()) && LastBrings(frames, Some(value), [])
    ensures HandledWell(client.queryTree.View().tree, client.resultTree.Model(), frames, enc.pathCache.size,
                        enc.pathCache.Model())
    ensures
      var live, d := Live(client.queryTree.View().tree.nodes), client.resultTree.Model();
      HandledTo(live, d, frames, enc.pathCache.size, Direct(live, d.trie, ctx.path, Some(value)))
  {
    hide *;
    ghost var sent, e' := TouchMeans(enc, client, ctx, value);
    TouchParts(enc, client);
    ViewTree(client);
    SendsMeans(enc.pathCache.Model(), ctx, enc.pathCache.Finals(), value, enc.pathCache.size, sent, e');
    var panics;
    panics, frames := EncodeFirst(enc, client, ctx, Val(Some(value)));
  }

  /** A value written to an unlabelled context, encoded, sent and handled: unless a decoder throws, the
      result tree is as if the value had been stored under its full path, and both ends are in touch for
      the next one. The decoders hear the frames that were sent. */
  method Deliver(enc: Encoder.ResultEncoder, client: Clients.Client, ctx: Context, value: Primitive)
    returns (threw: bool, ghost sent: seq<RGQLValue>)
    requires InTouch(enc, client) && ctx in enc.pathCache.known && ctx.posIdentifier == 0
    modifies enc.pathCache`id, enc.pathCache`cache, enc.pathCache.known
    modifies client.resultTree`cursor, client.resultTree`at, client.resultTree`gone, client.resultTree.pathCache
    modifies client.resultTree.cursor, client.resultTree.Nodes()`children, client.resultTree.Nodes()`value,
      client.resultTree.listeners
    ensures (!threw ==> InTouch(enc, client)) && client.queryTree.View() == old(client.queryTree.View())
    ensures fresh(client.resultTree.Nodes() - old(client.resultTree.Nodes()))
    ensures
      || client.resultTree.cursor == null || client.resultTree.cursor == old(client.resultTree.cursor)
      || fresh(client.resultTree.cursor)
    ensures client.resultTree.listeners == {} ==> !threw
    ensures Sends(old(enc.pathCache.Model()), ctx, old(enc.pathCache.Finals()), value, enc.pathCache.size, sent,
                  enc.pathCache.Model())
    ensures enc.pathCache.Finals() == old(enc.pathCache.Finals()) && LastBrings(sent, Some(value), [])
    ensures HandledTo(Live(client.queryTree.View().tree.nodes), old(client.resultTree.Model()), sent,
                      enc.pathCache.size,
                      Direct(Live(client.queryTree.View().tree.nodes), old(client.resultTree.Model()).trie, ctx.path,
                             Some(value)))
    ensures !threw ==>
              HandleAll(Live(client.queryTree.View().tree.nodes), old(client.resultTree.Model()), sent,
                        enc.pathCache.size) == Handled(client.resultTree.Model())
    ensures !threw ==>
              client.resultTree.Model().trie ==
              Direct(Live(client.queryTree.View().tree.nodes), old(client.resultTree.Model()).trie, ctx.path,
                     Some(value))
    ensures AllHeard(client.resultTree.listeners, Live(client.queryTree.View().tree.nodes),
                     old(client.resultTree.Model()), sent, enc.pathCache.size,
                     old(Results(client.resultTree.listeners)), old(client.resultTree.Carrying()), threw,
                     Results(client.resultTree.listeners), client.resultTree.Carrying())
  {
    hide *;
    ghost var live, d := Live(client.queryTree.View().tree.nodes), client.resultTree.Model();
    var frames := EncodeValue(enc, client, ctx, value);
    sent := frames;
    NodesThere(client.resultTree);
    threw := Receive(enc, client, frames, Direct(live, d.trie, ctx.path, Some(value)));
    NodesThere(client.resultTree);
  }

  // ----- the query tree changes under the stream

  lemma TogetherStill(e: Enc, d: Dec, d': Dec, next: nat, next': nat)
    requires Together(e, d, next) && next <= next' && d'.cursor == d.cursor && d'.cache == d.cache
    ensures Together(e, d', next')
  {
  }

  lemma TouchParts(enc: Encoder.ResultEncoder, client: Clients.Client)
    requires InTouch(enc, client)
    ensures enc.pathCache.Valid() && client.Valid()
    ensures enc.pathCache.mode == Intended && enc.pathCache.size == client.resultTree.pathCache.limit
    ensures 2 <= enc.pathCache.size
    ensures Together(enc.pathCache.Model(), client.resultTree.Model(), client.queryTree.tree.next)
    ensures DecOk(Live(client.queryTree.tree.nodes), client.resultTree.Model(), client.resultTree.pathCache.limit)
    ensures ClientOk(client.queryTree.View()) && client.queryTree.View().tree == client.queryTree.tree
  {
    Clients.ClientMeans(client);
  }

  /** A changed query tree leaves both ends with what they need of each other. */
  lemma OpKeepsTogether(c: QueryTreeSpec.Client, op: Op, e: Enc, d: Dec, size: nat)
    requires ClientOk(c) && DecOk(Live(c.tree.nodes), d, size) && Together(e, d, c.tree.next)
    ensures var c' := Apply(c, op); var d' := d.(trie := Restrict(d.trie, Live(c'.tree.nodes)));
            DecOk(Live(c'.tree.nodes), d', size) && Together(e, d', c'.tree.next)
  {
    var c' := Apply(c, op);
    var live, live' := Live(c.tree.nodes), Live(c'.tree.nodes);
    OpShares(c, op);
    OpIsRequery(Start(live, c.tree.next), c, op);
    LivePrefixClosed(c'.tree.next, c'.tree.nodes);
    RestrictOk(d.trie, live, live');
    forall k | k in d.cache.vals ensures CursorOk(live', Restrict(d.trie, live'), d.cache.vals[k]) {
      CursorStaysOk(d.trie, live, live', c.tree.next, d.cache.vals[k]);
    }
    TogetherStill(e, d, d.(trie := Restrict(d.trie, live')), c.tree.next, c'.tree.next);
  }

  lemma ViewTree(client: Clients.Client)
    ensures client.queryTree.View() == QueryTreeSpec.Client(client.queryTree.tree, client.queryTree.queries)
  {
  }

  /** Attaching a query between two values keeps both ends in touch. */
  method Attach(enc: Encoder.ResultEncoder, client: Clients.Client, sels: seq<Sel>)
    returns (queryId: nat, failed: bool, muts: seq<Mutation>, qmap: QueryMap)
    requires InTouch(enc, client)
    modifies client.queryTree, client.queryTree.nodes
    ensures InTouch(enc, client)
    ensures client.queryTree.View() == Apply(old(client.queryTree.View()), QueryTreeSpec.Attach(sels))
    ensures fresh(client.queryTree.nodes - old(client.queryTree.nodes))
    ensures Emits(old(client.queryTree.View()), QueryTreeSpec.Attach(sels), muts)
    ensures queryId == |old(client.queryTree.View()).queries|
    ensures failed == Walk(old(client.queryTree.View()).tree, 0, sels, false).failed
    ensures !failed ==> qmap == MapWalk(old(client.queryTree.View()).tree, 0, sels, false, QueryMap(map[]))
    ensures
      client.resultTree.Model() ==
        old(client.resultTree.Model()).(trie :=
          Restrict(old(client.resultTree.Model()).trie, Live(client.queryTree.View().tree.nodes)))
    ensures client.resultTree.Carrying() == old(client.resultTree.Carrying())
    ensures Results(client.resultTree.listeners) == old(Results(client.resultTree.listeners))
  {
    hide *;
    CursorsThere(client.resultTree);
    ViewTree(client);
    TouchParts(enc, client);
    ghost var e, c, d := enc.pathCache.Model(), client.queryTree.View(), client.resultTree.Model();
    queryId, failed, muts, qmap := client.BuildQuery(sels);
    OpKeepsTogether(c, QueryTreeSpec.Attach(sels), e, d, client.resultTree.pathCache.limit);
    ViewTree(client);
    assert client.resultTree.Model() == d.(trie := client.resultTree.Model().trie);
    TouchFrom(enc, client);
  }

  /** Detaching a query between two values keeps both ends in touch, and purges its results. */
  method Dispose(enc: Encoder.ResultEncoder, client: Clients.Client, queryId: nat) returns (muts: seq<Mutation>)
    requires InTouch(enc, client)
    modifies client.queryTree, client.queryTree.nodes, client.resultTree`at, client.resultTree`gone
    modifies client.resultTree.Nodes()`children, client.resultTree.Nodes()`value
    ensures InTouch(enc, client) && client.queryTree.View() == Apply(old(client.queryTree.View()), Detach(queryId))
    ensures client.queryTree.nodes <= old(client.queryTree.nodes)
    ensures client.resultTree.Nodes() <= old(client.resultTree.Nodes())
    ensures Emits(old(client.queryTree.View()), Detach(queryId), muts)
    ensures
      client.resultTree.Model() ==
        old(client.resultTree.Model()).(trie :=
          Restrict(old(client.resultTree.Model()).trie, Live(client.queryTree.View().tree.nodes)))
    ensures client.resultTree.Carrying() == old(client.resultTree.Carrying())
    ensures Results(client.resultTree.listeners) == old(Results(client.resultTree.listeners))
  {
    hide *;
    CursorsThere(client.resultTree);
    TouchParts(enc, client);
    ghost var e, c, d := enc.pathCache.Model(), client.queryTree.View(), client.resultTree.Model();
    muts := client.DisposeQuery(queryId);
    OpKeepsTogether(c, Detach(queryId), e, d, client.resultTree.pathCache.limit);
    ViewTree(client);
    TouchFrom(enc, client);
  }
}
