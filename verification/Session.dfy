/** Whole sessions, in place: a stream is opened, queries are attached and their decoders listen, other
    queries come and go, the server follows the query tree, opens contexts and writes values. */
module Sessions {
  import opened Messages
  import opened Resolver
  import opened AliasSpec
  import opened AliasRuns
  import opened QueryTreeSpec
  import opened QueryTreeProofs
  import opened Joint
  import opened ResultNodes
  import opened ResultTrees
  import opened JsonHandlers
  import opened JsonDecoders
  import opened JsonResponses
  import opened JsonLive
  import opened Stream
  import Encoder
  import Clients
  import History = QueryTreeHistory
  import JsonLate
  import Lru
  import Replication
  import ServerTrees

  /** A query whose result is decoded: its selections, and the field names of the query nodes. */
  datatype Watched = Watched(sels: seq<Sel>, names: map<nat, string>)

  /** What either side may do next. Contexts are numbered in the order they are opened. */
  datatype Act =
    | Ask(sels: seq<Sel>)
    | Drop(queryId: nat)
    | Open(parent: Option<nat>, step: Step)
    | Mark(ctx: nat, isFinal: bool)
    | Say(ctx: nat, value: Primitive)

  /** The session as it should look: the query tree, the paths of the contexts, the result tree with
      every value stored as it was written, what is decoded, by query, and whether no query has
      announced a part of a new field twice. */
  datatype Seen = Seen(client: Client, paths: seq<Path>, trie: map<Path, Option<Primitive>>,
                       decoded: map<nat, JsonHandlers.Query>, sendable: bool)

  const NOTHING_SEEN := Seen(NEW_CLIENT, [], map[[] := None], map[], true)

  function PathUnder(s: Seen, parent: Option<nat>, step: Step): Path {
    (if parent.Some? && parent.value < |s.paths| then s.paths[parent.value] else []) + [step]
  }

  /** Contexts are opened below others, for query nodes the client gave out; the queries that are
      decoded stay. */
  ghost predicate Allowed(s: Seen, act: Act) {
    match act
    case Ask(_) => true
    case Drop(queryId) => queryId !in s.decoded
    case Open(parent, step) =>
      (parent.Some? ==> parent.value < |s.paths|) && Bounded(Proj(PathUnder(s, parent, step)), s.client.tree.next)
    case Mark(ctx, _) => ctx < |s.paths|
    case Say(ctx, _) => ctx < |s.paths|
  }

  ghost function Requeried(s: Seen, op: Op): Seen {
    var client := Apply(s.client, op);
    Seen(client, s.paths, Restrict(s.trie, Live(client.tree.nodes)), s.decoded,
         s.sendable && History.OpSendable(s.client, op))
  }

  ghost function After(s: Seen, act: Act): Seen {
    if !Allowed(s, act) then s
    else match act
    case Ask(sels) => Requeried(s, QueryTreeSpec.Attach(sels))
    case Drop(queryId) => Requeried(s, Detach(queryId))
    case Open(parent, step) => s.(paths := s.paths + [PathUnder(s, parent, step)])
    case Mark(_, _) => s
    case Say(ctx, value) => s.(trie := Direct(Live(s.client.tree.nodes), s.trie, s.paths[ctx], Some(value)))
  }

  /** To no decoder a position is a value and a container, or a list and an object. */
  ghost predicate KindsHold(s: Seen) {
    forall n :: n in s.decoded ==> KindsOk(s.decoded[n], s.trie)
  }

  ghost predicate AllAllowed(s: Seen, acts: seq<Act>)
    decreases |acts|
  {
    acts != [] ==> Allowed(s, acts[0]) && KindsHold(After(s, acts[0])) && AllAllowed(After(s, acts[0]), acts[1..])
  }

  ghost function AfterAll(s: Seen, acts: seq<Act>): Seen
    decreases |acts|
  {
    if acts == [] then s else AfterAll(After(s, acts[0]), acts[1..])
  }

  // ----- the queries that are decoded

  ghost predicate CanWatch(s: Seen, w: Watched) {
    var walked := Walk(s.client.tree, 0, w.sels, false);
    !walked.failed && ResponsesApart(w.sels) && w.names == NamesOf(walked.tree.nodes)
  }

  ghost function Watching(s: Seen, w: Watched): Seen {
    Requeried(s, QueryTreeSpec.Attach(w.sels)).(decoded :=
      s.decoded[|s.client.queries| := QueryOf(s.client, w.sels)])
  }

  ghost function WatchingAll(ws: seq<Watched>): Seen {
    if ws == [] then NOTHING_SEEN else Watching(WatchingAll(ws[..|ws| - 1]), ws[|ws| - 1])
  }

  ghost predicate AllWatchable(ws: seq<Watched>) {
    forall i :: 0 <= i < |ws| ==> CanWatch(WatchingAll(ws[..i]), ws[i])
  }

  // ----- the session as it is

  /** Both ends are in touch, and look like that. */
  ghost predicate Fits(enc: Encoder.ResultEncoder, client: Clients.Client, ctxs: seq<Context>, s: Seen)
    reads enc.pathCache, enc.pathCache.known, client, client.queryTree, client.queryTree.nodes, client.queryTree.dropped
    reads client.resultTree, client.resultTree.pathCache, client.resultTree.Cursors()
    reads client.resultTree.at.Values`children, client.resultTree.at.Values`value, client.resultTree.gone`children
  {
    && InTouch(enc, client) && client.queryTree.View() == s.client && client.resultTree.Model().trie == s.trie
    && Opened(enc.pathCache.known, ctxs, s.paths)
  }

  ghost predicate Opened(known: set<Context>, ctxs: seq<Context>, paths: seq<Path>) {
    |ctxs| == |paths| && forall i :: 0 <= i < |ctxs| ==> ctxs[i] in known && ctxs[i].path == paths[i]
  }

  /** Every decoder shows the result tree, and the server's tree is the client's as long as nothing was
      announced twice. */
  ghost predicate Kept(client: Clients.Client, server: ServerTrees.ServerTree, s: Seen, subs: map<JSONDecoder, Asked>)
    reads client.queryTree, client.resultTree, client.resultTree.pathCache, client.resultTree.Cursors()
    reads client.resultTree.at.Values`value, client.resultTree.listeners`result, server, server.all
  {
    && Shown(client, subs) && SubsFit(s.decoded, subs) && server.Sound()
    && (s.sendable ==> Replication.Follows(server, s.client))
  }

  ghost predicate SubsFit(decoded: map<nat, JsonHandlers.Query>, subs: map<JSONDecoder, Asked>) {
    forall dec :: dec in subs ==> subs[dec].queryId in decoded && decoded[subs[dec].queryId] == dec.query
  }

  lemma FitsMeans(enc: Encoder.ResultEncoder, client: Clients.Client, ctxs: seq<Context>, s: Seen)
    requires Fits(enc, client, ctxs, s)
    ensures InTouch(enc, client) && client.queryTree.View() == s.client && client.resultTree.Model().trie == s.trie
    ensures Opened(enc.pathCache.known, ctxs, s.paths) && client.queryTree.tree == s.client.tree
  {
  }

  lemma FitsFrom(enc: Encoder.ResultEncoder, client: Clients.Client, ctxs: seq<Context>, s: Seen)
    requires InTouch(enc, client) && client.queryTree.View() == s.client && client.resultTree.Model().trie == s.trie
    requires Opened(enc.pathCache.known, ctxs, s.paths)
    ensures Fits(enc, client, ctxs, s)
  {
  }

  /** Every decoder follows the client, by what is in the heap. */
  lemma KeptMeans(client: Clients.Client, server: ServerTrees.ServerTree, s: Seen, subs: map<JSONDecoder, Asked>)
    ensures
      Kept(client, server, s, subs) <==>
      && client.resultTree.listeners == subs.Keys
      && AllFollow(client.queryTree.View(), client.resultTree.Model(), client.resultTree.Carrying(),
                   Results(client.resultTree.listeners), subs)
      && SubsFit(s.decoded, subs) && server.Sound() && (s.sendable ==> Replication.Follows(server, s.client))
  {
  }

  lemma OpenedAt(known: set<Context>, ctxs: seq<Context>, paths: seq<Path>, i: nat)
    requires Opened(known, ctxs, paths) && i < |paths|
    ensures i < |ctxs| && ctxs[i] in known && ctxs[i].path == paths[i]
  {
  }

  lemma OpenedMore(known: set<Context>, ctxs: seq<Context>, paths: seq<Path>, c: Context)
    requires Opened(known, ctxs, paths)
    ensures Opened(known + {c}, ctxs + [c], paths + [c.path])
  {
  }

  lemma ViewTree(client: Clients.Client, s: Client)
    ensures client.queryTree.View() == s ==> client.queryTree.tree == s.tree
  {
  }

  lemma ActMeans(s: Seen, act: Act)
    requires Allowed(s, act)
    ensures act.Ask? ==> After(s, act) == Requeried(s, QueryTreeSpec.Attach(act.sels))
    ensures act.Drop? ==> act.queryId !in s.decoded && After(s, act) == Requeried(s, Detach(act.queryId))
    ensures act.Open? ==>
              var above := if act.parent.Some? then s.paths[act.parent.value] else [];
              && (act.parent.Some? ==> act.parent.value < |s.paths|)
              && Bounded(Proj(above + [act.step]), s.client.tree.next)
              && After(s, act) == s.(paths := s.paths + [above + [act.step]])
    ensures act.Mark? ==> act.ctx < |s.paths| && After(s, act) == s
    ensures act.Say? ==>
              && act.ctx < |s.paths|
              && After(s, act) ==
                 s.(trie := Direct(Live(s.client.tree.nodes), s.trie, s.paths[act.ctx], Some(act.value)))
  {
  }

  lemma RequeriedIs(s: Seen, op: Op)
    ensures
      Requeried(s, op) ==
      Seen(Apply(s.client, op), s.paths, Restrict(s.trie, Live(Apply(s.client, op).tree.nodes)), s.decoded,
           s.sendable && History.OpSendable(s.client, op))
  {
  }

  /** The decoded queries stay. */
  lemma DecodedStay(decoded: map<nat, JsonHandlers.Query>, subs: map<JSONDecoder, Asked>, op: Op)
    requires SubsFit(decoded, subs) && (op.Detach? ==> op.queryId !in decoded)
    ensures Keeps(subs, op)
  {
  }

  lemma KindsThere(s: Seen, subs: map<JSONDecoder, Asked>)
    requires KindsHold(s) && SubsFit(s.decoded, subs)
    ensures KindsFit(subs, s.trie)
  {
  }

  // ----- acts

  /** The client attaches or detaches a query. */
  method Requery(enc: Encoder.ResultEncoder, client: Clients.Client, op: Op)
    returns (muts: seq<Mutation>, qmap: QueryMap)
    requires InTouch(enc, client)
    modifies client.queryTree, client.queryTree.nodes, client.resultTree`at, client.resultTree`gone
    modifies client.resultTree.Nodes()`children, client.resultTree.Nodes()`value
    ensures InTouch(enc, client) && client.queryTree.View() == Apply(old(client.queryTree.View()), op)
    ensures fresh(client.queryTree.nodes - old(client.queryTree.nodes))
    ensures client.resultTree.Nodes() <= old(client.resultTree.Nodes())
    ensures Emits(old(client.queryTree.View()), op, muts)
    ensures
      client.resultTree.Model() ==
        old(client.resultTree.Model()).(trie :=
          Restrict(old(client.resultTree.Model()).trie, Live(client.queryTree.View().tree.nodes)))
    ensures client.resultTree.Carrying() == old(client.resultTree.Carrying())
    ensures Results(client.resultTree.listeners) == old(Results(client.resultTree.listeners))
    ensures op.Attach? && !Walk(old(client.queryTree.View()).tree, 0, op.sels, false).failed ==>
              qmap == MapWalk(old(client.queryTree.View()).tree, 0, op.sels, false, QueryMap(map[]))
  {
    hide *;
    if op.Attach? {
      var queryId, failed;
      queryId, failed, muts, qmap := Stream.Attach(enc, client, op.sels);
    } else {
      muts := Stream.Dispose(enc, client, op.queryId);
      qmap := QueryMap(map[]);
    }
  }

  /** The client attaches or detaches a query, and the server replays what is sent. */
  method Change(enc: Encoder.ResultEncoder, client: Clients.Client, server: ServerTrees.ServerTree, op: Op,
                ghost ctxs: seq<Context>, ghost s: Seen, ghost subs: map<JSONDecoder, Asked>)
    returns (qmap: QueryMap)
    requires Fits(enc, client, ctxs, s) && Kept(client, server, s, subs) && (op.Detach? ==> op.queryId !in s.decoded)
    modifies client.queryTree, client.queryTree.nodes, client.resultTree`at, client.resultTree`gone
    modifies client.resultTree.Nodes()`children, client.resultTree.Nodes()`value
    modifies server, server.all`children, server.all`disposed
    ensures Fits(enc, client, ctxs, Requeried(s, op)) && Kept(client, server, Requeried(s, op), subs)
    ensures fresh(client.queryTree.nodes - old(client.queryTree.nodes)) && fresh(server.all - old(server.all))
    ensures client.resultTree.Nodes() <= old(client.resultTree.Nodes())
    ensures client.resultTree.Model() == old(client.resultTree.Model()).(trie := Requeried(s, op).trie)
    ensures op.Attach? && !Walk(s.client.tree, 0, op.sels, false).failed ==>
              qmap == MapWalk(s.client.tree, 0, op.sels, false, QueryMap(map[]))
  {
    hide *;
    FitsMeans(enc, client, ctxs, s);
    KeptMeans(client, server, s, subs);
    RequeriedIs(s, op);
    DecodedStay(s.decoded, subs, op);
    TouchParts(enc, client);
    OpKeeps(s.client, op, client.resultTree.Model(), client.resultTree.Carrying(),
      Results(client.resultTree.listeners), subs);
    var muts;
    muts, qmap := Requery(enc, client, op);
    ViewTree(client, Apply(s.client, op));
    FitsFrom(enc, client, ctxs, Requeried(s, op));
    Replay(enc, client, server, muts, op, ctxs, s, subs);
  }

  /** The server replays what is sent: that is nothing to the client. */
  method Replay(ghost enc: Encoder.ResultEncoder, ghost client: Clients.Client, server: ServerTrees.ServerTree,
                muts: seq<Mutation>, ghost op: Op, ghost ctxs: seq<Context>, ghost s: Seen,
                ghost subs: map<JSONDecoder, Asked>)
    requires Fits(enc, client, ctxs, Requeried(s, op)) && server.Sound()
    requires ClientOk(s.client) && Emits(s.client, op, muts) && (s.sendable ==> Replication.Follows(server, s.client))
    requires SubsFit(s.decoded, subs) && client.resultTree.listeners == subs.Keys
    requires AllFollow(Apply(s.client, op), client.resultTree.Model(), client.resultTree.Carrying(),
                       Results(client.resultTree.listeners), subs)
    modifies server, server.all`children, server.all`disposed
    ensures Fits(enc, client, ctxs, Requeried(s, op)) && Kept(client, server, Requeried(s, op), subs)
    ensures fresh(server.all - old(server.all)) && client.resultTree.Model() == old(client.resultTree.Model())
  {
    hide *;
    FitsMeans(enc, client, ctxs, Requeried(s, op));
    RequeriedIs(s, op);
    CursorsThere(client.resultTree);
    Replication.ReplayOp(server, muts, s.client, op);
    KeptMeans(client, server, Requeried(s, op), subs);
  }

  /** The server opens a context. */
  method OpenNext(enc: Encoder.ResultEncoder, client: Clients.Client, ghost server: ServerTrees.ServerTree,
                  ctxs: seq<Context>, act: Act, ghost s: Seen, ghost subs: map<JSONDecoder, Asked>)
    returns (ctxs': seq<Context>)
    requires Fits(enc, client, ctxs, s) && Kept(client, server, s, subs) && Allowed(s, act) && act.Open?
    modifies enc.pathCache`known
    ensures Fits(enc, client, ctxs', After(s, act)) && Kept(client, server, After(s, act), subs)
    ensures fresh(enc.pathCache.known - old(enc.pathCache.known))
  {
    hide *;
    FitsMeans(enc, client, ctxs, s);
    KeptMeans(client, server, s, subs);
    ActMeans(s, act);
    CursorsThere(client.resultTree);
    var above: Context? := null;
    if act.parent.Some? {
      OpenedAt(enc.pathCache.known, ctxs, s.paths, act.parent.value);
      above := ctxs[act.parent.value];
    }
    var c := OpenContext(enc, client, above, act.step);
    OpenedMore(old(enc.pathCache.known), ctxs, s.paths, c);
    ctxs' := ctxs + [c];
    FitsFrom(enc, client, ctxs', After(s, act));
    KeptMeans(client, server, After(s, act), subs);
  }

  /** The server marks a context. */
  method MarkNext(enc: Encoder.ResultEncoder, client: Clients.Client, ghost server: ServerTrees.ServerTree,
                  ctxs: seq<Context>, act: Act, ghost s: Seen, ghost subs: map<JSONDecoder, Asked>)
    requires Fits(enc, client, ctxs, s) && Kept(client, server, s, subs) && Allowed(s, act) && act.Mark?
    requires act.ctx < |ctxs|
    modifies enc.pathCache.known`isFinal
    ensures Fits(enc, client, ctxs, After(s, act)) && Kept(client, server, After(s, act), subs)
  {
    hide *;
    FitsMeans(enc, client, ctxs, s);
    KeptMeans(client, server, s, subs);
    ActMeans(s, act);
    OpenedAt(enc.pathCache.known, ctxs, s.paths, act.ctx);
    CursorsThere(client.resultTree);
    MarkContext(enc, client, ctxs[act.ctx], act.isFinal);
    FitsFrom(enc, client, ctxs, s);
    KeptMeans(client, server, s, subs);
  }

  lemma SoundParts(enc: Encoder.ResultEncoder, client: Clients.Client, s: Seen)
    requires InTouch(enc, client) && client.queryTree.View() == s.client
    ensures ClientOk(s.client) && DecSound(Live(s.client.tree.nodes), client.resultTree.Model(), enc.pathCache.size)
  {
    hide *;
    TouchParts(enc, client);
    Clients.ClientMeans(client);
    ViewTree(client, s.client);
  }

  /** No decoder throws, and each shows the tree with the value. */
  lemma Said(s: Seen, act: Act, subs: map<JSONDecoder, Asked>, d: Dec, sent: seq<RGQLValue>, size: nat,
             now: map<JSONDecoder, Json>, all: Handlers, threw: bool, now': map<JSONDecoder, Json>, all': Handlers)
    requires Allowed(s, act) && act.Say? && KindsHold(After(s, act)) && SubsFit(s.decoded, subs)
    requires ClientOk(s.client) && DecSound(Live(s.client.tree.nodes), d, size)
    requires HandledTo(Live(s.client.tree.nodes), d, sent, size, After(s, act).trie)
    requires AllFollow(s.client, d, all, now, subs)
    requires AllHeard(subs.Keys, Live(s.client.tree.nodes), d, sent, size, now, all, threw, now', all')
    ensures !threw && HandleAll(Live(s.client.tree.nodes), d, sent, size).Handled?
    ensures AllFollow(s.client, HandleAll(Live(s.client.tree.nodes), d, sent, size).dec, all', now', subs)
  {
    hide *;
    ActMeans(s, act);
    KindsThere(After(s, act), subs);
    HandledTrie(Live(s.client.tree.nodes), d, sent, size, After(s, act).trie);
    BatchKeeps(s.client, d, sent, size, subs, now, all, threw, now', all');
  }

  /** The server writes a value: it arrives, and every decoder shows it. */
  method SayNext(enc: Encoder.ResultEncoder, client: Clients.Client, ghost server: ServerTrees.ServerTree,
                 ctxs: seq<Context>, act: Act, ghost s: Seen, ghost subs: map<JSONDecoder, Asked>)
    requires Fits(enc, client, ctxs, s) && Kept(client, server, s, subs) && Allowed(s, act)
    requires act.Say? && act.ctx < |ctxs| && ctxs[act.ctx].posIdentifier == 0 && KindsHold(After(s, act))
    modifies enc.pathCache`id, enc.pathCache`cache, enc.pathCache.known
    modifies client.resultTree`cursor, client.resultTree`at, client.resultTree`gone, client.resultTree.pathCache
    modifies client.resultTree.cursor, client.resultTree.Nodes()`children, client.resultTree.Nodes()`value
    modifies client.resultTree.listeners
    ensures Fits(enc, client, ctxs, After(s, act)) && Kept(client, server, After(s, act), subs)
    ensures fresh(client.resultTree.Nodes() - old(client.resultTree.Nodes()))
    ensures
      || client.resultTree.cursor == null || client.resultTree.cursor == old(client.resultTree.cursor)
      || fresh(client.resultTree.cursor)
  {
    hide *;
    FitsMeans(enc, client, ctxs, s);
    KeptMeans(client, server, s, subs);
    ActMeans(s, act);
    OpenedAt(enc.pathCache.known, ctxs, s.paths, act.ctx);
    SoundParts(enc, client, s);
    ghost var d, all, now := client.resultTree.Model(), client.resultTree.Carrying(),
      Results(client.resultTree.listeners);
    var threw;
    ghost var sent;
    threw, sent := Deliver(enc, client, ctxs[act.ctx], act.value);
    Said(s, act, subs, d, sent, enc.pathCache.size, now, all, threw, Results(client.resultTree.listeners),
      client.resultTree.Carrying());
    FitsFrom(enc, client, ctxs, After(s, act));
    KeptMeans(client, server, After(s, act), subs);
  }

  /** An act of the server. Writing to a context that has a label is the one thing that cannot be done:
      the encoder panics. */
  method Serve(enc: Encoder.ResultEncoder, client: Clients.Client, ghost server: ServerTrees.ServerTree,
               ctxs: seq<Context>, act: Act, ghost s: Seen, ghost subs: map<JSONDecoder, Asked>)
    returns (ctxs': seq<Context>, panics: bool)
    requires Fits(enc, client, ctxs, s) && Kept(client, server, s, subs)
    requires Allowed(s, act) && KindsHold(After(s, act)) && !act.Ask? && !act.Drop?
    modifies enc.pathCache, enc.pathCache.known
    modifies client.resultTree`cursor, client.resultTree`at, client.resultTree`gone, client.resultTree.pathCache
    modifies client.resultTree.cursor, client.resultTree.Nodes()`children, client.resultTree.Nodes()`value
    modifies client.resultTree.listeners
    ensures Done(enc, client, server, ctxs, act, s, subs, ctxs', panics)
    ensures fresh(enc.pathCache.known - old(enc.pathCache.known))
    ensures fresh(client.resultTree.Nodes() - old(client.resultTree.Nodes()))
    ensures
      || client.resultTree.cursor == null || client.resultTree.cursor == old(client.resultTree.cursor)
      || fresh(client.resultTree.cursor)
  {
    hide *;
    ctxs', panics := ctxs, false;
    ActMeans(s, act);
    FitsMeans(enc, client, ctxs, s);
    if act.Open? {
      ctxs' := OpenNext(enc, client, server, ctxs, act, s, subs);
    } else {
      OpenedAt(enc.pathCache.known, ctxs, s.paths, act.ctx);
      if act.Mark? {
        MarkNext(enc, client, server, ctxs, act, s, subs);
      } else if ctxs[act.ctx].posIdentifier != 0 {
        panics := true;
      } else {
        SayNext(enc, client, server, ctxs, act, s, subs);
      }
    }
    DoneMeans(enc, client, server, ctxs, act, s, subs, ctxs', panics);
  }

  /** The act has been done, or it was a value for a labelled context, and nothing has changed. */
  ghost predicate Done(enc: Encoder.ResultEncoder, client: Clients.Client, server: ServerTrees.ServerTree,
                       ctxs: seq<Context>, act: Act, s: Seen, subs: map<JSONDecoder, Asked>, ctxs': seq<Context>,
                       panics: bool)
    reads enc.pathCache, enc.pathCache.known, client, client.queryTree, client.queryTree.nodes, client.queryTree.dropped
    reads client.resultTree, client.resultTree.pathCache, client.resultTree.Cursors()
    reads client.resultTree.at.Values`children, client.resultTree.at.Values`value, client.resultTree.gone`children
    reads client.resultTree.listeners`result, server, server.all, ctxs
  {
    if panics then
      && act.Say? && act.ctx < |ctxs| && ctxs[act.ctx].posIdentifier != 0 && ctxs' == ctxs
      && Fits(enc, client, ctxs, s) && Kept(client, server, s, subs)
    else Fits(enc, client, ctxs', After(s, act)) && Kept(client, server, After(s, act), subs)
  }

  lemma DoneMeans(enc: Encoder.ResultEncoder, client: Clients.Client, server: ServerTrees.ServerTree,
                  ctxs: seq<Context>, act: Act, s: Seen, subs: map<JSONDecoder, Asked>, ctxs': seq<Context>,
                  panics: bool)
    ensures
      Done(enc, client, server, ctxs, act, s, subs, ctxs', panics) <==>
      if panics then
        && act.Say? && act.ctx < |ctxs| && ctxs[act.ctx].posIdentifier != 0 && ctxs' == ctxs
        && Fits(enc, client, ctxs, s) && Kept(client, server, s, subs)
      else Fits(enc, client, ctxs', After(s, act)) && Kept(client, server, After(s, act), subs)
  {
  }

  /** Every object that a session works on. */
  ghost function Objects(enc: Encoder.ResultEncoder, client: Clients.Client, server: ServerTrees.ServerTree)
    : set<object>
    reads enc.pathCache`known, client.queryTree`nodes, client.resultTree`cursor, client.resultTree`at,
      client.resultTree`gone, client.resultTree`listeners, server`all
  {
    {enc.pathCache, client.queryTree, client.resultTree, client.resultTree.pathCache, client.resultTree.rootCursor,
     server}
      + enc.pathCache.known + client.queryTree.nodes + client.resultTree.Nodes() + client.resultTree.listeners
      + server.all + if client.resultTree.cursor == null then {} else {client.resultTree.cursor}
  }

  lemma ObjectsAre(enc: Encoder.ResultEncoder, client: Clients.Client, server: ServerTrees.ServerTree)
    ensures
      Objects(enc, client, server) ==
      {enc.pathCache, client.queryTree, client.resultTree, client.resultTree.pathCache, client.resultTree.rootCursor,
       server}
        + enc.pathCache.known + client.queryTree.nodes + client.resultTree.Nodes() + client.resultTree.listeners
        + server.all + if client.resultTree.cursor == null then {} else {client.resultTree.cursor}
    ensures forall o | o in Objects(enc, client, server) :: allocated(o)
  {
  }

  lemma ObjectsHold(enc: Encoder.ResultEncoder, client: Clients.Client, server: ServerTrees.ServerTree)
    ensures client.resultTree in Objects(enc, client, server)
    ensures client.resultTree.rootCursor in Objects(enc, client, server)
    ensures forall o | o in Objects(enc, client, server) :: allocated(o)
  {
  }

  lemma ObjectsThere(enc: Encoder.ResultEncoder, client: Clients.Client, server: ServerTrees.ServerTree)
    ensures forall o | o in Objects(enc, client, server) :: allocated(o)
  {
  }

  /** An operation of the client, with its footprint. */
  method ChangeAll(enc: Encoder.ResultEncoder, client: Clients.Client, server: ServerTrees.ServerTree, op: Op,
                   ghost ctxs: seq<Context>, ghost s: Seen, ghost subs: map<JSONDecoder, Asked>)
    returns (qmap: QueryMap)
    requires Fits(enc, client, ctxs, s) && Kept(client, server, s, subs) && (op.Detach? ==> op.queryId !in s.decoded)
    modifies Objects(enc, client, server)
    ensures Fits(enc, client, ctxs, Requeried(s, op)) && Kept(client, server, Requeried(s, op), subs)
    ensures fresh(Objects(enc, client, server) - old(Objects(enc, client, server)))
    ensures client.resultTree.Model() == old(client.resultTree.Model()).(trie := Requeried(s, op).trie)
    ensures op.Attach? && !Walk(s.client.tree, 0, op.sels, false).failed ==>
              qmap == MapWalk(s.client.tree, 0, op.sels, false, QueryMap(map[]))
  {
    hide *;
    ObjectsAre(enc, client, server);
    qmap := Change(enc, client, server, op, ctxs, s, subs);
    ObjectsAre(enc, client, server);
  }

  /** One act of either side. */
  method Do(enc: Encoder.ResultEncoder, client: Clients.Client, server: ServerTrees.ServerTree, ctxs: seq<Context>,
            act: Act, ghost s: Seen, ghost subs: map<JSONDecoder, Asked>)
    returns (ctxs': seq<Context>, panics: bool)
    requires Fits(enc, client, ctxs, s) && Kept(client, server, s, subs)
    requires Allowed(s, act) && KindsHold(After(s, act))
    modifies Objects(enc, client, server)
    ensures Done(enc, client, server, ctxs, act, s, subs, ctxs', panics)
    ensures fresh(Objects(enc, client, server) - old(Objects(enc, client, server)))
  {
    hide *;
    ActMeans(s, act);
    if act.Ask? || act.Drop? {
      ctxs', panics := ctxs, false;
      var _ := ChangeAll(enc, client, server, if act.Ask? then QueryTreeSpec.Attach(act.sels) else Detach(act.queryId),
        ctxs, s, subs);
      DoneMeans(enc, client, server, ctxs, act, s, subs, ctxs', panics);
    } else {
      ObjectsAre(enc, client, server);
      ctxs', panics := Serve(enc, client, server, ctxs, act, s, subs);
      ObjectsAre(enc, client, server);
    }
  }

  lemma {:induction false} NextAct(s: Seen, acts: seq<Act>, k: nat)
    requires AllAllowed(s, acts) && k < |acts|
    ensures Allowed(AfterAll(s, acts[..k]), acts[k]) && KindsHold(After(AfterAll(s, acts[..k]), acts[k]))
    ensures AfterAll(s, acts[..k + 1]) == After(AfterAll(s, acts[..k]), acts[k])
    decreases |acts|
  {
    hide After, Allowed, KindsHold;
    if k == 0 {
      assert acts[..1][0] == acts[0] && acts[..1][1..] == [] && acts[..0] == [];
    } else {
      NextAct(After(s, acts[0]), acts[1..], k - 1);
      assert acts[..k][1..] == acts[1..][..k - 1] && acts[..k + 1][1..] == acts[1..][..k];
    }
  }

  // ----- from the start

  const NOTHING_STORED := Dec(None, Lru.Cache([], map[]), map[[] := None])

  /** With nothing stored there is nothing to clash, and no cursor waits. */
  lemma NothingWaits(q: JsonHandlers.Query, live: set<QPath>)
    ensures KindsOk(q, NOTHING_STORED.trie) && JsonLate.NoneWaits(q, NOTHING_STORED)
    ensures [] in live ==> Restrict(NOTHING_STORED.trie, live) == NOTHING_STORED.trie
  {
    assert Proj([]) == [];
  }

  lemma WatchingIs(s: Seen, w: Watched)
    requires ClientOk(s.client) && CanWatch(s, w)
    ensures
      var s1, q := Requeried(s, QueryTreeSpec.Attach(w.sels)), QueryOf(s.client, w.sels);
      && Watching(s, w) == s1.(decoded := s.decoded[|s.client.queries| := q]) && s1.decoded == s.decoded
      && s1.client == Apply(s.client, QueryTreeSpec.Attach(w.sels)) && [] in Live(s1.client.tree.nodes)
      && q == JsonHandlers.Query.Query(MapWalk(s.client.tree, 0, w.sels, false, QueryMap(map[])), w.names)
      && ResponsesApart(w.sels) && Decodes(q, s1.client, |s.client.queries|, w.sels)
      && !Walk(s.client.tree, 0, w.sels, false).failed
  {
    AttachDecodes(s.client, w.sels);
    ReferencesConserved(s.client, QueryTreeSpec.Attach(w.sels));
    LivePrefixClosed(Requeried(s, QueryTreeSpec.Attach(w.sels)).client.tree.next,
      Requeried(s, QueryTreeSpec.Attach(w.sels)).client.tree.nodes);
  }

  /** The queries that are decoded are there already. */
  ghost predicate Earlier(subs: map<JSONDecoder, Asked>, n: nat) {
    forall dec :: dec in subs ==> subs[dec].queryId < n
  }

  lemma AllEarlier(c: Client, d: Dec, all: Handlers, now: map<JSONDecoder, Json>, subs: map<JSONDecoder, Asked>)
    requires AllFollow(c, d, all, now, subs)
    ensures Earlier(subs, |c.queries|)
  {
    forall x | x in subs ensures subs[x].queryId < |c.queries| { FollowAt(c, d, all, now, subs, x); }
  }

  lemma SubsMore(decoded: map<nat, JsonHandlers.Query>, subs: map<JSONDecoder, Asked>, dec: JSONDecoder, a: Asked)
    requires SubsFit(decoded, subs) && Earlier(subs, a.queryId)
    ensures SubsFit(decoded[a.queryId := dec.query], subs[dec := a])
  {
  }

  /** The decoder of a query that has been attached before anything is stored. */
  method ListenFirst(ghost enc: Encoder.ResultEncoder, client: Clients.Client, ghost server: ServerTrees.ServerTree,
                     dec: JSONDecoder, ghost s: Seen, ghost w: Watched, ghost subs: map<JSONDecoder, Asked>)
    requires ClientOk(s.client) && CanWatch(s, w) && Earlier(subs, |s.client.queries|)
    requires var s1 := Requeried(s, QueryTreeSpec.Attach(w.sels));
             Fits(enc, client, [], s1) && Kept(client, server, s1, subs)
    requires client.resultTree.Model() == NOTHING_STORED
    requires dec !in subs && dec.result == map[[] := ObjectCell] && dec.query == QueryOf(s.client, w.sels)
    modifies dec, client.resultTree`handlers, client.resultTree`listeners, client.resultTree.rootCursor`resultHandlers
    ensures client.resultTree.listeners == old(client.resultTree.listeners) + {dec}
    ensures Fits(enc, client, [], Watching(s, w))
    ensures Kept(client, server, Watching(s, w), subs[dec := Asked(|s.client.queries|, w.sels)])
    ensures client.resultTree.Model() == NOTHING_STORED
  {
    hide *;
    ghost var s1, a := Requeried(s, QueryTreeSpec.Attach(w.sels)), Asked(|s.client.queries|, w.sels);
    WatchingIs(s, w);
    FitsMeans(enc, client, [], s1);
    KeptMeans(client, server, s1, subs);
    TouchParts(enc, client);
    NothingWaits(dec.query, Live(s1.client.tree.nodes));
    ShownMeans(client, subs);
    Listen(client, dec, a, subs);
    ShownMeans(client, subs[dec := a]);
    SubsMore(s.decoded, subs, dec, a);
    ViewTree(client, s1.client);
    TouchFrom(enc, client);
    FitsFrom(enc, client, [], Watching(s, w));
    KeptMeans(client, server, Watching(s, w), subs[dec := a]);
  }

  /** A query is attached, and a decoder is made for it, before anything is stored. */
  method AskFirst(enc: Encoder.ResultEncoder, client: Clients.Client, server: ServerTrees.ServerTree, w: Watched,
                  ghost s: Seen, ghost subs: map<JSONDecoder, Asked>)
    returns (dec: JSONDecoder)
    requires Fits(enc, client, [], s) && Kept(client, server, s, subs) && CanWatch(s, w)
    requires client.resultTree.Model() == NOTHING_STORED
    modifies Objects(enc, client, server)
    ensures var s1 := Requeried(s, QueryTreeSpec.Attach(w.sels));
            Fits(enc, client, [], s1) && Kept(client, server, s1, subs)
    ensures ClientOk(s.client) && Earlier(subs, |s.client.queries|) && client.resultTree.Model() == NOTHING_STORED
    ensures fresh(dec) && dec.result == map[[] := ObjectCell] && dec.query == QueryOf(s.client, w.sels)
    ensures fresh(Objects(enc, client, server) - old(Objects(enc, client, server)))
  {
    hide *;
    FitsMeans(enc, client, [], s);
    TouchParts(enc, client);
    KeptMeans(client, server, s, subs);
    AllEarlier(s.client, client.resultTree.Model(), client.resultTree.Carrying(), Results(client.resultTree.listeners),
      subs);
    WatchingIs(s, w);
    NothingWaits(QueryOf(s.client, w.sels), Live(Requeried(s, QueryTreeSpec.Attach(w.sels)).client.tree.nodes));
    RequeriedIs(s, QueryTreeSpec.Attach(w.sels));
    var qmap := ChangeAll(enc, client, server, QueryTreeSpec.Attach(w.sels), [], s, subs);
    ObjectsThere(enc, client, server);
    CursorsThere(client.resultTree);
    dec := new JSONDecoder(JsonHandlers.Query.Query(qmap, w.names));
  }

  /** The decoder starts to listen. */
  method ListenAll(ghost enc: Encoder.ResultEncoder, client: Clients.Client, ghost server: ServerTrees.ServerTree,
                   dec: JSONDecoder, ghost s: Seen, ghost w: Watched, ghost subs: map<JSONDecoder, Asked>)
    requires ClientOk(s.client) && CanWatch(s, w) && Earlier(subs, |s.client.queries|)
    requires var s1 := Requeried(s, QueryTreeSpec.Attach(w.sels));
             Fits(enc, client, [], s1) && Kept(client, server, s1, subs)
    requires client.resultTree.Model() == NOTHING_STORED
    requires dec !in subs && dec.result == map[[] := ObjectCell] && dec.query == QueryOf(s.client, w.sels)
    modifies dec, client.resultTree, client.resultTree.rootCursor
    ensures Objects(enc, client, server) == old(Objects(enc, client, server)) + {dec}
    ensures Fits(enc, client, [], Watching(s, w)) && client.resultTree.Model() == NOTHING_STORED
    ensures Kept(client, server, Watching(s, w), subs[dec := Asked(|s.client.queries|, w.sels)])
  {
    hide *;
    ObjectsAre(enc, client, server);
    ListenFirst(enc, client, server, dec, s, w, subs);
    ObjectsAre(enc, client, server);
  }

  /** A query is attached, and its decoder listens, before anything is stored. */
  method WatchNext(enc: Encoder.ResultEncoder, client: Clients.Client, server: ServerTrees.ServerTree, w: Watched,
                   ghost s: Seen, ghost subs: map<JSONDecoder, Asked>)
    returns (dec: JSONDecoder)
    requires Fits(enc, client, [], s) && Kept(client, server, s, subs) && CanWatch(s, w)
    requires client.resultTree.Model() == NOTHING_STORED
    modifies Objects(enc, client, server)
    ensures Fits(enc, client, [], Watching(s, w)) && client.resultTree.Model() == NOTHING_STORED
    ensures Kept(client, server, Watching(s, w), subs[dec := Asked(|s.client.queries|, w.sels)])
    ensures dec.query == QueryOf(s.client, w.sels) && dec !in subs
    ensures fresh(Objects(enc, client, server) - old(Objects(enc, client, server)))
  {
    hide *;
    ObjectsThere(enc, client, server);
    dec := AskFirst(enc, client, server, w, s, subs);
    ObjectsHold(enc, client, server);
    ListenAll(enc, client, server, dec, s, w, subs);
  }

  /** The decoders that were added, one for each query. */
  ghost predicate Decoders(decs: seq<JSONDecoder>, ws: seq<Watched>, subs: map<JSONDecoder, Asked>) {
    |decs| <= |ws| && forall i :: 0 <= i < |decs| ==>
      && decs[i] in subs && decs[i].query == QueryOf(WatchingAll(ws[..i]).client, ws[i].sels)
      && subs[decs[i]].sels == ws[i].sels
  }

  lemma WatchingNext(ws: seq<Watched>, i: nat)
    requires AllWatchable(ws) && i < |ws|
    ensures CanWatch(WatchingAll(ws[..i]), ws[i])
    ensures WatchingAll(ws[..i + 1]) == Watching(WatchingAll(ws[..i]), ws[i])
  {
    assert ws[..i + 1][..i] == ws[..i];
  }

  lemma DecodersMore(decs: seq<JSONDecoder>, ws: seq<Watched>, subs: map<JSONDecoder, Asked>, dec: JSONDecoder,
                     a: Asked)
    requires Decoders(decs, ws, subs) && |decs| < |ws|
    requires dec.query == QueryOf(WatchingAll(ws[..|decs|]).client, ws[|decs|].sels)
    requires dec !in subs && a.sels == ws[|decs|].sels
    ensures Decoders(decs + [dec], ws, subs[dec := a])
  {
    hide QueryOf, WatchingAll;
  }

  lemma NothingYet(enc: Encoder.ResultEncoder, client: Clients.Client, server: ServerTrees.ServerTree,
                   ws: seq<Watched>)
    requires InTouch(enc, client) && client.queryTree.View() == NEW_CLIENT
    requires client.resultTree.Model() == NOTHING_STORED
    requires client.resultTree.listeners == {} && Replication.Follows(server, NEW_CLIENT)
    ensures Fits(enc, client, [], WatchingAll(ws[..0])) && Kept(client, server, WatchingAll(ws[..0]), map[])
    ensures Decoders([], ws, map[])
  {
    hide InTouch, Replication.Follows, ServerTrees.ServerTree.Valid, ServerTrees.ServerTree.Sound;
    Replication.FollowsMeans(server, NEW_CLIENT);
    FitsFrom(enc, client, [], NOTHING_SEEN);
    KeptMeans(client, server, NOTHING_SEEN, map[]);
  }

  /** The start of a session: a stream is opened, and queries are attached and decoded. */
  method Begin(ws: seq<Watched>)
    returns (enc: Encoder.ResultEncoder, client: Clients.Client, server: ServerTrees.ServerTree,
             decs: seq<JSONDecoder>, ghost subs: map<JSONDecoder, Asked>)
    requires AllWatchable(ws)
    ensures Fits(enc, client, [], WatchingAll(ws)) && Kept(client, server, WatchingAll(ws), subs)
    ensures |decs| == |ws| && Decoders(decs, ws, subs) && fresh(Objects(enc, client, server))
  {
    hide *;
    enc, client := Connect();
    CursorsThere(client.resultTree);
    server := new ServerTrees.ServerTree();
    decs, subs := [], map[];
    StartIs();
    Replication.FollowsFrom(server, NEW_CLIENT);
    NothingYet(enc, client, server, ws);
    ObjectsAre(enc, client, server);
    assert ws[..|ws|] == ws;
    for i := 0 to |ws|
      invariant |decs| == i && Decoders(decs, ws, subs) && client.resultTree.Model() == NOTHING_STORED
      invariant Fits(enc, client, [], WatchingAll(ws[..i])) && Kept(client, server, WatchingAll(ws[..i]), subs)
      invariant fresh(Objects(enc, client, server))
    {
      ObjectsThere(enc, client, server);
      decs, subs := WatchAnother(enc, client, server, ws, decs, subs);
      ObjectsThere(enc, client, server);
    }
  }

  /** One query more is attached and decoded. */
  method WatchAnother(enc: Encoder.ResultEncoder, client: Clients.Client, server: ServerTrees.ServerTree,
                      ws: seq<Watched>, decs: seq<JSONDecoder>, ghost subs: map<JSONDecoder, Asked>)
    returns (decs': seq<JSONDecoder>, ghost subs': map<JSONDecoder, Asked>)
    requires AllWatchable(ws) && |decs| < |ws| && Decoders(decs, ws, subs)
    requires client.resultTree.Model() == NOTHING_STORED
    requires Fits(enc, client, [], WatchingAll(ws[..|decs|])) && Kept(client, server, WatchingAll(ws[..|decs|]), subs)
    modifies Objects(enc, client, server)
    ensures |decs'| == |decs| + 1 && Decoders(decs', ws, subs') && client.resultTree.Model() == NOTHING_STORED
    ensures Fits(enc, client, [], WatchingAll(ws[..|decs'|])) && Kept(client, server, WatchingAll(ws[..|decs'|]), subs')
    ensures fresh(Objects(enc, client, server) - old(Objects(enc, client, server)))
  {
    hide *;
    ghost var i := |decs|;
    ghost var s := WatchingAll(ws[..i]);
    WatchingNext(ws, i);
    var dec := WatchNext(enc, client, server, ws[|decs|], s, subs);
    DecodersMore(decs, ws, subs, dec, Asked(|s.client.queries|, ws[i].sels));
    decs', subs' := decs + [dec], subs[dec := Asked(|s.client.queries|, ws[i].sels)];
  }

  lemma StartIs()
    ensures NEW_CLIENT.tree.nodes == map[] && NEW_CLIENT.tree.next == 1
    ensures NOTHING_STORED == Dec(None, Lru.Cache([], map[]), map[[] := None])
  {
  }

  /** A session from its start: queries are attached and decoded; then queries come and go, contexts are
      opened and marked, and values are written, in any order. As long as only unlabelled contexts are
      written to, all trees are what they should be: every value has arrived, the results of dropped
      fields are gone, every decoder shows the result tree, and the server's query tree is the client's
      as long as no query announces a part of a new field twice. */
  method Play(ws: seq<Watched>, acts: seq<Act>)
    returns (enc: Encoder.ResultEncoder, client: Clients.Client, server: ServerTrees.ServerTree,
             decs: seq<JSONDecoder>, ctxs: seq<Context>, done: nat, ghost subs: map<JSONDecoder, Asked>)
    requires AllWatchable(ws) && AllAllowed(WatchingAll(ws), acts)
    ensures |decs| == |ws| && Decoders(decs, ws, subs) && done <= |acts|
    ensures Fits(enc, client, ctxs, AfterAll(WatchingAll(ws), acts[..done]))
    ensures Kept(client, server, AfterAll(WatchingAll(ws), acts[..done]), subs)
    ensures forall dec | dec in decs :: Shows(dec.query, dec.result, AfterAll(WatchingAll(ws), acts[..done]).trie)
    ensures AllDisplay(AfterAll(WatchingAll(ws), acts[..done]), decs, ws)
    ensures done < |acts| ==> acts[done].Say? && acts[done].ctx < |ctxs| && ctxs[acts[done].ctx].posIdentifier != 0
  {
    hide *;
    enc, client, server, decs, subs := Begin(ws);
    ctxs, done := [], 0;
    FirstAct(WatchingAll(ws), acts);
    var panics := false;
    while done < |acts|
      invariant done <= |acts| && !panics && Fits(enc, client, ctxs, AfterAll(WatchingAll(ws), acts[..done]))
      invariant Kept(client, server, AfterAll(WatchingAll(ws), acts[..done]), subs)
      invariant fresh(Objects(enc, client, server))
    {
      NextAct(WatchingAll(ws), acts, done);
      ObjectsThere(enc, client, server);
      ghost var ctxs0 := ctxs;
      ctxs, panics := Do(enc, client, server, ctxs, acts[done], AfterAll(WatchingAll(ws), acts[..done]), subs);
      ObjectsThere(enc, client, server);
      DoneMeans(enc, client, server, ctxs0, acts[done], AfterAll(WatchingAll(ws), acts[..done]), subs, ctxs, panics);
      if panics { break; }
      done := done + 1;
    }
    AllShow(enc, client, server, ctxs, AfterAll(WatchingAll(ws), acts[..done]), decs, ws, subs);
  }

  /** Every result is the response to its query. */
  ghost predicate AllDisplay(s: Seen, decs: seq<JSONDecoder>, ws: seq<Watched>)
    reads decs
  {
    |decs| == |ws| && forall i :: 0 <= i < |ws| ==> Displays(s.client.tree.nodes, ws[i].sels, decs[i].result, s.trie)
  }

  lemma AllShow(enc: Encoder.ResultEncoder, client: Clients.Client, server: ServerTrees.ServerTree, ctxs: seq<Context>,
                s: Seen, decs: seq<JSONDecoder>, ws: seq<Watched>, subs: map<JSONDecoder, Asked>)
    requires Fits(enc, client, ctxs, s) && Kept(client, server, s, subs) && Decoders(decs, ws, subs)
    requires |decs| == |ws|
    ensures (forall dec | dec in decs :: Shows(dec.query, dec.result, s.trie)) && AllDisplay(s, decs, ws)
  {
    FitsMeans(enc, client, ctxs, s);
    KeptMeans(client, server, s, subs);
    TouchParts(enc, client);
    hide *;
    ResultKeys(client.resultTree.listeners);
    forall dec | dec in decs
      ensures dec in subs && Shows(dec.query, dec.result, s.trie)
      ensures Displays(s.client.tree.nodes, subs[dec].sels, dec.result, s.trie)
    {
      DecoderThere(decs, ws, subs, dec);
      FollowAt(client.queryTree.View(), client.resultTree.Model(), client.resultTree.Carrying(),
        Results(client.resultTree.listeners), subs, dec);
      FollowerShows(dec.query, client.queryTree.View(), client.resultTree.Model(),
        EarsBy(client.resultTree.Carrying(), dec), dec.result, subs[dec]);
    }
    DisplayEach(s, decs, ws, subs);
  }

  lemma DisplayEach(s: Seen, decs: seq<JSONDecoder>, ws: seq<Watched>, subs: map<JSONDecoder, Asked>)
    requires Decoders(decs, ws, subs) && |decs| == |ws|
    requires forall dec | dec in decs ::
               dec in subs && Displays(s.client.tree.nodes, subs[dec].sels, dec.result, s.trie)
    ensures AllDisplay(s, decs, ws)
  {
    hide Displays;
    forall i | 0 <= i < |ws| ensures Displays(s.client.tree.nodes, ws[i].sels, decs[i].result, s.trie) {
      assert decs[i] in decs;
    }
  }

  lemma DecoderThere(decs: seq<JSONDecoder>, ws: seq<Watched>, subs: map<JSONDecoder, Asked>, dec: JSONDecoder)
    requires Decoders(decs, ws, subs) && dec in decs
    ensures dec in subs
  {
  }

  lemma FollowerShows(q: JsonHandlers.Query, c: Client, d: Dec, e: Ears, j: Json, a: Asked)
    requires Follower(q, c, d, e, j, a) && ClientOk(c)
    ensures Shows(q, j, d.trie) && Displays(c.tree.nodes, a.sels, j, d.trie)
  {
    ShowsDisplays(q, c, a.queryId, a.sels, j, d.trie);
  }

  lemma FirstAct(s: Seen, acts: seq<Act>)
    ensures AfterAll(s, acts[..0]) == s
  {
  }
}
