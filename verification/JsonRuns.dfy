/** A decoder at the end of the whole system: what it holds after a run is the plain record of the
    values written, as far as the query selects it. */
module JsonRuns {
  import opened Messages
  import opened Resolver
  import opened AliasSpec
  import opened AliasRuns
  import opened QueryTreeSpec
  import opened QueryTreeProofs
  import opened Joint
  import opened JsonHandlers
  import opened JsonDecoders
  import opened JsonResponses
  import Clients
  import Stream

  // ----- the frames of one value

  ghost function FramesOf(fs: seq<RGQLValue>): seq<Happening>
    decreases |fs|
  {
    if fs == [] then [] else [Frame(fs[0])] + FramesOf(fs[1..])
  }

  /** What is there stays, unless a value comes over it. */
  ghost predicate Leads(t: Trie, t': Trie) {
    forall p :: p in t ==> p in t' && (t'[p] == t[p] || t'[p].Some?)
  }

  lemma StepLeads(live: set<QPath>, d: Dec, f: RGQLValue, size: nat)
    requires Handle(live, d, f, size).Handled?
    ensures Leads(d.trie, Handle(live, d, f, size).dec.trie)
  {
  }

  lemma LeadsTrans(a: Trie, b: Trie, c: Trie)
    requires Leads(a, b) && Leads(b, c)
    ensures Leads(a, c)
  {
  }

  lemma {:induction false} FramesLead(live: set<QPath>, d: Dec, fs: seq<RGQLValue>, size: nat)
    requires HandleAll(live, d, fs, size).Handled?
    ensures Leads(d.trie, HandleAll(live, d, fs, size).dec.trie)
    decreases |fs|
  {
    hide Handle, Leads;
    if fs == [] {
      LeadsSelf(d.trie);
    } else {
      var d' := Handle(live, d, fs[0], size).dec;
      StepLeads(live, d, fs[0], size);
      FramesLead(live, d', fs[1..], size);
      LeadsTrans(d.trie, d'.trie, HandleAll(live, d', fs[1..], size).dec.trie);
    }
  }

  lemma LeadsSelf(t: Trie)
    ensures Leads(t, t)
  {
  }

  /** On the way to a tree without clashes there are none. */
  lemma KindsOnTheWay(q: Query, t: Trie, t': Trie)
    requires Leads(t, t') && KindsOk(q, t')
    ensures KindsOk(q, t)
  {
    forall p, s | Opens(q, t, p, s) ensures Opens(q, t', p, s) { }
  }

  /** The client takes the frames of one value one after the other. */
  lemma {:induction false} FramesHappen(q: Query, c: Client, d: Dec, fs: seq<RGQLValue>, hs: seq<Happening>, size: nat)
    requires HandleAll(Live(c.tree.nodes), d, fs, size).Handled? && forall f | f in fs :: FrameOk(f)
    ensures var d' := HandleAll(Live(c.tree.nodes), d, fs, size).dec;
            && Happen(c, d, FramesOf(fs) + hs, size) == Happen(c, d', hs, size)
            && (KindsOk(q, d'.trie) && Decodable(q, c, d', hs, size) ==> Decodable(q, c, d, FramesOf(fs) + hs, size))
    decreases |fs|
  {
    hide Handle, KindsOk, Leads, Live;
    if fs == [] {
      assert FramesOf(fs) + hs == hs;
    } else {
      var live := Live(c.tree.nodes);
      var d1 := Handle(live, d, fs[0], size).dec;
      var all := FramesOf(fs) + hs;
      assert all[0] == Frame(fs[0]) && all[1..] == FramesOf(fs[1..]) + hs;
      assert fs[0] in fs;
      FramesHappen(q, c, d1, fs[1..], hs, size);
      FramesLead(live, d, fs, size);
      if KindsOk(q, HandleAll(live, d, fs, size).dec.trie) {
        KindsOnTheWay(q, d.trie, HandleAll(live, d, fs, size).dec.trie);
      }
    }
  }

  // ----- a whole run, as the client sees it

  ghost function FramesSent(w: World, ev: Event, size: nat): seq<RGQLValue>
    requires ev.WriteValue? ==> Chained(ev.ctx)
  {
    if !ev.WriteValue? then []
    else
      var s := Write(w.enc, ev.ctx, ev.finals, ev.payload, size, Intended);
      if s.Sent? then s.frames else []
  }

  /** The frames of the values, and the operations of the client, in order. */
  ghost function Played(w: World, c: Client, acts: seq<Action>, size: nat): seq<Happening>
    requires ServerPlays(w, c, acts, size, Intended)
    decreases |acts|
  {
    if acts == [] then []
    else
      match acts[0]
      case Server(ev) =>
        FramesOf(FramesSent(w, ev, size)) + Played(Next(w, ev, size, Intended), c, acts[1..], size)
      case ClientOp(op) =>
        var c' := Apply(c, op);
        [Happening.Query(op)]
          + Played(Next(w, Requery(Live(c'.tree.nodes), c'.tree.next), size, Intended), c', acts[1..], size)
  }

  /** Between values, no position of the plain tree is a value and a container, or a list and an
      object. */
  ghost predicate PlainKinds(q: Query, trie: Trie, live: set<QPath>, evs: seq<Event>)
    decreases |evs|
  {
    && KindsOk(q, trie)
    && (evs != [] ==>
          match evs[0]
          case Open(_) => PlainKinds(q, trie, live, evs[1..])
          case WriteValue(c, _, p) => PlainKinds(q, Direct(live, trie, c.path, Carried(p)), live, evs[1..])
          case Requery(live', _) => PlainKinds(q, Restrict(trie, live'), live', evs[1..]))
  }

  ghost predicate Following(w: World, c: Client, size: nat) {
    && ClientOk(c) && WorldOk(w, size, Intended) && w.live == Live(c.tree.nodes) && w.bound == c.tree.next && 2 <= size
  }

  /** One written value. */
  lemma ValuePlays(q: Query, w: World, c: Client, ev: Event, size: nat)
    requires Following(w, c, size) && ev.WriteValue? && Enabled(w, ev) && Chained(ev.ctx)
    requires Clean(w, ev, size, Intended)
    ensures var w', fs := Next(w, ev, size, Intended), FramesSent(w, ev, size);
            && Following(w', c, size) && w'.dec.trie == Direct(w.live, w.dec.trie, ev.ctx.path, Carried(ev.payload))
            && HandleAll(w.live, w.dec, fs, size) == Handled(w'.dec) && forall f | f in fs :: FrameOk(f)
  {
    WriteKeepsOk(w, ev, size, Intended);
    NextIs(w, ev, size);
    NextPositive(c);
    Stream.WriteFits(w.enc, w.dec, w.bound, size, ev.ctx, ev.finals, ev.payload);
  }

  lemma NextPositive(c: Client)
    requires ClientOk(c)
    ensures 0 < c.tree.next
  {
  }

  lemma NextIs(w: World, ev: Event, size: nat)
    requires ev.WriteValue? && Chained(ev.ctx)
    requires AliasSync.Arrives(w.live, w.enc, w.dec, ev.ctx, ev.finals, ev.payload, size, Intended)
    ensures var w', fs := Next(w, ev, size, Intended), FramesSent(w, ev, size);
            HandleAll(w.live, w.dec, fs, size) == Handled(w'.dec) && w'.live == w.live && w'.bound == w.bound
  {
  }

  lemma OpPlays(w: World, c: Client, op: Op, size: nat)
    requires Following(w, c, size)
    ensures var c' := Apply(c, op);
            var w' := Next(w, Requery(Live(c'.tree.nodes), c'.tree.next), size, Intended);
            && Following(w', c', size) && w'.dec == w.dec.(trie := Restrict(w.dec.trie, Live(c'.tree.nodes)))
  {
    var c' := Apply(c, op);
    OpIsRequery(w, c, op);
    ReferencesConserved(c, op);
    RequeryKeepsOk(w, Live(c'.tree.nodes), c'.tree.next, size, Intended);
  }

  lemma OpenPlays(w: World, c: Client, ctx: Context, size: nat)
    requires Following(w, c, size) && Enabled(w, Open(ctx))
    ensures var w' := Next(w, Open(ctx), size, Intended); Following(w', c, size) && w'.dec == w.dec && w'.live == w.live
  {
    OpenKeepsOk(w, ctx, size, Intended);
  }

  /** What the client sees of a clean run is a run of its own, which ends with the same tree. */
  lemma {:induction false} RunPlays(q: Query, w: World, c: Client, acts: seq<Action>, size: nat)
    requires Following(w, c, size) && ServerPlays(w, c, acts, size, Intended)
    requires AllClean(w, Lower(c, acts), size, Intended)
    requires PlainKinds(q, w.dec.trie, w.live, Lower(c, acts))
    ensures Happen(c, w.dec, Played(w, c, acts, size), size) ==
            (After(c, acts), Final(w, Lower(c, acts), size, Intended).dec)
    ensures Decodable(q, c, w.dec, Played(w, c, acts, size), size)
    ensures Following(Final(w, Lower(c, acts), size, Intended), After(c, acts), size)
    decreases |acts|
  {
    hide Following, Next, Apply, Live, KindsOk, Enabled, Clean, Handle, FramesSent, Direct, Restrict;
    if acts != [] {
      match acts[0] {
        case Server(ev) =>
          assert Lower(c, acts)[1..] == Lower(c, acts[1..]);
          var w', hs := Next(w, ev, size, Intended), Played(Next(w, ev, size, Intended), c, acts[1..], size);
          FollowingMeans(w, c, size);
          if ev.WriteValue? {
            ValuePlays(q, w, c, ev, size);
            NextSame(w, ev, size);
            RunPlays(q, w', c, acts[1..], size);
            KindsNow(q, w'.dec.trie, w'.live, Lower(c, acts[1..]));
            FramesHappen(q, c, w.dec, FramesSent(w, ev, size), hs, size);
          } else {
            OpenPlays(w, c, ev.ctx, size);
            RunPlays(q, w', c, acts[1..], size);
            NoFrames(w, ev, size);
            assert FramesOf([]) + hs == hs;
          }
        case ClientOp(op) =>
          var c' := Apply(c, op);
          var ev := Requery(Live(c'.tree.nodes), c'.tree.next);
          assert Lower(c, acts)[1..] == Lower(c', acts[1..]);
          OpPlays(w, c, op, size);
          NextSame(w, ev, size);
          FollowingMeans(w, c, size);
          RunPlays(q, Next(w, ev, size, Intended), c', acts[1..], size);
          assert Played(w, c, acts, size)[1..] == Played(Next(w, ev, size, Intended), c', acts[1..], size);
      }
    }
  }

  lemma FollowingMeans(w: World, c: Client, size: nat)
    requires Following(w, c, size)
    ensures w.live == Live(c.tree.nodes) && ClientOk(c)
  {
  }

  lemma NextSame(w: World, ev: Event, size: nat)
    requires ev.WriteValue? ==> Chained(ev.ctx)
    ensures Next(w, ev, size, Intended).live == if ev.Requery? then ev.live else w.live
  {
  }

  lemma NoFrames(w: World, ev: Event, size: nat)
    requires !ev.WriteValue?
    ensures FramesSent(w, ev, size) == []
  {
  }

  lemma KindsNow(q: Query, trie: Trie, live: set<QPath>, evs: seq<Event>)
    requires PlainKinds(q, trie, live, evs)
    ensures KindsOk(q, trie)
  {
  }

  // ----- what the decoder holds

  lemma FollowingSound(w: World, c: Client, size: nat)
    requires Following(w, c, size)
    ensures DecSound(Live(c.tree.nodes), w.dec, size) && Clients.CursorsBounded(w.dec, c.tree.next)
  {
  }

  ghost predicate NeverDetached(acts: seq<Action>, n: nat) {
    forall i :: 0 <= i < |acts| ==> acts[i] != ClientOp(Detach(n))
  }

  lemma {:induction false} FramesUndetached(fs: seq<RGQLValue>, hs: seq<Happening>, n: nat)
    requires Undetached(hs, n)
    ensures Undetached(FramesOf(fs) + hs, n)
    decreases |fs|
  {
    if fs == [] {
      assert FramesOf(fs) + hs == hs;
    } else {
      FramesUndetached(fs[1..], hs, n);
      assert FramesOf(fs) + hs == [Frame(fs[0])] + (FramesOf(fs[1..]) + hs);
    }
  }

  lemma {:induction false} PlayedUndetached(w: World, c: Client, acts: seq<Action>, size: nat, n: nat)
    requires ServerPlays(w, c, acts, size, Intended) && NeverDetached(acts, n)
    ensures Undetached(Played(w, c, acts, size), n)
    decreases |acts|
  {
    if acts != [] {
      match acts[0] {
        case Server(ev) =>
          PlayedUndetached(Next(w, ev, size, Intended), c, acts[1..], size, n);
          hide *;
          FramesUndetached(FramesSent(w, ev, size), Played(Next(w, ev, size, Intended), c, acts[1..], size), n);
          PlayedFirst(w, c, acts, size);
        case ClientOp(op) =>
          var c' := Apply(c, op);
          PlayedUndetached(Next(w, Requery(Live(c'.tree.nodes), c'.tree.next), size, Intended), c', acts[1..], size, n);
          assert acts[0] != ClientOp(Detach(n));
      }
    }
  }

  lemma PlayedFirst(w: World, c: Client, acts: seq<Action>, size: nat)
    requires ServerPlays(w, c, acts, size, Intended) && acts != [] && acts[0].Server?
    ensures Played(w, c, acts, size) ==
            FramesOf(FramesSent(w, acts[0].event, size))
              + Played(Next(w, acts[0].event, size, Intended), c, acts[1..], size)
  {
  }

  /** After any clean run of contexts, values, attaches and detaches of other queries, the decoder of
      an attached query has not thrown, and its object is the selected part of the plain record: every
      value stored under its path as it was written, purged along with the query tree. Every cursor has
      to carry the handler of its path at the start, or stand where nothing more can come. */
  lemma CleanRunShows(q: Query, n: nat, sels: seq<Sel>, w: World, c: Client, acts: seq<Action>, e: Ears, j: Json,
                      size: nat)
    requires Following(w, c, size) && ServerPlays(w, c, acts, size, Intended)
    requires AllClean(w, Lower(c, acts), size, Intended)
    requires ResponsesApart(sels) && Decodes(q, c, n, sels) && NeverDetached(acts, n)
    requires Shows(q, j, w.dec.trie) && Tuned(q, w.dec, e) && PlainKinds(q, w.dec.trie, w.live, Lower(c, acts))
    ensures var r := Decode(q, c, w.dec, e, j, Played(w, c, acts, size), size);
            && r.Heard? && Shows(q, r.json, Plain(w.dec.trie, w.live, Lower(c, acts)))
            && Displays(c.tree.nodes, sels, r.json, Plain(w.dec.trie, w.live, Lower(c, acts)))
  {
    hide *;
    FollowingMeans(w, c, size);
    FollowingSound(w, c, size);
    FollowingWorld(w, c, acts, size);
    RunPlays(q, w, c, acts, size);
    PlayedUndetached(w, c, acts, size, n);
    DecoderFollows(q, n, sels, c, w.dec, e, j, Played(w, c, acts, size), size);
    FollowsMeans(q, c, w.dec, e, j, Played(w, c, acts, size), size);
    RespondsMeans(q, sels, c, w.dec, e, j, Played(w, c, acts, size), size);
    RunExact(w, Lower(c, acts), size, Intended);
  }

  lemma RespondsMeans(q: Query, sels: seq<Sel>, c: Client, d: Dec, e: Ears, j: Json, hs: seq<Happening>, size: nat)
    requires Responds(q, sels, c, d, e, j, hs, size)
    ensures Displays(c.tree.nodes, sels, Decode(q, c, d, e, j, hs, size).json, Happen(c, d, hs, size).1.trie)
  {
  }

  lemma FollowingWorld(w: World, c: Client, acts: seq<Action>, size: nat)
    requires Following(w, c, size) && ServerPlays(w, c, acts, size, Intended)
    ensures WorldOk(w, size, Intended) && 2 <= size && AllEnabled(w, Lower(c, acts), size, Intended)
  {
    LowerEnabled(w, c, acts, size, Intended);
  }

  /** The whole way: a query is attached to a new client, a decoder is made for it, and then values
      are written and other queries come and go. */
  lemma FromTheStart(sels: seq<Sel>, acts: seq<Action>, size: nat)
    requires 2 <= size && !Walk(NEW_CLIENT.tree, 0, sels, false).failed && ResponsesApart(sels)
    requires
      var c := Apply(NEW_CLIENT, Attach(sels));
      var w := Start(Live(c.tree.nodes), c.tree.next);
      && ServerPlays(w, c, acts, size, Intended) && AllClean(w, Lower(c, acts), size, Intended)
      && NeverDetached(acts, 1)
      && PlainKinds(QueryOf(NEW_CLIENT, sels), map[[] := None], w.live, Lower(c, acts))
    ensures
      var q, c := QueryOf(NEW_CLIENT, sels), Apply(NEW_CLIENT, Attach(sels));
      var w := Start(Live(c.tree.nodes), c.tree.next);
      var r := Decode(q, c, w.dec, LateEars(q, w.dec), map[[] := ObjectCell], Played(w, c, acts, size), size);
      && r.Heard? && Shows(q, r.json, Plain(map[[] := None], w.live, Lower(c, acts)))
      && Displays(c.tree.nodes, sels, r.json, Plain(map[[] := None], w.live, Lower(c, acts)))
  {
    var q, c := QueryOf(NEW_CLIENT, sels), Apply(NEW_CLIENT, Attach(sels));
    var w := Start(Live(c.tree.nodes), c.tree.next);
    NewClientOk();
    ReferencesConserved(NEW_CLIENT, Attach(sels));
    AttachDecodes(NEW_CLIENT, sels);
    StartFollows(c, size);
    NothingShown(q);
    assert Tuned(q, w.dec, LateEars(q, w.dec));
    CleanRunShows(q, 1, sels, w, c, acts, LateEars(q, w.dec), map[[] := ObjectCell], size);
  }

  lemma NewClientOk()
    ensures ClientOk(NEW_CLIENT) && |NEW_CLIENT.queries| == 1
  {
  }

  lemma StartFollows(c: Client, size: nat)
    requires ClientOk(c) && 2 <= size
    ensures Following(Start(Live(c.tree.nodes), c.tree.next), c, size)
  {
    LivePrefixClosed(c.tree.next, c.tree.nodes);
    StartOk(Live(c.tree.nodes), c.tree.next, size, Intended);
  }

  lemma NothingShown(q: Query)
    ensures Shows(q, map[[] := ObjectCell], map[[] := None])
  {
  }
}
