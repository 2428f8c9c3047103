/** A decoder that listens to a client in place: while it hears what its cursors carry, its object is
    the selected part of the result tree (client/running-query.ts, client/result-tree.ts). */
module JsonLive {
  import opened Messages
  import opened AliasSpec
  import opened AliasRuns
  import opened ResultNodes
  import opened QueryTreeSpec
  import opened QueryTreeProofs
  import opened Joint
  import opened JsonHandlers
  import opened JsonDecoders
  import opened JsonResponses
  import opened JsonRuns
  import opened JsonLate
  import Clients

  // ----- a batch of frames

  /** A batch that is handled to its end: no decoder that is tuned throws, and it shows the new tree. */
  lemma {:induction false} BatchFollows(q: Query, live: set<QPath>, d: Dec, e: Ears, j: Json, fs: seq<RGQLValue>,
                                        size: nat)
    requires KeysApart(q) && Attached(q, live) && Shows(q, j, d.trie) && Tuned(q, d, e)
    requires PrefixClosed(live) && DecSound(live, d, size) && (forall f | f in fs :: FrameOk(f))
    requires HandleAll(live, d, fs, size).Handled? && KindsOk(q, HandleAll(live, d, fs, size).dec.trie)
    ensures
      var d', r := HandleAll(live, d, fs, size).dec, HearAll(q, live, d, e, j, fs, size);
      r.Heard? && Shows(q, r.json, d'.trie) && Tuned(q, d', r.ears)
    decreases |fs|
  {
    hide KeysApart, Attached, Shows, Tuned, PrefixClosed, DecSound, FrameOk, KindsOk, Handle, Hear, Leads;
    if fs != [] {
      var d1 := Handle(live, d, fs[0], size).dec;
      assert fs[0] in fs;
      FramesLead(live, d1, fs[1..], size);
      KindsOnTheWay(q, d1.trie, HandleAll(live, d, fs, size).dec.trie);
      TunedFrame(q, live, d, e, j, fs[0], size);
      HandleParts(live, d, fs[0], size);
      var r := Hear(q, live, d, e, j, fs[0], d1);
      BatchFollows(q, live, d1, r.ears, r.json, fs[1..], size);
    }
  }

  // ----- all decoders of a client

  /** The attached query a decoder was made for. */
  datatype Asked = Asked(queryId: nat, sels: seq<Sel>)

  /** The object of an attached query's decoder shows the tree, and it will hear whatever may come. */
  ghost predicate Follower(q: Query, c: Client, d: Dec, e: Ears, j: Json, a: Asked) {
    ResponsesApart(a.sels) && Decodes(q, c, a.queryId, a.sels) && Shows(q, j, d.trie) && Tuned(q, d, e)
  }

  ghost predicate AllFollow(c: Client, d: Dec, all: Handlers, now: map<JSONDecoder, Json>,
                            subs: map<JSONDecoder, Asked>)
  {
    && now.Keys == subs.Keys
    && forall dec :: dec in subs ==> Follower(dec.query, c, d, EarsBy(all, dec), now[dec], subs[dec])
  }

  /** No position of the tree is a value and a container, or a list and an object, to any decoder. */
  ghost predicate KindsFit(subs: map<JSONDecoder, Asked>, t: Trie) {
    forall dec :: dec in subs ==> KindsOk(dec.query, t)
  }

  /** A batch that is handled to its end keeps every decoder following. */
  lemma BatchKeeps(c: Client, d: Dec, fs: seq<RGQLValue>, size: nat, subs: map<JSONDecoder, Asked>,
                   now: map<JSONDecoder, Json>, all: Handlers, threw: bool, now': map<JSONDecoder, Json>,
                   all': Handlers)
    requires ClientOk(c) && DecSound(Live(c.tree.nodes), d, size) && (forall f | f in fs :: FrameOk(f))
    requires HandleAll(Live(c.tree.nodes), d, fs, size).Handled?
    requires KindsFit(subs, HandleAll(Live(c.tree.nodes), d, fs, size).dec.trie)
    requires AllFollow(c, d, all, now, subs)
    requires AllHeard(subs.Keys, Live(c.tree.nodes), d, fs, size, now, all, threw, now', all')
    ensures !threw && AllFollow(c, HandleAll(Live(c.tree.nodes), d, fs, size).dec, all', now', subs)
  {
    LivePrefixClosed(c.tree.next, c.tree.nodes);
    hide *;
    AllHeardMeans(subs.Keys, Live(c.tree.nodes), d, fs, size, now, all, threw, now', all');
    forall dec | dec in subs
      ensures
        var r := HearAll(dec.query, Live(c.tree.nodes), d, EarsBy(all, dec), now[dec], fs, size);
        && r.Heard?
        && Follower(dec.query, c, HandleAll(Live(c.tree.nodes), d, fs, size).dec, r.ears, r.json, subs[dec])
    {
      FollowAt(c, d, all, now, subs, dec);
      KindsAt(subs, HandleAll(Live(c.tree.nodes), d, fs, size).dec.trie, dec);
      FollowerHears(dec.query, c, d, EarsBy(all, dec), now[dec], fs, size, subs[dec]);
    }
    AllFollowFrom(c, HandleAll(Live(c.tree.nodes), d, fs, size).dec, all', now', subs);
  }

  lemma FollowerHears(q: Query, c: Client, d: Dec, e: Ears, j: Json, fs: seq<RGQLValue>, size: nat, a: Asked)
    requires ClientOk(c) && DecSound(Live(c.tree.nodes), d, size) && (forall f | f in fs :: FrameOk(f))
    requires PrefixClosed(Live(c.tree.nodes)) && HandleAll(Live(c.tree.nodes), d, fs, size).Handled?
    requires KindsOk(q, HandleAll(Live(c.tree.nodes), d, fs, size).dec.trie) && Follower(q, c, d, e, j, a)
    ensures
      var r := HearAll(q, Live(c.tree.nodes), d, e, j, fs, size);
      r.Heard? && Follower(q, c, HandleAll(Live(c.tree.nodes), d, fs, size).dec, r.ears, r.json, a)
  {
    hide Decodes, ResponsesApart, Shows, Tuned, DecSound, KindsOk, HearAll, HandleAll, FrameOk;
    ResponsesKeys(q, c, a.queryId, a.sels);
    DecodesAttached(q, c, a.queryId, a.sels);
    BatchFollows(q, Live(c.tree.nodes), d, e, j, fs, size);
  }

  lemma AllHeardMeans(heard: set<JSONDecoder>, live: set<QPath>, d: Dec, fs: seq<RGQLValue>, size: nat,
                      before: map<JSONDecoder, Json>, all: Handlers, threw: bool, after: map<JSONDecoder, Json>,
                      all': Handlers)
    requires AllHeard(heard, live, d, fs, size, before, all, threw, after, all')
    ensures before.Keys == heard && after.Keys == heard
    ensures
      threw ==>
      exists dec :: dec in heard && HearAll(dec.query, live, d, EarsBy(all, dec), before[dec], fs, size) == HeardThrow
    ensures !threw ==> forall dec :: dec in heard ==>
              HearAll(dec.query, live, d, EarsBy(all, dec), before[dec], fs, size) ==
              Heard(after[dec], EarsBy(all', dec))
  {
  }

  lemma FollowAt(c: Client, d: Dec, all: Handlers, now: map<JSONDecoder, Json>, subs: map<JSONDecoder, Asked>,
                 dec: JSONDecoder)
    requires AllFollow(c, d, all, now, subs) && dec in subs
    ensures now.Keys == subs.Keys && Follower(dec.query, c, d, EarsBy(all, dec), now[dec], subs[dec])
  {
  }

  lemma KindsAt(subs: map<JSONDecoder, Asked>, t: Trie, dec: JSONDecoder)
    requires KindsFit(subs, t) && dec in subs
    ensures KindsOk(dec.query, t)
  {
  }

  lemma AllFollowFrom(c: Client, d: Dec, all: Handlers, now: map<JSONDecoder, Json>, subs: map<JSONDecoder, Asked>)
    requires now.Keys == subs.Keys
    requires forall dec :: dec in subs ==> Follower(dec.query, c, d, EarsBy(all, dec), now[dec], subs[dec])
    ensures AllFollow(c, d, all, now, subs)
  {
  }

  /** The operation detaches none of the decoded queries. */
  ghost predicate Keeps(subs: map<JSONDecoder, Asked>, op: Op) {
    forall dec :: dec in subs ==> op != Detach(subs[dec].queryId)
  }

  /** An attach, or a detach of another query, keeps every decoder following. */
  lemma OpKeeps(c: Client, op: Op, d: Dec, all: Handlers, now: map<JSONDecoder, Json>,
                subs: map<JSONDecoder, Asked>)
    requires ClientOk(c) && AllFollow(c, d, all, now, subs) && Keeps(subs, op)
    ensures AllFollow(Apply(c, op), d.(trie := Restrict(d.trie, Live(Apply(c, op).tree.nodes))), all, now, subs)
  {
    ReferencesConserved(c, op);
    hide *;
    var c' := Apply(c, op);
    var d' := d.(trie := Restrict(d.trie, Live(c'.tree.nodes)));
    forall dec | dec in subs ensures Follower(dec.query, c', d', EarsBy(all, dec), now[dec], subs[dec]) {
      FollowAt(c, d, all, now, subs, dec);
      KeepsAt(subs, op, dec);
      FollowerStays(dec.query, c, op, d, EarsBy(all, dec), now[dec], subs[dec]);
    }
    FollowKeys(c, d, all, now, subs);
    AllFollowFrom(c', d', all, now, subs);
  }

  lemma FollowKeys(c: Client, d: Dec, all: Handlers, now: map<JSONDecoder, Json>, subs: map<JSONDecoder, Asked>)
    requires AllFollow(c, d, all, now, subs)
    ensures now.Keys == subs.Keys
  {
  }

  lemma KeepsAt(subs: map<JSONDecoder, Asked>, op: Op, dec: JSONDecoder)
    requires Keeps(subs, op) && dec in subs
    ensures op != Detach(subs[dec].queryId)
  {
  }

  lemma FollowerStays(q: Query, c: Client, op: Op, d: Dec, e: Ears, j: Json, a: Asked)
    requires ClientOk(c) && ClientOk(Apply(c, op)) && Follower(q, c, d, e, j, a) && op != Detach(a.queryId)
    ensures Follower(q, Apply(c, op), d.(trie := Restrict(d.trie, Live(Apply(c, op).tree.nodes))), e, j, a)
  {
    hide Decodes, ResponsesApart, Shows, Tuned, Apply, Restrict, ClientOk;
    var c' := Apply(c, op);
    DecodesStays(q, c, a.queryId, a.sels, op);
    DecodesAttached(q, c', a.queryId, a.sels);
    PurgeFollows(q, j, d.trie, Live(c'.tree.nodes));
    TunedOp(q, d, e, Live(c'.tree.nodes));
  }

  // ----- in place

  /** Every decoder that listens to the client follows it. */
  ghost predicate Shown(client: Clients.Client, subs: map<JSONDecoder, Asked>)
    reads client.queryTree, client.resultTree, client.resultTree.pathCache, client.resultTree.Cursors()
    reads client.resultTree.at.Values`value, client.resultTree.listeners`result
  {
    && client.resultTree.listeners == subs.Keys
    && AllFollow(client.queryTree.View(), client.resultTree.Model(), client.resultTree.Carrying(),
                 Results(client.resultTree.listeners), subs)
  }

  lemma ShownMeans(client: Clients.Client, subs: map<JSONDecoder, Asked>)
    ensures
      Shown(client, subs) <==>
      && client.resultTree.listeners == subs.Keys
      && AllFollow(client.queryTree.View(), client.resultTree.Model(), client.resultTree.Carrying(),
                   Results(client.resultTree.listeners), subs)
  {
  }

  /** A decoder that is added when no cursor waits follows the client, like the others. */
  method Listen(client: Clients.Client, dec: JSONDecoder, ghost a: Asked, ghost subs: map<JSONDecoder, Asked>)
    requires client.Valid() && Shown(client, subs) && dec !in subs && dec.result == map[[] := ObjectCell]
    requires ResponsesApart(a.sels) && Decodes(dec.query, client.queryTree.View(), a.queryId, a.sels)
    requires KindsOk(dec.query, client.resultTree.Model().trie) && NoneWaits(dec.query, client.resultTree.Model())
    modifies dec, client.resultTree`handlers, client.resultTree`listeners, client.resultTree.rootCursor`resultHandlers
    ensures client.Valid() && client.queryTree.View() == old(client.queryTree.View())
    ensures client.resultTree.Model() == old(client.resultTree.Model()) && Shown(client, subs[dec := a])
    ensures Displays(client.queryTree.View().tree.nodes, a.sels, dec.result, client.resultTree.Model().trie)
  {
    hide *;
    Clients.ClientMeans(client);
    ShownMeans(client, subs);
    ResponsesKeys(dec.query, client.queryTree.View(), a.queryId, a.sels);
    LateTuned(dec.query, client.resultTree.Model());
    ghost var d, all, now, heard := client.resultTree.Model(), client.resultTree.Carrying(),
      Results(client.resultTree.listeners), client.resultTree.listeners;
    ResultKeys(heard);
    var threw := AddResultHandler(client.resultTree, dec, client.queryTree.nodes + client.queryTree.dropped);
    Clients.ClientFrom(client);
    ResultKeys(client.resultTree.listeners);
    OneMore(client.queryTree.View(), d, all, now, subs, client.resultTree.Carrying(),
      Results(client.resultTree.listeners), dec, a);
    ShownMeans(client, subs[dec := a]);
  }

  lemma OneMore(c: Client, d: Dec, all: Handlers, now: map<JSONDecoder, Json>, subs: map<JSONDecoder, Asked>,
                all': Handlers, now': map<JSONDecoder, Json>, dec: JSONDecoder, a: Asked)
    requires AllFollow(c, d, all, now, subs) && dec !in subs && now'.Keys == subs.Keys + {dec}
    requires forall x :: x in subs ==> EarsBy(all', x) == EarsBy(all, x) && now'[x] == now[x]
    requires ResponsesApart(a.sels) && Decodes(dec.query, c, a.queryId, a.sels) && Shows(dec.query, now'[dec], d.trie)
    requires Tuned(dec.query, d, EarsBy(all', dec))
    ensures AllFollow(c, d, all', now', subs[dec := a])
  {
    hide ResponsesApart, Decodes, Shows, Tuned, EarsBy;
  }
}
