/** The client's tree and the server's tree, kept in step by the mutations the client sends. */
module Replication {
  import opened QueryTreeSpec
  import opened QueryTreeProofs
  import opened QueryTreeReplica
  import opened QueryTreeRoots
  import opened QueryTreeHistory
  import opened QueryTrees
  import opened ServerTrees

  // ----- what is sent is new to the server

  lemma {:induction false} DropsFreshly(dropped: set<nat>, ms: seq<Mutation>, ever: set<nat>)
    requires forall i | 0 <= i < |ms| :: ms[i].Delete?
    ensures Freshly(ever, ms) && AddedIds(ms) == {}
  {
    if ms != [] { DropsFreshly(dropped, ms[..|ms| - 1], ever); }
  }

  /** The announced subtrees consist of new nodes, and no two share one. */
  lemma {:induction false} AnnouncedFreshly(t: Tree, w: Tree, added: seq<nat>, ms: seq<Mutation>, k: nat,
                                            ever: set<nat>)
    requires TreeOk(t) && TreeOk(w) && Extends(t, w) && (forall id | id in ever :: id < t.next)
    requires Distinct2(added) && (forall x :: x in added ==> QueryTreeReplica.IsNew(t, w, x)) && RootsOld(t, w, added)
    requires Announces(w.nodes, added, ms) && k <= |ms|
    ensures Freshly(ever, ms[..k])
    ensures forall x | x in AddedIds(ms[..k]) :: t.next <= x < w.next && x in Announced(t, w, added, k)
  {
    hide *;
    if k == 0 {
      NoneAnnounced(ever, ms);
    } else {
      AnnouncedFreshly(t, w, added, ms, k - 1, ever);
      AnnounceFacts(t, w, added, ms, k - 1);
      assert forall x | x in added :: QueryTreeReplica.IsNew(t, w, x);
      AnnouncedApart(t, w, added, k - 1);
      var m, before := ms[k - 1], ms[..k - 1];
      forall x | x in Flatten(m.nodeId, m.node)
        ensures t.next <= x < w.next && x !in AddedIds(before) && x !in ever && x in Announced(t, w, added, k)
      {
        AnnouncedNew(t, w, added, k - 1, x);
      }
      FreshlyStep(ever, ms, k, m);
      forall x | x in AddedIds(before) ensures x in Announced(t, w, added, k) { AnnouncedMore(t, w, added, k - 1, x); }
    }
  }

  lemma NoneAnnounced(ever: set<nat>, ms: seq<Mutation>)
    ensures Freshly(ever, ms[..0]) && AddedIds(ms[..0]) == {}
  {
  }

  lemma AnnouncedNew(t: Tree, w: Tree, added: seq<nat>, k: nat, x: nat)
    requires TreeOk(t) && TreeOk(w) && Extends(t, w) && k < |added| && x in Sub(w.nodes, added[k])
    requires Sub(w.nodes, added[k]).Keys !! Announced(t, w, added, k).Keys
    ensures t.next <= x < w.next && x !in Announced(t, w, added, k) && x in Announced(t, w, added, k + 1)
  {
  }

  lemma AnnouncedMore(t: Tree, w: Tree, added: seq<nat>, k: nat, x: nat)
    requires k < |added| && x in Announced(t, w, added, k)
    ensures x in Announced(t, w, added, k + 1)
  {
  }

  lemma FreshlyStep(ever: set<nat>, ms: seq<Mutation>, k: nat, m: Mutation)
    requires 0 < k <= |ms| && ms[k - 1] == m && m.AddChild? && Freshly(ever, ms[..k - 1]) && Tidy(m.nodeId, [m.node])
    requires forall x | x in Flatten(m.nodeId, m.node) :: x !in ever && x !in AddedIds(ms[..k - 1])
    ensures Freshly(ever, ms[..k]) && AddedIds(ms[..k]) == AddedIds(ms[..k - 1]) + Flatten(m.nodeId, m.node).Keys
  {
    assert ms[..k][..k - 1] == ms[..k - 1] && ms[..k][k - 1] == m;
  }

  /** Nothing an operation adds was ever known to a server that only knows ids given out before. */
  lemma EmittedFreshly(c: Client, op: Op, ms: seq<Mutation>, ever: set<nat>)
    requires ClientOk(c) && Emits(c, op, ms) && OpSendable(c, op) && forall id | id in ever :: id < c.tree.next
    ensures Freshly(ever, ms) && forall id | id in ever + AddedIds(ms) :: id < Apply(c, op).tree.next
  {
    ReferencesConserved(c, op);
    if op.Attach? { FailsExactly(c.tree, 0, op.sels, false); }
    if op.Attach? && Resolves(op.sels) {
      AttachFreshly(c.tree, op.sels, ms, ever);
    } else {
      DropsFreshly({}, ms, ever);
    }
  }

  lemma AttachFreshly(t: Tree, sels: seq<Sel>, ms: seq<Mutation>, ever: set<nat>)
    requires TreeOk(t) && Resolves(sels) && Whole(t.nodes, sels) && forall id | id in ever :: id < t.next
    requires Announces(Walk(t, 0, sels, false).tree.nodes, Walk(t, 0, sels, false).added, ms)
    ensures Freshly(ever, ms) && forall x | x in AddedIds(ms) :: x < Walk(t, 0, sels, false).tree.next
  {
    var w := Walk(t, 0, sels, false);
    WalkGrows(t, sels);
    WholeIsOld(t, sels);
    hide *;
    GrownMeans(t, w);
    AnnouncedFreshly(t, w.tree, w.added, ms, |ms|, ever);
    assert ms[..|ms|] == ms;
  }

  lemma GrownMeans(t: Tree, w: Walked)
    requires QueryTreeReplica.Grown(t, w)
    ensures TreeOk(t) && TreeOk(w.tree) && Extends(t, w.tree)
    ensures Distinct2(w.added) && forall x :: x in w.added ==> QueryTreeReplica.IsNew(t, w.tree, x)
  {
  }

  // ----- what is sent twice

  lemma {:induction false} FirstLate(t: Tree, w: Tree, added: seq<nat>) returns (k: nat)
    requires !RootsOld(t, w, added) && forall x :: x in added ==> x in w.nodes
    ensures k < |added| && w.nodes[added[k]].parent != 0 && w.nodes[added[k]].parent !in t.nodes
    ensures RootsOld(t, w, added[..k])
    decreases |added|
  {
    var up := added[..|added| - 1];
    if RootsOld(t, w, up) {
      k := |added| - 1;
    } else {
      k := FirstLate(t, w, up);
      assert added[..k] == up[..k];
    }
  }

  /** The server holds what was sent before the first root below a new node: that node, and the root. */
  lemma KnownWithParent(t: Tree, w: Tree, added: seq<nat>, ms: seq<Mutation>, k: nat, ever: set<nat>)
    requires TreeOk(t) && TreeOk(w) && Extends(t, w) && (forall id | id in ever :: id < t.next) && k < |added|
    requires Distinct2(added) && (forall x :: x in added ==> QueryTreeReplica.IsNew(t, w, x))
    requires RootsOld(t, w, added[..k]) && Announces(w.nodes, added, ms)
    requires var p := w.nodes[added[k]].parent; p != 0 && p !in t.nodes && CoveredBefore(w.nodes, added, k, p)
    ensures Clashes(t.nodes, ever, ms, k)
  {
    hide *;
    AnnouncedPrefix(w.nodes, added, ms, k);
    assert added[k] in added;
    ParentThere(t, w, added[k]);
    var before, sent, p := added[..k], ms[..k], w.nodes[added[k]].parent;
    var j := CoveredAt(w.nodes, added, k, p);
    assert before[j] == added[j] && sent[..k] == sent;
    assert forall x | x in before :: x in added;
    AnnouncedFreshly(t, w, before, sent, k, ever);
    ReplayPrefix(t, w, before, sent, k);
    DescendsOne(w.nodes, added[k], added[j]);
    InAnnounced(t, w, before, k, j, p);
    InAnnounced(t, w, before, k, j, added[k]);
    ClashAt(t.nodes, ever, ms, k);
  }

  lemma CoveredAt(nodes: Nodes, added: seq<nat>, k: nat, x: nat) returns (j: nat)
    requires k <= |added| && CoveredBefore(nodes, added, k, x)
    ensures j < k && Descends(nodes, x, added[j])
  {
    j :| 0 <= j < k && Descends(nodes, x, added[j]);
  }

  lemma ParentThere(t: Tree, w: Tree, x: nat)
    requires TreeOk(w) && QueryTreeReplica.IsNew(t, w, x)
    ensures x in w.nodes && w.nodes[x].parent < x && (w.nodes[x].parent != 0 ==> w.nodes[x].parent in w.nodes)
  {
  }

  lemma ClashAt(view: Nodes, ever: set<nat>, ms: seq<Mutation>, k: nat)
    requires k < |ms| && Freshly(ever, ms[..k]) && forall i | k <= i < |ms| :: ms[i].AddChild?
    requires ms[k].nodeId != 0 && ms[k].nodeId in ReplayAll(view, ms[..k])
    requires ms[k].node.id in ReplayAll(view, ms[..k])
    requires ReplayAll(view, ms[..k])[ms[k].node.id].parent == ms[k].nodeId
    ensures Clashes(view, ever, ms, k)
  {
  }

  lemma DescendsOne(nodes: Nodes, x: nat, a: nat)
    requires x in nodes && nodes[x].parent < x && Descends(nodes, nodes[x].parent, a)
    ensures Descends(nodes, x, a)
  {
  }

  lemma InAnnounced(t: Tree, w: Tree, added: seq<nat>, k: nat, j: nat, x: nat)
    requires j < k <= |added| && x in w.nodes && Descends(w.nodes, x, added[j])
    ensures x in Announced(t, w, added, k) && Announced(t, w, added, k)[x] == w.nodes[x]
  {
  }

  lemma AnnouncedPrefix(nodes: Nodes, added: seq<nat>, ms: seq<Mutation>, k: nat)
    requires Announces(nodes, added, ms) && k < |added|
    ensures Announces(nodes, added[..k], ms[..k]) && |ms| == |added|
    ensures ms[k].AddChild? && ms[k].node.id == added[k] && ms[k].nodeId == nodes[added[k]].parent
    ensures (Distinct2(added) ==> Distinct2(added[..k])) && forall i | k <= i < |ms| :: ms[i].AddChild?
  {
  }

  /** An attach that announces a part of a new field on its own sends that part twice: first with the
      field, then below it. */
  lemma AttachClashes(t: Tree, sels: seq<Sel>, ms: seq<Mutation>, ever: set<nat>)
    requires TreeOk(t) && Resolves(sels) && !Whole(t.nodes, sels) && forall id | id in ever :: id < t.next
    requires Announces(Walk(t, 0, sels, false).tree.nodes, Walk(t, 0, sels, false).added, ms)
    ensures Clash(t.nodes, ever, ms, |ms|)
  {
    var w := Walk(t, 0, sels, false);
    WalkGrows(t, sels);
    WholeIsOld(t, sels);
    hide *;
    GrownMeans(t, w);
    var k := FirstLate(t, w.tree, w.added);
    ParentCovered(t, 0, sels, k);
    LateIsCovered(t, w.tree, w.added, k);
    KnownWithParent(t, w.tree, w.added, ms, k, ever);
    ClashFrom(t.nodes, ever, ms, k);
  }

  lemma LateIsCovered(t: Tree, w: Tree, added: seq<nat>, k: nat)
    requires k < |added| && ParentOut(t, 0, w, added, k)
    requires added[k] in w.nodes ==> w.nodes[added[k]].parent != 0 && w.nodes[added[k]].parent !in t.nodes
    ensures added[k] in w.nodes && CoveredBefore(w.nodes, added, k, w.nodes[added[k]].parent)
  {
  }

  lemma ClashFrom(view: Nodes, ever: set<nat>, ms: seq<Mutation>, k: nat)
    requires Clashes(view, ever, ms, k)
    ensures Clash(view, ever, ms, |ms|)
  {
  }

  // ----- both trees, in place

  /** The server's reachable tree is this one, and it knows only ids that were given out. */
  ghost predicate Follows(server: ServerTree, c: Client)
    reads server, server.all
  {
    server.Valid() && server.View() == c.tree.nodes && forall id | id in server.ever :: id < c.tree.next
  }

  /** The server's reachable tree is the client's. */
  ghost predicate InStep(client: QueryTree, server: ServerTree)
    reads client, client.nodes, client.dropped, server, server.all
  {
    client.Valid() && Follows(server, client.View())
  }

  /** A client and a server that have not seen a query yet. */
  method Connect() returns (client: QueryTree, server: ServerTree)
    ensures InStep(client, server) && client.View() == NEW_CLIENT
  {
    assert NEW_CLIENT.tree.nodes == map[] && NEW_CLIENT.tree.next == 1;
    hide *;
    server := new ServerTree();
    FollowsFrom(server, NEW_CLIENT);
    client := new QueryTree();
    StepFrom(client, server);
  }

  /** What the server does with what one operation sends: it follows, or the query announced a part
      of a new field twice, and then a node of the server's tree has two children of one id. */
  method ReplayOp(server: ServerTree, muts: seq<Mutation>, ghost c: Client, ghost op: Op)
    requires server.Sound() && ClientOk(c) && Emits(c, op, muts)
    modifies server, server.all`children, server.all`disposed
    ensures server.Sound() && fresh(server.all - old(server.all))
    ensures old(Follows(server, c)) ==>
              if OpSendable(c, op) then Follows(server, Apply(c, op)) else HoldsTwice(KidsNow(server.all))
  {
    hide *;
    ghost var follows := Follows(server, c);
    if follows {
      FollowsMeans(server, c);
      if OpSendable(c, op) {
        EmittedFreshly(c, op, muts, server.ever);
        OneReplays(c, op, muts);
      } else {
        EmittedClash(c, op, muts, server.ever);
      }
    }
    var ok := server.ApplyTreeMutation(muts);
    if follows && OpSendable(c, op) { FollowsFrom(server, Apply(c, op)); }
  }

  /** Attaching a query, and what the server does with what is sent, whether or not the query
      resolved. */
  method AttachAndReplay(client: QueryTree, server: ServerTree, sels: seq<Sel>) returns (queryId: nat, failed: bool)
    requires InStep(client, server)
    modifies client, client.nodes, server, server.all`children, server.all`disposed
    ensures client.Valid() && client.View() == Apply(old(client.View()), Attach(sels))
    ensures if Sendable(old(client.View()).tree.nodes, sels) then InStep(client, server)
            else server.Sound() && HoldsTwice(KidsNow(server.all))
  {
    hide *;
    StepMeans(client, server);
    ghost var c := client.View();
    SendableIs(c, sels);
    var muts;
    var qmap;
    queryId, failed, muts, qmap := client.BuildQuery(sels);
    ViewIs(client);
    FollowsMeans(server, c);
    ReplayOp(server, muts, c, Attach(sels));
    if Sendable(c.tree.nodes, sels) { StepFrom(client, server); }
  }

  lemma EmittedClash(c: Client, op: Op, ms: seq<Mutation>, ever: set<nat>)
    requires ClientOk(c) && Emits(c, op, ms) && !OpSendable(c, op) && forall id | id in ever :: id < c.tree.next
    ensures Clash(c.tree.nodes, ever, ms, |ms|)
  {
    FailsExactly(c.tree, 0, op.sels, false);
    AttachClashes(c.tree, op.sels, ms, ever);
  }

  /** Detaching a query, and what the server does with what is sent. */
  method DetachAndReplay(client: QueryTree, server: ServerTree, queryId: nat)
    requires InStep(client, server)
    modifies client, client.nodes, server, server.all`children, server.all`disposed
    ensures InStep(client, server) && client.View() == Apply(old(client.View()), Detach(queryId))
  {
    hide *;
    StepMeans(client, server);
    ghost var c := client.View();
    var _, muts := client.DetachQuery(queryId);
    DetachSendable(c, queryId);
    FollowsMeans(server, c);
    ReplayOp(server, muts, c, Detach(queryId));
    StepFrom(client, server);
  }

  lemma FollowsMeans(server: ServerTree, c: Client)
    requires Follows(server, c)
    ensures server.Valid() && server.Sound() && server.View() == c.tree.nodes
    ensures forall id | id in server.ever :: id < c.tree.next
  {
  }

  lemma FollowsFrom(server: ServerTree, c: Client)
    requires server.Valid() && server.View() == c.tree.nodes && forall id | id in server.ever :: id < c.tree.next
    ensures Follows(server, c)
  {
  }

  lemma StepMeans(client: QueryTree, server: ServerTree)
    requires InStep(client, server)
    ensures client.Valid() && Follows(server, client.View()) && ClientOk(client.View())
  {
  }

  lemma StepFrom(client: QueryTree, server: ServerTree)
    requires client.Valid() && Follows(server, client.View())
    ensures InStep(client, server)
  {
  }

  lemma SendableIs(c: Client, sels: seq<Sel>)
    ensures Sendable(c.tree.nodes, sels) <==> OpSendable(c, Attach(sels))
  {
  }

  lemma DetachSendable(c: Client, queryId: nat)
    ensures OpSendable(c, Detach(queryId))
  {
  }

  lemma ViewIs(client: QueryTree)
    ensures client.View().tree == client.tree
  {
  }
}
