# rgraphql in Dafny

rgraphql keeps one query tree on a client and a copy of it on a server, and streams the results of
the queries back. This project models the parts of that protocol in which two sides have to agree
without ever checking with each other, in place where the program works in place, and proves that
they do.

**The result stream.** The server turns every written value into a few frames. Instead of repeating
a path it gives some path components a small number, keeps the numbers in a bounded cache, and
refers to them later, sometimes merging the reference into the first step. The client keeps a cache
of its own and is never told what the server evicts. `Encoder.dfy` (server) and `ResultNodes.dfy`,
`ResultTree.dfy` (client) are the classes; `AliasSpec.dfy` is what they are proved to compute.
The main theorem, `AliasRuns.RunExact`, is about every run of opened contexts, written values and
changes of the query tree, for every cache with room for two labels: all values arrive exactly when
every write is clean, and then the result tree is the one that plain storing of (path, value) gives.
`Stream.dfy` puts both ends on the heap, and `Sessions.Play` runs everything together, the server's
query tree and the decoders included: from new ends, over any list of attaches, detaches, opened
contexts and written values, every tree stays what it should be until a labelled context is written to.

*Two findings about the code.* In `encoder/path-cache.go:45` a shadowed variable files every new
label under key 0. Both forms are modelled (`Mode`): for the intended one a value arrives from every
synchronised state if and only if the written context is unlabelled, the value is present, and the
cache has room for two labels or the round needs only one; for the code as written it arrives if and only if
the reference it uses is among the identifiers the client still remembers, and
`AsWrittenPut.AsWrittenLosesAValue` gives a run in which three objects of a list cost a value that
the intended form delivers (`AsWrittenPut.LosingRun` builds it). Writing to a context that has a label
itself makes `encoder/encoder.go:103` index out of range (`AliasSync.LabelledPanics`). `DESIGN.md:309-326` draws a reference as a message
of its own; the code merges it into the first step where it can, and the model follows the code.

**The query tree.** The client merges the selections of all attached queries into one tree with
reference counts, sweeps it along dirty flags, and emits additions and deletions that the server
replays. `QueryTreeNode.dfy`, `QueryTreeVisit.dfy`, `QueryTreeSweep.dfy` and `QueryTree.dfy` are the
client's tree, `ServerTree.dfy` the server's; `QueryTreeSpec.dfy` says what attaching, detaching and
replaying do to trees as values. `Replication.dfy` ties the two heaps together: after every attach,
failed attach and detach that the server can follow both have the same nodes.

*Findings.* A query that selects a new field more than once may announce a part of it twice. Whether it
does depends on the tree and the query alone: the server can follow an attach if and only if every
topmost new path of the query is complete where it is first selected, that is, whatever the query
selects under it anywhere it also selects there (`QueryTreeRoots.Whole`, `QueryTreeRoots.WholeReplays`;
`QueryTreeHistory.ReplicaAgrees` has the equivalence for whole histories). Of the queries `a{b} a{c}` and
`a{b c} a{c}` the second can be followed and the first cannot (`QueryTreeHistory.RepeatedFieldSent`). The
server does not refuse it: only the root has a `RootNodeMap` (`qtree/qtree.go:42-59`, `96`), so below any
other node a known id is added a second time. After every attach that breaks the condition some node of
the server's tree has two children of one id (`Replication.AttachAndReplay`), the map points at the
second, and a later deletion disposes that one alone: the first stays on the tree, where no mutation can
name it any more (`ServerTrees.SentAgainThenDeleted`). With distinct siblings (section 5.3.2 of the
GraphQL specification, October 2021) the condition always holds.
The loop of the server's `Dispose` ranges over a list from which children remove
themselves, so it reaches exactly the children at even places (`ServerTrees.EvenChildrenOnly`); the
others stay in the server's map, unreachable and under ids that are never used again.

**Both together.** `Joint.dfy` and `Client.dfy`: purging the results of the dropped nodes leaves
exactly what the remaining query tree selects, and over any interleaving of well-formed frames with
attaches and detaches the result tree never holds data for a dead query node. `QueryMaps.dfy`
is the query map an attach builds: what it holds, and when that is everything the query asked for (of
several selections of one field the last replaces the others).

**The decoders.** A frame reaches the handlers that its own cursor carries: cursors are copied with their
handlers when a sequence of frames starts and when an alias is filed (`ResultNodes.dfy`, `ResultTree.dfy`).
`JsonResponse.dfy` says what the response to a query is, by the query itself and without a decoder: where
each result path belongs, and what stands there. `JsonHandlers.dfy` is the decoder and what the cursors
carry for it; `JsonDecoder.dfy` shows that its object is that response until the query is detached, as long as every
cursor carries the handler of its path or stands where nothing more can come, and that every frame and
every operation keeps it so. That holds of a decoder added before anything is cached. `JsonRuns.dfy`
composes this with the stream: after a clean run from the start the object is the selected part of the
values as they were written. `JsonLive.dfy` and `Session.dfy` do the same on the heap.

*Finding.* A decoder that comes late is shown the whole tree as it is, but `addResultHandler`
(`client/result-tree.ts:115-144`) gives its handler to the root cursor alone; nothing fills
`cachedCursors`. A value that then comes through an alias filed before is stored in the tree and not in
the object (`JsonLate.LateMisses`). The late decoder follows every run to come if and only if no cached or
unfinished cursor stands where its query selects something further (`JsonLate.LateExact`).

**The wire codec.** `WireSpec.dfy` defines the Protocol Buffers encoding of the recursive messages;
`WireCodec.dfy` is the backward writer and the size computation, `WireReader.dfy` the parser, and
`WireProofs.dfy` the round trips. Negative zero is the one value that does not come back.
`WireRecords.dfy` and `WireMessages.dfy` say what bytes mean without saying how they are read: which
bytes are a varint, a record, a row of records, and which message a row of records says (the last record
of a field counts, repeated fields keep their order, a message sent in pieces is what the pieces spell
together). The parser accepts exactly the bytes that say a message, as that message, and cut anywhere
but between two records they end in `io.ErrUnexpectedEOF`.

**Two smaller pieces.** `ModelBuild.dfy`: the memoised search that matches a schema against Go types
ends, and succeeds exactly when the types fit, which is said by a relation on pairs of types that may go
in circles (`ModelBuild.FitTogether`). `NameCounter.dfy`: the names of variables
enumerate all words over 52 letters, each once.

`Messages.dfy`, `Lru.dfy`, `Lists.dfy` and `Resolver.dfy` hold what the others share.

What the surroundings supply is a parameter: whether a path component is final is arbitrary at every
write; whether a selected field resolves against the client's schema is a flag on the selection
(`Sel.ok`); the capacity of the caches is any positive number in the stream theorems.

## Model

| member | source | states |
|---|---|---|
| Lru.AddWf | client/path-cache.ts:37-48 | a bounded least-recently-used map stays well-formed and within its bound, and loses at most its oldest key |
| Lru.TouchRecent | encoder/path-cache.go:53 | renewing a remembered key: the bounded order keeps being the end of the unbounded order of use |
| Lru.UseRecent | encoder/path-cache.go:53 | adding a key never used before drops exactly the key that falls out of the last `size` uses |
| Resolver.Context.constructor | resolver/context.go:112-146 | a child context's path is its parent's path and its own step, and it starts unlabelled |
| Encoder.PathCache.constructor | encoder/path-cache.go:18-26 | identifiers start at 1, nothing is cached |
| Encoder.PathCache.OnEvicted | encoder/path-cache.go:29-37 | the label is cleared exactly when it is still the evicted one |
| Encoder.PathCache.AddToLru | encoder/path-cache.go:29-53 | adding to the cache clears exactly the label of what it evicts |
| Encoder.PathCache.Assign | encoder/path-cache.go:41-51 | an unlabelled context gets the next identifier, and key 0 in the form as written |
| Encoder.PathCache.Put | encoder/path-cache.go:40-55 | labels, cache and next identifier become those of the specified Put, in both forms |
| Encoder.ResultEncoder.ClimbToRoot | encoder/encoder.go:78-93 | the components are the path up to the first labelled ancestor or the top, and a labelled root is renewed |
| Encoder.ResultEncoder.LabelPathComponents | encoder/encoder.go:24-56 | over the contexts' own IsFinal: the first component that is not final gets the next identifier, or keeps the one it has, never the root of the climb; where all are final nothing changes |
| Encoder.ResultEncoder.MarshalComponent | encoder/encoder.go:109-143 | the frame has the component's step, the reference or its label, and on the last component the written value or the text of the error; what was overwritten is put back |
| Encoder.ResultEncoder.SendComponent | encoder/encoder.go:112-143 | one turn of the loop sends the frame of its place and leaves every label and payload as it was |
| Encoder.ResultEncoder.SendPath | encoder/encoder.go:98-144 | the frames sent are the specified sequence, merged reference included |
| Encoder.ResultEncoder.Encode | encoder/encoder.go:64-146 | one round of Run: the frames and the new state of labels and cache are the specified ones, or it panics when specified; for an unlabelled context the last frame brings the value or error that was written, and no other frame brings anything |
| AliasProofs.StepStores | client/path-cursor.ts:17-62 | a step of a cursor keeps the tree closed under parents and free of dead nodes, and stores exactly at the next path |
| AliasProofs.ArriveKeepsOk | client/result-tree.ts:103-111 | any frame with a step leaves the client's invariants in place |
| AliasProofs.TailDecodes | client/path-cursor.ts:17-76 | reading the frames of a path from the parent of its first component stores the value under the full path and files the fresh alias for the right component |
| AliasProofs.FramesDecode | client/result-tree.ts:76-112 | the whole frame sequence decodes to storing the payload directly, whatever reference it starts from |
| AliasProofs.WriteDecodes | encoder/encoder.go:72-144 | one written value, encoded and decoded: the tree is as if stored directly, and every alias still denotes its path |
| AliasProofs.PutFacts | encoder/path-cache.go:40-55 | a Put keeps the encoder's invariants and touches no label but its own and the evicted one |
| AliasProofs.PutKeepsCached | encoder/path-cache.go:29-55 | in the intended form a context has a label exactly when it is cached under it |
| AliasProofs.RoundLabels | encoder/encoder.go:72-96 | after the climb and the labelling, every component below the root is unlabelled but the one just minted |
| AliasSync.ErrorIsSent | encoder/encoder.go:123-136 | an error written to an unlabelled context is on the last frame as it was written, without a value, and no frame before it brings anything |
| AliasSync.ValueIsSent | encoder/encoder.go:123-136 | the same for a value, or nil, without an error |
| AliasSync.FramesUnambiguous | encoder/encoder.go:98-144 | an identifier on the first frame is the root's label, any other is the one minted, exactly the last frame carries the value |
| AliasSync.RootKept | encoder/path-cache.go:53 | with room for two labels a fresh one never costs the root its label |
| AliasSync.RootLost | encoder/encoder.go:78-103 | with room for one, minting clears the label the frames were to refer to |
| AliasSync.IntendedOrder | encoder/encoder.go:78-96 | after a value the server's order of use is the client's |
| AliasSync.LabelledPanics | encoder/encoder.go:101-106 | writing to a labelled context panics |
| AliasSync.IntendedExact | encoder/encoder.go:72-144 | intended Put, any cache size, any synchronised state: a value arrives if and only if its context is unlabelled, it is present, and no single-label cache has to mint |
| AliasSync.WrongAlias | encoder/encoder.go:98-144 | with one label, a round that mints leaves the client with a wrong alias |
| AliasSync.AsWrittenExact | encoder/path-cache.go:40-55 | Put as written: a value arrives if and only if its context is unlabelled, it is present, and the client still holds the root's label |
| AliasRuns.RequeryKeepsOk | client/result-tree.ts:193-212 | a changed query tree leaves both ends in step, and every alias good |
| AliasRuns.WriteKeepsOk | encoder/encoder.go:72-144 | a clean value arrives and leaves both ends in step |
| AliasRuns.RunExact | encoder/encoder.go:72-144 | over every run, in both forms: all values arrive if and only if every write is clean, and then the result tree is the plain one |
| AliasRuns.AliasingIsInvisible | client/result-tree.ts:76-112 | from an empty stream, both caches hold the same identifiers in the same order, each for the same path, and the tree is the plain one |
| AsWrittenPut.AsWrittenLosesAValue | encoder/path-cache.go:40-55 | a concrete run that the form as written loses and the intended form delivers |
| AsWrittenPut.LosingRun | encoder/path-cache.go:40-55 | that run, built from eight new contexts and a new stream |
| ResultNodes.PathCursor.Clone | client/path-cursor.ts:79-86 | the copy is a new cursor at the same place, with the same handlers |
| ResultNodes.FindChild | client/path-cursor.ts:35-52 | the first child under that step, or null when there is none |
| ResultNodes.StepInto | client/path-cursor.ts:34-62 | finds the node for a frame or pushes a new one, and overwrites only a value |
| ResultNodes.StepSnapshots | client/path-cursor.ts:34-62 | the same as a change of all children and all values at once |
| ResultNodes.StepNode | client/path-cursor.ts:34-62 | on the tree it stores into the trie at exactly the next path; on a purged node the trie is left alone |
| ResultNodes.PathCursor.LookUp | client/path-cursor.ts:26-34 | the cursor goes out of bounds exactly when the field is not selected any more |
| ResultNodes.PathCursor.Take | client/path-cursor.ts:17-62 | the step on the query tree and the result tree: cursor and trie become the specified ones |
| ResultNodes.PathCursor.Notify | client/path-cursor.ts:64-74 | the loop over the handlers calls each decoder once with its handler, and what they return replaces the list, one handler for each decoder |
| ResultNodes.PathCursor.Apply | client/path-cursor.ts:17-76 | cursor and trie become the specified ones, the cursor stays linked to the node of its path, and in bounds every decoder is called with the handler the cursor carries for it and keeps the next one, unless one throws |
| ResultTrees.PathCache.Get | client/path-cache.ts:20-22 | a known key is renewed, an unknown one gives null and changes nothing |
| ResultTrees.PathCache.Set | client/path-cache.ts:30-48 | the cache becomes the specified one, evicting the oldest when a new key does not fit |
| ResultTrees.ResultTree.constructor | client/result-tree.ts:36-50 | an empty tree, an empty cache, no unfinished sequence |
| ResultTrees.ResultTree.Choose | client/result-tree.ts:77-97 | a first frame starts from a copy of the cached cursor or of the root's, and an unknown reference is refused |
| ResultTrees.ResultTree.Remember | client/result-tree.ts:104-107 | a frame with an identifier files a copy of the cursor under it, and no other cursor moves |
| ResultTrees.ResultTree.Settle | client/result-tree.ts:105-111 | the filed copy carries the handlers of the cursor, and a value ends the sequence |
| ResultTrees.ResultTree.AddHandler | client/result-tree.ts:116-117 | a new decoder has a handler at the root cursor and at no other, and nothing changes for the others |
| ResultTrees.ResultTree.HandleValue | client/result-tree.ts:76-112 | cursor, cache and trie become the specified ones, for any well-formed frame at all; every decoder hears the frame through the cursor it moves, and has at every cursor the handler that `Hear` says |
| ResultTrees.IdsToRoot | client/result-tree.ts:193-203 | the ids up to the root are the query node's path reversed |
| ResultPurge.PurgeBelow | client/result-tree.ts:215-255 | purgeQtNodesRecursive removes exactly the nodes below that extend the purged path, through array levels and despite the swap-removal, and leaves every other node and value |
| ResultPurge.PurgeInto | client/result-tree.ts:241-250 | the recursive call for one child leaves the list being looped over, and every node outside, alone |
| ResultPurge.PlacedDrop | client/result-tree.ts:235-239 | swap-removing a child takes exactly its subtree off the tree |
| ResultTrees.ResultTree.HandleQtNodePurge | client/result-tree.ts:193-212 | the trie loses exactly the results whose projection extends the dropped node's path |
| QueryTreeNodes.QueryTreeNode.constructor | client/query-tree-node.ts:27-37 | a new node is unreferenced, unflagged and untransmitted, with its parent's path and its own id |
| QueryTreeNodes.GcSweep | client/query-tree-node.ts:195-217 | sweeping along the flags does to every node what a full prune does, clears every flag, keeps the order when only a tail goes, and emits exactly the roots of the maximal dropped transmitted subtrees, each once |
| QueryTreeNodes.SweepLoop | client/query-tree-node.ts:199-209 | the loop with the swap-removal keeps exactly the referenced children |
| QueryTreeVisit.FlagGcNext | client/query-tree-node.ts:56-62 | exactly the node and its ancestors are flagged |
| QueryTreeVisit.MarkXmitted | client/query-tree-node.ts:220-228 | the whole subtree is marked, also where the early return cuts the recursion short |
| QueryTreeVisit.BuildProto | client/query-tree-node.ts:40-53 | the wire form stands for exactly the nodes of the subtree, each once, parents before children in id order |
| QueryTreeVisit.LookupChildByID | client/query-tree-node.ts:75-83 | the child with that id, or null when there is none |
| QueryTreeSweep.DropReference | client/query-tree-node.ts:112-117 | one reference less, and flags lead from the root to every unreferenced node |
| QueryTreeSweep.ReleaseRefs | client/query-tree.ts:217-223 | giving up a query's references takes exactly its occurrences from the counts |
| QueryTreeSweep.Sweep | client/query-tree.ts:269-294 | the tree becomes its full prune, and the deletions sent are exactly the maximal dropped roots |
| QueryTreeSweep.Announce | client/query-tree.ts:180-194 | each new root is sent with its whole subtree, and exactly the announced subtrees become transmitted |
| QueryTrees.QueryTree.constructor | client/query-tree.ts:37-54 | an empty tree, ids and query ids from 1 |
| QueryTrees.QueryTree.FindChild | client/query-tree-node.ts:148-153 | a child with that name and those arguments is found if and only if there is one |
| QueryTrees.QueryTree.ResolveChild | client/query-tree-node.ts:119-165 | the matching child, or a new one at the end with the next id |
| QueryTrees.QueryTree.EnterField | client/query-tree.ts:96-142 | entering a field adds one reference, and lists the node as new exactly when it is unreferenced outside any new node |
| QueryTrees.QueryTree.Visit | client/query-tree.ts:93-167 | the visit computes the specified walk and query map, also when a field fails to resolve half-way |
| QueryTrees.Undo | client/query-tree.ts:169-178 | a failed walk is undone: nodes, order of children and counts are as before, nothing is sent |
| QueryTrees.QueryTree.BuildQuery | client/query-tree.ts:67-208 | attaching gives the specified tree, mutations and query map; a failure changes nothing but ids |
| QueryTrees.QueryTree.DetachQuery | client/query-tree.ts:211-229 | detaching gives the specified tree and mutations, and names the dropped nodes to purge |
| QueryTreeProofs.WalkFacts | client/query-tree.ts:93-167 | a walk counts exactly the references it records, and records every parent along with a node |
| QueryTreeProofs.FailedWalkUndone | client/query-tree.ts:169-178 | releasing what a failed walk referenced gives the tree from before, up to the next id |
| QueryTreeProofs.ReferencesConserved | client/query-tree.ts:106-228 | between operations every count is the number of occurrences in attached queries and positive, and references are closed under parents |
| QueryTreeProofs.AlwaysConserved | client/query-tree.ts:106-228 | the same after any history |
| QueryTreeReplica.AddedOnce | client/query-tree.ts:119-124 | a node is announced at most once |
| QueryTreeReplica.NewCovered | client/query-tree.ts:119-124 | everything new is inside an announced subtree |
| QueryTreeReplica.ParentCovered | client/query-tree.ts:119-124 | a root that is announced below a new node comes after the root whose subtree has that node |
| QueryTreeReplica.AttachReplays | client/query-tree.ts:180-202 | an attach replays to the client's tree if and only if every announced root hangs off the tree as it was |
| QueryTreeRoots.WalkPaths | client/query-tree.ts:93-167 | a walk that does not fail adds exactly the paths the query selects |
| QueryTreeRoots.FailsExactly | client/query-tree.ts:103-111 | an attach fails if and only if some selected field does not resolve, whatever the tree |
| QueryTreeRoots.RootsExact | client/query-tree.ts:119-124 | part-way through a walk, what is still announced hangs off the old tree if and only if the rest of the query is complete where it adds to it |
| QueryTreeRoots.WholeReplays | client/query-tree.ts:180-202 | an attach replays to the client's tree if and only if every topmost new path is complete where the query first selects it, a condition on the tree and the query alone |
| QueryTreeRoots.DistinctWhole | client/query-tree.ts:119-124 | without repeated siblings that holds for every tree |
| QueryTreeHistory.SweepReplays | client/query-tree.ts:269-294 | the deletions of a sweep replay to the full prune, each naming a node that is still there |
| QueryTreeHistory.DropApart | client/query-tree-node.ts:211-215 | no deleted root is inside another deleted subtree |
| QueryTreeHistory.OneReplays | qtree/qtree.go:63-118 | one operation can be followed if and only if it is a detach, a failed attach, or an attach complete where it adds to the tree |
| QueryTreeHistory.ReplicaAgrees | qtree/qtree.go:63-118 | over any history of attaches, failed attaches and detaches, no mutation names an unknown or known id wrongly if and only if every operation can be followed, and then the replayed mutations give the client's tree |
| QueryTreeHistory.DistinctSendable | client/query-tree.ts:180-202 | histories of queries without repeated siblings can always be followed |
| QueryTreeHistory.RepeatedFieldSent | client/query-tree.ts:119-124 | a new field selected twice can be followed if and only if the second selection asks for nothing new |
| QueryTreeHistory.NeverBack | client/query-tree.ts:103-106 | a dropped id never comes back |
| ServerTrees.RemoveChild | qtree/qtree.go:209-223 | the child leaves the list, the rest keeps its order |
| ServerTrees.RoundStep | qtree/qtree.go:293-295 | one round of the loop disposes the child at twice its index and shifts the rest under it |
| ServerTrees.ServerTree.DisposeRound | qtree/qtree.go:293-295 | that round in place, with the nodes that leave the map so far |
| ServerTrees.ServerTree.Dispose | qtree/qtree.go:282-310 | the node leaves its parent, and exactly it and every other descendant in turn leave the map, once |
| ServerTrees.EvenChildrenOnly | qtree/qtree.go:293-295 | a child is disposed with its parent if and only if it is at an even place |
| ServerTrees.ServerTree.DisposeNode | qtree/qtree.go:81-85 | whatever was sent, the node leaves its parent and what is disposed leaves the map; as long as no id was sent twice the reachable tree loses exactly the subtree, whatever lingers in the map |
| ServerTrees.BelowIsDescends | qtree/qtree.go:282-310 | on the reachable tree, being in a node's subtree is descending from its id |
| ServerTrees.ServerTree.Mint | qtree/qtree.go:100-113 | the new node is in the map and at the end of the children, whatever id it has; on the reachable tree an unused id is a new node |
| ServerTrees.ServerTree.AddChild | qtree/qtree.go:95-206 | a known id is refused at the root and added again below any other node; under ids never used the reachable tree grows by exactly the wire subtree, or not at all below an unreachable node |
| ServerTrees.ServerTree.ApplyOne | qtree/qtree.go:69-86 | one mutation, of any kind and under any id |
| ServerTrees.SentAgainThenDeleted | qtree/qtree.go:69-86 | a child sent once more and then deleted: the delete finds the node that came last, and the first stays on the tree without being in the map |
| ServerTrees.FirstStays | qtree/qtree.go:282-310 | disposing the last of two children with one id leaves the first in its place on the tree |
| ServerTrees.ServerTree.ApplyTreeMutation | qtree/qtree.go:63-92 | for any mutations: under unused ids the reachable tree becomes their replay, unknown and stale node ids included; after an addition of a known child below another node than the root, a node of the tree has two children of one id |
| Replication.EmittedFreshly | client/query-tree.ts:180-202 | what an operation adds that the server can follow was never known to the server |
| Replication.AttachClashes | client/query-tree.ts:119-124 | an attach that is not complete where it adds to the tree sends some node first inside its parent and then below it |
| Replication.ReplayOp | qtree/qtree.go:63-118 | what the server makes of one operation: it follows, or holds an id twice |
| Replication.AttachAndReplay | qtree/qtree.go:63-118 | over any attach, failed or not: both trees on the heap are equal if it announced nothing twice, and otherwise a node of the server's tree has two children of one id |
| Replication.DetachAndReplay | qtree/qtree.go:63-92 | both trees on the heap stay equal over a detach |
| Joint.OpIsRequery | client/query-tree.ts:79-229 | an operation never selects again what was dropped |
| Joint.PurgeIsRestrict | client/query-tree.ts:286-293 | purging every dropped root, in any order, leaves exactly the results the remaining tree selects |
| Joint.NoDeadData | client/result-tree.ts:76-112 | over any interleaving of well-formed frames, attaches and detaches, every result node projects to a live query path |
| Joint.SystemAgrees | client/client.ts:33-111 | the whole system from its start: the result tree is the plain one purged along with the query tree, both caches agree, no dead data |
| Clients.TreeIsView | client/query-tree-node.ts:75-83 | looking up children, also through swept nodes, finds exactly the live paths |
| Clients.Client.constructor | client/client.ts:29-37 | an empty client whose cache holds 100 cursors |
| Clients.Client.HandleValue | client/client.ts:86-90 | one frame does the specified thing, also to every decoder, and leaves the query tree alone |
| Clients.Client.HandleMessages | client/client.ts:77-94 | a batch of frames decodes to the specified state, or stops at a refused one or where a decoder throws; every decoder has heard exactly the frames before that |
| Clients.Client.BuildQuery | client/client.ts:39-49 | attaching changes no result |
| Clients.Client.DisposeQuery | client/client.ts:109-113 | detaching leaves exactly the results the remaining query tree selects |
| Clients.OpKeepsDec | client/result-tree.ts:193-212 | after an operation every cursor, also a cached one, is still good |
| Stream.FramesFit | encoder/encoder.go:98-144 | every frame the encoder sends is one a cursor can take, over ids the client gave out |
| Stream.Connect | client/client.ts:33-36 | a new stream has both ends in touch |
| Stream.OpenContext | resolver/context.go:112-146 | opening a context between two values keeps both ends in touch, and it can be written to; it is not final |
| Stream.MarkContext | resolver/context.go:75-104 | whatever becomes final between two values, both ends stay in touch, and that context alone changes |
| Stream.EncodeValue | encoder/encoder.go:64-146 | what is sent for an unlabelled context is the specified sequence, and the client can take it to the plain tree |
| Stream.Receive | client/client.ts:77-94 | the frames of one value: both ends are in touch again, unless a decoder throws |
| Stream.Deliver | client/result-tree.ts:76-112 | encoder and client on the heap: the decoders hear the frames that were sent, and unless one throws the value arrives, the tree is as if stored directly, and both ends stay in touch |
| Stream.Attach | client/client.ts:39-49 | an attach between two values keeps both ends in touch |
| Stream.Dispose | client/client.ts:109-113 | a detach between two values keeps both ends in touch and purges its results |
| Sessions.Begin | client/running-query.ts:42-56 | queries attached and decoded on a new stream: every decoder is listening and shows the tree, and the server follows |
| Sessions.Do | client/client.ts:33-111 | one attach, detach, opened context or written value does to both ends, to the server's tree and to every decoder what it does to the plain record, and fails only for a labelled context |
| Sessions.Play | client/client.ts:33-111 | a whole session on the heap: queries are attached and decoded, then anything happens; result tree and query tree are the plain record of everything done so far, every decoder's object is the response to its query, and the server's tree is the client's as long as no query announced a part twice |
| QueryMaps.MapWalkFrom | client/query-tree.ts:130-142 | every entry of a query map is for a node the query references, under the right parent, with what some selection of it says |
| QueryMaps.MapHolds | client/query-tree.ts:130-142 | the map holds exactly what is left of a query when of several selections of one field the last counts |
| QueryMaps.NothingLost | client/query-tree.ts:141 | that is everything asked for if and only if the last selection of a field covers the others |
| QueryMaps.DistinctCovers | client/query-tree.ts:141 | a query without repeated siblings loses nothing |
| QueryMaps.AttachMap | client/query-tree.ts:93-207 | both, for the map an attach leaves behind |
| QueryMaps.CountingIsLast | client/query-tree.ts:141 | the selection of a field that counts is the last one |
| QueryMaps.MirrorsBuilt | client/query-tree.ts:93-142 | entry by entry: the map has one for every selected field, with what the selection that counts says, and no other |
| QueryMaps.MapStaysHeld | client/query-tree.ts:211-229 | nothing but its own detach takes away the nodes of a query's map |
| JsonHandlers.JSONDecoder.ApplyValue | client/json-decoder-handler.ts:73-87 | assigns at the handler's position, replaces only when told to, throws below a primitive, and marks the result dirty exactly when it changes |
| JsonHandlers.JSONDecoder.HandleValue | client/json-decoder-handler.ts:25-135 | the result and the next handler become the specified ones: a field is entered under its alias or else its name, an element at its index less one, what is stepped into is an object or a list, and a value is assigned where the step leads |
| JsonResponses.PlaceKeys | client/json-decoder-handler.ts:40-117 | every step of a path is one key: an element's index less one, or the alias or name of the selection the step names |
| JsonResponses.DisplaysUnique | client/json-decoder-handler.ts:25-135 | there is one response to a query for a result tree |
| JsonDecoders.HandlerPlace | client/json-decoder-handler.ts:25-135 | there is a handler for a path exactly when the query asks for it, and it stands at the path's place in the response |
| JsonDecoders.ShowsDisplays | client/json-decoder-handler.ts:25-135 | showing the tree to a decoder is displaying it as the response to its query |
| JsonDecoders.PosInjective | client/json-decoder-handler.ts:47-58 | with keys distinct side by side, a position belongs to one path |
| JsonDecoders.AttachDecodes | client/json-decoder.ts:49-57 | the query an attach gives to a decoder is attached |
| JsonDecoders.DecodesStays | client/query-tree.ts:211-229 | it is attached until its own detach, whatever else comes and goes |
| JsonDecoders.LookupFinds | client/json-decoder-handler.ts:42-46 | as long as it is attached, looking up a selected field finds the child with the name the query has for it |
| JsonDecoders.ResponsesKeys | client/json-decoder-handler.ts:47-58 | no two entries side by side have one key if different fields side by side have different aliases or names |
| JsonDecoders.HandlerStep | client/json-decoder-handler.ts:25-135 | a step on a handler of the tree never throws, hands on the handler of the next node, and keeps showing the tree |
| JsonDecoders.KnownStep | client/result-tree.ts:221-249 | a handler called once more with a node of the tree changes nothing |
| JsonDecoders.TunedFrame | client/path-cursor.ts:64-75 | a frame throws in no decoder that is tuned, and leaves every cursor with the handler of its path or where nothing more can come |
| JsonDecoders.TunedOp | client/result-tree.ts:193-212 | so does an attach, and a detach of another query |
| JsonDecoders.DecoderFollows | client/path-cursor.ts:64-75 | over any interleaving of frames, attaches and detaches of other queries, through whatever aliases, the object of an attached query is the response to it, what the result tree has of what it asks for, with aliases applied, if at the start every cursor carries the handler of its path or stands where nothing more can come |
| JsonDecoders.ShowsUnique | client/json-decoder.ts:32-34 | a result object is determined by the tree it shows |
| JsonDecoders.CallHandler | client/result-tree-node.ts:15-29 | replaying a node hands every selected node below it to the handler, without a throw |
| JsonDecoders.AddResultHandler | client/result-tree.ts:115-144 | a late decoder shows the whole selected tree, its handler is at the root cursor and at no other, and nothing changes for the other decoders |
| JsonDecoders.ReplayEqualsLive | client/result-tree.ts:115-144 | at the moment it is added a late decoder holds the same object as one that was there before the first frame |
| JsonLate.LateExact | client/result-tree.ts:115-144 | a late decoder follows every run to come if and only if no cached or unfinished cursor stands where its query selects something that may still come |
| JsonLate.MissedRun | client/result-tree.ts:115-144 | otherwise there is a run that keeps its query and after which its object is not the tree's |
| JsonLate.LateMisses | client/path-cursor.ts:64-75 | for example one frame: a value through an alias that was filed before |
| JsonLive.BatchFollows | client/client.ts:86-90 | a batch handled to its end throws in no tuned decoder, which then shows the new tree and stays tuned |
| JsonLive.BatchKeeps | client/client.ts:86-90 | the same for all decoders of a client at once |
| JsonLive.OpKeeps | client/query-tree.ts:79-229 | an operation that detaches none of their queries keeps all decoders following |
| JsonLive.Listen | client/running-query.ts:42-56 | on the heap: a decoder added while no cursor waits follows the client, and so do those that did before |
| JsonRuns.RunPlays | client/client.ts:77-111 | the frames and operations of a clean run of the whole system, taken one by one, end with the same tree |
| JsonRuns.CleanRunShows | client/json-decoder-handler.ts:25-135 | after any clean run the object of an attached query is the response to it for the values as written, last one winning, if at the start every cursor carries the handler of its path or stands where nothing more can come |
| JsonRuns.FromTheStart | client/json-decoder-handler.ts:25-135 | the same from a new client on, for the query an attach produced, where no cursor is cached yet |
| WireProofs.ReadVarOf | rgraphql.pb.go:4678-4692 | a varint that was written is read back, and nothing after it is touched |
| WireProofs.NegativeTakesTen | rgraphql.pb.go:3046-3050 | a negative int32 takes ten bytes |
| WireProofs.FrameOf | rgraphql.pb.go:4672-4870 | the records written are the records read, with nothing left over |
| WireProofs.ArgRoundTrip | rgraphql.pb.go:4876-4977 | FieldArgument survives the wire |
| WireProofs.DirectiveRoundTrip | rgraphql.pb.go:4555-4671 | RGQLQueryFieldDirective survives the wire |
| WireProofs.NodeRoundTrip | rgraphql.pb.go:4672-4875 | RGQLQueryTreeNode of any depth and width survives the wire |
| WireProofs.PrimitiveRoundTrip | rgraphql.pb.go:5084-5235 | RGQLPrimitive survives the wire if and only if its float is not negative zero |
| WireProofs.ValueRoundTrip | rgraphql.pb.go:6363-6538 | RGQLValue with its nested primitive survives the wire if and only if the float is not negative zero |
| WireCodec.MarshalArg | rgraphql.pb.go:2920-2945 | the backward writer puts exactly the encoding below `hi` and touches nothing else |
| WireCodec.MarshalDirective | rgraphql.pb.go:2787-2819 | the same for a directive with its arguments |
| WireCodec.MarshalNode | rgraphql.pb.go:2839-2900 | the same for a whole query subtree, through all nested length prefixes |
| WireCodec.MarshalPrimitive | rgraphql.pb.go:3013-3059 | the same for a primitive |
| WireCodec.MarshalValue | rgraphql.pb.go:3564-3609 | the same for a value |
| WireCodec.SizeArg | rgraphql.pb.go:3713-3728 | SizeVT is the length of the encoding |
| WireCodec.SizeDirective | rgraphql.pb.go:3658-3676 | SizeVT is the length of the encoding |
| WireCodec.SizeNode | rgraphql.pb.go:3678-3711 | SizeVT is exact for every message tree |
| WireCodec.SizePrimitive | rgraphql.pb.go:3747-3771 | SizeVT is the length of the encoding |
| WireCodec.SizeValue | rgraphql.pb.go:3954-3979 | SizeVT is the length of the encoding |
| WireCodec.MarshalVTNode | rgraphql.pb.go:2821-2837 | the buffer of that size is filled from end to end, and says this node and no other |
| WireCodec.MarshalVTValue | rgraphql.pb.go:3546-3562 | the same for a value |
| WireReader.ReadVarint | rgraphql.pb.go:4678-4692 | the reader loop gives the low 64 bits of the varint, or the specified error |
| WireReader.NextField | rgraphql.pb.go:4676-4755 | tag, checks and payload of one record are the specified ones, errors included, and what is read is one whole record |
| WireReader.UnmarshalArg | rgraphql.pb.go:4876-4977 | the loop computes the specified decoding of any bytes, errors included; it succeeds exactly on the bytes that say an argument, with that argument |
| WireReader.UnmarshalDirective | rgraphql.pb.go:4555-4671 | the same for a directive and its arguments |
| WireReader.UnmarshalNode | rgraphql.pb.go:4672-4875 | the same for a query subtree, each recursion on a strictly shorter slice |
| WireReader.UnmarshalPrimitive | rgraphql.pb.go:5084-5235 | the same for a primitive, merged into what is there; exact when nothing is there |
| WireReader.UnmarshalValue | rgraphql.pb.go:6363-6538 | the same for a value |
| WireRecords.VarintRead | rgraphql.pb.go:4678-4692 | the reader loop finds a varint exactly where there is one, and its value is that of the groups of seven bits |
| WireRecords.VarintOfSays | rgraphql.pb.go:2893-2897 | a number is written as the shortest varint for it |
| WireRecords.FrameExact | rgraphql.pb.go:4672-4870 | the loop reads bytes to their end exactly when they are whole records, one after the other, and then reads those records |
| WireRecords.FieldCut | rgraphql.pb.go:4676-4755 | a record that is cut, in its tag, its length or its payload, ends too early |
| WireRecords.FrameCut | rgraphql.pb.go:4672-4870 | cut anywhere, the records before the cut are read, and the rest is nothing or ends too early |
| WireMessages.ArgExact | rgraphql.pb.go:4876-4977 | the parser takes exactly the bytes that say an argument, as what they say |
| WireMessages.DirectiveExact | rgraphql.pb.go:4555-4671 | the same for a directive |
| WireMessages.NodeExact | rgraphql.pb.go:4672-4875 | the same for a query subtree of any depth |
| WireMessages.PrimitiveExact | rgraphql.pb.go:5084-5235 | the same for a primitive |
| WireMessages.MergedIs | rgraphql.pb.go:6470-6510 | a primitive that is sent in pieces is the one its pieces spell together |
| WireMessages.ValueExact | rgraphql.pb.go:6363-6538 | the parser takes exactly the bytes that say a frame, as what they say |
| WireMessages.ArgCut | rgraphql.pb.go:4876-4977 | accepted bytes that are cut are accepted between two records, and end too early anywhere else |
| WireMessages.DirectiveCut | rgraphql.pb.go:4555-4671 | the same for a directive |
| WireMessages.NodeCut | rgraphql.pb.go:4672-4875 | the same for a query subtree |
| WireMessages.PrimitiveCut | rgraphql.pb.go:5084-5235 | the same for a primitive |
| WireMessages.ValueCut | rgraphql.pb.go:6363-6538 | the same for a frame |
| WireMessages.ArgLayout | rgraphql.pb.go:2920-2945 | the fields in order, under the tags of the generated code, and none that holds its default |
| WireMessages.DirectiveLayout | rgraphql.pb.go:2787-2819 | the same for a directive |
| WireMessages.NodeLayout | rgraphql.pb.go:2839-2900 | the same for a query subtree |
| WireMessages.PrimitiveLayout | rgraphql.pb.go:3013-3059 | the same for a primitive |
| WireMessages.ValueLayout | rgraphql.pb.go:3564-3609 | the same for a frame |
| WireMessages.NodeSaysItself | rgraphql.pb.go:2839-2900 | what is written for a node says that node and no other |
| NameCounters.PlaceOfName | client/name-counter.ts:5-35 | a name tells its number |
| NameCounters.NameOfPlace | client/name-counter.ts:5-35 | every word over the 52 letters is the name of exactly one number |
| NameCounters.NamesDiffer | client/name-counter.ts:13-16 | names are never repeated |
| NameCounters.NameCounter.Value | client/name-counter.ts:5-11 | the name spelled is the bijective base-52 numeral of the digits |
| NameCounters.NameCounter.Increment | client/name-counter.ts:13-16 | increment gives the next numeral |
| NameCounters.NameCounter.IncrementIndex | client/name-counter.ts:18-27 | the carry adds one to the number from that digit on, leaves the digits below, and ends |
| ModelBuild.ModelBuilder.BuildResolver | analysis/model-build.go:28-62 | the memo grows only by complete entries, or the failure is the fault of a pair that can be reached |
| ModelBuild.ModelBuilder.BuildNodeResolver | analysis/resolve-object.go:286-321 | the entry is made before the recursion and complete after it |
| ModelBuild.ModelBuilder.BuildChild | analysis/resolve-object.go:290-318 | one round of the loop completes one more child, or finds a reachable pair to blame |
| ModelBuild.WalkFits | analysis/model-build.go:28-90 | when the memo is complete, everything reachable is resolved and fits |
| ModelBuild.LocalExact | analysis/model-build.go:28-90 | a pair fits, given those it leads to, exactly when the builder does not fail at it: a resolver function for every field that is resolved, with an output that fits the field |
| ModelBuild.WalkStays | analysis/model-build.go:28-90 | no walk leaves pairs that fit together |
| ModelBuild.UniverseClosed | analysis/model-build.go:28-62 | all that can be reached are pairs of a type that is written down and a Go type that occurs, which are finitely many |
| ModelBuild.ObjectBuilt | analysis/resolve-object.go:286-318 | a complete object resolver has parts for exactly the fields that are resolved, each the resolver of what the field asks for |
| ModelBuild.BuildModel | analysis/model.go:28-69 | the search ends, and succeeds if and only if the schema type fits the Go type, by a relation read off the schema and the tables alone; then every pair that can be reached has its complete resolver, with parts for exactly the fields that are resolved |

## Left out

- ResultTrees.ResultTree.HandleValue: takes frames that step into a field or an element, not both, and whose value comes with a step; the encoder sends no others (`Stream.FramesFit`), and the code would leave a node without its label.
- Clients.Client.HandleValue: the same frames.
- Clients.Client.HandleMessages: the query and result ids of a message, which only select the stream, and the flush of the decoders.
- ResultNodes.PathCursor.Apply: after a handler has thrown, when the program leaves the rest undefined, it keeps the old result node; here the cursor has moved on and nothing more is promised.
- ResultPurge.PurgeBelow: does not call handlers along the way; to a decoder whose query is attached that changes nothing (`JsonDecoders.KnownStep`), and none such selects the purged node.
- ResultTrees.ResultTree.HandleQtNodePurge: the same.
- ServerTrees.ServerTree.Dispose: releasing the node's variables and telling its resolver.
- ServerTrees.ServerTree.AddChild: fields and variables are taken to resolve on the server, so the branches that leave a node in a failed state are not modelled.
- ServerTrees.ServerTree.ApplyTreeMutation: the same.
- Replication.EmittedFreshly: for operations the server can follow, which `QueryTreeHistory.OneReplays` says exactly; `Replication.AttachClashes` is about the others.
- WireReader.NextField: an unknown field is an error here, where the program keeps its bytes (protobuf-go-lite's Skip is not part of this model).
- WireReader.UnmarshalArg: the same unknown fields.
- WireReader.UnmarshalDirective: the same unknown fields.
- WireReader.UnmarshalNode: the same unknown fields.
- WireReader.UnmarshalPrimitive: the same unknown fields.
- WireReader.UnmarshalValue: the same unknown fields.
- WireRecords.FrameExact: the same unknown fields; so for the messages in WireMessages.
- QueryTrees.QueryTree.BuildQuery: (name, arguments) is one opaque key; the variable stores of both sides, which drift apart after the server collects garbage, are not kept by the tree here.
- JsonHandlers.JSONDecoder.HandleValue: a value that is undefined, which deletes a key and is sent only for queries already detached; the name of a field comes with the query instead of being looked up, which is the same as long as the query is attached (`JsonDecoders.LookupFinds`).
- JsonDecoders.DecoderFollows: the result object is a field that the decoder assigns into by position; identity of its nested objects and values packed as JSON are not modelled. It needs response keys distinct side by side, and positions of values disjoint from those with something below them.
- JsonDecoders.AddResultHandler: the flush at its end.
- ModelBuild.BuildModel: what go/types reports about one Go type (method sets, signatures, convertibility) is a table; schema types are keys by structure, not by pointer; which fields are lists (`arrayFields`) is used in printing alone.
- AliasRuns.RunExact: identifiers are unbounded; the counter of the encoder wraps around after 2^32 labels. Error values and nil values do not end a sequence on the client (`client/result-tree.ts:109`), which is why a clean write carries a value; `AliasSync.IntendedExact` has the exact condition.
- The server's rule for when a context is final (resolver/context.go:75-104): an arbitrary input at every write.
- Result handlers other than the JSON decoder, removal of handlers (which, like adding, is about the root cursor alone), and cachedCursors, which nothing fills.
- Sessions.Play: the queries that are decoded are attached before anything is stored, and stay; `JsonLive.Listen` is for later.
- result/multiplexer.go, sessions, subscriptions, RPC, printing of resolver code, schema parsing and introspection: channels, timers, I/O or thin wrappers.
- The Go client (client/*.go): an older variant of the TypeScript one that drops the step of a merged frame.
- golang-lru, lru_map and the varint helpers of protobuf-go-lite are libraries: they are modelled by what they document.
- JSON and text forms of the messages; the other messages of the codec, which would only add members of the same kind.
