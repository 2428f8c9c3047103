/** What the result encoder sends and what the result tree does with it, as functions.
    The classes in Encoder.dfy and ResultTree.dfy are proved to compute exactly these. */
module AliasSpec {
  import opened Messages
  import opened Resolver
  import opened Lru

  // ----- the server side

  /** encoder/path-cache.go:45 shadows `id`, so the code as written files a fresh label under
      key 0. `Intended` files it under the identifier that was just assigned. */
  datatype Mode = Intended | AsWritten

  /** The encoder between two values: the next identifier, every known context's
      PosIdentifier, and the label cache. */
  datatype Enc = Enc(nextId: nat, labels: map<Context, nat>, cache: Cache<Context>)

  /** A resolver value: an error, or a primitive (nil when neither was set). */
  datatype Payload = Val(value: Option<Primitive>) | Err(msg: seq<Byte>)

  function Carried(p: Payload): Option<Primitive> {
    if p.Val? then p.value else None
  }

  function ErrorText(p: Payload): seq<Byte> {
    if p.Err? then p.msg else []
  }

  function LabelIn(labels: map<Context, nat>, c: Context): nat {
    if c in labels then labels[c] else 0
  }

  /** onEvicted for every evicted key: clears the label unless the context moved on to another. */
  function ClearEvicted(labels: map<Context, nat>, cache: Cache<Context>, gone: set<nat>): map<Context, nat> {
    map c | c in labels ::
      if labels[c] in gone && labels[c] in cache.vals && cache.vals[labels[c]] == c then 0 else labels[c]
  }

  /** PathCache.Put: renews a labelled context, or labels a new one. */
  function Put(e: Enc, c: Context, size: nat, mode: Mode): Enc {
    var held := LabelIn(e.labels, c);
    var id := if held == 0 then e.nextId else held;
    var key := if held == 0 && mode == AsWritten then 0 else id;
    var labels := e.labels[c := id];
    Enc(
      if held == 0 then e.nextId + 1 else e.nextId,
      ClearEvicted(labels, e.cache, Evicted(e.cache.order, key, size)),
      Add(e.cache, key, c, size))
  }

  /** The written context and its ancestors up to the first labelled one, or the top. */
  ghost function Climb(labels: map<Context, nat>, c: Context): (comps: seq<Context>)
    requires Chained(c)
    ensures comps != [] && comps[0] == c
    decreases |c.path|
  {
    if LabelIn(labels, c) != 0 || c.parent == null then [c] else [c] + Climb(labels, c.parent)
  }

  /** Renewing the root of the climb when it is labelled. */
  function RenewRoot(e: Enc, root: Context, size: nat, mode: Mode): Enc {
    if LabelIn(e.labels, root) != 0 then Put(e, root, size, mode) else e
  }

  /** The index labelPathComponents labels: the first component that is not final, or |comps|. */
  function FirstLive(comps: seq<Context>, finals: set<Context>): (j: nat)
    ensures j <= |comps|
    ensures j < |comps| ==> comps[j] !in finals
    ensures forall k :: 0 <= k < j ==> comps[k] in finals
  {
    if comps == [] || comps[0] !in finals then 0 else 1 + FirstLive(comps[1..], finals)
  }

  /** labelPathComponents. The root of the climb is never a candidate. */
  function LabelOne(e: Enc, comps: seq<Context>, finals: set<Context>, size: nat, mode: Mode): Enc
    requires comps != []
  {
    var j := FirstLive(comps[..|comps| - 1], finals);
    if j < |comps| - 1 then Put(e, comps[j], size, mode) else e
  }

  /** The frames of comps[i], ..., comps[0]; the last one carries the payload. */
  function Tail(labels: map<Context, nat>, comps: seq<Context>, i: nat, p: Payload): seq<RGQLValue>
    requires i < |comps|
  {
    var id := LabelIn(labels, comps[i]);
    if i == 0 then [FrameOf(comps[0].step, id, Carried(p), ErrorText(p))]
    else [FrameOf(comps[i].step, id, None, [])] + Tail(labels, comps, i - 1, p)
  }

  /** The whole frame sequence. A labelled root is sent as a reference, merged into the frame of
      the next component unless that one is being labelled itself. */
  function Frames(labels: map<Context, nat>, comps: seq<Context>, p: Payload): seq<RGQLValue>
    requires comps != []
    requires |comps| == 1 ==> LabelIn(labels, comps[0]) == 0
  {
    var n := |comps|;
    var rid := LabelIn(labels, comps[n - 1]);
    if rid == 0 then Tail(labels, comps, n - 1, p)
    else if LabelIn(labels, comps[n - 2]) == 0 then
      Tail(labels, comps, n - 2, p)[0 := Tail(labels, comps, n - 2, p)[0].(posIdentifier := rid)]
    else [RGQLValue(0, 0, rid, None, [])] + Tail(labels, comps, n - 2, p)
  }

  /** Run panics when it indexes the component below a labelled root that has none. */
  datatype Sent = Panic | Sent(frames: seq<RGQLValue>, enc: Enc)

  /** One round of ResultEncoder.Run. `finals` are the contexts whose IsFinal is set. */
  ghost function Write(e: Enc, c: Context, finals: set<Context>, p: Payload, size: nat, mode: Mode): Sent
    requires Chained(c)
  {
    var comps := Climb(e.labels, c);
    var e1 := RenewRoot(e, comps[|comps| - 1], size, mode);
    var e2 := LabelOne(e1, comps, finals, size, mode);
    if |comps| == 1 && LabelIn(e2.labels, comps[0]) != 0 then Panic
    else Sent(Frames(e2.labels, comps, p), e2)
  }

  // ----- the client side

  /** A PathCursor. `path` is every step it was given, also the ones taken out of bounds. */
  datatype Cursor = Cursor(path: Path, oob: bool)

  /** The ResultTree: the cursor of an unfinished sequence, the alias cache, and the reachable
      result nodes with their values. */
  datatype Dec = Dec(cursor: Option<Cursor>, cache: Cache<Cursor>, trie: map<Path, Option<Primitive>>)

  /** handleValue throws on an unknown position identifier. */
  datatype Handled = UnknownId | Handled(dec: Dec)

  /** A frame steps into a field or an array element, not both, and a value comes with a step. */
  ghost predicate FrameOk(f: RGQLValue) {
    && (f.queryNodeId == 0 || f.arrayIndex == 0)
    && (f.value.Some? ==> StepOf(f).Some?)
  }

  function Extend(p: Path, f: RGQLValue): Path {
    if StepOf(f).Some? then p + [StepOf(f).value] else p
  }

  /** PathCursor.apply on the cursor. `live` holds the paths of the query tree. */
  function Advance(live: set<QPath>, cur: Cursor, f: RGQLValue): Cursor {
    var lost := StepOf(f).Some? && StepOf(f).value.Field? && Proj(cur.path) + [StepOf(f).value.id] !in live;
    Cursor(Extend(cur.path, f), cur.oob || lost)
  }

  /** PathCursor.apply on the tree: an in-bounds cursor whose node is still in the tree finds or
      creates the next node, and a frame with a value overwrites it. */
  function Store(live: set<QPath>, trie: map<Path, Option<Primitive>>, cur: Cursor, f: RGQLValue)
    : map<Path, Option<Primitive>>
  {
    var next := Advance(live, cur, f);
    if next.oob || cur.path !in trie then trie
    else if next.path in trie && f.value == None then trie
    else trie[next.path := f.value]
  }

  /** handleValue. */
  function Handle(live: set<QPath>, d: Dec, f: RGQLValue, size: nat): Handled {
    if d.cursor.None? && f.posIdentifier != 0 then
      if f.posIdentifier !in d.cache.vals then UnknownId
      else
        var d' := d.(cache := Renew(d.cache, f.posIdentifier));
        Handled(Arrive(live, d', d.cache.vals[f.posIdentifier], f.(posIdentifier := 0), size))
    else
      Handled(Arrive(live, d, if d.cursor.Some? then d.cursor.value else Cursor([], false), f, size))
  }

  /** The second half of handleValue, once the cursor is chosen. */
  function Arrive(live: set<QPath>, d: Dec, cur: Cursor, f: RGQLValue, size: nat): Dec {
    var next := Advance(live, cur, f);
    Dec(
      if f.value.Some? then None else Some(next),
      if f.posIdentifier != 0 then Add(d.cache, f.posIdentifier, next, size) else d.cache,
      Store(live, d.trie, cur, f))
  }

  function HandleAll(live: set<QPath>, d: Dec, fs: seq<RGQLValue>, size: nat): Handled
    decreases |fs|
  {
    if fs == [] then Handled(d)
    else
      var r := Handle(live, d, fs[0], size);
      if r.UnknownId? then UnknownId else HandleAll(live, r.dec, fs[1..], size)
  }

  // ----- the reference: no aliases, no cursors, no caches

  /** The nodes on the way to `path` that the query tree still selects. */
  function Passed(live: set<QPath>, path: Path): set<Path> {
    set i | 0 <= i <= |path| && Proj(path[..i]) in live :: path[..i]
  }

  /** Stores a value under its full path, creating the nodes on the way as far as the query
      tree still selects them. */
  function Direct(live: set<QPath>, trie: map<Path, Option<Primitive>>, path: Path, value: Option<Primitive>)
    : map<Path, Option<Primitive>>
  {
    map p | p in trie.Keys + Passed(live, path) ::
      if p == path && value.Some? && Proj(p) in live then value
      else if p in trie then trie[p]
      else None
  }

  // ----- invariants

  ghost predicate PrefixClosed(live: set<QPath>) {
    && [] in live
    && forall q, i {:trigger q in live, q[..i]} :: q in live && 0 <= i <= |q| ==> q[..i] in live
  }

  /** Every id on the path is below `next`. */
  ghost predicate Bounded(q: QPath, next: nat) {
    forall i :: 0 <= i < |q| ==> q[i] < next
  }

  /** The result tree: closed under parents, and no node is for a dead query node. */
  ghost predicate TrieOk(live: set<QPath>, trie: map<Path, Option<Primitive>>) {
    && [] in trie
    && (forall p, i {:trigger p in trie, p[..i]} :: p in trie && 0 <= i <= |p| ==> p[..i] in trie)
    && (forall p :: p in trie ==> Proj(p) in live)
  }

  /** A cursor on a live path is in bounds, and the live nodes it passed are on the tree. */
  ghost predicate CursorOk(live: set<QPath>, trie: map<Path, Option<Primitive>>, cur: Cursor) {
    && (Proj(cur.path) in live ==> !cur.oob)
    && Reached(live, trie, cur.path)
  }

  ghost predicate Reached(live: set<QPath>, trie: map<Path, Option<Primitive>>, path: Path) {
    forall i {:trigger path[..i]} :: 0 <= i <= |path| && Proj(path[..i]) in live ==> path[..i] in trie
  }

  ghost predicate DecOk(live: set<QPath>, d: Dec, size: nat) {
    && Wf(d.cache) && |d.cache.order| <= size && 0 < size
    && TrieOk(live, d.trie)
    && (forall k :: k in d.cache.vals ==> CursorOk(live, d.trie, d.cache.vals[k]))
    && (d.cursor.Some? ==> CursorOk(live, d.trie, d.cursor.value))
  }

  /** Whatever the server sends: a cursor in bounds passed only nodes that are on the tree, as far as
      they are live. */
  ghost predicate CursorSound(live: set<QPath>, trie: map<Path, Option<Primitive>>, cur: Cursor) {
    !cur.oob ==> Reached(live, trie, cur.path)
  }

  /** What holds of the client whatever the server sends. */
  ghost predicate DecSound(live: set<QPath>, d: Dec, size: nat) {
    && Wf(d.cache) && |d.cache.order| <= size && 0 < size
    && TrieOk(live, d.trie)
    && (forall k :: k in d.cache.vals ==> CursorSound(live, d.trie, d.cache.vals[k]))
    && (d.cursor.Some? ==> CursorSound(live, d.trie, d.cursor.value))
  }

  ghost predicate ClosedUp(labels: map<Context, nat>) {
    && (forall c {:trigger Chained(c)} :: c in labels ==> Chained(c))
    && (forall c {:trigger c.parent} :: c in labels && c.parent != null ==> c.parent in labels)
  }

  /** The contexts the encoder knows, closed under PathParent, with labels below nextId. */
  ghost predicate EncOk(e: Enc, size: nat) {
    && 0 < e.nextId
    && Wf(e.cache) && |e.cache.order| <= size && 0 < size
    && ClosedUp(e.labels)
    && (forall c :: c in e.labels ==> e.labels[c] < e.nextId)
    && (forall k :: k in e.cache.vals ==> k < e.nextId)
    && (forall c :: c in e.labels && e.labels[c] != 0 ==> c.parent != null)
  }

  /** The server never labels a context without caching it under that label, and conversely. */
  ghost predicate LabelsCached(e: Enc) {
    && (forall c :: c in e.labels && e.labels[c] != 0 ==>
          e.labels[c] in e.cache.vals && e.cache.vals[e.labels[c]] == c)
    && (forall k :: k in e.cache.vals ==>
          k != 0 && e.cache.vals[k] in e.labels && e.labels[e.cache.vals[k]] == k)
  }

  /** Whatever label the server may still use for a context, the client reads as its path. */
  ghost predicate Denotes(e: Enc, d: Dec) {
    && (forall c :: c in e.labels && e.labels[c] != 0 && e.labels[c] in d.cache.vals ==>
          d.cache.vals[e.labels[c]].path == c.path)
    && (forall k :: k in d.cache.vals ==> 0 < k < e.nextId)
  }

  /** Between two values: the client awaits a first frame, and both caches hold the same
      identifiers in the same order of use, each denoting the same path. */
  ghost predicate InSync(e: Enc, d: Dec) {
    && d.cursor == None
    && e.cache.order == d.cache.order
    && Denotes(e, d)
  }
}
