/** The client end of the stream, in place: client/path-cache.ts and client/result-tree.ts. */
module ResultTrees {
  import opened Messages
  import opened Lru
  import opened AliasSpec
  import opened QueryTreeNodes
  import opened QueryTreeSweep
  import opened ResultNodes
  import opened JsonHandlers
  import opened ResultPurge
  import Joint

  /** PathCache: an LRU map of cursors. */
  class PathCache {
    const limit: nat
    var cache: Cache<PathCursor>

    ghost predicate Valid()
      reads this
    {
      Wf(cache) && |cache.order| <= limit && 0 < limit
    }

    constructor (size: nat)
      requires 0 < size
      ensures Valid() && limit == size && cache == Cache([], map[])
    {
      limit, cache := size, Cache([], map[]);
    }

    /** get: retrieves a cursor, registering the use. */
    method Get(key: nat) returns (r: PathCursor?)
      requires Valid()
      modifies this
      ensures Valid()
      ensures key in old(cache.vals) ==> r == old(cache.vals)[key] && cache == Renew(old(cache), key)
      ensures key !in old(cache.vals) ==> r == null && cache == old(cache)
    {
      if key !in cache.vals { return null; }
      RenewWf(cache, key);
      r := cache.vals[key];
      cache := Renew(cache, key);
    }

    /** lru_map's set on a map with room, or with the key in it already. */
    method Insert(key: nat, value: PathCursor)
      requires Wf(cache) && (key in cache.vals || |cache.order| < limit) && |cache.order| <= limit
      modifies this
      ensures Valid() && cache == Cache(Touch(old(cache.order), key), old(cache.vals)[key := value])
    {
      TouchNoDups(cache.order, key);
      cache := Cache(Touch(cache.order, key), cache.vals[key := value]);
    }

    /** lru_map's shift: the oldest entry goes. */
    method Shift()
      requires Valid() && cache.order != []
      modifies this
      ensures Wf(cache) && cache == Cache(old(cache.order)[1..], old(cache.vals) - {old(cache.order)[0]})
    {
      var oldest := cache.order[0];
      assert cache.order == [oldest] + cache.order[1..];
      cache := Cache(cache.order[1..], cache.vals - {oldest});
    }

    /** setWithEvict: the oldest entry is shifted out first when a new one does not fit. */
    method Set(key: nat, value: PathCursor)
      requires Valid()
      modifies this
      ensures Valid() && cache == Add(old(cache), key, value, limit)
    {
      var known := key in cache.vals;
      if |cache.order| == limit && !known {
        WithoutId(cache.order[1..], key);
        Shift();
      }
      Insert(key, value);
    }
  }

  ghost function Views(c: Cache<PathCursor>): Cache<Cursor>
    reads c.vals.Values`path, c.vals.Values`outOfBounds
  {
    Cache(c.order, map k | k in c.vals :: c.vals[k].View())
  }

  ghost predicate AllLinked(cs: set<PathCursor>, at: Places, gone: set<ResultTreeNode>, qnodes: set<QueryTreeNode>)
    reads cs`path, cs`outOfBounds, cs`qnode, cs`rnode
  {
    forall c | c in cs :: c.Linked(at, gone, qnodes)
  }

  /** What these cursors carry is of these decoders, one handler each. */
  ghost predicate AllHeed(cs: set<PathCursor>, heard: set<JSONDecoder>)
    reads cs`resultHandlers
  {
    forall c | c in cs :: c.Heeds(heard)
  }

  ghost function ListsIn(c: Cache<PathCursor>): map<nat, seq<Listening>>
    reads c.vals.Values`resultHandlers
  {
    map k | k in c.vals :: c.vals[k].resultHandlers
  }

  /** A step of one cursor, beside the others: those still point where they did. */
  method ApplyBeside(cur: PathCursor, ghost others: set<PathCursor>, ghost cache: Cache<PathCursor>, val: RGQLValue,
                     ghost live: set<QPath>, ghost qnodes: set<QueryTreeNode>, ghost at: Places,
                     ghost gone: set<ResultTreeNode>, ghost heard: set<JSONDecoder>)
    returns (threw: bool, ghost at': Places, ghost gone': set<ResultTreeNode>)
    requires QueryView(live, qnodes) && PlacesOk(at, gone) && FrameOk(val) && cur.Linked(at, gone, qnodes)
    requires cur.Heeds(heard) && cur !in others && cache.vals.Values <= others
    requires AllLinked(others, at, gone, qnodes) && AllOk(others, live, TrieOf(at)) && AllHeed(others, heard)
    requires TrieOk(live, Store(live, TrieOf(at), cur.View(), val))
    modifies cur, at.Values`children, at.Values`value, gone`children, gone`value, heard
    ensures PlacesOk(at', gone') && cur.View() == Advance(live, old(cur.View()), val) && cur.Linked(at', gone', qnodes)
    ensures cur.Heeds(heard) && AllLinked(others, at', gone', qnodes) && AllHeed(others, heard)
    ensures TrieOf(at') == Store(live, old(TrieOf(at)), old(cur.View()), val)
    ensures [] in at ==> [] in at' && at'[[]] == at[[]]
    ensures fresh(at'.Values - at.Values) && fresh(gone' - gone)
    ensures Views(cache) == old(Views(cache)) && ListsIn(cache) == old(ListsIn(cache))
    ensures Called(heard, live, old(cur.View()), val, old(Results(heard)), old(cur.resultHandlers), threw,
                   Results(heard), cur.resultHandlers)
  {
    hide *;
    TrieKeys(at);
    ghost var trie := TrieOf(at);
    threw, at', gone' := cur.Apply(val, live, qnodes, at, gone, heard);
    StillLinked(others, live, trie, at, gone, qnodes, at', gone', cur.path);
    GrownMeans(at, at', cur.path);
    NewValues(at, at');
  }

  class ResultTree {
    const root: ResultTreeNode
    const rootCursor: PathCursor
    const pathCache: PathCache
    var cursor: PathCursor?
    var handlers: seq<JSONDecoder>

    /** The nodes on the tree, those purged from it, and the decoders that were added. */
    ghost var at: Places
    ghost var gone: set<ResultTreeNode>
    ghost var listeners: set<JSONDecoder>

    /** Every cursor there is. */
    ghost function Cursors(): set<PathCursor>
      reads this`cursor, pathCache
    {
      {rootCursor} + pathCache.cache.vals.Values + if cursor == null then {} else {cursor}
    }

    /** Every result node there is. */
    ghost function Nodes(): set<ResultTreeNode>
      reads this`at, this`gone
    {
      at.Values + gone
    }

    ghost predicate Apart()
      reads this`cursor, pathCache
    {
      && rootCursor !in pathCache.cache.vals.Values
      && (cursor != null ==> cursor != rootCursor && cursor !in pathCache.cache.vals.Values)
    }

    ghost predicate Shaped()
      reads this`at, this`gone, at.Values`children, at.Values`value, gone`children
    {
      PlacesOk(at, gone) && [] in at && at[[]] == root
    }

    ghost predicate Valid(qnodes: set<QueryTreeNode>)
      reads this, pathCache, Cursors(), at.Values`children, at.Values`value, gone`children
    {
      && Shaped() && pathCache.Valid() && Apart() && AllLinked(Cursors(), at, gone, qnodes)
      && rootCursor.View() == Cursor([], false)
      && AllHeed(Cursors(), listeners) && listeners == set dec | dec in handlers
    }

    /** What the cursors carry. */
    ghost function Carrying(): Handlers
      reads this`cursor, pathCache, Cursors()`resultHandlers
    {
      Handlers(rootCursor.resultHandlers, ListsIn(pathCache.cache),
              if cursor == null then None else Some(cursor.resultHandlers))
    }

    ghost function Model(): Dec
      reads this, pathCache, Cursors(), at.Values`value
    {
      Dec(if cursor == null then None else Some(cursor.View()), Views(pathCache.cache), TrieOf(at))
    }

    constructor (qroot: QueryTreeNode, cacheSize: nat, ghost qnodes: set<QueryTreeNode>)
      requires 0 < cacheSize && qroot in qnodes && qroot.path == []
      ensures Valid(qnodes) && pathCache.limit == cacheSize
      ensures Model() == Dec(None, Cache([], map[]), map[[] := None])
      ensures fresh(pathCache) && fresh(rootCursor) && cursor == null && fresh(at.Values) && gone == {}
      ensures listeners == {}
    {
      var r := new ResultTreeNode(RGQLValue(0, 0, 0, None, []), []);
      root := r;
      rootCursor := new PathCursor(qroot, r, []);
      pathCache := new PathCache(cacheSize);
      cursor, handlers, at, gone, listeners := null, [], map[[] := r], {}, {};
      new;
      StartsValid(this, qnodes);
    }

    /** What the tree has become, once a cursor has stepped. */
    ghost method Grow(at': Places, gone': set<ResultTreeNode>)
      modifies this`at, this`gone
      ensures at == at' && gone == gone'
    {
      at, gone := at', gone';
    }

    /** The cursor takes the step of a frame, and calls its handlers. */
    method Move(val: RGQLValue, ghost live: set<QPath>, ghost qnodes: set<QueryTreeNode>) returns (threw: bool)
      requires Valid(qnodes) && PrefixClosed(live) && QueryView(live, qnodes) && FrameOk(val) && cursor != null
      requires DecSound(live, Model(), pathCache.limit)
      modifies this`at, this`gone, cursor, at.Values`children, at.Values`value, gone`children, gone`value, listeners
      ensures Valid(qnodes)
      ensures Model() == Dec(Some(Advance(live, old(cursor.View()), val)), old(Model()).cache,
                             Store(live, old(Model()).trie, old(cursor.View()), val))
      ensures fresh(at.Values - old(at.Values)) && fresh(gone - old(gone))
      ensures Carrying() == old(Carrying()).(cursor := Some(cursor.resultHandlers))
      ensures Called(listeners, live, old(cursor.View()), val, old(Results(listeners)), old(cursor.resultHandlers),
                     threw, Results(listeners), cursor.resultHandlers)
    {
      hide *;
      ghost var d, cur, others := Model(), cursor.View(), {rootCursor} + pathCache.cache.vals.Values;
      ValidMeans(this, qnodes);
      CarryingIs(this);
      ModelMeans(this, live, qnodes);
      ArriveOk(live, d, cur, val, pathCache.limit);
      ghost var at', gone';
      threw, at', gone' := ApplyBeside(cursor, others, pathCache.cache, val, live, qnodes, at, gone, listeners);
      Grow(at', gone');
      ValidMeans(this, qnodes);
      CarryingIs(this);
    }

    /** A frame with an identifier files a copy of the cursor under it. */
    method Remember(posIdentifier: nat, ghost qnodes: set<QueryTreeNode>)
      requires Valid(qnodes) && cursor != null
      modifies pathCache
      ensures Valid(qnodes)
      ensures Model() == old(Model()).(cache :=
                if posIdentifier != 0 then Add(old(Model()).cache, posIdentifier, old(cursor.View()), pathCache.limit)
                else old(Model()).cache)
      ensures Carrying() == old(Carrying()).(cached :=
                FiledLists(old(Carrying()).cached, posIdentifier, cursor.resultHandlers, Model().cache.vals.Keys))
    {
      hide *;
      ValidMeans(this, qnodes);
      CarryingIs(this);
      if posIdentifier != 0 {
        ghost var others, before := {rootCursor} + pathCache.cache.vals.Values, pathCache.cache;
        var copy := cursor.Clone();
        CopyLinked(cursor, copy, at, gone, qnodes);
        CopyHeeds(cursor, copy, listeners);
        ViewsAdd(pathCache.cache, posIdentifier, copy, pathCache.limit);
        LinkedWith(others, copy, rootCursor, Add(pathCache.cache, posIdentifier, copy, pathCache.limit).vals.Values, at,
          gone, qnodes);
        HeedWith(others, copy, rootCursor, Add(pathCache.cache, posIdentifier, copy, pathCache.limit).vals.Values,
          listeners);
        ListsAdd(before, posIdentifier, copy, pathCache.limit);
        pathCache.Set(posIdentifier, copy);
      } else {
        ListsSame(pathCache.cache, cursor.resultHandlers);
      }
      ValidMeans(this, qnodes);
      CarryingIs(this);
    }

    /** After the step: the cursor is remembered, and a value ends the sequence. */
    method Settle(val: RGQLValue, ghost qnodes: set<QueryTreeNode>)
      requires Valid(qnodes) && cursor != null
      modifies this`cursor, pathCache
      ensures Valid(qnodes) && (cursor == null || cursor == old(cursor))
      ensures Model() == Dec(if val.value.Some? then None else old(Model()).cursor,
                             if val.posIdentifier != 0
                             then Add(old(Model()).cache, val.posIdentifier, old(cursor.View()), pathCache.limit)
                             else old(Model()).cache,
                             old(Model()).trie)
      ensures
        var all := old(Carrying());
        Carrying() ==
        Handlers(all.root,
                 FiledLists(all.cached, val.posIdentifier, old(cursor.resultHandlers), Model().cache.vals.Keys),
                 if val.value.Some? then None else all.cursor)
    {
      hide *;
      Remember(val.posIdentifier, qnodes);
      ValidMeans(this, qnodes);
      CarryingIs(this);
      if val.value.Some? {
        cursor := null;
        ValidMeans(this, qnodes);
        CarryingIs(this);
      }
    }

    /** The second half of handleValue, once the cursor is chosen. */
    method Proceed(val: RGQLValue, ghost live: set<QPath>, ghost qnodes: set<QueryTreeNode>) returns (threw: bool)
      requires Valid(qnodes) && PrefixClosed(live) && QueryView(live, qnodes) && FrameOk(val) && cursor != null
      requires DecSound(live, Model(), pathCache.limit)
      modifies this`cursor, this`at, this`gone, pathCache, cursor, at.Values`children, at.Values`value, gone`children,
        gone`value, listeners
      ensures Valid(qnodes)
      ensures !threw ==> Model() == Arrive(live, old(Model()), old(cursor.View()), val, pathCache.limit)
      ensures !threw ==> DecSound(live, Model(), pathCache.limit)
      ensures fresh(at.Values - old(at.Values)) && fresh(gone - old(gone)) && (cursor == null || cursor == old(cursor))
      ensures ProceededBy(listeners, live, old(Model()), val, old(Results(listeners)), old(Carrying()), threw,
                          Results(listeners), Carrying(), Model())
    {
      hide *;
      ghost var d, cur, all := Model(), cursor.View(), Carrying();
      ValidMeans(this, qnodes);
      ModelMeans(this, live, qnodes);
      ArriveOk(live, d, cur, val, pathCache.limit);
      CarryingIs(this);
      threw := Move(val, live, qnodes);
      ValidMeans(this, qnodes);
      ghost var next := cursor.resultHandlers;
      if threw {
        ProceedThrew(listeners, live, d, val, old(Results(listeners)), all, Results(listeners), next, Carrying(),
          Model());
        return;
      }
      Settle(val, qnodes);
      AddKeys(d.cache, val.posIdentifier, Advance(live, cur, val), pathCache.limit);
      ProceedHeard(listeners, live, d, val, old(Results(listeners)), all, Results(listeners), next, Carrying(),
        Model());
    }

    /** A sequence of frames starts from a copy of a cursor. */
    method StartFrom(c: PathCursor, ghost qnodes: set<QueryTreeNode>)
      requires Valid(qnodes) && cursor == null && c in {rootCursor} + pathCache.cache.vals.Values
      modifies this`cursor
      ensures Valid(qnodes) && cursor != null && fresh(cursor)
      ensures Model() == old(Model()).(cursor := Some(c.View()))
      ensures Carrying() == old(Carrying()).(cursor := Some(c.resultHandlers))
    {
      hide *;
      ValidMeans(this, qnodes);
      CarryingIs(this);
      var copy := c.Clone();
      OneLinked(c, {rootCursor} + pathCache.cache.vals.Values, at, gone, qnodes);
      OneHeeds(c, {rootCursor} + pathCache.cache.vals.Values, listeners);
      CopyLinked(c, copy, at, gone, qnodes);
      CopyHeeds(c, copy, listeners);
      cursor := copy;
      ValidMeans(this, qnodes);
      CarryingIs(this);
    }

    /** The first half of handleValue, for a first frame: the cursor it starts from. */
    method Choose(posID: nat, ghost qnodes: set<QueryTreeNode>) returns (known: bool)
      requires Valid(qnodes) && cursor == null
      modifies this`cursor, pathCache
      ensures Valid(qnodes) && (cursor != null ==> fresh(cursor))
      ensures var d := old(Model());
              if posID == 0 then known && Model() == d.(cursor := Some(Cursor([], false)))
              else if posID in d.cache.vals then known
                     && Model() == d.(cache := Renew(d.cache, posID), cursor := Some(d.cache.vals[posID]))
              else !known && Model() == d
      ensures var all := old(Carrying());
              && (posID != 0 && known ==> posID in all.cached)
              && Carrying() == if !known then all
                               else all.(cursor := Some(if posID == 0 then all.root else all.cached[posID]))
    {
      hide *;
      ValidMeans(this, qnodes);
      CarryingIs(this);
      if posID == 0 {
        StartFrom(rootCursor, qnodes);
        return true;
      }
      ViewsRenew(pathCache.cache, posID);
      ListsRenew(pathCache.cache, posID);
      var posIDCursor := pathCache.Get(posID);
      ValidMeans(this, qnodes);
      CarryingIs(this);
      if posIDCursor == null {
        return false;
      }
      StartFrom(posIDCursor, qnodes);
      known := true;
    }

    /** handleValue: a first frame may refer to a cached cursor; an unknown reference is refused. The
        decoders hear the frame through the handlers its cursor carries. */
    method HandleValue(val: RGQLValue, ghost live: set<QPath>, ghost qnodes: set<QueryTreeNode>)
      returns (known: bool, threw: bool)
      requires Valid(qnodes) && PrefixClosed(live) && QueryView(live, qnodes) && FrameOk(val)
      requires DecSound(live, Model(), pathCache.limit)
      modifies this`cursor, this`at, this`gone, pathCache, cursor, at.Values`children, at.Values`value, gone`children,
        gone`value, listeners
      ensures Valid(qnodes) && (!threw ==> DecSound(live, Model(), pathCache.limit))
      ensures known == Handle(live, old(Model()), val, pathCache.limit).Handled?
      ensures known && !threw ==> Handle(live, old(Model()), val, pathCache.limit) == Handled(Model())
      ensures !known ==> !threw && Model() == old(Model())
      ensures !known ==> Results(listeners) == old(Results(listeners)) && Carrying() == old(Carrying())
      ensures fresh(at.Values - old(at.Values)) && fresh(gone - old(gone))
      ensures cursor == null || cursor == old(cursor) || fresh(cursor)
      ensures known ==> HeardBy(listeners, live, old(Model()), val, Model(), old(Results(listeners)), old(Carrying()),
                                threw, Results(listeners), Carrying())
    {
      hide *;
      ghost var d, all := Model(), Carrying();
      ValidMeans(this, qnodes);
      CarryingIs(this);
      HandleIs(live, d, val, pathCache.limit);
      threw := false;
      var v := val;
      if cursor == null {
        known := Choose(val.posIdentifier, qnodes);
        ValidMeans(this, qnodes);
        if !known { return; }
        v := val.(posIdentifier := 0);
      }
      ghost var d1, all1 := Model(), Carrying();
      threw := Proceed(v, live, qnodes);
      known := true;
      FirstFrames(listeners, d, all, val, d1, all1, v);
      FirstHeard(listeners, live, d, d1, val, v, old(Results(listeners)), all, all1, threw, Results(listeners),
        Carrying(), Model());
    }

    /** Everything that extends the target is purged. */
    method PurgeFromRoot(ids: seq<nat>, ghost qnodes: set<QueryTreeNode>)
      requires Valid(qnodes) && |ids| >= 2 && forall k | 0 <= k <= |ids| - 2 :: ids[k] != 0
      modifies this`at, this`gone, at.Values`children, at.Values`value
      ensures Valid(qnodes) && Model() == old(Model()).(trie := Joint.Purge(old(Model()).trie, Rest(ids, |ids| - 2)))
      ensures at.Values <= old(at.Values) && gone <= old(gone + at.Values)
    {
      hide *;
      ValidMeans(this, qnodes);
      CursorSets(this, qnodes);
      at, gone := PurgePlaces(ids, root, at, gone, qnodes, Cursors());
      CursorSets(this, qnodes);
      ValidMeans(this, qnodes);
    }

    /** The registration in addResultHandler: only the root cursor gets the handler. */
    method AddHandler(dec: JSONDecoder, handler: Handler, ghost qnodes: set<QueryTreeNode>)
      requires Valid(qnodes) && dec !in listeners
      modifies this`handlers, this`listeners, rootCursor`resultHandlers
      ensures Valid(qnodes) && Model() == old(Model()) && listeners == old(listeners) + {dec}
      ensures handlers == old(handlers) + [dec]
      ensures EarsBy(Carrying(), dec) == Ears(Some(handler), map k | k in Model().cache.vals :: None, None)
      ensures forall x | x in old(listeners) :: EarsBy(Carrying(), x) == old(EarsBy(Carrying(), x))
    {
      hide *;
      var l := Listening(dec, handler);
      ghost var heard, hs, all := listeners, rootCursor.resultHandlers, Carrying();
      ValidMeans(this, qnodes);
      CarryingIs(this);
      CarryingOnly(this, qnodes);
      ghost var others := OthersHeed(this, qnodes);
      handlers := handlers + [dec];
      rootCursor.resultHandlers := rootCursor.resultHandlers + [l];
      listeners := listeners + {dec};
      HeedMore(this, others, heard, hs, l);
      ValidMeans(this, qnodes);
      CarryingIs(this);
      forall x ensures EarsBy(Carrying(), x) ==
          if x == dec then Ears(Some(handler), map k | k in all.cached :: None, None) else EarsBy(all, x)
      {
        EarsAdded(all, heard, l, x);
      }
    }

    /** handleQtNodePurge: the ids up to the root, and then the purge from the root down. */
    method HandleQtNodePurge(nod: QueryTreeNode, ghost qnodes: set<QueryTreeNode>)
      requires Valid(qnodes) && QChained(nod) && nod.parent != null
      modifies this`at, this`gone, at.Values`children, at.Values`value
      ensures Valid(qnodes) && Model() == old(Model()).(trie := Joint.Purge(old(Model()).trie, nod.path))
      ensures at.Values <= old(at.Values) && gone <= old(gone + at.Values)
    {
      hide *;
      ValidMeans(this, qnodes);
      var purgeQnIDs := IdsToRoot(nod);
      ValidMeans(this, qnodes);
      PurgeFromRoot(purgeQnIDs, qnodes);
    }
  }

  // ----- purging

  lemma CursorSets(t: ResultTree, qnodes: set<QueryTreeNode>)
    ensures AllLinked(t.Cursors(), t.at, t.gone, qnodes) <==>
      && AllLinked({t.rootCursor} + t.pathCache.cache.vals.Values, t.at, t.gone, qnodes)
      && (t.cursor != null ==> t.cursor.Linked(t.at, t.gone, qnodes))
    ensures t.rootCursor in t.Cursors() && t.pathCache.cache.vals.Values <= t.Cursors()
    ensures (t.cursor != null ==> t.cursor in t.Cursors())
  {
  }

  /** The purge from the root down: the trie loses what extends the target, and cursors stay linked. */
  method PurgePlaces(ids: seq<nat>, root: ResultTreeNode, ghost at: Places, ghost gone: set<ResultTreeNode>,
                     ghost qnodes: set<QueryTreeNode>,
                     ghost cs: set<PathCursor>)
    returns (ghost at': Places, ghost gone': set<ResultTreeNode>)
    requires PlacesOk(at, gone) && [] in at && at[[]] == root && AllLinked(cs, at, gone, qnodes)
    requires |ids| >= 2 && forall k | 0 <= k <= |ids| - 2 :: ids[k] != 0
    modifies at.Values`children, at.Values`value
    ensures PlacesOk(at', gone') && [] in at' && at'[[]] == root && at'.Values <= at.Values && gone' <= gone + at.Values
    ensures AllLinked(cs, at', gone', qnodes) && TrieOf(at') == Joint.Purge(old(TrieOf(at)), Rest(ids, |ids| - 2))
  {
    hide *;
    PlacesMean(at, gone);
    ghost var vals, target := ValsNow(at.Values), Rest(ids, |ids| - 2);
    assert TrieOf(at) == TrieIn(at, vals);
    ghost var bound := HasBound(at);
    ProjRoot(target);
    at', gone' := PurgeBelow(|ids| - 2, ids, root, at, gone, [], bound);
    TriePurged(at, at', vals, TrieIn(at, vals), target);
    LinkedPurged(cs, at, gone, qnodes, at', gone', target);
    RootStays(at, gone, at', gone', target);
  }

  /** The ids from a query node up to the root. */
  method IdsToRoot(nod: QueryTreeNode) returns (purgeQnIDs: seq<nat>)
    requires QChained(nod) && nod.parent != null
    ensures |purgeQnIDs| >= 2 && Rest(purgeQnIDs, |purgeQnIDs| - 2) == nod.path
    ensures forall k | 0 <= k <= |purgeQnIDs| - 2 :: purgeQnIDs[k] != 0
  {
    hide *;
    purgeQnIDs := [];
    var n: QueryTreeNode? := nod;
    IdsStart(nod);
    while n != null
      invariant IdsSoFar(nod, purgeQnIDs, n)
      decreases if n == null then 0 else 1 + |n.path|
    {
      IdsNext(nod, purgeQnIDs, n);
      purgeQnIDs := purgeQnIDs + [n.id];
      n := n.parent;
    }
    IdsDone(nod, purgeQnIDs);
  }

  function UpIds(n: QueryTreeNode): seq<nat>
    requires QChained(n)
    decreases |n.path|
  {
    [n.id] + if n.parent == null then [] else UpIds(n.parent)
  }

  ghost predicate IdsSoFar(nod: QueryTreeNode, ids: seq<nat>, n: QueryTreeNode?) {
    && QChained(nod) && (n != null ==> QChained(n))
    && UpIds(nod) == ids + if n == null then [] else UpIds(n)
  }

  lemma IdsStart(nod: QueryTreeNode)
    requires QChained(nod)
    ensures IdsSoFar(nod, [], nod)
  {
  }

  lemma IdsNext(nod: QueryTreeNode, ids: seq<nat>, n: QueryTreeNode)
    requires IdsSoFar(nod, ids, n)
    ensures IdsSoFar(nod, ids + [n.id], n.parent) && (n.parent != null ==> |n.parent.path| < |n.path|)
  {
  }

  lemma {:induction false} RestCons(a: nat, ids: seq<nat>, idx: nat)
    requires idx < |ids|
    ensures Rest([a] + ids, idx + 1) == Rest(ids, idx) + [a]
  {
    if idx > 0 { RestCons(a, ids, idx - 1); }
  }

  lemma {:induction false} UpIdsRest(n: QueryTreeNode)
    requires QChained(n) && n.parent != null
    ensures |UpIds(n)| >= 2 && Rest(UpIds(n), |UpIds(n)| - 2) == n.path
    ensures forall k | 0 <= k <= |UpIds(n)| - 2 :: UpIds(n)[k] != 0
    decreases |n.path|
  {
    var up := UpIds(n.parent);
    UpOne(n);
    hide *;
    if n.parent.parent != null {
      UpIdsRest(n.parent);
      RestCons(n.id, up, |up| - 2);
    } else {
      RestOne(n.id, up);
    }
  }

  lemma UpOne(n: QueryTreeNode)
    requires QChained(n) && n.parent != null
    ensures QChained(n.parent) && |n.parent.path| < |n.path| && n.path == n.parent.path + [n.id] && n.id != 0
    ensures UpIds(n) == [n.id] + UpIds(n.parent)
    ensures n.parent.parent == null ==> |UpIds(n.parent)| == 1 && n.parent.path == []
  {
  }

  lemma RestOne(id: nat, up: seq<nat>)
    requires |up| == 1
    ensures |[id] + up| == 2 && Rest([id] + up, 0) == [id]
  {
  }

  lemma IdsDone(nod: QueryTreeNode, ids: seq<nat>)
    requires IdsSoFar(nod, ids, null) && nod.parent != null
    ensures |ids| >= 2 && Rest(ids, |ids| - 2) == nod.path && forall k | 0 <= k <= |ids| - 2 :: ids[k] != 0
  {
    UpIdsRest(nod);
    assert UpIds(nod) == ids;
  }

  lemma {:induction false} HasBound(at: Places) returns (bound: nat)
    ensures Within(at, bound)
    decreases |at|
  {
    bound := 0;
    if p :| p in at {
      var rest := at - {p};
      assert rest.Keys == at.Keys - {p};
      var b := HasBound(rest);
      bound := if |p| > b then |p| else b;
      forall q | q in at ensures |q| <= bound { if q != p { assert q in rest; } }
    }
  }

  lemma TriePurged(before: Places, at': Places, vals: Vals, trie: map<Path, Option<Primitive>>, target: QPath)
    requires at' == Purged(before, [], target) && forall p | p in before :: before[p] in vals
    requires trie == TrieIn(before, vals)
    requires forall p | p in before && p in at' :: before[p].value == vals[before[p]]
    ensures TrieOf(at') == Joint.Purge(trie, target)
  {
  }

  lemma LinkedPurged(cs: set<PathCursor>, at: Places, gone: set<ResultTreeNode>, qnodes: set<QueryTreeNode>,
                     at': Places, gone': set<ResultTreeNode>, target: QPath)
    requires AllLinked(cs, at, gone, qnodes) && Purging(at, gone, at', gone', [], target)
    ensures AllLinked(cs, at', gone', qnodes)
  {
  }

  lemma GrownMeans(at: Places, at': Places, next: Path)
    requires GrownBy(at, at', next)
    ensures forall p | p in at' && p in at :: at'[p] == at[p]
  {
  }

  lemma NewValues(at: Places, at': Places)
    requires forall p | p in at' && p in at :: at'[p] == at[p]
    ensures at'.Values - at.Values <= set p | p in at' && p !in at :: at'[p]
  {
  }

  lemma ProjRoot(target: QPath)
    ensures Proj([]) + target == target
  {
  }

  lemma RootStays(at: Places, gone: set<ResultTreeNode>, at': Places, gone': set<ResultTreeNode>, target: QPath)
    requires Purging(at, gone, at', gone', [], target)
    ensures [] in at' && [] in at && at'[[]] == at[[]] && at'.Values <= at.Values && gone' <= gone + at.Values
  {
    PurgingMeans(at, gone, at', gone', [], target);
  }

  // ----- facts

  lemma StartsValid(t: ResultTree, qnodes: set<QueryTreeNode>)
    requires t.root.path == [] && t.root.children == [] && t.root.value == RGQLValue(0, 0, 0, None, [])
    requires t.rootCursor.View() == Cursor([], false) && t.rootCursor.rnode == t.root
    requires t.rootCursor.qnode in qnodes && t.rootCursor.qnode.path == []
    requires t.rootCursor.resultHandlers == [] && t.handlers == [] && t.listeners == {}
    requires t.pathCache.Valid() && t.pathCache.cache == Cache([], map[])
    requires t.cursor == null && t.at == map[[] := t.root] && t.gone == {}
    ensures t.Valid(qnodes) && t.Model() == Dec(None, Cache([], map[]), map[[] := None])
  {
    assert Views(t.pathCache.cache) == Cache([], map[]);
    assert PlacesOk(t.at, t.gone);
    assert t.Cursors() == {t.rootCursor};
    assert Proj([]) == [];
    assert t.rootCursor.Linked(t.at, t.gone, qnodes);
  }

  lemma ValidMeans(t: ResultTree, qnodes: set<QueryTreeNode>)
    ensures t.Valid(qnodes) <==>
      && PlacesOk(t.at, t.gone) && [] in t.at && t.at[[]] == t.root && t.pathCache.Valid()
      && t.rootCursor !in t.pathCache.cache.vals.Values
      && (t.cursor != null ==> t.cursor != t.rootCursor && t.cursor !in t.pathCache.cache.vals.Values)
      && AllLinked({t.rootCursor} + t.pathCache.cache.vals.Values, t.at, t.gone, qnodes)
      && (t.cursor != null ==> t.cursor.Linked(t.at, t.gone, qnodes))
      && t.rootCursor.View() == Cursor([], false)
      && AllHeed({t.rootCursor} + t.pathCache.cache.vals.Values, t.listeners)
      && (t.cursor != null ==> t.cursor.Heeds(t.listeners)) && t.listeners == set dec | dec in t.handlers
    ensures
      t.Model() ==
        Dec(if t.cursor == null then None else Some(t.cursor.View()), Views(t.pathCache.cache), TrieOf(t.at))
  {
  }

  lemma CarryingIs(t: ResultTree)
    ensures t.Carrying() == Handlers(t.rootCursor.resultHandlers, ListsIn(t.pathCache.cache),
                                    if t.cursor == null then None else Some(t.cursor.resultHandlers))
    ensures t.Carrying().cached.Keys == t.Model().cache.vals.Keys && (t.cursor == null <==> t.Model().cursor == None)
  {
  }

  /** The cursors are there already: what a new object does is nothing to them. */
  lemma CursorsThere(t: ResultTree)
    ensures forall c | c in t.Cursors() :: allocated(c)
  {
  }

  lemma NodesThere(t: ResultTree)
    ensures forall n | n in t.Nodes() :: allocated(n)
  {
  }

  lemma NodesAre(t: ResultTree)
    ensures t.Nodes() == t.at.Values + t.gone
  {
  }

  /** Nodes that were not there before are new. */
  lemma NodesGrown(at: set<ResultTreeNode>, gone: set<ResultTreeNode>, at': set<ResultTreeNode>,
                   gone': set<ResultTreeNode>)
    ensures at' + gone' - (at + gone) <= (at' - at) + (gone' - gone)
    ensures at' <= at && gone' <= gone + at ==> at' + gone' <= at + gone
  {
  }

  lemma CarryingOnly(t: ResultTree, qnodes: set<QueryTreeNode>)
    requires t.Valid(qnodes)
    ensures OnlyOf(t.Carrying(), t.listeners) && Single(t.rootCursor.resultHandlers)
  {
    forall k | k in t.pathCache.cache.vals ensures DecodersOf(t.pathCache.cache.vals[k].resultHandlers) <= t.listeners {
      assert t.pathCache.cache.vals[k] in t.Cursors();
    }
    assert t.rootCursor in t.Cursors();
  }

  lemma OthersHeed(t: ResultTree, qnodes: set<QueryTreeNode>) returns (others: set<PathCursor>)
    requires t.Valid(qnodes)
    ensures t.rootCursor !in others && AllHeed(others, t.listeners)
    ensures t.Cursors() == {t.rootCursor} + others
  {
    others := t.Cursors() - {t.rootCursor};
  }

  lemma HeedMore(t: ResultTree, others: set<PathCursor>, heard: set<JSONDecoder>, hs: seq<Listening>, l: Listening)
    requires t.Cursors() == {t.rootCursor} + others && AllHeed(others, heard)
    requires Single(hs) && DecodersOf(hs) <= heard && l.decoder !in heard && t.rootCursor.resultHandlers == hs + [l]
    ensures AllHeed({t.rootCursor} + t.pathCache.cache.vals.Values, heard + {l.decoder})
    ensures t.cursor != null ==> t.cursor.Heeds(heard + {l.decoder})
  {
    SingleAdded(hs, l);
    HandlerAdded(hs, l, l.decoder);
    assert t.rootCursor.Heeds(heard + {l.decoder});
    forall c | c in t.Cursors() ensures c.Heeds(heard + {l.decoder}) {
      if c in others { assert c.Heeds(heard); }
    }
    assert t.cursor != null ==> t.cursor in t.Cursors();
  }

  lemma CopyHeeds(cur: PathCursor, copy: PathCursor, heard: set<JSONDecoder>)
    requires cur.Heeds(heard) && copy.resultHandlers == cur.resultHandlers
    ensures copy.Heeds(heard)
  {
  }

  lemma OneHeeds(c: PathCursor, cs: set<PathCursor>, heard: set<JSONDecoder>)
    requires AllHeed(cs, heard) && c in cs
    ensures c.Heeds(heard)
  {
  }

  lemma HeedWith(cs: set<PathCursor>, copy: PathCursor, r: PathCursor, vs: set<PathCursor>, heard: set<JSONDecoder>)
    requires AllHeed(cs, heard) && copy.Heeds(heard) && r in cs && vs <= cs + {copy}
    ensures AllHeed({r} + vs, heard)
  {
  }

  /** The lists of the cached cursors once a copy has been filed. */
  ghost function FiledLists(lists: map<nat, seq<Listening>>, k: nat, hs: seq<Listening>, keys: set<nat>)
    : map<nat, seq<Listening>>
  {
    map i | i in keys && (i in lists || (k != 0 && i == k)) :: if k != 0 && i == k then hs else lists[i]
  }

  lemma ListsAdd(c: Cache<PathCursor>, k: nat, cur: PathCursor, size: nat)
    requires k != 0
    ensures ListsIn(Add(c, k, cur, size)) ==
            FiledLists(ListsIn(c), k, cur.resultHandlers, Views(Add(c, k, cur, size)).vals.Keys)
  {
  }

  lemma ListsSame(c: Cache<PathCursor>, hs: seq<Listening>)
    ensures FiledLists(ListsIn(c), 0, hs, Views(c).vals.Keys) == ListsIn(c)
  {
  }

  lemma ListsRenew(c: Cache<PathCursor>, k: nat)
    ensures ListsIn(Renew(c, k)) == ListsIn(c)
    ensures k in c.vals ==> k in ListsIn(c) && ListsIn(c)[k] == c.vals[k].resultHandlers
  {
  }

  /** The second half of handleValue, as all decoders hear it. */
  ghost predicate ProceededBy(heard: set<JSONDecoder>, live: set<QPath>, d: Dec, f: RGQLValue,
                              before: map<JSONDecoder, Json>, all: Handlers, threw: bool,
                              after: map<JSONDecoder, Json>, all': Handlers, d': Dec)
  {
    && d.cursor.Some? && all.cursor.Some?
    && before.Keys == heard && after.Keys == heard
    && if threw
       then exists dec :: dec in heard &&
              Call(dec.query, live, before[dec], d.cursor.value, HandlerIn(all.cursor.value, dec), f) == Threw
       else forall dec :: dec in heard ==>
              var r := Call(dec.query, live, before[dec], d.cursor.value, HandlerIn(all.cursor.value, dec), f);
              r.Went? && r.json == after[dec]
              && EarsBy(all', dec) == Ears(HandlerIn(all.root, dec), EarsFiled(d, EarsBy(all, dec), f, r.next, d'),
                                           if f.value.Some? then None else r.next)
  }

  lemma AddKeys(c: Cache<Cursor>, k: nat, cur: Cursor, size: nat)
    ensures Add(c, k, cur, size).vals.Keys <= c.vals.Keys + {k}
  {
  }

  lemma ProceedThrew(heard: set<JSONDecoder>, live: set<QPath>, d: Dec, f: RGQLValue, before: map<JSONDecoder, Json>,
                     all: Handlers, after: map<JSONDecoder, Json>, next: seq<Listening>, all': Handlers, d': Dec)
    requires d.cursor.Some? && all.cursor.Some?
    requires Called(heard, live, d.cursor.value, f, before, all.cursor.value, true, after, next)
    ensures ProceededBy(heard, live, d, f, before, all, true, after, all', d')
  {
  }

  /** What one decoder has at the cursors after a frame. */
  lemma FiledEars(d: Dec, f: RGQLValue, all: Handlers, next: seq<Listening>, all': Handlers, d': Dec, dec: JSONDecoder)
    requires all.cached.Keys == d.cache.vals.Keys && d.cursor.Some?
    requires all' == Handlers(all.root, FiledLists(all.cached, f.posIdentifier, next, d'.cache.vals.Keys),
                              if f.value.Some? then None else Some(next))
    requires d'.cache.vals.Keys <= d.cache.vals.Keys + if f.posIdentifier != 0 then {f.posIdentifier} else {}
    ensures EarsBy(all', dec) ==
            Ears(HandlerIn(all.root, dec), EarsFiled(d, EarsBy(all, dec), f, HandlerIn(next, dec), d'),
                 if f.value.Some? then None else HandlerIn(next, dec))
  {
    hide HandlerIn;
    assert EarsBy(all', dec).cached == EarsFiled(d, EarsBy(all, dec), f, HandlerIn(next, dec), d');
  }

  lemma ProceedHeard(heard: set<JSONDecoder>, live: set<QPath>, d: Dec, f: RGQLValue, before: map<JSONDecoder, Json>,
                     all: Handlers, after: map<JSONDecoder, Json>, next: seq<Listening>, all': Handlers, d': Dec)
    requires d.cursor.Some? && all.cursor.Some? && all.cached.Keys == d.cache.vals.Keys
    requires Called(heard, live, d.cursor.value, f, before, all.cursor.value, false, after, next)
    requires all' == Handlers(all.root, FiledLists(all.cached, f.posIdentifier, next, d'.cache.vals.Keys),
                              if f.value.Some? then None else Some(next))
    requires d'.cache.vals.Keys <= d.cache.vals.Keys + if f.posIdentifier != 0 then {f.posIdentifier} else {}
    ensures ProceededBy(heard, live, d, f, before, all, false, after, all', d')
  {
    hide HandlerIn, EarsFiled, EarsBy, FiledLists, Call;
    forall dec | dec in heard
      ensures
        EarsBy(all', dec) ==
        Ears(HandlerIn(all.root, dec), EarsFiled(d, EarsBy(all, dec), f, HandlerIn(next, dec), d'),
             if f.value.Some? then None else HandlerIn(next, dec))
    {
      FiledEars(d, f, all, next, all', d', dec);
    }
  }

  /** A first frame proceeds from a copy of the cursor it refers to, without its reference. */
  ghost predicate FirstFrame(d: Dec, e: Ears, f: RGQLValue, d1: Dec, e1: Ears, v: RGQLValue) {
    if d.cursor.Some? then d1 == d && e1 == e && v == f
    else
      && v == f.(posIdentifier := 0) && (f.posIdentifier != 0 ==> f.posIdentifier in d.cache.vals)
      && d1.cursor == Some(if f.posIdentifier == 0 then Cursor([], false) else d.cache.vals[f.posIdentifier])
      && e.cached.Keys == d.cache.vals.Keys
      && e1 == e.(cursor := if f.posIdentifier == 0 then e.root else e.cached[f.posIdentifier])
  }

  /** Such a frame, as one decoder hears it. */
  lemma FirstOne(q: JsonHandlers.Query, live: set<QPath>, d: Dec, e: Ears, j: Json, f: RGQLValue, d1: Dec, e1: Ears,
                 v: RGQLValue, d': Dec)
    requires FirstFrame(d, e, f, d1, e1, v)
    ensures
      var r := Call(q, live, j, d1.cursor.value, e1.cursor, v);
      Hear(q, live, d, e, j, f, d') ==
      if r.Threw? then HeardThrow
      else Heard(r.json, Ears(e1.root, EarsFiled(d1, e1, v, r.next, d'), if v.value.Some? then None else r.next))
  {
    if d.cursor.None? {
      CallAlike(q, live, j, d1.cursor.value, e1.cursor, f, 0);
      hide Call;
      var r := Call(q, live, j, d1.cursor.value, e1.cursor, v);
      if r.Went? { assert EarsFiled(d, e, f, r.next, d') == EarsFiled(d1, e1, v, r.next, d'); }
    }
  }

  /** Such a frame, as all decoders hear it. */
  lemma FirstHeard(heard: set<JSONDecoder>, live: set<QPath>, d: Dec, d1: Dec, f: RGQLValue, v: RGQLValue,
                   before: map<JSONDecoder, Json>, all: Handlers, all1: Handlers, threw: bool,
                   after: map<JSONDecoder, Json>, all': Handlers, d': Dec)
    requires ProceededBy(heard, live, d1, v, before, all1, threw, after, all', d')
    requires forall dec | dec in heard :: FirstFrame(d, EarsBy(all, dec), f, d1, EarsBy(all1, dec), v)
    ensures HeardBy(heard, live, d, f, d', before, all, threw, after, all')
  {
    hide FirstFrame, Hear, Call, EarsFiled, HandlerIn;
    forall dec | dec in heard
      ensures
        var r := Call(dec.query, live, before[dec], d1.cursor.value, EarsBy(all1, dec).cursor, v);
        Hear(dec.query, live, d, EarsBy(all, dec), before[dec], f, d') ==
        if r.Threw? then HeardThrow
        else Heard(r.json, Ears(EarsBy(all1, dec).root, EarsFiled(d1, EarsBy(all1, dec), v, r.next, d'),
                                if v.value.Some? then None else r.next))
    {
      FirstOne(dec.query, live, d, EarsBy(all, dec), before[dec], f, d1, EarsBy(all1, dec), v, d');
    }
  }

  lemma FirstFrames(heard: set<JSONDecoder>, d: Dec, all: Handlers, f: RGQLValue, d1: Dec, all1: Handlers, v: RGQLValue)
    requires all.cached.Keys == d.cache.vals.Keys && (d.cursor.Some? <==> all.cursor.Some?)
    requires if d.cursor.Some? then d1 == d && all1 == all && v == f
             else && v == f.(posIdentifier := 0) && (f.posIdentifier != 0 ==> f.posIdentifier in d.cache.vals)
                  && d1.cursor ==
                     Some(if f.posIdentifier == 0 then Cursor([], false) else d.cache.vals[f.posIdentifier])
                  && all1 ==
                     all.(cursor := Some(if f.posIdentifier == 0 then all.root else all.cached[f.posIdentifier]))
    ensures forall dec | dec in heard :: FirstFrame(d, EarsBy(all, dec), f, d1, EarsBy(all1, dec), v)
  {
  }

  ghost predicate AllOk(cs: set<PathCursor>, live: set<QPath>, trie: map<Path, Option<Primitive>>)
    reads cs
  {
    forall c | c in cs :: CursorSound(live, trie, c.View())
  }

  lemma ModelMeans(t: ResultTree, live: set<QPath>, qnodes: set<QueryTreeNode>)
    requires DecSound(live, t.Model(), t.pathCache.limit) && t.Valid(qnodes)
    ensures AllOk({t.rootCursor} + t.pathCache.cache.vals.Values, live, t.Model().trie)
    ensures t.cursor != null ==> CursorSound(live, t.Model().trie, t.cursor.View())
    ensures TrieOk(live, t.Model().trie)
  {
    var cache := t.pathCache.cache;
    forall c | c in cache.vals.Values ensures CursorSound(live, t.Model().trie, c.View()) {
      var k :| k in cache.vals && cache.vals[k] == c;
      assert t.Model().cache.vals[k] == c.View();
    }
  }

  /** Any frame at all leaves every invariant of the client in place. */
  lemma ArriveOk(live: set<QPath>, d: Dec, cur: Cursor, f: RGQLValue, size: nat)
    requires PrefixClosed(live) && DecSound(live, d, size) && CursorSound(live, d.trie, cur) && FrameOk(f)
    ensures DecSound(live, Arrive(live, d, cur, f, size), size)
    ensures Arrive(live, d, cur, f, size) ==
            Dec(if f.value.Some? then None else Some(Advance(live, cur, f)),
                if f.posIdentifier != 0 then Add(d.cache, f.posIdentifier, Advance(live, cur, f), size) else d.cache,
                Store(live, d.trie, cur, f))
    ensures TrieOk(live, Store(live, d.trie, cur, f))
  {
    var next := Advance(live, cur, f);
    Joint.AnyFrameKeepsTrie(live, d.trie, cur, f);
    StepSound(live, d.trie, cur, f);
    if f.posIdentifier != 0 {
      AddWf(d.cache, f.posIdentifier, next, size);
    }
  }

  lemma StepSound(live: set<QPath>, trie: map<Path, Option<Primitive>>, cur: Cursor, f: RGQLValue)
    requires PrefixClosed(live) && TrieOk(live, trie) && CursorSound(live, trie, cur)
    ensures CursorSound(live, Store(live, trie, cur, f), Advance(live, cur, f))
    ensures trie.Keys <= Store(live, trie, cur, f).Keys
  {
    var next, trie' := Advance(live, cur, f), Store(live, trie, cur, f);
    if !next.oob && StepOf(f).Some? {
      ProjSnoc(cur.path, StepOf(f).value);
      forall i | 0 <= i <= |next.path| && Proj(next.path[..i]) in live ensures next.path[..i] in trie' {
        if i < |next.path| {
          assert next.path[..i] == cur.path[..i];
        } else {
          assert next.path[..i] == next.path && cur.path[..|cur.path|] == cur.path;
          assert Proj(next.path)[..|Proj(cur.path)|] == Proj(cur.path);
        }
      }
    }
  }

  /** A cursor elsewhere still points where it did: a node that is new on the tree is for a live
      path, and no cursor is off the tree on a live path. */
  lemma StillLinked(cs: set<PathCursor>, live: set<QPath>, trie: map<Path, Option<Primitive>>, at: Places,
                    gone: set<ResultTreeNode>,
                    qnodes: set<QueryTreeNode>, at': Places, gone': set<ResultTreeNode>, next: Path)
    requires AllLinked(cs, at, gone, qnodes) && AllOk(cs, live, trie) && trie.Keys == at.Keys
    requires GrownBy(at, at', next) && gone <= gone' && TrieOk(live, TrieOf(at'))
    ensures AllLinked(cs, at', gone', qnodes) && ([] in at ==> [] in at' && at'[[]] == at[[]])
  {
    forall c | c in cs ensures c.Linked(at', gone', qnodes) {
      assert CursorSound(live, trie, c.View());
      assert c.path[..|c.path|] == c.path;
      assert c.path in at' ==> c.path in TrieOf(at');
    }
  }

  lemma CopyLinked(cur: PathCursor, copy: PathCursor, at: Places, gone: set<ResultTreeNode>, qnodes: set<QueryTreeNode>)
    requires cur.Linked(at, gone, qnodes) && copy.View() == cur.View() && copy.qnode == cur.qnode
    requires copy.rnode == cur.rnode
    ensures copy.Linked(at, gone, qnodes)
  {
  }

  lemma TrieKeys(at: Places)
    ensures TrieOf(at).Keys == at.Keys
  {
  }

  lemma LinkedWith(cs: set<PathCursor>, copy: PathCursor, r: PathCursor, vs: set<PathCursor>, at: Places,
                   gone: set<ResultTreeNode>, qnodes: set<QueryTreeNode>)
    requires AllLinked(cs, at, gone, qnodes) && copy.Linked(at, gone, qnodes) && r in cs && vs <= cs + {copy}
    ensures AllLinked({r} + vs, at, gone, qnodes)
  {
  }

  lemma ViewsAdd(c: Cache<PathCursor>, k: nat, cur: PathCursor, size: nat)
    ensures Views(Add(c, k, cur, size)) == Add(Views(c), k, cur.View(), size)
    ensures Add(c, k, cur, size).vals.Values <= c.vals.Values + {cur}
  {
    var a := Add(c, k, cur, size);
    forall x | x in a.vals.Values ensures x in c.vals.Values + {cur} {
      var i :| i in a.vals && a.vals[i] == x;
      if i != k { assert c.vals[i] == x; }
    }
  }

  lemma ViewsRenew(c: Cache<PathCursor>, k: nat)
    ensures Views(Renew(c, k)) == Renew(Views(c), k) && Renew(c, k).vals == c.vals
    ensures k in c.vals <==> k in Views(c).vals
    ensures k in c.vals ==> c.vals[k] in c.vals.Values && Views(c).vals[k] == c.vals[k].View()
  {
  }

  lemma OneLinked(c: PathCursor, cs: set<PathCursor>, at: Places, gone: set<ResultTreeNode>, qnodes: set<QueryTreeNode>)
    requires AllLinked(cs, at, gone, qnodes) && c in cs
    ensures c.Linked(at, gone, qnodes)
  {
  }

  /** Handle, by the choice of the cursor. */
  lemma HandleIs(live: set<QPath>, d: Dec, f: RGQLValue, size: nat)
    requires DecSound(live, d, size) && FrameOk(f)
    ensures FrameOk(f.(posIdentifier := 0))
    ensures d.cursor.Some? ==> Handle(live, d, f, size) == Handled(Arrive(live, d, d.cursor.value, f, size))
    ensures d.cursor.None? && f.posIdentifier == 0 ==>
      var d' := d.(cursor := Some(Cursor([], false)));
      && DecSound(live, d', size) && f.(posIdentifier := 0) == f
      && Handle(live, d, f, size) == Handled(Arrive(live, d', Cursor([], false), f, size))
    ensures d.cursor.None? && f.posIdentifier != 0 && f.posIdentifier in d.cache.vals ==>
      var d' := d.(cache := Renew(d.cache, f.posIdentifier), cursor := Some(d.cache.vals[f.posIdentifier]));
      && DecSound(live, d', size)
      && Handle(live, d, f, size) ==
        Handled(Arrive(live, d', d.cache.vals[f.posIdentifier], f.(posIdentifier := 0), size))
    ensures d.cursor.None? && f.posIdentifier != 0 && f.posIdentifier !in d.cache.vals ==>
        Handle(live, d, f, size) == UnknownId
  {
    if d.cursor.None? && f.posIdentifier in d.cache.vals { RenewWf(d.cache, f.posIdentifier); }
    assert Proj([]) == [];
  }
}
