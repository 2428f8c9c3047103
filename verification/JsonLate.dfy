/** A decoder that comes late: addResultHandler (client/result-tree.ts) shows it the tree as it is, but
    gives its handler to the root cursor alone. Exactly when it follows the stream from there on. */
module JsonLate {
  import opened Messages
  import opened AliasSpec
  import opened QueryTreeSpec
  import opened Joint
  import opened JsonHandlers
  import opened JsonDecoders
  import opened JsonResponses
  import Clients
  import Lru

  // ----- the condition

  /** No cached or unfinished cursor stands where the query selects something that may still come. */
  ghost predicate NoneWaits(q: Query, d: Dec) {
    && (forall k :: k in d.cache.vals && !d.cache.vals[k].oob ==> Idle(q, d.trie, d.cache.vals[k].path))
    && (d.cursor.Some? && !d.cursor.value.oob ==> Idle(q, d.trie, d.cursor.value.path))
  }

  lemma LateTuned(q: Query, d: Dec)
    ensures Tuned(q, d, LateEars(q, d)) <==> NoneWaits(q, d)
  {
    forall k | k in d.cache.vals
      ensures Carries(q, d.trie, d.cache.vals[k], None) <==>
                d.cache.vals[k].oob || Idle(q, d.trie, d.cache.vals[k].path)
    {
    }
  }

  // ----- where a value can still come

  /** A value can be stored here without a clash, and all on the way is there already. */
  ghost predicate Reachable(q: Query, t: Trie, p: Path, ss: seq<Step>) {
    && ss != [] && Selected(q, p + ss)
    && (forall i {:trigger ss[..i]} :: 0 <= i < |ss| ==> p + ss[..i] in t)
    && (forall v: Primitive :: KindsOk(q, t[p + ss := Some(v)]))
  }

  lemma {:induction false} SelectedAbove(q: Query, p: Path, i: nat)
    requires Selected(q, p) && i <= |p|
    ensures Selected(q, p[..i])
    decreases |p|
  {
    if i < |p| {
      var up := p[..|p| - 1];
      assert p == up + [p[|p| - 1]];
      HandlerSnoc(q, up, p[|p| - 1]);
      SelectedAbove(q, up, i);
      assert up[..i] == p[..i];
    } else {
      assert p[..i] == p;
    }
  }

  lemma {:induction false} TrieAbove(t: Trie, p: Path, i: nat)
    requires TrieClosed(t) && p in t && i <= |p|
    ensures p[..i] in t
    decreases |p|
  {
    if i < |p| {
      var up := p[..|p| - 1];
      assert p == up + [p[|p| - 1]];
      assert up in t;
      TrieAbove(t, up, i);
      assert up[..i] == p[..i];
    } else {
      assert p[..i] == p;
    }
  }

  /** One of these paths is longest. */
  lemma {:induction false} Longest(ps: set<Path>) returns (p: Path)
    requires ps != {}
    ensures p in ps && forall r :: r in ps ==> |r| <= |p|
    decreases |ps|
  {
    p :| p in ps;
    if ps != {p} {
      var r := Longest(ps - {p});
      if |p| < |r| { p := r; }
    }
  }

  /** Below an open node: a deepest selected one takes a value. */
  lemma BelowOpen(q: Query, t: Trie, p: Path) returns (ss: seq<Step>)
    requires TrieClosed(t) && KindsOk(q, t) && p in t && JsonDecoders.Open(q, t, p)
    ensures Reachable(q, t, p, ss)
  {
    var s :| Opens(q, t, p, s);
    var below := set r | r in t && p < r && Selected(q, r);
    assert p + [s] in below;
    var x := Longest(below);
    ss := x[|p|..];
    assert x == p + ss;
    forall i | 0 <= i < |ss| ensures p + ss[..i] in t {
      assert p + ss[..i] == x[..|p| + i];
      TrieAbove(t, x, |p| + i);
    }
    forall y ensures !Opens(q, t, x, y) {
      assert p < x + [y] && |x + [y]| > |x|;
      assert x + [y] !in below;
    }
    forall v: Primitive ensures KindsOk(q, t[p + ss := Some(v)]) {
      var t' := t[x := Some(v)];
      forall r, y ensures Opens(q, t', r, y) <==> Opens(q, t, r, y) { }
    }
  }

  /** Below a selected node with nothing below it. */
  lemma BelowBare(q: Query, t: Trie, p: Path) returns (ss: seq<Step>)
    requires TrieClosed(t) && KindsOk(q, t) && p in t && !JsonDecoders.Open(q, t, p) && !Idle(q, t, p)
    ensures Reachable(q, t, p, ss)
  {
    var s: Step;
    if p == [] {
      var id: Pos :| Selected(q, [Field(id)]);
      s := Field(id);
      assert p + [s] == [s];
    } else {
      s := Index(1);
      HandlerSnoc(q, p, s);
    }
    ss := [s];
    assert ss[..0] == [] && p + [] == p;
    assert Selected(q, p + [s]) && p + [s] !in t by { if p + [s] in t { assert Opens(q, t, p, s); } }
    forall v: Primitive ensures KindsOk(q, t[p + ss := Some(v)]) { BareKinds(q, t, p, s, v); }
  }

  lemma BareKinds(q: Query, t: Trie, p: Path, s: Step, v: Primitive)
    requires TrieClosed(t) && KindsOk(q, t) && p in t && p + [s] !in t && Selected(q, p + [s])
    requires !JsonDecoders.Open(q, t, p)
    requires t[p] == None && (p == [] ==> s.Field?)
    ensures KindsOk(q, t[p + [s] := Some(v)])
  {
    var t' := t[p + [s] := Some(v)];
    assert t' == Stepped(t, p, s, Some(v));
    forall x ensures !Opens(q, t, p + [s], x) { assert p + [s] + [x] in t ==> p + [s] in t; }
    forall x ensures !Opens(q, t, p, x) { }
    hide Selected, HandlerAt, Opens, KindsOk;
    Selecting(q, p + [s]);
    forall r, x ensures Opens(q, t', r, x) <==> Opens(q, t, r, x) || (r == p && x == s) {
      SteppedOpens(q, t, p, s, Some(v), r, x);
    }
    KindsAfter(q, t, t', p, s, p + [s], v);
  }

  lemma KindsAfter(q: Query, t: Trie, t': Trie, p: Path, s: Step, next: Path, v: Primitive)
    requires KindsOk(q, t) && p in t && next !in t && t[p] == None && (p == [] ==> s.Field?)
    requires t' == t[next := Some(v)] && forall x :: !Opens(q, t, p, x) && !Opens(q, t, next, x)
    requires forall r, x {:trigger Opens(q, t', r, x)} ::
               Opens(q, t', r, x) <==> Opens(q, t, r, x) || (r == p && x == s)
    ensures KindsOk(q, t')
  {
    hide Selected, HandlerAt, Opens;
    forall r, x {:trigger Opens(q, t', r, x)} | Opens(q, t', r, x) && r in t'
      ensures t'[r] == None && (r == [] ==> x.Field?)
    {
      assert Opens(q, t, r, x) || (r == p && x == s);
      assert r != next;
    }
    forall r, x, y {:trigger Opens(q, t', r, x), Opens(q, t', r, y)} | Opens(q, t', r, x) && Opens(q, t', r, y)
      ensures x.Field? == y.Field?
    {
      assert r == p ==> x == s && y == s;
    }
  }

  lemma Selecting(q: Query, p: Path)
    ensures Selected(q, p) <==> HandlerAt(q, p).Some?
  {
  }

  /** Where a cursor waits, a value can still come. */
  lemma CanCome(q: Query, t: Trie, p: Path) returns (ss: seq<Step>)
    requires TrieClosed(t) && KindsOk(q, t) && p in t && !Idle(q, t, p)
    ensures Reachable(q, t, p, ss)
  {
    if JsonDecoders.Open(q, t, p) { ss := BelowOpen(q, t, p); } else { ss := BelowBare(q, t, p); }
  }

  // ----- bringing it through a cursor that does not carry the handler

  /** The frames for a way down, with the value in the last. */
  ghost function WayDown(ss: seq<Step>, v: Primitive): seq<Happening>
    requires ss != []
    decreases |ss|
  {
    if |ss| == 1 then [Frame(FrameOf(ss[0], 0, Some(v), []))]
    else [Frame(FrameOf(ss[0], 0, None, []))] + WayDown(ss[1..], v)
  }

  lemma {:induction false} WayUndetached(ss: seq<Step>, v: Primitive, n: nat)
    requires ss != []
    ensures Undetached(WayDown(ss, v), n)
    decreases |ss|
  {
    if |ss| > 1 { WayUndetached(ss[1..], v, n); }
  }

  /** What is selected can be stepped to. */
  lemma StaysIn(q: Query, live: set<QPath>, cur: Cursor, s: Step, pos: nat, v: Option<Primitive>)
    requires Attached(q, live) && Selected(q, cur.path + [s]) && !cur.oob
    ensures Advance(live, cur, FrameOf(s, pos, v, [])) == Cursor(cur.path + [s], false)
  {
    assert Proj(cur.path + [s]) in live;
    ProjSnoc(cur.path, s);
  }

  /** An unfinished cursor without the handler: the tree takes the value, the object does not. */
  lemma {:induction false} Missed(q: Query, c: Client, d: Dec, e: Ears, j: Json, ss: seq<Step>, v: Primitive, size: nat)
    requires Attached(q, Live(c.tree.nodes)) && KindsOk(q, d.trie)
    requires d.cursor.Some? && !d.cursor.value.oob && e.cursor == None
    requires d.cursor.value.path in d.trie && Reachable(q, d.trie, d.cursor.value.path, ss)
    ensures var hs, r := WayDown(ss, v), d.cursor.value.path + ss;
            && Decodable(q, c, d, hs, size)
            && Happen(c, d, hs, size).1.trie == d.trie[r := Some(v)]
            && Decode(q, c, d, e, j, hs, size).Heard? && Decode(q, c, d, e, j, hs, size).json == j
    decreases |ss|
  {
    var live, cur, hs := Live(c.tree.nodes), d.cursor.value, WayDown(ss, v);
    var val: Option<Primitive> := if |ss| == 1 then Some(v) else None;
    var f := FrameOf(ss[0], 0, val, []);
    FirstStep(q, d.trie, cur.path, ss);
    StaysIn(q, live, cur, ss[0], 0, val);
    var d' := Handle(live, d, f, size).dec;
    assert hs[0] == Frame(f);
    assert Hear(q, live, d, e, j, f, d') == Heard(j, Ears(e.root, EarsFiled(d, e, f, None, d'), None));
    if |ss| == 1 {
      assert ss == [ss[0]] && hs[1..] == [];
      assert d'.trie == d.trie[cur.path + ss := Some(v)];
    } else {
      assert hs[1..] == WayDown(ss[1..], v);
      assert d'.trie == d.trie && d'.cursor == Some(Cursor(cur.path + [ss[0]], false));
      assert cur.path + [ss[0]] + ss[1..] == cur.path + ss;
      Missed(q, c, d', Ears(e.root, EarsFiled(d, e, f, None, d'), None), j, ss[1..], v, size);
    }
  }

  lemma FirstStep(q: Query, t: Trie, p: Path, ss: seq<Step>)
    requires Reachable(q, t, p, ss)
    ensures Selected(q, p + [ss[0]])
    ensures |ss| > 1 ==> p + [ss[0]] in t && Reachable(q, t, p + [ss[0]], ss[1..])
  {
    assert (p + ss)[..|p| + 1] == p + [ss[0]];
    SelectedAbove(q, p + ss, |p| + 1);
    if |ss| > 1 {
      assert ss[..1] == [ss[0]];
      var p', ss' := p + [ss[0]], ss[1..];
      assert p' + ss' == p + ss;
      forall i | 0 <= i < |ss'| ensures p' + ss'[..i] in t {
        assert p' + ss'[..i] == p + ss[..i + 1];
      }
    }
  }

  /** A first frame that refers to a cached cursor does what it would do without the reference to an
      unfinished copy of that cursor. */
  lemma ByReference(q: Query, c: Client, d: Dec, e: Ears, j: Json, k: nat, f: RGQLValue, hs: seq<Happening>, size: nat)
    requires d.cursor.None? && k != 0 && k in d.cache.vals && k in e.cached && f.posIdentifier == 0
    ensures
      var d0 := Dec(Some(d.cache.vals[k]), Lru.Renew(d.cache, k), d.trie);
      var e0 := e.(cursor := e.cached[k]);
      var first, second := [Frame(f.(posIdentifier := k))] + hs, [Frame(f)] + hs;
      && Happen(c, d, first, size) == Happen(c, d0, second, size)
      && Decode(q, c, d, e, j, first, size) == Decode(q, c, d0, e0, j, second, size)
      && (FrameOk(f) && KindsOk(q, d.trie) && Decodable(q, c, d0, second, size) ==> Decodable(q, c, d, first, size))
  {
    var live := Live(c.tree.nodes);
    var d0, e0 := Dec(Some(d.cache.vals[k]), Lru.Renew(d.cache, k), d.trie), e.(cursor := e.cached[k]);
    var g := f.(posIdentifier := k);
    assert Handle(live, d, g, size) == Handle(live, d0, f, size);
    var d' := Handle(live, d, g, size).dec;
    assert Advance(live, d.cache.vals[k], g) == Advance(live, d.cache.vals[k], f);
    assert Hear(q, live, d, e, j, g, d') == Hear(q, live, d0, e0, j, f, d') by {
      CallAlike(q, live, j, d.cache.vals[k], e.cached[k], f, k);
      forall next ensures EarsFiled(d, e, g, next, d') == EarsFiled(d0, e0, f, next, d') { }
    }
    assert ([Frame(g)] + hs)[1..] == hs && ([Frame(f)] + hs)[1..] == hs;
  }

  // ----- the condition is exact

  /** A frame that ends an unfinished sequence without storing anything: for a field nobody selects. */
  ghost function Ending(c: Client, v: Primitive): RGQLValue
    requires 0 < c.tree.next
  {
    FrameOf(Field(c.tree.next), 0, Some(v), [])
  }

  lemma EndsSequence(q: Query, c: Client, d: Dec, j: Json, v: Primitive, hs: seq<Happening>, size: nat)
    requires ClientOk(c) && d.cursor.Some?
    ensures
      var d', all := d.(cursor := None), [Frame(Ending(c, v))] + hs;
      && Happen(c, d, all, size) == Happen(c, d', hs, size)
      && Decode(q, c, d, LateEars(q, d), j, all, size) == Decode(q, c, d', LateEars(q, d'), j, hs, size)
      && (KindsOk(q, d.trie) && Decodable(q, c, d', hs, size) ==> Decodable(q, c, d, all, size))
  {
    var live, f, cur, d', e := Live(c.tree.nodes), Ending(c, v), d.cursor.value, d.(cursor := None), LateEars(q, d);
    NotLive(c, Proj(cur.path));
    assert Advance(live, cur, f).oob;
    assert Handle(live, d, f, size) == Handled(d');
    assert EarsFiled(d, e, f, None, d') == LateEars(q, d').cached;
    assert Hear(q, live, d, e, j, f, d') == Heard(j, LateEars(q, d'));
    assert ([Frame(f)] + hs)[1..] == hs;
  }

  lemma NotLive(c: Client, p: QPath)
    requires ClientOk(c)
    ensures p + [c.tree.next] !in Live(c.tree.nodes)
  {
    Clients.LiveIsBelow(c.tree.next, c.tree.nodes);
    var long := p + [c.tree.next];
    assert long[|p|] == c.tree.next;
  }

  /** A value that is not the one the object shows. */
  ghost function Other(j: Json, pos: JPath): Primitive {
    var v := Primitive(0, 0, 0, [], false);
    if pos in j && j[pos] == Leaf(v) then Primitive(0, 1, 0, [], false) else v
  }

  lemma NotShown(q: Query, j: Json, t: Trie, r: Path)
    requires Selected(q, r) && r != []
    ensures !Shows(q, j, t[r := Some(Other(j, PosOf(q, r)))])
  {
    var v := Other(j, PosOf(q, r));
    var t' := t[r := Some(v)];
    assert !CellOk(q, j, t', r);
  }

  /** What the late decoder misses: a run in which the tree takes a value through the waiting cursor. */
  lemma MissedRun(q: Query, n: nat, sels: seq<Sel>, c: Client, d: Dec, j: Json, size: nat) returns (hs: seq<Happening>)
    requires ClientOk(c) && DecSound(Live(c.tree.nodes), d, size) && Decodes(q, c, n, sels)
    requires KindsOk(q, d.trie) && 0 !in d.cache.vals && !NoneWaits(q, d)
    ensures Undetached(hs, n) && Decodable(q, c, d, hs, size) && !Follows(q, c, d, LateEars(q, d), j, hs, size)
    ensures !Responds(q, sels, c, d, LateEars(q, d), j, hs, size)
  {
    hs := NotFollowed(q, n, sels, c, d, j, size);
    FollowsResponds(q, n, sels, c, d, LateEars(q, d), j, hs, size);
  }

  lemma NotFollowed(q: Query, n: nat, sels: seq<Sel>, c: Client, d: Dec, j: Json, size: nat)
    returns (hs: seq<Happening>)
    requires ClientOk(c) && DecSound(Live(c.tree.nodes), d, size) && Decodes(q, c, n, sels)
    requires KindsOk(q, d.trie) && 0 !in d.cache.vals && !NoneWaits(q, d)
    ensures Undetached(hs, n) && Decodable(q, c, d, hs, size) && !Follows(q, c, d, LateEars(q, d), j, hs, size)
  {
    DecodesAttached(q, c, n, sels);
    hide *;
    if d.cursor.Some? && !d.cursor.value.oob && !Idle(q, d.trie, d.cursor.value.path) {
      hs := MissedAtCursor(q, c, n, d, LateEars(q, d), j, size);
    } else {
      var k := WaitingLabel(q, d);
      var d1 := d.(cursor := None);
      ClosedSound(Live(c.tree.nodes), d, size);
      hs := MissedAtLabel(q, c, n, d1, j, k, size);
      if d.cursor.Some? {
        AfterEnding(q, c, n, d, j, Other(j, []), hs, size);
        NextThere(c);
        hs := [Frame(Ending(c, Other(j, [])))] + hs;
      } else {
        assert d1 == d;
      }
    }
  }

  lemma NextThere(c: Client)
    requires ClientOk(c)
    ensures 0 < c.tree.next
  {
  }

  lemma WaitingLabel(q: Query, d: Dec) returns (k: nat)
    requires !NoneWaits(q, d) && 0 !in d.cache.vals
    requires d.cursor.Some? && !d.cursor.value.oob ==> Idle(q, d.trie, d.cursor.value.path)
    ensures 0 < k && k in d.cache.vals && !d.cache.vals[k].oob && !Idle(q, d.trie, d.cache.vals[k].path)
  {
    k :| k in d.cache.vals && !d.cache.vals[k].oob && !Idle(q, d.trie, d.cache.vals[k].path);
  }

  lemma ClosedSound(live: set<QPath>, d: Dec, size: nat)
    requires DecSound(live, d, size)
    ensures DecSound(live, d.(cursor := None), size)
  {
  }

  lemma AfterEnding(q: Query, c: Client, n: nat, d: Dec, j: Json, v: Primitive, hs: seq<Happening>, size: nat)
    requires ClientOk(c) && d.cursor.Some? && KindsOk(q, d.trie)
    requires Undetached(hs, n) && Decodable(q, c, d.(cursor := None), hs, size)
    requires !Follows(q, c, d.(cursor := None), LateEars(q, d.(cursor := None)), j, hs, size)
    ensures
      var all := [Frame(Ending(c, v))] + hs;
      Undetached(all, n) && Decodable(q, c, d, all, size) && !Follows(q, c, d, LateEars(q, d), j, all, size)
  {
    EndsSequence(q, c, d, j, v, hs, size);
  }

  lemma OnTree(q: Query, live: set<QPath>, d: Dec, cur: Cursor, size: nat)
    requires Attached(q, live) && DecSound(live, d, size) && CursorSound(live, d.trie, cur) && !cur.oob
    requires !Idle(q, d.trie, cur.path)
    ensures cur.path in d.trie && TrieClosed(d.trie)
  {
    TrieOkClosed(live, d.trie);
    OffTree(q, live, d.trie, cur);
  }

  lemma MissedAtCursor(q: Query, c: Client, n: nat, d: Dec, e: Ears, j: Json, size: nat) returns (hs: seq<Happening>)
    requires Attached(q, Live(c.tree.nodes)) && DecSound(Live(c.tree.nodes), d, size) && KindsOk(q, d.trie)
    requires d.cursor.Some? && !d.cursor.value.oob && !Idle(q, d.trie, d.cursor.value.path) && e.cursor == None
    ensures Undetached(hs, n) && Decodable(q, c, d, hs, size) && !Follows(q, c, d, e, j, hs, size)
    ensures hs != [] && hs[0].Frame? && FrameOk(hs[0].frame) && hs[0].frame.posIdentifier == 0
  {
    var p := d.cursor.value.path;
    OnTree(q, Live(c.tree.nodes), d, d.cursor.value, size);
    var ss := CanCome(q, d.trie, p);
    var v := Other(j, PosOf(q, p + ss));
    hs := WayDown(ss, v);
    Missed(q, c, d, e, j, ss, v, size);
    WayUndetached(ss, v, n);
    NotShown(q, j, d.trie, p + ss);
  }

  lemma MissedAtLabel(q: Query, c: Client, n: nat, d: Dec, j: Json, k: nat, size: nat) returns (hs: seq<Happening>)
    requires Attached(q, Live(c.tree.nodes)) && DecSound(Live(c.tree.nodes), d, size) && KindsOk(q, d.trie)
    requires d.cursor.None? && 0 < k && k in d.cache.vals && !d.cache.vals[k].oob
    requires !Idle(q, d.trie, d.cache.vals[k].path)
    ensures Undetached(hs, n) && Decodable(q, c, d, hs, size) && !Follows(q, c, d, LateEars(q, d), j, hs, size)
  {
    var e := LateEars(q, d);
    var d0, e0 := Dec(Some(d.cache.vals[k]), Lru.Renew(d.cache, k), d.trie), e.(cursor := None);
    RenewedSound(Live(c.tree.nodes), d, k, size);
    var plain := MissedAtCursor(q, c, n, d0, e0, j, size);
    var f := plain[0].frame;
    ByReference(q, c, d, e, j, k, f, plain[1..], size);
    assert [Frame(f)] + plain[1..] == plain;
    hs := [Frame(f.(posIdentifier := k))] + plain[1..];
  }

  lemma RenewedSound(live: set<QPath>, d: Dec, k: nat, size: nat)
    requires DecSound(live, d, size) && k in d.cache.vals
    ensures DecSound(live, Dec(Some(d.cache.vals[k]), Lru.Renew(d.cache, k), d.trie), size)
  {
    Lru.RenewWf(d.cache, k);
  }

  /** For example: a label is cached for a selected object, and a field of it that the late decoder shows
      is written again, through that label. The result tree takes the new value; the object keeps the
      old one. */
  lemma LateMisses(q: Query, n: nat, sels: seq<Sel>, c: Client, d: Dec, j: Json, obj: Path, field: Pos, v: Primitive,
                   w: Primitive, size: nat)
    requires ClientOk(c) && Decodes(q, c, n, sels) && Shows(q, j, d.trie) && KindsOk(q, d.trie) && TrieClosed(d.trie)
    requires d.cursor.None? && 1 in d.cache.vals && d.cache.vals[1] == Cursor(obj, false)
    requires obj + [Field(field)] in d.trie && d.trie[obj + [Field(field)]] == Some(v) && v != w
    requires Selected(q, obj + [Field(field)]) && !JsonDecoders.Open(q, d.trie, obj + [Field(field)])
    ensures
      var hs := [Frame(FrameOf(Field(field), 1, Some(w), []))];
      && Happen(c, d, hs, size).1.trie == d.trie[obj + [Field(field)] := Some(w)]
      && Decode(q, c, d, LateEars(q, d), j, hs, size).Heard?
      && Decode(q, c, d, LateEars(q, d), j, hs, size).json == j
      && !Follows(q, c, d, LateEars(q, d), j, hs, size)
  {
    var s, e := Field(field), LateEars(q, d);
    var d0, e0 := Dec(Some(d.cache.vals[1]), Lru.Renew(d.cache, 1), d.trie), e.(cursor := None);
    DecodesAttached(q, c, n, sels);
    ValueAgain(q, d.trie, obj, s);
    ByReference(q, c, d, e, j, 1, FrameOf(s, 0, Some(w), []), [], size);
    assert [Frame(FrameOf(s, 1, Some(w), []))] + [] == [Frame(FrameOf(s, 1, Some(w), []))];
    assert WayDown([s], w) == [Frame(FrameOf(s, 0, Some(w), []))] + [];
    Missed(q, c, d0, e0, j, [s], w, size);
    assert CellOk(q, j, d.trie, obj + [s]);
    assert !CellOk(q, j, d.trie[obj + [s] := Some(w)], obj + [s]);
  }

  lemma ValueAgain(q: Query, t: Trie, p: Path, s: Step)
    requires TrieClosed(t) && KindsOk(q, t) && p + [s] in t && Selected(q, p + [s]) && !JsonDecoders.Open(q, t, p + [s])
    ensures p in t && Reachable(q, t, p, [s])
  {
    assert [s][..0] == [] && p + [] == p;
    forall v: Primitive ensures KindsOk(q, t[p + [s] := Some(v)]) {
      var t' := t[p + [s] := Some(v)];
      forall r, y ensures Opens(q, t', r, y) <==> Opens(q, t, r, y) { }
      forall y ensures !Opens(q, t, p + [s], y) { }
    }
  }

  /** Right after addResultHandler, the late decoder follows every run to come if and only if no cached
      and no unfinished cursor stands where the query selects something that may still come. */
  lemma LateExact(q: Query, n: nat, sels: seq<Sel>, c: Client, d: Dec, j: Json, size: nat)
    requires ClientOk(c) && DecSound(Live(c.tree.nodes), d, size) && Clients.CursorsBounded(d, c.tree.next)
    requires ResponsesApart(sels) && Decodes(q, c, n, sels) && 0 !in d.cache.vals
    requires Shows(q, j, d.trie) && KindsOk(q, d.trie)
    ensures NoneWaits(q, d) <==>
              forall hs :: Undetached(hs, n) && Decodable(q, c, d, hs, size) ==>
                Responds(q, sels, c, d, LateEars(q, d), j, hs, size)
  {
    LateTuned(q, d);
    hide Responds, Follows, Shows;
    if NoneWaits(q, d) {
      forall hs | Undetached(hs, n) && Decodable(q, c, d, hs, size)
        ensures Responds(q, sels, c, d, LateEars(q, d), j, hs, size)
      {
        DecoderFollows(q, n, sels, c, d, LateEars(q, d), j, hs, size);
      }
    } else {
      var hs := MissedRun(q, n, sels, c, d, j, size);
    }
  }
}
