/** The JSON decoder and its handlers: client/json-decoder-handler.ts and client/json-decoder.ts. A
    result object is kept as its cells by position; a handler is the position its closure captured.
    Cursors carry handlers (client/path-cursor.ts): a frame reaches those of its own cursor only. */
module JsonHandlers {
  import opened Messages
  import opened AliasSpec
  import opened QueryTreeSpec

  // ----- result objects

  datatype Key = Name(name: string) | At(index: nat)
  type JPath = seq<Key>
  datatype Cell = Leaf(value: Primitive) | ObjectCell | ArrayCell
  type Json = map<JPath, Cell>

  // ----- queries

  /** A query, and the field names of the query nodes. */
  datatype Query = Query(top: QueryMap, names: map<nat, string>)

  /** The key a field has in the result: its alias, or else its name. */
  function KeyOf(names: map<nat, string>, id: nat, elem: QueryMapElem): Option<Key> {
    if id !in names then None else Some(Name(if elem.alias != "" then elem.alias else names[id]))
  }

  // ----- handlers

  /** A handler: what is selected below it, and its position. The topmost one has no applyValue. */
  datatype Handler = Handler(selections: Option<QueryMap>, pos: JPath, top: bool)

  function TopHandler(q: Query): Handler {
    Handler(Some(q.top), [], true)
  }

  /** The handler for one step further, or none where nothing is selected. */
  function StepHandler(q: Query, h: Handler, s: Step): Option<Handler> {
    match s
    case Field(id) =>
      if h.selections.Some? && id in h.selections.value.elems
        && KeyOf(q.names, id, h.selections.value.elems[id]).Some? then
        var elem := h.selections.value.elems[id];
        Some(Handler(elem.selections, h.pos + [KeyOf(q.names, id, elem).value], false))
      else None
    case Index(idx) => Some(Handler(h.selections, h.pos + [At(idx - 1)], false))
  }

  /** The handler for a whole path. */
  function HandlerAt(q: Query, path: Path): Option<Handler> {
    if path == [] then Some(TopHandler(q))
    else
      var up := HandlerAt(q, path[..|path| - 1]);
      if up.None? then None else StepHandler(q, up.value, path[|path| - 1])
  }

  // ----- assigning

  /** applyValue(false, ...): what is there, or a new container. */
  function Ensure(j: Json, pos: JPath, cell: Cell): Json {
    if pos in j then j else j[pos := cell]
  }

  /** applyValue(true, ...): replaces what was there, with everything below it. */
  function Replace(j: Json, pos: JPath, v: Primitive): Json {
    (map p | p in j && !(pos <= p) :: j[p])[pos := Leaf(v)]
  }

  /** Nothing can be assigned below a primitive: that throws. */
  predicate Assignable(j: Json, pos: JPath) {
    pos != [] && pos[..|pos| - 1] in j && !j[pos[..|pos| - 1]].Leaf?
  }

  datatype Outcome = Threw | Went(json: Json, next: Option<Handler>)

  function ContainerFor(s: Step): Cell {
    if s.Field? then ObjectCell else ArrayCell
  }

  /** handleValue with a value that is present. */
  function Went1(q: Query, j: Json, h: Handler, f: RGQLValue): Outcome {
    match StepOf(f)
    case None =>
      if f.value.None? then Went(j, Some(h))
      else if h.top then Went(j, None)
      else if Assignable(j, h.pos) then Went(Replace(j, h.pos, f.value.value), Some(h))
      else Threw
    case Some(s) =>
      var next := StepHandler(q, h, s);
      if next.None? then Went(j, None)
      else if !h.top && h.pos !in j && !Assignable(j, h.pos) then Threw
      else
        var j1 := if h.top then j else Ensure(j, h.pos, ContainerFor(s));
        if f.value.None? then Went(j1, next)
        else if Assignable(j1, next.value.pos) then Went(Replace(j1, next.value.pos, f.value.value), next)
        else Threw
  }

  class JSONDecoder {
    const query: Query
    var result: Json
    var dirty: bool

    constructor (query: Query)
      ensures this.query == query && result == map[[] := ObjectCell] && !dirty
    {
      this.query, result, dirty := query, map[[] := ObjectCell], false;
    }

    /** applyValue of a handler's closure. */
    method ApplyValue(pos: JPath, overrideVal: bool, cell: Cell) returns (threw: bool)
      requires overrideVal ==> cell.Leaf?
      modifies this
      ensures threw == ((overrideVal || pos !in old(result)) && !Assignable(old(result), pos))
      ensures
        result ==
          if threw then old(result)
          else if overrideVal then Replace(old(result), pos, cell.value)
          else Ensure(old(result), pos, cell)
      ensures dirty == (old(dirty) || (!threw && (overrideVal || pos !in old(result))))
    {
      if overrideVal || pos !in result {
        if pos == [] || pos[..|pos| - 1] !in result || result[pos[..|pos| - 1]].Leaf? {
          return true;
        }
        if overrideVal {
          result := map p | p in result && !(pos <= p) :: result[p];
        }
        result := result[pos := cell];
        dirty := true;
      }
      threw := false;
    }

    /** handleValue. */
    method HandleValue(h: Handler, val: RGQLValue) returns (threw: bool, next: Option<Handler>)
      modifies this
      ensures Went1(query, old(result), h, val) == if threw then Threw else Went(result, next)
      // A field is entered under its alias, or else its name.
      ensures val.queryNodeId != 0 && next.Some? && !threw ==>
          && h.selections.Some? && val.queryNodeId in h.selections.value.elems && val.queryNodeId in query.names
          && var elem := h.selections.value.elems[val.queryNodeId];
             && next.value.selections == elem.selections && !next.value.top
             && next.value.pos ==
                h.pos + [Name(if elem.alias != "" then elem.alias else query.names[val.queryNodeId])]
      // An element keeps the selections of its list, and is counted from zero.
      ensures val.queryNodeId == 0 && val.arrayIndex != 0 && next.Some? && !threw ==>
          && next.value.selections == h.selections && !next.value.top
          && next.value.pos == h.pos + [At(val.arrayIndex - 1)]
      // What is stepped into is an object, or a list.
      ensures (val.queryNodeId != 0 || val.arrayIndex != 0) && !h.top && h.pos !in old(result)
              && next.Some? && !threw ==>
          h.pos in result && result[h.pos] == if val.queryNodeId != 0 then ObjectCell else ArrayCell
      ensures val.value.Some? && next.Some? && !threw ==>
          next.value.pos in result && result[next.value.pos] == Leaf(val.value.value)
    {
      var nextHandler := h;
      threw, next := false, None;
      if val.queryNodeId != 0 {
        if h.selections.None? || val.queryNodeId !in h.selections.value.elems { return; }
        var elem := h.selections.value.elems[val.queryNodeId];
        var key := KeyOf(query.names, val.queryNodeId, elem);
        if key.None? { return; }
        if !h.top {
          threw := ApplyValue(h.pos, false, ObjectCell);
          if threw { return; }
        }
        nextHandler := Handler(elem.selections, h.pos + [key.value], false);
      } else if val.arrayIndex != 0 {
        if !h.top {
          threw := ApplyValue(h.pos, false, ArrayCell);
          if threw { return; }
        }
        nextHandler := Handler(h.selections, h.pos + [At(val.arrayIndex - 1)], false);
      }
      if val.value.Some? {
        if nextHandler.top { return; }
        threw := ApplyValue(nextHandler.pos, true, Leaf(val.value.value));
        if threw { return; }
      }
      next := Some(nextHandler);
    }
  }

  // ----- the handlers cursors carry

  /** An entry of resultHandlers: whose handler it is, and how far it has come. */
  datatype Listening = Listening(decoder: JSONDecoder, handler: Handler)

  /** The handler of one decoder among those of a cursor. */
  ghost function HandlerIn(hs: seq<Listening>, dec: JSONDecoder): Option<Handler> {
    if hs == [] then None
    else if hs[0].decoder == dec then Some(hs[0].handler)
    else HandlerIn(hs[1..], dec)
  }

  ghost function DecodersOf(hs: seq<Listening>): set<JSONDecoder> {
    set l | l in hs :: l.decoder
  }

  /** No decoder has two handlers at one cursor. */
  ghost predicate Single(hs: seq<Listening>) {
    forall i, j :: 0 <= i < j < |hs| ==> hs[i].decoder != hs[j].decoder
  }

  lemma {:induction false} HandlerFound(hs: seq<Listening>, i: nat)
    requires Single(hs) && i < |hs|
    ensures HandlerIn(hs, hs[i].decoder) == Some(hs[i].handler)
    decreases |hs|
  {
    if i > 0 {
      assert hs[0].decoder != hs[i].decoder;
      HandlerFound(hs[1..], i - 1);
    }
  }

  lemma {:induction false} HandlerAbsent(hs: seq<Listening>, dec: JSONDecoder)
    ensures HandlerIn(hs, dec).None? <==> dec !in DecodersOf(hs)
    decreases |hs|
  {
    if hs != [] {
      HandlerAbsent(hs[1..], dec);
      assert forall l | l in hs[1..] :: l in hs;
      assert hs[0] in hs;
    }
  }

  lemma {:induction false} HandlerAdded(hs: seq<Listening>, l: Listening, dec: JSONDecoder)
    requires l.decoder !in DecodersOf(hs)
    ensures HandlerIn(hs + [l], dec) == if dec == l.decoder then Some(l.handler) else HandlerIn(hs, dec)
    ensures DecodersOf(hs + [l]) == DecodersOf(hs) + {l.decoder}
    decreases |hs|
  {
    if hs != [] {
      assert forall x | x in hs[1..] :: x in hs;
      assert hs[0] in hs;
      HandlerAdded(hs[1..], l, dec);
      assert (hs + [l])[1..] == hs[1..] + [l];
    }
  }

  lemma SingleAdded(hs: seq<Listening>, l: Listening)
    requires Single(hs) && l.decoder !in DecodersOf(hs)
    ensures Single(hs + [l])
  {
    forall i | 0 <= i < |hs| ensures hs[i].decoder != l.decoder { assert hs[i] in hs; }
  }

  /** What the cursors carry for one decoder: the root's, the cached ones and the unfinished one. */
  datatype Ears = Ears(root: Option<Handler>, cached: map<nat, Option<Handler>>, cursor: Option<Handler>)

  /** Which cursor a frame moves. */
  function Moved(d: Dec, f: RGQLValue): Cursor {
    if d.cursor.Some? then d.cursor.value
    else if f.posIdentifier != 0 && f.posIdentifier in d.cache.vals then d.cache.vals[f.posIdentifier]
    else Cursor([], false)
  }

  /** The handler that cursor carries. */
  function EarAt(d: Dec, e: Ears, f: RGQLValue): Option<Handler> {
    if d.cursor.Some? then e.cursor
    else if f.posIdentifier != 0 && f.posIdentifier in d.cache.vals then
      if f.posIdentifier in e.cached then e.cached[f.posIdentifier] else None
    else e.root
  }

  /** What PathCursor.apply does with a handler: nothing out of bounds. */
  function Call(q: Query, live: set<QPath>, j: Json, cur: Cursor, h: Option<Handler>, f: RGQLValue): Outcome {
    if Advance(live, cur, f).oob then Went(j, h)
    else if h.None? then Went(j, None)
    else Went1(q, j, h.value, f)
  }

  /** A handler does not look at the identifier of a frame. */
  lemma CallAlike(q: Query, live: set<QPath>, j: Json, cur: Cursor, h: Option<Handler>, f: RGQLValue, k: nat)
    ensures Call(q, live, j, cur, h, f.(posIdentifier := k)) == Call(q, live, j, cur, h, f)
  {
  }

  datatype Heard = HeardThrow | Heard(json: Json, ears: Ears)

  /** A frame that is not refused, as one decoder hears it: the moved cursor calls the handler it
      carries, keeps the next one, and a filed copy carries that one too. */
  function Hear(q: Query, live: set<QPath>, d: Dec, e: Ears, j: Json, f: RGQLValue, d': Dec): Heard {
    match Call(q, live, j, Moved(d, f), EarAt(d, e, f), f)
    case Threw => HeardThrow
    case Went(j', next) =>
      Heard(j', Ears(e.root, EarsFiled(d, e, f, next, d'), if f.value.Some? then None else next))
  }

  function EarsFiled(d: Dec, e: Ears, f: RGQLValue, next: Option<Handler>, d': Dec): map<nat, Option<Handler>> {
    map k | k in d'.cache.vals ::
      if d.cursor.Some? && f.posIdentifier != 0 && k == f.posIdentifier then next
      else if k in e.cached then e.cached[k]
      else None
  }

  /** What addResultHandler leaves the cursors with: only the root's gets the new handler. */
  function LateEars(q: Query, d: Dec): Ears {
    Ears(Some(TopHandler(q)), map k | k in d.cache.vals :: None, None)
  }

  // ----- all decoders at once

  ghost function Results(heard: set<JSONDecoder>): map<JSONDecoder, Json>
    reads heard`result
  {
    map dec | dec in heard :: dec.result
  }

  /** One frame at one cursor: every decoder is called with the handler the cursor carries for it, or
      one of them throws. */
  ghost predicate Called(heard: set<JSONDecoder>, live: set<QPath>, cur: Cursor, f: RGQLValue,
                         before: map<JSONDecoder, Json>, hs: seq<Listening>, threw: bool,
                         after: map<JSONDecoder, Json>, hs': seq<Listening>)
  {
    && before.Keys == heard && after.Keys == heard
    && if threw
       then exists dec :: dec in heard && Call(dec.query, live, before[dec], cur, HandlerIn(hs, dec), f) == Threw
       else forall dec :: dec in heard ==>
              Call(dec.query, live, before[dec], cur, HandlerIn(hs, dec), f) == Went(after[dec], HandlerIn(hs', dec))
  }

  /** What all cursors carry: the root's, the cached ones and the unfinished one. */
  datatype Handlers = Handlers(root: seq<Listening>, cached: map<nat, seq<Listening>>, cursor: Option<seq<Listening>>)

  ghost function EarsBy(all: Handlers, dec: JSONDecoder): Ears {
    Ears(HandlerIn(all.root, dec), map k | k in all.cached :: HandlerIn(all.cached[k], dec),
         if all.cursor.Some? then HandlerIn(all.cursor.value, dec) else None)
  }

  /** A frame that is not refused, as all decoders hear it. */
  ghost predicate HeardBy(heard: set<JSONDecoder>, live: set<QPath>, d: Dec, f: RGQLValue, d': Dec,
                          before: map<JSONDecoder, Json>, all: Handlers, threw: bool,
                          after: map<JSONDecoder, Json>, all': Handlers)
  {
    && before.Keys == heard && after.Keys == heard
    && if threw
       then exists dec :: dec in heard && Hear(dec.query, live, d, EarsBy(all, dec), before[dec], f, d') == HeardThrow
       else forall dec :: dec in heard ==>
              Hear(dec.query, live, d, EarsBy(all, dec), before[dec], f, d') == Heard(after[dec], EarsBy(all', dec))
  }

  /** A batch of frames, until one is refused, as one decoder hears it. */
  ghost function HearAll(q: Query, live: set<QPath>, d: Dec, e: Ears, j: Json, fs: seq<RGQLValue>, size: nat): Heard
    decreases |fs|
  {
    if fs == [] then Heard(j, e)
    else
      var h := Handle(live, d, fs[0], size);
      if h.UnknownId? then Heard(j, e)
      else
        var r := Hear(q, live, d, e, j, fs[0], h.dec);
        if r.HeardThrow? then HeardThrow else HearAll(q, live, h.dec, r.ears, r.json, fs[1..], size)
  }

  /** That batch, as all decoders hear it. */
  ghost predicate AllHeard(heard: set<JSONDecoder>, live: set<QPath>, d: Dec, fs: seq<RGQLValue>, size: nat,
                           before: map<JSONDecoder, Json>, all: Handlers, threw: bool,
                           after: map<JSONDecoder, Json>, all': Handlers)
  {
    && before.Keys == heard && after.Keys == heard
    && if threw
       then exists dec ::
              dec in heard && HearAll(dec.query, live, d, EarsBy(all, dec), before[dec], fs, size) == HeardThrow
       else forall dec :: dec in heard ==>
              HearAll(dec.query, live, d, EarsBy(all, dec), before[dec], fs, size) ==
              Heard(after[dec], EarsBy(all', dec))
  }

  /** All that is carried is of these decoders. */
  ghost predicate OnlyOf(all: Handlers, heard: set<JSONDecoder>) {
    && DecodersOf(all.root) <= heard
    && (forall k :: k in all.cached ==> DecodersOf(all.cached[k]) <= heard)
    && (all.cursor.Some? ==> DecodersOf(all.cursor.value) <= heard)
  }

  /** A new handler at the root cursor is all a new decoder has, and changes nothing for the others. */
  lemma EarsAdded(all: Handlers, heard: set<JSONDecoder>, l: Listening, x: JSONDecoder)
    requires OnlyOf(all, heard) && l.decoder !in heard
    ensures
      var all' := all.(root := all.root + [l]);
      EarsBy(all', x) ==
      if x == l.decoder then Ears(Some(l.handler), map k | k in all.cached :: None, None) else EarsBy(all, x)
  {
    HandlerAdded(all.root, l, x);
    if x == l.decoder {
      forall k | k in all.cached ensures HandlerIn(all.cached[k], x) == None { HandlerAbsent(all.cached[k], x); }
      if all.cursor.Some? { HandlerAbsent(all.cursor.value, x); }
    }
  }
}
