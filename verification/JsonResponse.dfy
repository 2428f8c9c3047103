/** What the result of a query should look like, by the query itself: where a value of the result tree
    belongs in the response, and what the response is for a result tree. No decoder is involved. */
module JsonResponses {
  import opened Messages
  import opened QueryTreeSpec
  import opened QueryMaps
  import opened JsonHandlers

  type Trie = map<Path, Option<Primitive>>

  /** The key a selection has in the result. */
  function Response(sel: Sel): string {
    if sel.alias != "" then sel.alias else sel.key.name
  }

  /** A place in a response: its position, its node of the query tree, and what is selected below. */
  datatype Place = Place(pos: JPath, node: nat, sels: seq<Sel>)

  /** Where a result path leads in the response to a query, or none where nothing is selected. An element
      is counted from one on the way, and from zero in the response; of several selections of a field
      the last one counts. */
  ghost function PlaceAt(nodes: Nodes, sels: seq<Sel>, p: Path): Option<Place> {
    if p == [] then Some(Place([], 0, sels))
    else
      match PlaceAt(nodes, sels, p[..|p| - 1])
      case None => None
      case Some(up) =>
        match p[|p| - 1]
        case Index(idx) => Some(up.(pos := up.pos + [At(idx - 1)]))
        case Field(id) =>
          if id !in nodes || nodes[id].parent != up.node then None
          else
            match Counting(up.sels, nodes[id].key)
            case None => None
            case Some(sel) => Some(Place(up.pos + [Name(Response(sel))], id, sel.sels))
  }

  /** The node is there, and the query asks for it. */
  ghost predicate Wanted(nodes: Nodes, sels: seq<Sel>, t: Trie, p: Path) {
    p in t && PlaceAt(nodes, sels, p).Some?
  }

  ghost predicate WantedBelow(nodes: Nodes, sels: seq<Sel>, t: Trie, p: Path, s: Step) {
    Wanted(nodes, sels, t, p + [s])
  }

  /** What a response has at the place of a node: its value, an object for fields below it, a list for
      elements below it, or nothing. */
  ghost predicate Showing(nodes: Nodes, sels: seq<Sel>, j: Json, t: Trie, p: Path)
    requires Wanted(nodes, sels, t, p)
  {
    var pos := PlaceAt(nodes, sels, p).value.pos;
    && (t[p].Some? ==> pos in j && j[pos] == Leaf(t[p].value))
    && (forall id: Pos {:trigger Field(id)} | WantedBelow(nodes, sels, t, p, Field(id)) ::
          pos in j && j[pos] == ObjectCell)
    && (forall i: Pos {:trigger Index(i)} | WantedBelow(nodes, sels, t, p, Index(i)) :: pos in j && j[pos] == ArrayCell)
    && (t[p] == None && (forall s :: !WantedBelow(nodes, sels, t, p, s)) ==> pos !in j)
  }

  /** This node accounts for what is at a position. */
  ghost predicate Accounts(nodes: Nodes, sels: seq<Sel>, t: Trie, pos: JPath, p: Path) {
    && p != [] && Wanted(nodes, sels, t, p) && PlaceAt(nodes, sels, p).value.pos == pos
    && (t[p].Some? || exists s :: WantedBelow(nodes, sels, t, p, s))
  }

  /** The object is the response to a query: exactly what the result tree has of what it asks for. */
  ghost predicate Displays(nodes: Nodes, sels: seq<Sel>, j: Json, t: Trie) {
    && [] in j && j[[]] == ObjectCell
    && (forall p | p != [] && Wanted(nodes, sels, t, p) :: Showing(nodes, sels, j, t, p))
    && (forall pos | pos in j && pos != [] :: exists p :: Accounts(nodes, sels, t, pos, p))
  }

  lemma PlaceSnoc(nodes: Nodes, sels: seq<Sel>, p: Path, s: Step)
    ensures PlaceAt(nodes, sels, p + [s]) ==
      match PlaceAt(nodes, sels, p)
      case None => None
      case Some(up) =>
        match s
        case Index(idx) => Some(up.(pos := up.pos + [At(idx - 1)]))
        case Field(id) =>
          if id !in nodes || nodes[id].parent != up.node then None
          else
            match Counting(up.sels, nodes[id].key)
            case None => None
            case Some(sel) => Some(Place(up.pos + [Name(Response(sel))], id, sel.sels))
  {
    assert (p + [s])[..|p|] == p;
  }

  /** A position has one key for every step: an element's index less one, or the key of the selection
      that the step names. */
  lemma {:induction false} PlaceKeys(nodes: Nodes, sels: seq<Sel>, p: Path, k: nat)
    requires PlaceAt(nodes, sels, p).Some? && k < |p|
    ensures |PlaceAt(nodes, sels, p).value.pos| == |p| && PlaceAt(nodes, sels, p[..k]).Some?
    ensures
      var key, up := PlaceAt(nodes, sels, p).value.pos[k], PlaceAt(nodes, sels, p[..k]).value;
      match p[k]
      case Index(idx) => key == At(idx - 1)
      case Field(id) =>
        id in nodes && nodes[id].parent == up.node && Counting(up.sels, nodes[id].key).Some?
        && key == Name(Response(Counting(up.sels, nodes[id].key).value))
    decreases |p|
  {
    var up, s := p[..|p| - 1], p[|p| - 1];
    assert p == up + [s];
    PlaceSnoc(nodes, sels, up, s);
    PlaceLength(nodes, sels, up);
    if k < |up| {
      PlaceKeys(nodes, sels, up, k);
      assert up[..k] == p[..k];
    } else {
      assert p[..k] == up;
    }
  }

  lemma {:induction false} PlaceLength(nodes: Nodes, sels: seq<Sel>, p: Path)
    requires PlaceAt(nodes, sels, p).Some?
    ensures |PlaceAt(nodes, sels, p).value.pos| == |p|
    decreases |p|
  {
    if p != [] {
      var up, s := p[..|p| - 1], p[|p| - 1];
      assert p == up + [s];
      PlaceSnoc(nodes, sels, up, s);
      PlaceLength(nodes, sels, up);
    }
  }

  /** There is one response only. */
  lemma DisplaysUnique(nodes: Nodes, sels: seq<Sel>, j: Json, j': Json, t: Trie)
    requires Displays(nodes, sels, j, t) && Displays(nodes, sels, j', t)
    ensures j == j'
  {
    forall pos | pos in j ensures pos in j' && j'[pos] == j[pos] { SamePlace(nodes, sels, j, j', t, pos); }
    forall pos | pos in j' ensures pos in j { SamePlace(nodes, sels, j', j, t, pos); }
  }

  lemma SamePlace(nodes: Nodes, sels: seq<Sel>, j: Json, j': Json, t: Trie, pos: JPath)
    requires Displays(nodes, sels, j, t) && Displays(nodes, sels, j', t) && pos in j
    ensures pos in j' && j'[pos] == j[pos]
  {
    hide PlaceAt, WantedBelow;
    if pos != [] {
      var p :| Accounts(nodes, sels, t, pos, p);
      assert Showing(nodes, sels, j, t, p) && Showing(nodes, sels, j', t, p);
      if t[p].None? {
        var s :| WantedBelow(nodes, sels, t, p, s);
        match s {
          case Field(id) => assert WantedBelow(nodes, sels, t, p, Field(id));
          case Index(i) => assert WantedBelow(nodes, sels, t, p, Index(i));
        }
      }
    }
  }
}
