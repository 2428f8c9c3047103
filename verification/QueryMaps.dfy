/** The query map an attach builds: which fields of a query a decoder will find, and under which alias. */
module QueryMaps {
  import opened Messages
  import opened QueryTreeSpec
  import opened QueryTreeProofs

  // ----- where the entries of a map come from

  /** Every entry is for a node that the query references, under the right parent, and is what some
      selection of that field says. */
  ghost predicate MapFrom(nodes: Nodes, occ: set<nat>, parent: nat, qm: QueryMap, sels: seq<Sel>)
    decreases sels
  {
    forall id | id in qm.elems :: exists k :: 0 <= k < |sels| && FromSel(nodes, occ, parent, id, qm.elems[id], sels[k])
  }

  ghost predicate FromSel(nodes: Nodes, occ: set<nat>, parent: nat, id: nat, elem: QueryMapElem, sel: Sel)
    decreases sel
  {
    && id in occ && id in nodes && nodes[id] == QN(parent, sel.key) && elem.alias == sel.alias
    && (elem.selections.None? <==> sel.sels == [])
    && (elem.selections.Some? ==> MapFrom(nodes, occ, id, elem.selections.value, sel.sels))
  }

  /** The nodes of a walk are among these, and its references among those. */
  ghost predicate Inside(w: Walked, nodes: Nodes, occ: set<nat>) {
    && (forall x :: x in w.tree.nodes ==> x in nodes && nodes[x] == w.tree.nodes[x])
    && (forall x :: x in w.occ ==> x in occ)
  }

  lemma InsideParts(w: Walked, id: nat, below: Walked, rest: Walked, nodes: Nodes, occ: set<nat>)
    requires Inside(w, nodes, occ) && Extends(below.tree, rest.tree) && w.tree == rest.tree
    requires w.occ == [id] + below.occ + rest.occ
    ensures Inside(below, nodes, occ) && Inside(rest, nodes, occ) && id in occ
  {
    assert w.occ[0] == id;
    forall x | x in below.occ ensures x in occ { assert x in w.occ; }
    forall x | x in rest.occ ensures x in occ { assert x in w.occ; }
  }

  /** One entry more. */
  lemma MapFromMore(nodes: Nodes, occ: set<nat>, parent: nat, qm: QueryMap, sels: seq<Sel>, k: nat, id: nat,
                    elem: QueryMapElem)
    requires MapFrom(nodes, occ, parent, qm, sels) && k < |sels| && FromSel(nodes, occ, parent, id, elem, sels[k])
    ensures MapFrom(nodes, occ, parent, QueryMap(qm.elems[id := elem]), sels)
  {
    hide FromSel;
  }

  /** What MapWalk adds to a map. */
  ghost function Built(t: Tree, parent: nat, sels: seq<Sel>, inNew: bool): QueryMap {
    MapWalk(t, parent, sels, inNew, QueryMap(map[]))
  }

  /** The definition of MapWalk, one selection at a time. */
  lemma MapParts(t: Tree, parent: nat, sels: seq<Sel>, inNew: bool)
    returns (id: nat, t2: Tree, below: Walked, rest: Walked, elem: QueryMapElem)
    requires TreeOk(t) && (parent == 0 || parent in t.nodes) && sels != [] && !Walk(t, parent, sels, inNew).failed
    ensures TreeOk(t2) && id in t2.nodes && t2.nodes[id] == QN(parent, sels[0].key)
    ensures below == Walk(t2, id, sels[0].sels, inNew || id !in t.refs) && !below.failed && TreeOk(below.tree)
    ensures rest == Walk(below.tree, parent, sels[1..], inNew) && !rest.failed && Extends(below.tree, rest.tree)
    ensures
      (parent == 0 || parent in below.tree.nodes) && id in below.tree.nodes && below.tree.nodes[id] == t2.nodes[id]
    ensures Walk(t, parent, sels, inNew).tree == rest.tree
    ensures Walk(t, parent, sels, inNew).occ == [id] + below.occ + rest.occ
    ensures elem == QueryMapElem(sels[0].alias,
                                 if sels[0].sels == [] then None
                                 else Some(Built(t2, id, sels[0].sels, inNew || id !in t.refs)))
    ensures forall qm: QueryMap ::
              MapWalk(t, parent, sels, inNew, qm) ==
              MapWalk(below.tree, parent, sels[1..], inNew, QueryMap(qm.elems[id := elem]))
    ensures SelsSize(sels[0].sels) < SelsSize(sels) && SelsSize(sels[1..]) < SelsSize(sels)
  {
    hide *;
    ResolvesFirst(t, parent, sels, inNew);
    id, t2, below, rest := WalkParts(t, parent, sels, inNew);
    elem := QueryMapElem(sels[0].alias,
                         if sels[0].sels ==
                           [] then None else Some(Built(t2, id, sels[0].sels, inNew || id !in t.refs)));
    forall qm: QueryMap
      ensures MapWalk(t, parent, sels, inNew, qm) ==
              MapWalk(below.tree, parent, sels[1..], inNew, QueryMap(qm.elems[id := elem]))
    {
      MapUnfold(t, parent, sels, inNew, qm, id, t2, below, elem);
    }
    ExtendsTrans(t, t2, below.tree);
    Places(t, t2, below.tree, parent, id, sels[0].key);
  }

  lemma ResolvesFirst(t: Tree, parent: nat, sels: seq<Sel>, inNew: bool)
    requires sels != [] && !Walk(t, parent, sels, inNew).failed
    ensures sels[0].ok && SelsSize(sels[0].sels) < SelsSize(sels) && SelsSize(sels[1..]) < SelsSize(sels)
  {
  }

  lemma Places(t: Tree, t2: Tree, t3: Tree, parent: nat, id: nat, key: FieldKey)
    requires Extends(t2, t3) && Extends(t, t3) && (parent == 0 || parent in t.nodes) && id in t2.nodes
    ensures (parent == 0 || parent in t3.nodes) && id in t3.nodes && t3.nodes[id] == t2.nodes[id]
  {
  }

  lemma MapUnfold(t: Tree, parent: nat, sels: seq<Sel>, inNew: bool, qm: QueryMap, id: nat, t2: Tree, below: Walked,
                  elem: QueryMapElem)
    requires sels != [] && sels[0].ok && id == Resolve(t, parent, sels[0].key).0
    requires t2 == Resolve(t, parent, sels[0].key).1.(refs := t.refs + multiset{id})
    requires below == Walk(t2, id, sels[0].sels, inNew || id !in t.refs)
    requires elem == QueryMapElem(sels[0].alias,
                                  if sels[0].sels == [] then None
                                  else Some(Built(t2, id, sels[0].sels, inNew || id !in t.refs)))
    ensures MapWalk(t, parent, sels, inNew, qm) ==
            MapWalk(below.tree, parent, sels[1..], inNew, QueryMap(qm.elems[id := elem]))
  {
    assert Resolve(t, parent, sels[0].key).1.refs == t.refs;
  }

  lemma MapEnds(t: Tree, parent: nat, sels: seq<Sel>, inNew: bool, qm: QueryMap)
    ensures sels == [] ==> MapWalk(t, parent, sels, inNew, qm) == qm
  {
  }

  lemma NothingFrom(nodes: Nodes, occ: set<nat>, parent: nat, sels: seq<Sel>)
    ensures MapFrom(nodes, occ, parent, QueryMap(map[]), sels)
  {
  }

  /** Whatever the visitor enters into the map comes from the query. */
  lemma {:induction false} MapWalkFrom(t: Tree, parent: nat, all: seq<Sel>, k: nat, inNew: bool, qm: QueryMap,
                                       nodes: Nodes, occ: set<nat>)
    requires TreeOk(t) && (parent == 0 || parent in t.nodes) && k <= |all| && !Walk(t, parent, all[k..], inNew).failed
    requires Inside(Walk(t, parent, all[k..], inNew), nodes, occ) && MapFrom(nodes, occ, parent, qm, all)
    ensures MapFrom(nodes, occ, parent, MapWalk(t, parent, all[k..], inNew, qm), all)
    decreases SelsSize(all[k..])
  {
    hide *;
    MapEnds(t, parent, all[k..], inNew, qm);
    if k < |all| {
      var id, t2, below, rest, elem := MapParts(t, parent, all[k..], inNew);
      InsideParts(Walk(t, parent, all[k..], inNew), id, below, rest, nodes, occ);
      var inner := all[k].sels;
      assert all[k..][0] == all[k] && all[k..][1..] == all[k + 1..] && inner[0..] == inner;
      NothingFrom(nodes, occ, id, inner);
      MapWalkFrom(t2, id, inner, 0, inNew || id !in t.refs, QueryMap(map[]), nodes, occ);
      BuiltIs(t2, id, inner, inNew || id !in t.refs);
      EntryFrom(below, nodes, occ, parent, id, elem, all[k]);
      MapFromMore(nodes, occ, parent, qm, all, k, id, elem);
      MapWalkFrom(below.tree, parent, all, k + 1, inNew, QueryMap(qm.elems[id := elem]), nodes, occ);
    }
  }

  lemma BuiltIs(t: Tree, parent: nat, sels: seq<Sel>, inNew: bool)
    ensures Built(t, parent, sels, inNew) == MapWalk(t, parent, sels, inNew, QueryMap(map[]))
  {
  }

  lemma EntryFrom(below: Walked, nodes: Nodes, occ: set<nat>, parent: nat, id: nat, elem: QueryMapElem, sel: Sel)
    requires Inside(below, nodes, occ) && id in occ && id in below.tree.nodes
    requires below.tree.nodes[id] == QN(parent, sel.key)
    requires elem.alias == sel.alias && (elem.selections.None? <==> sel.sels == [])
    requires elem.selections.Some? ==> MapFrom(nodes, occ, id, elem.selections.value, sel.sels)
    ensures FromSel(nodes, occ, parent, id, elem, sel)
  {
  }

  /** A map stays good as long as the referenced nodes stay. */
  lemma {:induction false} FromStays(nodes: Nodes, nodes': Nodes, occ: set<nat>, parent: nat, qm: QueryMap,
                                     sels: seq<Sel>)
    requires MapFrom(nodes, occ, parent, qm, sels) && StillIn(nodes, nodes', occ)
    ensures MapFrom(nodes', occ, parent, qm, sels)
    decreases sels
  {
    forall id | id in qm.elems
      ensures exists k :: 0 <= k < |sels| && FromSel(nodes', occ, parent, id, qm.elems[id], sels[k])
    {
      var k :| 0 <= k < |sels| && FromSel(nodes, occ, parent, id, qm.elems[id], sels[k]);
      if qm.elems[id].selections.Some? {
        FromStays(nodes, nodes', occ, id, qm.elems[id].selections.value, sels[k].sels);
      }
      assert FromSel(nodes', occ, parent, id, qm.elems[id], sels[k]);
    }
  }

  ghost predicate StillIn(nodes: Nodes, nodes': Nodes, occ: set<nat>) {
    forall x :: x in occ && x in nodes ==> x in nodes' && nodes'[x] == nodes[x]
  }

  // ----- which selections a map keeps

  /** A way down a query, by field and alias. */
  type AliasPath = seq<(FieldKey, string)>

  /** Everything a query asks for. */
  ghost function Asked(at: AliasPath, sels: seq<Sel>): set<AliasPath>
    decreases SelsSize(sels)
  {
    if sels == [] then {} else AskedUnder(at, sels[0]) + Asked(at, sels[1..])
  }

  ghost function AskedUnder(at: AliasPath, sel: Sel): set<AliasPath>
    decreases 1 + SelsSize(sel.sels), 0
  {
    {at + [(sel.key, sel.alias)]} + Asked(at + [(sel.key, sel.alias)], sel.sels)
  }

  ghost predicate HasKey(sels: seq<Sel>, key: FieldKey) {
    exists k :: 0 <= k < |sels| && sels[k].key == key
  }

  /** What is left of it when of several selections of one field only the last counts. */
  ghost function Kept(at: AliasPath, sels: seq<Sel>): set<AliasPath>
    decreases SelsSize(sels)
  {
    if sels == [] then {}
    else (if HasKey(sels[1..], sels[0].key) then {} else KeptUnder(at, sels[0])) + Kept(at, sels[1..])
  }

  ghost function KeptUnder(at: AliasPath, sel: Sel): set<AliasPath>
    decreases 1 + SelsSize(sel.sels), 0
  {
    {at + [(sel.key, sel.alias)]} + Kept(at + [(sel.key, sel.alias)], sel.sels)
  }

  /** What a map holds. */
  ghost function Labels(nodes: Nodes, at: AliasPath, qm: QueryMap): set<AliasPath>
    decreases qm
  {
    set id, p | id in qm.elems && p in EntryLabels(nodes, at, id, qm.elems[id]) :: p
  }

  ghost function EntryLabels(nodes: Nodes, at: AliasPath, id: nat, elem: QueryMapElem): set<AliasPath>
    decreases elem
  {
    if id !in nodes then {}
    else
      var head := at + [(nodes[id].key, elem.alias)];
      {head} + if elem.selections.Some? then Labels(nodes, head, elem.selections.value) else {}
  }

  /** Entries made later win. */
  lemma {:induction false} MapMerge(t: Tree, parent: nat, sels: seq<Sel>, inNew: bool, qm: QueryMap)
    requires TreeOk(t) && (parent == 0 || parent in t.nodes) && !Walk(t, parent, sels, inNew).failed
    ensures MapWalk(t, parent, sels, inNew, qm).elems == qm.elems + Built(t, parent, sels, inNew).elems
    decreases SelsSize(sels)
  {
    hide *;
    BuiltIs(t, parent, sels, inNew);
    MapEnds(t, parent, sels, inNew, qm);
    MapEnds(t, parent, sels, inNew, QueryMap(map[]));
    if sels != [] {
      var id, t2, below, rest, elem := MapParts(t, parent, sels, inNew);
      MapMerge(below.tree, parent, sels[1..], inNew, QueryMap(qm.elems[id := elem]));
      MapMerge(below.tree, parent, sels[1..], inNew, QueryMap(map[id := elem]));
      MergeMore(qm.elems, id, elem, Built(below.tree, parent, sels[1..], inNew).elems);
    }
  }

  lemma MergeMore(a: map<nat, QueryMapElem>, id: nat, elem: QueryMapElem, more: map<nat, QueryMapElem>)
    ensures a[id := elem] + more == a + (map[id := elem] + more) && map[][id := elem] == map[id := elem]
  {
  }

  /** An entry is made for exactly the nodes of the selected fields. */
  lemma {:induction false} BuiltIds(t: Tree, parent: nat, sels: seq<Sel>, inNew: bool, nodes: Nodes, next: nat, id: nat)
    requires TreeOk(t) && (parent == 0 || parent in t.nodes) && !Walk(t, parent, sels, inNew).failed
    requires NodesOk(next, nodes) && Inside(Walk(t, parent, sels, inNew), nodes, nodes.Keys)
    requires id in nodes && nodes[id].parent == parent
    ensures id in Built(t, parent, sels, inNew).elems <==> HasKey(sels, nodes[id].key)
    decreases SelsSize(sels)
  {
    hide *;
    BuiltIs(t, parent, sels, inNew);
    MapEnds(t, parent, sels, inNew, QueryMap(map[]));
    KeyFirst(sels, nodes[id].key);
    if sels != [] {
      var id0, t2, below, rest, elem := MapParts(t, parent, sels, inNew);
      InsideParts(Walk(t, parent, sels, inNew), id0, below, rest, nodes, nodes.Keys);
      InsideNode(below, nodes, nodes.Keys, id0);
      OneNode(nodes, next, id0, id);
      BuiltIds(below.tree, parent, sels[1..], inNew, nodes, next, id);
      MapMerge(below.tree, parent, sels[1..], inNew, QueryMap(map[id0 := elem]));
      MergeMore(map[], id0, elem, map[]);
    }
  }

  lemma KeyFirst(sels: seq<Sel>, key: FieldKey)
    ensures HasKey(sels, key) <==> sels != [] && (sels[0].key == key || HasKey(sels[1..], key))
  {
    if k :| 0 <= k < |sels| && sels[k].key == key {
      if k > 0 { assert sels[1..][k - 1].key == key; }
    }
    if sels != [] && HasKey(sels[1..], key) {
      var k :| 0 <= k < |sels[1..]| && sels[1..][k].key == key;
      assert sels[k + 1].key == key;
    }
  }

  lemma InsideNode(w: Walked, nodes: Nodes, occ: set<nat>, id: nat)
    requires Inside(w, nodes, occ) && id in w.tree.nodes
    ensures id in nodes && nodes[id] == w.tree.nodes[id]
  {
  }

  lemma OneNode(nodes: Nodes, next: nat, a: nat, b: nat)
    requires NodesOk(next, nodes) && a in nodes && b in nodes && nodes[a].parent == nodes[b].parent
    ensures a == b <==> nodes[a].key == nodes[b].key
  {
    if nodes[a].key == nodes[b].key { assert nodes[a] == nodes[b]; }
  }

  lemma LabelsMerge(nodes: Nodes, at: AliasPath, id: nat, elem: QueryMapElem, more: map<nat, QueryMapElem>)
    ensures Labels(nodes, at, QueryMap(map[id := elem] + more)) ==
            (if id in more then {} else EntryLabels(nodes, at, id, elem)) + Labels(nodes, at, QueryMap(more))
  {
    hide EntryLabels;
    var all := map[id := elem] + more;
    var l, r := Labels(nodes, at, QueryMap(all)), Labels(nodes, at, QueryMap(more));
    forall x | x in r ensures x in l {
      var i :| i in more && x in EntryLabels(nodes, at, i, more[i]);
      assert i in all && all[i] == more[i];
    }
    forall x | x in EntryLabels(nodes, at, id, elem) && id !in more ensures x in l { assert id in all; }
    forall x | x in l ensures x in r || (id !in more && x in EntryLabels(nodes, at, id, elem)) {
      var i :| i in all && x in EntryLabels(nodes, at, i, all[i]);
      if i in more { assert all[i] == more[i]; }
    }
  }

  lemma LabelsEnd(nodes: Nodes, at: AliasPath)
    ensures Labels(nodes, at, QueryMap(map[])) == {} && Kept(at, []) == {}
  {
  }

  lemma KeptFirst(at: AliasPath, sels: seq<Sel>)
    requires sels != []
    ensures
      Kept(at, sels) == (if HasKey(sels[1..], sels[0].key) then {} else KeptUnder(at, sels[0])) + Kept(at, sels[1..])
    ensures KeptUnder(at, sels[0]) ==
            {at + [(sels[0].key, sels[0].alias)]} + Kept(at + [(sels[0].key, sels[0].alias)], sels[0].sels)
  {
  }

  lemma EntryIs(nodes: Nodes, at: AliasPath, id: nat, elem: QueryMapElem)
    requires id in nodes
    ensures
      var head := at + [(nodes[id].key, elem.alias)];
      EntryLabels(nodes, at, id, elem) ==
        {head} + if elem.selections.Some? then Labels(nodes, head, elem.selections.value) else {}
  {
  }

  /** The map holds exactly what the query asks for when of several selections of one field, next to
      each other, only the last counts. */
  lemma {:induction false} MapHolds(t: Tree, parent: nat, sels: seq<Sel>, inNew: bool, nodes: Nodes, next: nat,
                                    at: AliasPath)
    requires TreeOk(t) && (parent == 0 || parent in t.nodes) && !Walk(t, parent, sels, inNew).failed
    requires NodesOk(next, nodes) && Inside(Walk(t, parent, sels, inNew), nodes, nodes.Keys)
    ensures Labels(nodes, at, Built(t, parent, sels, inNew)) == Kept(at, sels)
    decreases SelsSize(sels)
  {
    hide *;
    BuiltIs(t, parent, sels, inNew);
    MapEnds(t, parent, sels, inNew, QueryMap(map[]));
    LabelsEnd(nodes, at);
    if sels != [] {
      var id, t2, below, rest, elem := MapParts(t, parent, sels, inNew);
      InsideParts(Walk(t, parent, sels, inNew), id, below, rest, nodes, nodes.Keys);
      InsideNode(below, nodes, nodes.Keys, id);
      var head := at + [(sels[0].key, sels[0].alias)];
      MapHolds(t2, id, sels[0].sels, inNew || id !in t.refs, nodes, next, head);
      MapHolds(below.tree, parent, sels[1..], inNew, nodes, next, at);
      BuiltIds(below.tree, parent, sels[1..], inNew, nodes, next, id);
      MapMerge(below.tree, parent, sels[1..], inNew, QueryMap(map[id := elem]));
      MergeMore(map[], id, elem, map[]);
      var more := Built(below.tree, parent, sels[1..], inNew).elems;
      LabelsMerge(nodes, at, id, elem, more);
      EntryIs(nodes, at, id, elem);
      KeptFirst(at, sels);
      LabelsEnd(nodes, head);
      assert QueryMap(more) == Built(below.tree, parent, sels[1..], inNew);
    }
  }

  // ----- when nothing is lost

  /** The last of several selections of a field asks for whatever the others ask for. */
  ghost predicate LastCovers(at: AliasPath, sels: seq<Sel>)
    decreases SelsSize(sels)
  {
    sels != [] ==>
      && (if HasKey(sels[1..], sels[0].key) then AskedUnder(at, sels[0]) <= Kept(at, sels[1..])
          else LastCovers(at + [(sels[0].key, sels[0].alias)], sels[0].sels))
      && LastCovers(at, sels[1..])
  }

  lemma {:induction false} KeptAsked(at: AliasPath, sels: seq<Sel>)
    ensures Kept(at, sels) <= Asked(at, sels)
    decreases SelsSize(sels)
  {
    if sels != [] {
      KeptAsked(at + [(sels[0].key, sels[0].alias)], sels[0].sels);
      KeptAsked(at, sels[1..]);
    }
  }

  /** A path asked for below `at` goes on with one of the fields. */
  lemma {:induction false} AskedHead(at: AliasPath, sels: seq<Sel>, p: AliasPath)
    requires p in Asked(at, sels)
    ensures |at| < |p| && p[..|at|] == at && HasKey(sels, p[|at|].0)
    decreases SelsSize(sels)
  {
    var head := at + [(sels[0].key, sels[0].alias)];
    if p in Asked(at, sels[1..]) {
      AskedHead(at, sels[1..], p);
    } else if p != head {
      AskedHead(head, sels[0].sels, p);
      assert p[|at|] == p[..|head|][|at|] && p[..|at|] == p[..|head|][..|at|];
    }
    KeyFirst(sels, p[|at|].0);
  }

  lemma UnderApart(at: AliasPath, sels: seq<Sel>, p: AliasPath)
    requires sels != [] && !HasKey(sels[1..], sels[0].key) && p in AskedUnder(at, sels[0])
    ensures p !in Asked(at, sels[1..])
  {
    var head := at + [(sels[0].key, sels[0].alias)];
    if p != head { AskedHead(head, sels[0].sels, p); }
    assert p[|at|] == p[..|head|][|at|];
    if p in Asked(at, sels[1..]) { AskedHead(at, sels[1..], p); }
  }

  lemma RestKept(at: AliasPath, sels: seq<Sel>, p: AliasPath)
    requires sels != [] && !HasKey(sels[1..], sels[0].key) && Kept(at, sels) == Asked(at, sels)
    requires p in Asked(at, sels[1..])
    ensures p in Kept(at, sels[1..])
  {
    if p in AskedUnder(at, sels[0]) { UnderApart(at, sels, p); }
    KeptAsked(at + [(sels[0].key, sels[0].alias)], sels[0].sels);
    assert p in Asked(at, sels);
    KeptFirst(at, sels);
  }

  lemma HeadKept(at: AliasPath, sels: seq<Sel>, p: AliasPath)
    requires sels != [] && !HasKey(sels[1..], sels[0].key) && Kept(at, sels) == Asked(at, sels)
    requires p in Asked(at + [(sels[0].key, sels[0].alias)], sels[0].sels)
    ensures p in Kept(at + [(sels[0].key, sels[0].alias)], sels[0].sels)
  {
    UnderApart(at, sels, p);
    AskedHead(at + [(sels[0].key, sels[0].alias)], sels[0].sels, p);
    KeptAsked(at, sels[1..]);
    assert p in Asked(at, sels);
    KeptFirst(at, sels);
  }

  /** The map holds every selection, under its alias, exactly when of several selections of a field
      the last covers the others. */
  lemma {:induction false} NothingLost(at: AliasPath, sels: seq<Sel>)
    ensures Kept(at, sels) == Asked(at, sels) <==> LastCovers(at, sels)
    decreases SelsSize(sels)
  {
    if sels != [] {
      var head := at + [(sels[0].key, sels[0].alias)];
      NothingLost(at, sels[1..]);
      NothingLost(head, sels[0].sels);
      KeptAsked(at, sels[1..]);
      KeptAsked(head, sels[0].sels);
      if !HasKey(sels[1..], sels[0].key) && Kept(at, sels) == Asked(at, sels) {
        forall p | p in Asked(at, sels[1..]) ensures p in Kept(at, sels[1..]) { RestKept(at, sels, p); }
        forall p | p in Asked(head, sels[0].sels) ensures p in Kept(head, sels[0].sels) { HeadKept(at, sels, p); }
      }
    }
  }

  /** Siblings for distinct fields lose nothing. */
  lemma {:induction false} DistinctCovers(at: AliasPath, sels: seq<Sel>)
    requires Distinct(sels)
    ensures LastCovers(at, sels) && Kept(at, sels) == Asked(at, sels)
    decreases SelsSize(sels)
  {
    NothingLost(at, sels);
    if sels != [] {
      DistinctCovers(at + [(sels[0].key, sels[0].alias)], sels[0].sels);
      DistinctCovers(at, sels[1..]);
    }
  }

  /** What an attach files for a decoder: all the query asks for, if and only if of several
      selections of one field the last covers the others. */
  lemma AttachMap(t: Tree, sels: seq<Sel>)
    requires TreeOk(t) && !Walk(t, 0, sels, false).failed
    ensures
      var w := Walk(t, 0, sels, false);
      && Labels(w.tree.nodes, [], Built(t, 0, sels, false)) == Kept([], sels)
      && (Labels(w.tree.nodes, [], Built(t, 0, sels, false)) == Asked([], sels) <==> LastCovers([], sels))
  {
    var w := Walk(t, 0, sels, false);
    WalkFacts(t, 0, sels, false);
    assert Inside(w, w.tree.nodes, w.tree.nodes.Keys);
    hide Walk, Built, Labels, Kept, Asked, LastCovers;
    MapHolds(t, 0, sels, false, w.tree.nodes, w.tree.next, []);
    NothingLost([], sels);
  }

  // ----- the map, entry by entry

  /** The selection of a field that counts. */
  ghost function Counting(sels: seq<Sel>, key: FieldKey): (r: Option<Sel>)
    ensures r.Some? ==> r.value.key == key && SelsSize(r.value.sels) < SelsSize(sels)
  {
    if sels == [] then None
    else if Counting(sels[1..], key).Some? then Counting(sels[1..], key)
    else if sels[0].key == key then Some(sels[0])
    else None
  }

  lemma CountingFirst(sels: seq<Sel>, key: FieldKey)
    requires sels != []
    ensures Counting(sels, key) ==
            if Counting(sels[1..], key).Some? then Counting(sels[1..], key)
            else if sels[0].key == key then Some(sels[0])
            else None
  {
  }

  ghost predicate LastAt(sels: seq<Sel>, key: FieldKey, k: int) {
    0 <= k < |sels| && sels[k].key == key && forall j :: k < j < |sels| ==> sels[j].key != key
  }

  /** It is the last one. */
  lemma {:induction false} CountingIsLast(sels: seq<Sel>, key: FieldKey)
    ensures Counting(sels, key).None? ==> forall k :: 0 <= k < |sels| ==> sels[k].key != key
    ensures Counting(sels, key).Some? ==> exists k :: LastAt(sels, key, k) && sels[k] == Counting(sels, key).value
    decreases |sels|
  {
    if sels != [] {
      var rest := sels[1..];
      CountingIsLast(rest, key);
      if Counting(rest, key).Some? {
        var k :| LastAt(rest, key, k) && rest[k] == Counting(rest, key).value;
        forall j | k + 1 < j < |sels| ensures sels[j].key != key { assert rest[j - 1] == sels[j]; }
        assert LastAt(sels, key, k + 1) && sels[k + 1] == rest[k];
      } else {
        forall j | 0 < j < |sels| ensures sels[j].key != key { assert rest[j - 1] == sels[j]; }
        if sels[0].key == key { assert LastAt(sels, key, 0); }
      }
    }
  }

  ghost predicate HasEntry(nodes: Nodes, parent: nat, qm: QueryMap, key: FieldKey) {
    exists id :: id in qm.elems && id in nodes && nodes[id] == QN(parent, key)
  }

  /** The node is for a selected field. */
  ghost predicate ForField(nodes: Nodes, occ: set<nat>, parent: nat, id: nat, sels: seq<Sel>) {
    id in occ && id in nodes && nodes[id].parent == parent && Counting(sels, nodes[id].key).Some?
  }

  /** An entry for every selected field, with what the selection that counts says, and no other entry. */
  ghost predicate Mirrors(nodes: Nodes, occ: set<nat>, parent: nat, qm: QueryMap, sels: seq<Sel>)
    decreases SelsSize(sels), 0
  {
    && (forall k | 0 <= k < |sels| :: HasEntry(nodes, parent, qm, sels[k].key))
    && (forall id | id in qm.elems ::
          && ForField(nodes, occ, parent, id, sels)
          && Mirror(nodes, occ, id, qm.elems[id], Counting(sels, nodes[id].key).value))
  }

  /** One entry. */
  ghost predicate Mirror(nodes: Nodes, occ: set<nat>, id: nat, elem: QueryMapElem, sel: Sel)
    decreases SelsSize(sel.sels), 1
  {
    && elem.alias == sel.alias && (elem.selections.None? <==> sel.sels == [])
    && (elem.selections.Some? ==> Mirrors(nodes, occ, id, elem.selections.value, sel.sels))
  }

  lemma MirrorAt(nodes: Nodes, occ: set<nat>, parent: nat, qm: QueryMap, sels: seq<Sel>, id: nat)
    requires Mirrors(nodes, occ, parent, qm, sels) && id in qm.elems
    ensures id in occ && id in nodes && nodes[id].parent == parent && Counting(sels, nodes[id].key).Some?
    ensures Mirror(nodes, occ, id, qm.elems[id], Counting(sels, nodes[id].key).value)
  {
  }

  /** An entry is found for exactly the selected fields. */
  lemma MirrorsFinds(nodes: Nodes, next: nat, occ: set<nat>, parent: nat, qm: QueryMap, sels: seq<Sel>, id: nat)
    requires NodesOk(next, nodes) && Mirrors(nodes, occ, parent, qm, sels)
    ensures id in qm.elems <==>
            id in nodes && nodes[id].parent == parent && Counting(sels, nodes[id].key).Some?
  {
    hide Mirrors;
    if id in qm.elems { MirrorAt(nodes, occ, parent, qm, sels, id); }
    if id in nodes && nodes[id].parent == parent && Counting(sels, nodes[id].key).Some? {
      CountingIsLast(sels, nodes[id].key);
      var k :| LastAt(sels, nodes[id].key, k) && sels[k] == Counting(sels, nodes[id].key).value;
      MirrorHas(nodes, occ, parent, qm, sels, k);
      var x :| x in qm.elems && x in nodes && nodes[x] == QN(parent, sels[k].key);
      assert nodes[x] == nodes[id];
    }
  }

  lemma MirrorHas(nodes: Nodes, occ: set<nat>, parent: nat, qm: QueryMap, sels: seq<Sel>, k: nat)
    requires Mirrors(nodes, occ, parent, qm, sels) && k < |sels|
    ensures HasEntry(nodes, parent, qm, sels[k].key)
  {
    hide HasEntry, Mirror, ForField;
  }

  lemma MirrorsFrom(nodes: Nodes, occ: set<nat>, parent: nat, qm: QueryMap, sels: seq<Sel>)
    requires forall k | 0 <= k < |sels| :: HasEntry(nodes, parent, qm, sels[k].key)
    requires forall id | id in qm.elems ::
               && ForField(nodes, occ, parent, id, sels)
               && Mirror(nodes, occ, id, qm.elems[id], Counting(sels, nodes[id].key).value)
    ensures Mirrors(nodes, occ, parent, qm, sels)
  {
    hide HasEntry, Mirror;
  }

  lemma MirrorsCons(nodes: Nodes, next: nat, occ: set<nat>, parent: nat, id: nat, elem: QueryMapElem,
                    more: map<nat, QueryMapElem>, sels: seq<Sel>)
    requires NodesOk(next, nodes) && sels != [] && id in occ && id in nodes && nodes[id] == QN(parent, sels[0].key)
    requires Mirror(nodes, occ, id, elem, sels[0]) && Mirrors(nodes, occ, parent, QueryMap(more), sels[1..])
    ensures Mirrors(nodes, occ, parent, QueryMap(map[id := elem] + more), sels)
  {
    var all := map[id := elem] + more;
    hide Mirror, Mirrors, NodesOk, Counting, HasEntry;
    forall k | 0 <= k < |sels| ensures HasEntry(nodes, parent, QueryMap(all), sels[k].key) {
      EntryStays(nodes, occ, parent, id, elem, more, sels, k);
    }
    forall x | x in all
      ensures ForField(nodes, occ, parent, x, sels) && Mirror(nodes, occ, x, all[x], Counting(sels, nodes[x].key).value)
    {
      EntryMirrors(nodes, next, occ, parent, id, elem, more, sels, x);
    }
    MirrorsFrom(nodes, occ, parent, QueryMap(all), sels);
  }

  lemma EntryStays(nodes: Nodes, occ: set<nat>, parent: nat, id: nat, elem: QueryMapElem,
                   more: map<nat, QueryMapElem>, sels: seq<Sel>, k: nat)
    requires sels != [] && id in nodes && nodes[id] == QN(parent, sels[0].key) && k < |sels|
    requires Mirrors(nodes, occ, parent, QueryMap(more), sels[1..])
    ensures HasEntry(nodes, parent, QueryMap(map[id := elem] + more), sels[k].key)
  {
    hide Mirrors;
    var all := map[id := elem] + more;
    if k > 0 {
      MirrorHas(nodes, occ, parent, QueryMap(more), sels[1..], k - 1);
      var x :| x in more && x in nodes && nodes[x] == QN(parent, sels[1..][k - 1].key);
      assert x in all;
    } else {
      assert id in all;
    }
  }

  lemma EntryMirrors(nodes: Nodes, next: nat, occ: set<nat>, parent: nat, id: nat, elem: QueryMapElem,
                     more: map<nat, QueryMapElem>, sels: seq<Sel>, x: nat)
    requires NodesOk(next, nodes) && sels != [] && id in occ && id in nodes && nodes[id] == QN(parent, sels[0].key)
    requires Mirror(nodes, occ, id, elem, sels[0]) && Mirrors(nodes, occ, parent, QueryMap(more), sels[1..])
    requires x in map[id := elem] + more
    ensures ForField(nodes, occ, parent, x, sels)
    ensures Mirror(nodes, occ, x, (map[id := elem] + more)[x], Counting(sels, nodes[x].key).value)
  {
    MirrorsFinds(nodes, next, occ, parent, QueryMap(more), sels[1..], id);
    hide Mirror, Mirrors, NodesOk, Counting;
    CountingFirst(sels, nodes[if x in more then x else id].key);
    if x in more { MirrorAt(nodes, occ, parent, QueryMap(more), sels[1..], x); }
  }

  lemma NothingMirrored(nodes: Nodes, occ: set<nat>, parent: nat)
    ensures Mirrors(nodes, occ, parent, QueryMap(map[]), [])
  {
  }

  lemma MirrorFrom(nodes: Nodes, occ: set<nat>, id: nat, elem: QueryMapElem, sel: Sel)
    requires elem.alias == sel.alias && (elem.selections.None? <==> sel.sels == [])
    requires elem.selections.Some? ==> Mirrors(nodes, occ, id, elem.selections.value, sel.sels)
    ensures Mirror(nodes, occ, id, elem, sel)
  {
  }

  /** That is what the visitor builds. */
  lemma {:induction false} MirrorsBuilt(t: Tree, parent: nat, sels: seq<Sel>, inNew: bool, nodes: Nodes, next: nat,
                                        occ: set<nat>)
    requires TreeOk(t) && (parent == 0 || parent in t.nodes) && !Walk(t, parent, sels, inNew).failed
    requires NodesOk(next, nodes) && Inside(Walk(t, parent, sels, inNew), nodes, occ)
    ensures Mirrors(nodes, occ, parent, Built(t, parent, sels, inNew), sels)
    decreases SelsSize(sels)
  {
    hide *;
    BuiltIs(t, parent, sels, inNew);
    MapEnds(t, parent, sels, inNew, QueryMap(map[]));
    NothingMirrored(nodes, occ, parent);
    if sels != [] {
      var id, t2, below, rest, elem := MapParts(t, parent, sels, inNew);
      InsideParts(Walk(t, parent, sels, inNew), id, below, rest, nodes, occ);
      InsideNode(below, nodes, occ, id);
      MirrorsBuilt(t2, id, sels[0].sels, inNew || id !in t.refs, nodes, next, occ);
      MirrorsBuilt(below.tree, parent, sels[1..], inNew, nodes, next, occ);
      MapMerge(below.tree, parent, sels[1..], inNew, QueryMap(map[id := elem]));
      MergeMore(map[], id, elem, map[]);
      var more := Built(below.tree, parent, sels[1..], inNew).elems;
      assert QueryMap(more) == Built(below.tree, parent, sels[1..], inNew);
      MirrorFrom(nodes, occ, id, elem, sels[0]);
      MirrorsCons(nodes, next, occ, parent, id, elem, more, sels);
    }
  }

  /** A map stays so as long as the referenced nodes stay. */
  lemma {:induction false} MirrorsStays(nodes: Nodes, nodes': Nodes, occ: set<nat>, parent: nat, qm: QueryMap,
                                        sels: seq<Sel>)
    requires Mirrors(nodes, occ, parent, qm, sels) && StillIn(nodes, nodes', occ)
    ensures Mirrors(nodes', occ, parent, qm, sels)
    decreases SelsSize(sels)
  {
    hide Mirrors;
    forall k | 0 <= k < |sels| ensures HasEntry(nodes', parent, qm, sels[k].key) {
      MirrorHas(nodes, occ, parent, qm, sels, k);
      var id :| id in qm.elems && id in nodes && nodes[id] == QN(parent, sels[k].key);
      MirrorAt(nodes, occ, parent, qm, sels, id);
    }
    forall id | id in qm.elems
      ensures ForField(nodes', occ, parent, id, sels)
              && Mirror(nodes', occ, id, qm.elems[id], Counting(sels, nodes'[id].key).value)
    {
      MirrorAt(nodes, occ, parent, qm, sels, id);
      var sel := Counting(sels, nodes[id].key).value;
      if qm.elems[id].selections.Some? {
        MirrorsStays(nodes, nodes', occ, id, qm.elems[id].selections.value, sel.sels);
      }
    }
    MirrorsFrom(nodes', occ, parent, qm, sels);
  }

  // ----- as long as the query is attached

  ghost function References(c: Client, n: nat): set<nat> {
    if n < |c.queries| then set id | id in c.queries[n] else {}
  }

  /** The map of query `n`, which asked for `sels`: all its nodes are there, and referenced. */
  ghost predicate MapHeld(c: Client, n: nat, qm: QueryMap, sels: seq<Sel>) {
    && n < |c.queries| && MapFrom(c.tree.nodes, References(c, n), 0, qm, sels)
    && Mirrors(c.tree.nodes, References(c, n), 0, qm, sels)
  }

  lemma AttachHolds(c: Client, sels: seq<Sel>)
    requires ClientOk(c) && !Walk(c.tree, 0, sels, false).failed
    ensures MapHeld(Apply(c, Attach(sels)), |c.queries|, Built(c.tree, 0, sels, false), sels)
  {
    var w, c' := Walk(c.tree, 0, sels, false), Apply(c, Attach(sels));
    var occ := References(c', |c.queries|);
    assert c'.queries[|c.queries|] == w.occ;
    assert Inside(w, w.tree.nodes, occ);
    NothingFrom(w.tree.nodes, occ, 0, sels);
    assert sels[0..] == sels;
    WalkFacts(c.tree, 0, sels, false);
    hide Walk, Apply, MapFrom, Mirrors, Inside;
    MapWalkFrom(c.tree, 0, sels, 0, false, QueryMap(map[]), w.tree.nodes, occ);
    MirrorsBuilt(c.tree, 0, sels, false, w.tree.nodes, w.tree.next, occ);
  }

  /** Nothing but its own detach takes a query's nodes away. */
  lemma NodesHeld(c: Client, n: nat, op: Op)
    requires ClientOk(c) && n < |c.queries| && op != Detach(n)
    ensures n < |Apply(c, op).queries| && References(Apply(c, op), n) == References(c, n)
    ensures StillIn(c.tree.nodes, Apply(c, op).tree.nodes, References(c, n))
  {
    hide Walk, TreeOk, Held, ParentClosed, Unreferenced;
    var c' := Apply(c, op);
    ReferencesConserved(c, op);
    assert n < |c'.queries| && c'.queries[n] == c.queries[n];
    ClosedThere(c'.tree.nodes, c'.queries, n);
    match op {
      case Attach(sels) =>
        WalkFacts(c.tree, 0, sels, false);
        FailedWalkUndone(c.tree, sels);
      case Detach(_) =>
    }
  }

  lemma ClosedThere(nodes: Nodes, queries: seq<seq<nat>>, n: nat)
    requires AllClosed(nodes, queries) && n < |queries|
    ensures forall id :: id in queries[n] ==> id in nodes
  {
    assert ParentClosed(nodes, 0, queries[n]);
  }

  lemma MapStaysHeld(c: Client, n: nat, qm: QueryMap, sels: seq<Sel>, op: Op)
    requires ClientOk(c) && MapHeld(c, n, qm, sels) && op != Detach(n)
    ensures MapHeld(Apply(c, op), n, qm, sels)
  {
    NodesHeld(c, n, op);
    FromStays(c.tree.nodes, Apply(c, op).tree.nodes, References(c, n), 0, qm, sels);
    MirrorsStays(c.tree.nodes, Apply(c, op).tree.nodes, References(c, n), 0, qm, sels);
  }
}
