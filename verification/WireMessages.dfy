/** What the parser makes of accepted bytes, independently of how it gets there: of several records of
    one field the last counts, repeated fields keep their order, and a message that is sent in pieces is
    the message its pieces spell together (Protocol Buffers Encoding guide, section "Last One Wins"). */
module WireMessages {
  import opened Messages
  import opened WireSpec
  import opened WireProofs
  import opened WireRecords

  // ----- the fields of a message

  /** The last record of a field. */
  ghost function Last(fs: seq<Field>, num: nat): Option<Field> {
    if fs == [] then None
    else if fs[|fs| - 1].num == num then Some(fs[|fs| - 1])
    else Last(fs[..|fs| - 1], num)
  }

  /** The payloads of a field, in order. */
  ghost function Payloads(fs: seq<Field>, num: nat): seq<seq<Byte>> {
    if fs == [] then []
    else
      var up := Payloads(fs[..|fs| - 1], num);
      if fs[|fs| - 1].num == num then up + [Payload(fs[|fs| - 1])] else up
  }

  ghost function BytesOf(fs: seq<Field>, num: nat): seq<Byte> {
    if Last(fs, num).Some? then Payload(Last(fs, num).value) else []
  }

  ghost function NumberOf(fs: seq<Field>, num: nat): nat {
    if Last(fs, num).Some? && Last(fs, num).value.VarF? then Last(fs, num).value.raw else 0
  }

  /** Eight bytes, the lowest first. */
  ghost predicate Spells(s: seq<Byte>, bits: nat) {
    || (s == [] && bits == 0)
    || (|s| == 8 &&
        bits == (s[0] as int) + (s[1] as int) * 0x100 + (s[2] as int) * 0x1_0000 + (s[3] as int) * 0x100_0000
                + (s[4] as int) * 0x1_0000_0000 + (s[5] as int) * 0x100_0000_0000
                + (s[6] as int) * 0x1_0000_0000_0000 + (s[7] as int) * 0x100_0000_0000_0000)
  }

  /** The low 32 bits of a number, as an int32. */
  ghost predicate Low32(v: Int32, raw: nat) {
    (v - raw) % TWO32 == 0
  }

  lemma SnocParts(fs: seq<Field>, f: Field, num: nat)
    ensures Last(fs + [f], num) == if f.num == num then Some(f) else Last(fs, num)
    ensures Payloads(fs + [f], num) == if f.num == num then Payloads(fs, num) + [Payload(f)] else Payloads(fs, num)
  {
    assert (fs + [f])[..|fs|] == fs;
  }

  // ----- what bytes say

  ghost predicate ArgFrom(fs: seq<Field>, m: FieldArgument) {
    m.name == BytesOf(fs, 1) && m.variableId == NumberOf(fs, 2) % TWO32
  }

  ghost predicate ArgSays(bs: seq<Byte>, m: FieldArgument) {
    exists fs :: Records(bs, fs) && OfKinds(fs, ARG_KINDS) && ArgFrom(fs, m)
  }

  ghost predicate ArgsSay(ps: seq<seq<Byte>>, args: seq<FieldArgument>) {
    |ps| == |args| && forall k :: 0 <= k < |ps| ==> ArgSays(ps[k], args[k])
  }

  ghost predicate DirectiveFrom(fs: seq<Field>, m: Directive) {
    m.name == BytesOf(fs, 1) && ArgsSay(Payloads(fs, 2), m.args)
  }

  ghost predicate DirectiveSays(bs: seq<Byte>, m: Directive) {
    exists fs :: Records(bs, fs) && OfKinds(fs, DIRECTIVE_KINDS) && DirectiveFrom(fs, m)
  }

  ghost predicate DirectivesSay(ps: seq<seq<Byte>>, ds: seq<Directive>) {
    |ps| == |ds| && forall k :: 0 <= k < |ps| ==> DirectiveSays(ps[k], ds[k])
  }

  ghost predicate NodeSays(bs: seq<Byte>, m: TreeNode)
    decreases |bs|, 1
  {
    exists fs :: Records(bs, fs) && OfKinds(fs, NODE_KINDS) && NodeFrom(fs, m, |bs|)
  }

  ghost predicate NodeFrom(fs: seq<Field>, m: TreeNode, len: nat)
    decreases len, 0
  {
    && m.id == NumberOf(fs, 1) % TWO32 && m.fieldName == BytesOf(fs, 2)
    && ArgsSay(Payloads(fs, 3), m.args) && DirectivesSay(Payloads(fs, 4), m.directive)
    && var ps := Payloads(fs, 5);
       && |ps| == |m.children|
       && forall k :: 0 <= k < |ps| ==> |ps[k]| < len && NodeSays(ps[k], m.children[k])
  }

  ghost predicate PrimitiveFrom(fs: seq<Field>, p: Primitive) {
    && Low32(p.kind, NumberOf(fs, 1)) && Low32(p.intValue, NumberOf(fs, 2)) && Spells(BytesOf(fs, 3), p.floatBits)
    && p.stringValue == BytesOf(fs, 4) && (p.boolValue <==> NumberOf(fs, 5) != 0)
  }

  ghost predicate PrimitiveSays(bs: seq<Byte>, p: Primitive) {
    exists fs :: Records(bs, fs) && OfKinds(fs, PRIMITIVE_KINDS) && PrimitiveFrom(fs, p)
  }

  ghost function Joined(ps: seq<seq<Byte>>): seq<Byte> {
    if ps == [] then [] else Joined(ps[..|ps| - 1]) + ps[|ps| - 1]
  }

  /** The pieces are whole records each, and say together what they say one after the other. */
  ghost predicate PiecesSay(ps: seq<seq<Byte>>, v: Option<Primitive>) {
    && (forall b | b in ps :: Whole(b, PRIMITIVE_KINDS))
    && if ps == [] then v == None else v.Some? && PrimitiveSays(Joined(ps), v.value)
  }

  ghost predicate ValueFrom(fs: seq<Field>, v: RGQLValue) {
    && v.queryNodeId == NumberOf(fs, 1) % TWO32 && v.arrayIndex == NumberOf(fs, 2) % TWO32
    && v.posIdentifier == NumberOf(fs, 3) % TWO32 && v.error == BytesOf(fs, 5)
    && PiecesSay(Payloads(fs, 4), v.value)
  }

  ghost predicate ValueSays(bs: seq<Byte>, v: RGQLValue) {
    exists fs :: Records(bs, fs) && OfKinds(fs, VALUE_KINDS) && ValueFrom(fs, v)
  }

  // ----- FieldArgument

  lemma {:induction false} FoldArgIs(fs: seq<Field>)
    requires OfKinds(fs, ARG_KINDS)
    ensures FoldArg(EMPTY_ARG, fs).Ok? && ArgFrom(fs, FoldArg(EMPTY_ARG, fs).value)
    decreases |fs|
  {
    if fs != [] {
      var up, f := fs[..|fs| - 1], fs[|fs| - 1];
      assert fs == up + [f] && f in fs;
      FoldArgIs(up);
      FoldArgAppend(EMPTY_ARG, up, [f]);
      assert [f][1..] == [];
      SnocParts(up, f, 1);
      SnocParts(up, f, 2);
    }
  }

  /** The parser takes exactly the bytes that say an argument, as what they say. */
  lemma ArgExact(bs: seq<Byte>, m: FieldArgument)
    requires |bs| < TWO63
    ensures DecodeArg(bs) == Ok(m) <==> ArgSays(bs, m)
  {
    FramesWhole(bs, ARG_KINDS);
    var fr := Frame(bs, 0, ARG_KINDS);
    if fr.end == None { FoldArgIs(fr.fields); }
    if ArgSays(bs, m) {
      var fs :| Records(bs, fs) && OfKinds(fs, ARG_KINDS) && ArgFrom(fs, m);
      RecordsUnique(bs, fs, fr.fields, ARG_KINDS);
    }
  }

  // ----- RGQLQueryFieldDirective

  ghost predicate ArgsDecoded(ps: seq<seq<Byte>>, args: seq<FieldArgument>) {
    |ps| == |args| && forall k :: 0 <= k < |ps| ==> DecodeArg(ps[k]) == Ok(args[k])
  }

  lemma ArgsSnoc(ps: seq<seq<Byte>>, args: seq<FieldArgument>, b: seq<Byte>, a: FieldArgument)
    requires ArgsDecoded(ps, args) && DecodeArg(b) == Ok(a)
    ensures ArgsDecoded(ps + [b], args + [a])
  {
  }

  lemma ArgsExact(ps: seq<seq<Byte>>, args: seq<FieldArgument>)
    requires forall b | b in ps :: |b| < TWO63
    ensures ArgsDecoded(ps, args) <==> ArgsSay(ps, args)
  {
    hide DecodeArg, ArgSays;
    if |ps| == |args| {
      forall k | 0 <= k < |ps| ensures DecodeArg(ps[k]) == Ok(args[k]) <==> ArgSays(ps[k], args[k]) {
        assert ps[k] in ps;
        ArgExact(ps[k], args[k]);
      }
    }
  }

  ghost predicate AllArgs(ps: seq<seq<Byte>>) {
    forall b | b in ps :: DecodeArg(b).Ok?
  }

  lemma {:induction false} FoldDirectiveIs(fs: seq<Field>)
    requires OfKinds(fs, DIRECTIVE_KINDS)
    ensures var r := FoldDirective(EMPTY_DIRECTIVE, fs);
            && (AllArgs(Payloads(fs, 2)) ==> r.Ok?)
            && (r.Ok? ==> r.value.name == BytesOf(fs, 1) && ArgsDecoded(Payloads(fs, 2), r.value.args))
    decreases |fs|
  {
    hide DecodeArg;
    if fs != [] {
      var up, f := fs[..|fs| - 1], fs[|fs| - 1];
      assert fs == up + [f] && f in fs;
      FoldDirectiveIs(up);
      SnocParts(up, f, 1);
      SnocParts(up, f, 2);
      assert forall b | b in Payloads(up, 2) :: b in Payloads(fs, 2);
      assert f.num == 2 ==> Payload(f) in Payloads(fs, 2);
      if FoldDirective(EMPTY_DIRECTIVE, up).Ok? {
        FoldDirectiveAppend(EMPTY_DIRECTIVE, up, [f]);
        assert [f][1..] == [];
      } else {
        FoldDirectiveFails(EMPTY_DIRECTIVE, up, [f]);
      }
    }
  }

  lemma {:induction false} FoldDirectiveFails(m: Directive, a: seq<Field>, b: seq<Field>)
    requires FoldDirective(m, a).Err?
    ensures FoldDirective(m, a + b).Err?
    decreases |a|
  {
    hide DecodeArg;
    if a != [] {
      assert (a + b)[0] == a[0] && (a + b)[1..] == a[1..] + b;
      if PutDirective(m, a[0]).Ok? { FoldDirectiveFails(PutDirective(m, a[0]).value, a[1..], b); }
    }
  }

  lemma {:induction false} PayloadsInside(bs: seq<Byte>, fs: seq<Field>, num: nat)
    requires Records(bs, fs)
    ensures |Joined(Payloads(fs, num))| <= |bs| && forall b | b in Payloads(fs, num) :: |b| < |bs|
    decreases |fs|
  {
    if fs != [] {
      var up, f := fs[..|fs| - 1], fs[|fs| - 1];
      var c := SplitLast(bs, fs);
      PayloadsInside(bs[..c], up, num);
      RecordLonger(bs[c..], f);
      var ps, qs := Payloads(fs, num), Payloads(up, num);
      if f.num == num { assert ps == qs + [Payload(f)] && ps[..|ps| - 1] == qs; }
    }
  }

  lemma RecordLonger(s: seq<Byte>, f: Field)
    requires Record(s, f)
    ensures |Payload(f)| < |s|
  {
  }

  lemma {:induction false} SplitLast(bs: seq<Byte>, fs: seq<Field>) returns (c: nat)
    requires Records(bs, fs) && fs != []
    ensures c <= |bs| && Records(bs[..c], fs[..|fs| - 1]) && Record(bs[c..], fs[|fs| - 1])
    decreases |fs|
  {
    hide Record;
    var d := FirstRecord(bs, fs);
    if |fs| == 1 {
      c := 0;
      assert bs[d..] == [] && bs[..d] == bs == bs[0..];
    } else {
      var e := SplitLast(bs[d..], fs[1..]);
      c := d + e;
      hide Records;
      assert bs[d..][e..] == bs[c..] && fs[1..][..|fs| - 2] == fs[..|fs| - 1][1..];
      assert bs[..c][..d] == bs[..d] && bs[..c][d..] == bs[d..][..e];
      RecordsCons(bs[..c], fs[..|fs| - 1], d);
    }
  }

  lemma ArgsUnique(ps: seq<seq<Byte>>, a: seq<FieldArgument>, b: seq<FieldArgument>)
    requires ArgsDecoded(ps, a) && ArgsDecoded(ps, b)
    ensures a == b
  {
    hide DecodeArg;
    forall k | 0 <= k < |ps| ensures a[k] == b[k] { }
  }

  lemma DirectiveExact(bs: seq<Byte>, m: Directive)
    requires |bs| < TWO63
    ensures DecodeDirective(bs) == Ok(m) <==> DirectiveSays(bs, m)
  {
    FramesWhole(bs, DIRECTIVE_KINDS);
    var fr := Frame(bs, 0, DIRECTIVE_KINDS);
    hide Frame, FoldDirective, Records, DecodeArg, ArgsSay, ArgsDecoded, OfKinds;
    if fr.end == None {
      FoldDirectiveIs(fr.fields);
      PayloadsInside(bs, fr.fields, 2);
      var r := FoldDirective(EMPTY_DIRECTIVE, fr.fields);
      if r.Ok? { ArgsExact(Payloads(fr.fields, 2), r.value.args); }
    }
    if DirectiveSays(bs, m) {
      var fs :| Records(bs, fs) && OfKinds(fs, DIRECTIVE_KINDS) && DirectiveFrom(fs, m);
      assert Whole(bs, DIRECTIVE_KINDS);
      RecordsUnique(bs, fs, fr.fields, DIRECTIVE_KINDS);
      ArgsExact(Payloads(fs, 2), m.args);
      AllDecoded(Payloads(fs, 2), m.args);
      ArgsUnique(Payloads(fs, 2), m.args, FoldDirective(EMPTY_DIRECTIVE, fs).value.args);
    }
  }

  lemma AllDecoded(ps: seq<seq<Byte>>, args: seq<FieldArgument>)
    requires ArgsDecoded(ps, args)
    ensures AllArgs(ps)
  {
  }

  // ----- RGQLQueryTreeNode

  ghost predicate DirectivesDecoded(ps: seq<seq<Byte>>, ds: seq<Directive>) {
    |ps| == |ds| && forall k :: 0 <= k < |ps| ==> DecodeDirective(ps[k]) == Ok(ds[k])
  }

  ghost predicate NodesDecoded(ps: seq<seq<Byte>>, ns: seq<TreeNode>) {
    |ps| == |ns| && forall k :: 0 <= k < |ps| ==> DecodeNode(ps[k]) == Ok(ns[k])
  }

  lemma DirectivesExact(ps: seq<seq<Byte>>, ds: seq<Directive>)
    requires forall b | b in ps :: |b| < TWO63
    ensures DirectivesDecoded(ps, ds) <==> DirectivesSay(ps, ds)
  {
    hide DecodeDirective, DirectiveSays;
    if |ps| == |ds| {
      forall k | 0 <= k < |ps| ensures DecodeDirective(ps[k]) == Ok(ds[k]) <==> DirectiveSays(ps[k], ds[k]) {
        assert ps[k] in ps;
        DirectiveExact(ps[k], ds[k]);
      }
    }
  }

  ghost predicate AllDirectives(ps: seq<seq<Byte>>) {
    forall b | b in ps :: DecodeDirective(b).Ok?
  }

  ghost predicate AllNodes(ps: seq<seq<Byte>>) {
    forall b | b in ps :: DecodeNode(b).Ok?
  }

  ghost predicate NodeDecoded(fs: seq<Field>, m: TreeNode) {
    && m.id == NumberOf(fs, 1) % TWO32 && m.fieldName == BytesOf(fs, 2)
    && ArgsDecoded(Payloads(fs, 3), m.args) && DirectivesDecoded(Payloads(fs, 4), m.directive)
    && NodesDecoded(Payloads(fs, 5), m.children)
  }

  ghost predicate PartsDecode(fs: seq<Field>) {
    AllArgs(Payloads(fs, 3)) && AllDirectives(Payloads(fs, 4)) && AllNodes(Payloads(fs, 5))
  }

  lemma PartsSnoc(up: seq<Field>, f: Field)
    ensures PartsDecode(up + [f]) <==>
            && PartsDecode(up) && (f.num == 3 ==> DecodeArg(Payload(f)).Ok?)
            && (f.num == 4 ==> DecodeDirective(Payload(f)).Ok?) && (f.num == 5 ==> DecodeNode(Payload(f)).Ok?)
  {
    hide DecodeArg, DecodeDirective, DecodeNode, Payloads, Last;
    SnocParts(up, f, 3);
    SnocParts(up, f, 4);
    SnocParts(up, f, 5);
    InSnoc(Payloads(up, 3), Payload(f));
    InSnoc(Payloads(up, 4), Payload(f));
    InSnoc(Payloads(up, 5), Payload(f));
  }

  lemma InSnoc(ps: seq<seq<Byte>>, x: seq<Byte>)
    ensures forall b :: b in ps + [x] <==> b in ps || b == x
  {
  }

  /** One record more. */
  lemma NodeSnoc(up: seq<Field>, f: Field, m: TreeNode)
    requires NodeDecoded(up, m) && OfKind(f, NODE_KINDS)
    ensures PutNode(m, f).Ok? ==> NodeDecoded(up + [f], PutNode(m, f).value)
    ensures PutNode(m, f).Ok? <==>
            && (f.num == 3 ==> DecodeArg(Payload(f)).Ok?)
            && (f.num == 4 ==> DecodeDirective(Payload(f)).Ok?) && (f.num == 5 ==> DecodeNode(Payload(f)).Ok?)
  {
    hide DecodeArg, DecodeDirective, DecodeNode, Payloads, Last;
    SnocParts(up, f, 1);
    SnocParts(up, f, 2);
    SnocParts(up, f, 3);
    SnocParts(up, f, 4);
    SnocParts(up, f, 5);
  }

  lemma {:induction false} FoldNodeFails(m: TreeNode, a: seq<Field>, b: seq<Field>, len: nat)
    requires forall f | f in a + b :: |Payload(f)| < len
    requires forall f | f in a :: f in a + b
    requires FoldNode(m, a, len).Err?
    ensures FoldNode(m, a + b, len).Err?
    decreases |a|
  {
    hide PutNode;
    if a != [] {
      assert (a + b)[0] == a[0] && (a + b)[1..] == a[1..] + b;
      assert forall f | f in a[1..] :: f in a[1..] + b;
      if PutNode(m, a[0]).Ok? { FoldNodeFails(PutNode(m, a[0]).value, a[1..], b, len); }
    }
  }

  lemma {:induction false} FoldNodeIs(fs: seq<Field>, len: nat)
    requires OfKinds(fs, NODE_KINDS) && forall f | f in fs :: |Payload(f)| < len
    ensures var r := FoldNode(EMPTY_NODE, fs, len);
            && (PartsDecode(fs) ==> r.Ok?) && (r.Ok? ==> NodeDecoded(fs, r.value))
    decreases |fs|
  {
    hide PutNode, NodeDecoded, PartsDecode;
    if fs == [] {
      NoFields();
    } else {
      var up, f := fs[..|fs| - 1], fs[|fs| - 1];
      assert fs == up + [f] && f in fs && forall x | x in up :: x in fs;
      FoldNodeIs(up, len);
      PartsSnoc(up, f);
      if FoldNode(EMPTY_NODE, up, len).Ok? {
        FoldNodeAppend(EMPTY_NODE, up, [f], len);
        assert [f][1..] == [];
        NodeSnoc(up, f, FoldNode(EMPTY_NODE, up, len).value);
      } else {
        FoldNodeFails(EMPTY_NODE, up, [f], len);
      }
    }
  }

  lemma NoFields()
    ensures NodeDecoded([], EMPTY_NODE)
  {
  }

  lemma NodeUnique(fs: seq<Field>, a: TreeNode, b: TreeNode)
    requires NodeDecoded(fs, a) && NodeDecoded(fs, b)
    ensures a == b
  {
    hide DecodeArg, DecodeDirective, DecodeNode, Payloads, Last;
    forall k | 0 <= k < |a.args| ensures a.args[k] == b.args[k] { }
    forall k | 0 <= k < |a.directive| ensures a.directive[k] == b.directive[k] { }
    forall k | 0 <= k < |a.children| ensures a.children[k] == b.children[k] { }
  }

  lemma PartsOf(fs: seq<Field>, m: TreeNode)
    requires NodeDecoded(fs, m)
    ensures PartsDecode(fs)
  {
    hide DecodeArg, DecodeDirective, DecodeNode, Payloads, Last;
  }

  /** What the records say, part by part. */
  lemma NodePartsExact(fs: seq<Field>, m: TreeNode, len: nat)
    requires len < TWO63 && forall num, b | b in Payloads(fs, num) :: |b| < len
    requires forall k ::
               0 <= k < |m.children| && k < |Payloads(fs, 5)| ==>
                 (DecodeNode(Payloads(fs, 5)[k]) == Ok(m.children[k]) <==> NodeSays(Payloads(fs, 5)[k], m.children[k]))
    ensures NodeDecoded(fs, m) <==> NodeFrom(fs, m, len)
  {
    ArgsExact(Payloads(fs, 3), m.args);
    DirectivesExact(Payloads(fs, 4), m.directive);
    hide DecodeArg, DecodeDirective, DecodeNode, Payloads, Last, ArgsDecoded, DirectivesDecoded, ArgsSay, DirectivesSay,
      NodeSays;
    assert forall k | 0 <= k < |Payloads(fs, 5)| :: Payloads(fs, 5)[k] in Payloads(fs, 5);
  }

  lemma PayloadsShort(bs: seq<Byte>, fs: seq<Field>)
    requires Records(bs, fs)
    ensures forall num, b | b in Payloads(fs, num) :: |b| < |bs|
  {
    forall num, b | b in Payloads(fs, num) ensures |b| < |bs| { PayloadsInside(bs, fs, num); }
  }

  lemma DecodeNodeParts(bs: seq<Byte>)
    requires |bs| < TWO63
    ensures var fr := Frame(bs, 0, NODE_KINDS);
            && (forall f | f in fr.fields :: |Payload(f)| < |bs|)
            && DecodeNode(bs) == Ended(FoldNode(EMPTY_NODE, fr.fields, |bs|), fr.end)
  {
  }

  /** The parser takes exactly the bytes that say a query subtree, of any depth, as what they say. */
  lemma {:induction false} NodeExact(bs: seq<Byte>, m: TreeNode)
    requires |bs| < TWO63
    ensures DecodeNode(bs) == Ok(m) <==> NodeSays(bs, m)
    decreases |bs|
  {
    FramesWhole(bs, NODE_KINDS);
    DecodeNodeParts(bs);
    var fr := Frame(bs, 0, NODE_KINDS);
    var fs := fr.fields;
    if fr.end == None {
      FoldNodeIs(fs, |bs|);
      PayloadsShort(bs, fs);
      forall k | 0 <= k < |m.children| && k < |Payloads(fs, 5)|
        ensures DecodeNode(Payloads(fs, 5)[k]) == Ok(m.children[k]) <==> NodeSays(Payloads(fs, 5)[k], m.children[k])
      {
        assert Payloads(fs, 5)[k] in Payloads(fs, 5);
        NodeExact(Payloads(fs, 5)[k], m.children[k]);
      }
      NodePartsExact(fs, m, |bs|);
      NodeByFields(bs, m, fs);
    } else {
      SaysWhole(bs, m);
    }
  }

  lemma SaysWhole(bs: seq<Byte>, m: TreeNode)
    ensures NodeSays(bs, m) ==> Whole(bs, NODE_KINDS)
  {
    hide Records, OfKinds, NodeFrom;
  }

  lemma NodeByFields(bs: seq<Byte>, m: TreeNode, fs: seq<Field>)
    requires |bs| < TWO63 && Frame(bs, 0, NODE_KINDS) == Framing(fs, None)
    requires Records(bs, fs) && OfKinds(fs, NODE_KINDS) && forall f | f in fs :: |Payload(f)| < |bs|
    requires DecodeNode(bs) == Ended(FoldNode(EMPTY_NODE, fs, |bs|), None)
    requires var r := FoldNode(EMPTY_NODE, fs, |bs|);
             (PartsDecode(fs) ==> r.Ok?) && (r.Ok? ==> NodeDecoded(fs, r.value))
    requires NodeDecoded(fs, m) <==> NodeFrom(fs, m, |bs|)
    ensures DecodeNode(bs) == Ok(m) <==> NodeSays(bs, m)
  {
    hide Frame, FoldNode, Records, OfKinds, NodeFrom, NodeDecoded, PartsDecode, DecodeNode;
    if NodeSays(bs, m) {
      var gs :| Records(bs, gs) && OfKinds(gs, NODE_KINDS) && NodeFrom(gs, m, |bs|);
      RecordsUnique(bs, fs, gs, NODE_KINDS);
      PartsOf(fs, m);
      NodeUnique(fs, m, FoldNode(EMPTY_NODE, fs, |bs|).value);
    }
  }

  // ----- RGQLPrimitive

  /** A record is as long as its kind says, and a number has 64 bits. */
  ghost predicate Sized(fs: seq<Field>) {
    forall f | f in fs :: (f.FixF? ==> |f.fixed| == 8) && (f.VarF? ==> f.raw < TWO64)
  }

  lemma {:induction false} RecordsSized(bs: seq<Byte>, fs: seq<Field>)
    requires Records(bs, fs)
    ensures Sized(fs)
    decreases |fs|
  {
    hide Tag, Varint, Septets;
    if fs != [] {
      var c: nat :| c <= |bs| && Record(bs[..c], fs[0]) && Records(bs[c..], fs[1..]);
      RecordsSized(bs[c..], fs[1..]);
      forall f | f in fs ensures (f.FixF? ==> |f.fixed| == 8) && (f.VarF? ==> f.raw < TWO64) {
        if f != fs[0] { assert f in fs[1..]; }
      }
    }
  }

  lemma LowBits(raw: nat)
    ensures Low32(S32(raw), raw)
  {
  }

  lemma LowUnique(a: Int32, b: Int32, raw: nat)
    requires Low32(a, raw) && Low32(b, raw)
    ensures a == b
  {
  }

  lemma EightBytes(s: seq<Byte>)
    requires |s| == 8
    ensures Spells(s, FromLE(s))
  {
    assert FromLE(s) == s[0] as int + 256 * FromLE(s[1..]);
    var a := s[1..];
    assert FromLE(a) == a[0] as int + 256 * FromLE(a[1..]);
    var b := a[1..];
    assert FromLE(b) == b[0] as int + 256 * FromLE(b[1..]);
    var c := b[1..];
    assert FromLE(c) == c[0] as int + 256 * FromLE(c[1..]);
    var d := c[1..];
    assert FromLE(d) == d[0] as int + 256 * FromLE(d[1..]);
    var e := d[1..];
    assert FromLE(e) == e[0] as int + 256 * FromLE(e[1..]);
    var f := e[1..];
    assert FromLE(f) == f[0] as int + 256 * FromLE(f[1..]);
    var g := f[1..];
    assert FromLE(g) == g[0] as int + 256 * FromLE(g[1..]);
    assert g[1..] == [];
  }

  /** One record more. */
  lemma PrimitiveSnoc(up: seq<Field>, f: Field, p: Primitive)
    requires PrimitiveFrom(up, p) && OfKind(f, PRIMITIVE_KINDS) && Sized([f])
    ensures PutPrimitive(p, f).Ok? && PrimitiveFrom(up + [f], PutPrimitive(p, f).value)
  {
    hide Payloads, Last, FromLE, Spells, Low32, S32;
    SnocParts(up, f, 1);
    SnocParts(up, f, 2);
    SnocParts(up, f, 3);
    SnocParts(up, f, 4);
    SnocParts(up, f, 5);
    assert f in [f];
    if f.VarF? { LowBits(f.raw); }
    if f.FixF? { EightBytes(f.fixed); }
  }

  lemma {:induction false} FoldPrimitiveIs(fs: seq<Field>)
    requires OfKinds(fs, PRIMITIVE_KINDS) && Sized(fs)
    ensures FoldPrimitive(EMPTY_PRIMITIVE, fs).Ok? && PrimitiveFrom(fs, FoldPrimitive(EMPTY_PRIMITIVE, fs).value)
    decreases |fs|
  {
    hide PutPrimitive, PrimitiveFrom;
    if fs == [] {
      NothingSaid();
    } else {
      var up, f := fs[..|fs| - 1], fs[|fs| - 1];
      assert fs == up + [f] && f in fs && forall x | x in up :: x in fs;
      FoldPrimitiveIs(up);
      FoldPrimitiveAppend(EMPTY_PRIMITIVE, up, [f]);
      assert [f][1..] == [];
      PrimitiveSnoc(up, f, FoldPrimitive(EMPTY_PRIMITIVE, up).value);
    }
  }

  lemma NothingSaid()
    ensures PrimitiveFrom([], EMPTY_PRIMITIVE)
  {
  }

  lemma PrimitiveUnique(fs: seq<Field>, a: Primitive, b: Primitive)
    requires PrimitiveFrom(fs, a) && PrimitiveFrom(fs, b)
    ensures a == b
  {
    LowUnique(a.kind, b.kind, NumberOf(fs, 1));
    LowUnique(a.intValue, b.intValue, NumberOf(fs, 2));
  }

  /** From nothing, merging is parsing: exactly the bytes that say a primitive are taken, as what they
      say. */
  lemma PrimitiveExact(bs: seq<Byte>, p: Primitive)
    requires |bs| < TWO63
    ensures MergePrimitive(EMPTY_PRIMITIVE, bs) == Ok(p) <==> PrimitiveSays(bs, p)
  {
    FramesWhole(bs, PRIMITIVE_KINDS);
    var fr := Frame(bs, 0, PRIMITIVE_KINDS);
    hide Frame, FoldPrimitive, Records, PrimitiveFrom, OfKinds;
    if fr.end == None {
      RecordsSized(bs, fr.fields);
      FoldPrimitiveIs(fr.fields);
    }
    if PrimitiveSays(bs, p) {
      var fs :| Records(bs, fs) && OfKinds(fs, PRIMITIVE_KINDS) && PrimitiveFrom(fs, p);
      assert Whole(bs, PRIMITIVE_KINDS);
      RecordsUnique(bs, fs, fr.fields, PRIMITIVE_KINDS);
      PrimitiveUnique(fs, p, FoldPrimitive(EMPTY_PRIMITIVE, fs).value);
    }
  }

  // ----- RGQLValue

  lemma {:induction false} RecordsAppend(a: seq<Byte>, fa: seq<Field>, b: seq<Byte>, fb: seq<Field>)
    requires Records(a, fa) && Records(b, fb)
    ensures Records(a + b, fa + fb)
    decreases |fa|
  {
    if fa == [] {
      assert a == [] by { hide Record; }
      assert [] + b == b && fa + fb == fb;
    } else {
      var c := FirstRecord(a, fa);
      hide Records, Record;
      RecordsAppend(a[c..], fa[1..], b, fb);
      SlicesAppend(a, b, c);
      FieldsAppend(fa, fb);
      RecordsCons(a + b, fa + fb, c);
    }
  }

  lemma FirstRecord(s: seq<Byte>, fs: seq<Field>) returns (c: nat)
    requires Records(s, fs) && fs != []
    ensures c <= |s| && Record(s[..c], fs[0]) && Records(s[c..], fs[1..])
  {
    hide Record;
    c :| c <= |s| && Record(s[..c], fs[0]) && Records(s[c..], fs[1..]);
  }

  lemma RecordsCons(s: seq<Byte>, fs: seq<Field>, c: nat)
    requires c <= |s| && fs != [] && Record(s[..c], fs[0]) && Records(s[c..], fs[1..])
    ensures Records(s, fs)
  {
    hide Record;
  }

  lemma SlicesAppend(a: seq<Byte>, b: seq<Byte>, c: nat)
    requires c <= |a|
    ensures (a + b)[..c] == a[..c] && (a + b)[c..] == a[c..] + b
  {
  }

  lemma FieldsAppend(a: seq<Field>, b: seq<Field>)
    requires a != []
    ensures (a + b)[0] == a[0] && (a + b)[1..] == a[1..] + b
  {
  }

  /** A primitive merged into what the pieces before it gave. */
  ghost function MergedAll(ps: seq<seq<Byte>>): Result<Option<Primitive>> {
    if ps == [] then Ok(None)
    else
      match MergedAll(ps[..|ps| - 1])
      case Err(e) => Err(e)
      case Ok(p) =>
        match MergePrimitive(if p.Some? then p.value else EMPTY_PRIMITIVE, ps[|ps| - 1])
        case Err(e) => Err(e)
        case Ok(q) => Ok(Some(q))
  }

  ghost predicate AllWhole(ps: seq<seq<Byte>>) {
    forall b | b in ps :: Whole(b, PRIMITIVE_KINDS)
  }

  /** What one piece adds. */
  lemma MergeAdds(a: seq<Byte>, b: seq<Byte>) returns (p: Primitive, q: Primitive)
    requires |a + b| < TWO63 && Whole(a, PRIMITIVE_KINDS) && Whole(b, PRIMITIVE_KINDS)
    ensures Whole(a + b, PRIMITIVE_KINDS)
    ensures MergePrimitive(EMPTY_PRIMITIVE, a) == Ok(p) && MergePrimitive(p, b) == Ok(q)
    ensures MergePrimitive(EMPTY_PRIMITIVE, a + b) == Ok(q)
  {
    var fa :| Records(a, fa) && OfKinds(fa, PRIMITIVE_KINDS);
    var fb :| Records(b, fb) && OfKinds(fb, PRIMITIVE_KINDS);
    RecordsAppend(a, fa, b, fb);
    hide Records;
    assert OfKinds(fa + fb, PRIMITIVE_KINDS);
    FramesAre(a, fa);
    FramesAre(b, fb);
    FramesAre(a + b, fa + fb);
    hide OfKinds, FoldPrimitive, Frame, PrimitiveFrom;
    FoldPrimitiveIs(fa);
    FoldPrimitiveIs(fa + fb);
    FoldPrimitiveAppend(EMPTY_PRIMITIVE, fa, fb);
    p := FoldPrimitive(EMPTY_PRIMITIVE, fa).value;
    q := FoldPrimitive(p, fb).value;
  }

  lemma FramesAre(bs: seq<Byte>, fs: seq<Field>)
    requires |bs| < TWO63 && Records(bs, fs) && OfKinds(fs, PRIMITIVE_KINDS)
    ensures Frame(bs, 0, PRIMITIVE_KINDS) == Framing(fs, None) && Sized(fs)
  {
    assert bs[0..] == bs;
    FrameExact(bs, 0, fs, PRIMITIVE_KINDS);
    RecordsSized(bs, fs);
  }

  lemma JoinedSnoc(ps: seq<seq<Byte>>)
    requires ps != []
    ensures Joined(ps) == Joined(ps[..|ps| - 1]) + ps[|ps| - 1]
  {
  }

  lemma NothingWhole()
    ensures Whole([], PRIMITIVE_KINDS) && MergePrimitive(EMPTY_PRIMITIVE, []) == Ok(EMPTY_PRIMITIVE)
  {
    assert Records([], []) && OfKinds([], PRIMITIVE_KINDS);
  }

  /** Merging the pieces one after the other is parsing them joined. */
  lemma {:induction false} MergedIs(ps: seq<seq<Byte>>)
    requires |Joined(ps)| < TWO63
    ensures MergedAll(ps).Ok? <==> AllWhole(ps)
    ensures AllWhole(ps) ==> Whole(Joined(ps), PRIMITIVE_KINDS)
    ensures AllWhole(ps) ==> MergedAll(ps).value.Some? == (ps != [])
    ensures AllWhole(ps) ==>
        MergePrimitive(EMPTY_PRIMITIVE, Joined(ps)) ==
        Ok(if ps == [] then EMPTY_PRIMITIVE else MergedAll(ps).value.value)
    decreases |ps|
  {
    hide Whole, MergePrimitive;
    if ps == [] {
      NothingWhole();
    } else {
      var up, b := ps[..|ps| - 1], ps[|ps| - 1];
      JoinedSnoc(ps);
      assert ps == up + [b];
      InSnoc(up, b);
      MergedIs(up);
      if AllWhole(up) {
        var p := if up == [] then EMPTY_PRIMITIVE else MergedAll(up).value.value;
        MergeWhole(p, b);
        if Whole(b, PRIMITIVE_KINDS) { var p', q := MergeAdds(Joined(up), b); }
      }
    }
  }

  /** Only whole records are merged. */
  lemma MergeWhole(p: Primitive, b: seq<Byte>)
    requires |b| < TWO63
    ensures MergePrimitive(p, b).Ok? ==> Whole(b, PRIMITIVE_KINDS)
  {
    FramesWhole(b, PRIMITIVE_KINDS);
    hide Frame, FoldPrimitive, Whole;
  }

  lemma MergedExact(ps: seq<seq<Byte>>, v: Option<Primitive>)
    requires |Joined(ps)| < TWO63
    ensures MergedAll(ps) == Ok(v) <==> PiecesSay(ps, v)
  {
    MergedIs(ps);
    hide MergedAll, MergePrimitive, PrimitiveSays, Whole;
    if v.Some? { PrimitiveExact(Joined(ps), v.value); }
  }

  ghost predicate ValueDecoded(fs: seq<Field>, v: RGQLValue) {
    && v.queryNodeId == NumberOf(fs, 1) % TWO32 && v.arrayIndex == NumberOf(fs, 2) % TWO32
    && v.posIdentifier == NumberOf(fs, 3) % TWO32 && v.error == BytesOf(fs, 5)
    && MergedAll(Payloads(fs, 4)) == Ok(v.value)
  }

  lemma MergedSnoc(ps: seq<seq<Byte>>, b: seq<Byte>)
    ensures MergedAll(ps + [b]) ==
      match MergedAll(ps)
      case Err(e) => Err(e)
      case Ok(p) =>
        match MergePrimitive(if p.Some? then p.value else EMPTY_PRIMITIVE, b)
        case Err(e) => Err(e)
        case Ok(q) => Ok(Some(q))
  {
    assert (ps + [b])[..|ps|] == ps;
  }

  lemma ValueSnoc(up: seq<Field>, f: Field, v: RGQLValue)
    requires ValueDecoded(up, v) && OfKind(f, VALUE_KINDS)
    ensures PutValue(v, f).Ok? ==> ValueDecoded(up + [f], PutValue(v, f).value)
    ensures PutValue(v, f).Ok? <==> MergedAll(Payloads(up + [f], 4)).Ok?
  {
    hide Payloads, Last, MergePrimitive, MergedAll;
    SnocParts(up, f, 1);
    SnocParts(up, f, 2);
    SnocParts(up, f, 3);
    SnocParts(up, f, 4);
    SnocParts(up, f, 5);
    MergedSnoc(Payloads(up, 4), Payload(f));
  }

  lemma {:induction false} FoldValueFails(v: RGQLValue, a: seq<Field>, b: seq<Field>)
    requires FoldValue(v, a).Err?
    ensures FoldValue(v, a + b).Err?
    decreases |a|
  {
    hide PutValue;
    if a != [] {
      assert (a + b)[0] == a[0] && (a + b)[1..] == a[1..] + b;
      if PutValue(v, a[0]).Ok? { FoldValueFails(PutValue(v, a[0]).value, a[1..], b); }
    }
  }

  lemma {:induction false} FoldValueIs(fs: seq<Field>)
    requires OfKinds(fs, VALUE_KINDS)
    ensures var r := FoldValue(EMPTY_VALUE, fs);
            && (r.Ok? <==> MergedAll(Payloads(fs, 4)).Ok?) && (r.Ok? ==> ValueDecoded(fs, r.value))
    decreases |fs|
  {
    hide PutValue, ValueDecoded, MergedAll;
    if fs == [] {
      NoValue();
    } else {
      var up, f := fs[..|fs| - 1], fs[|fs| - 1];
      assert fs == up + [f] && f in fs && forall x | x in up :: x in fs;
      FoldValueIs(up);
      if FoldValue(EMPTY_VALUE, up).Ok? {
        FoldValueAppend(EMPTY_VALUE, up, [f]);
        assert [f][1..] == [];
        ValueSnoc(up, f, FoldValue(EMPTY_VALUE, up).value);
      } else {
        FoldValueFails(EMPTY_VALUE, up, [f]);
        SnocParts(up, f, 4);
        MergedSnoc(Payloads(up, 4), Payload(f));
      }
    }
  }

  lemma NoValue()
    ensures ValueDecoded([], EMPTY_VALUE) && MergedAll(Payloads([], 4)).Ok?
  {
  }

  /** The parser takes exactly the bytes that say a frame, as what they say. */
  lemma ValueExact(bs: seq<Byte>, v: RGQLValue)
    requires |bs| < TWO63
    ensures DecodeValue(bs) == Ok(v) <==> ValueSays(bs, v)
  {
    FramesWhole(bs, VALUE_KINDS);
    var fr := Frame(bs, 0, VALUE_KINDS);
    hide Frame, FoldValue, Records, OfKinds, MergedAll, PiecesSay;
    if fr.end == None {
      FoldValueIs(fr.fields);
      PayloadsInside(bs, fr.fields, 4);
      MergedExact(Payloads(fr.fields, 4), v.value);
      var r := FoldValue(EMPTY_VALUE, fr.fields);
      if r.Ok? { MergedExact(Payloads(fr.fields, 4), r.value.value); }
    }
    if ValueSays(bs, v) {
      var fs :| Records(bs, fs) && OfKinds(fs, VALUE_KINDS) && ValueFrom(fs, v);
      assert Whole(bs, VALUE_KINDS);
      RecordsUnique(bs, fs, fr.fields, VALUE_KINDS);
    }
  }

  // ----- what is written says itself

  lemma NodeSaysItself(m: TreeNode)
    requires NodeOk(m) && |EncodeNode(m)| < TWO63
    ensures forall m' :: NodeSays(EncodeNode(m), m') <==> m' == m
  {
    NodeRoundTrip(m);
    hide NodeSays, EncodeNode, DecodeNode, NodeOk;
    forall m' ensures NodeSays(EncodeNode(m), m') <==> m' == m { NodeExact(EncodeNode(m), m'); }
  }

  lemma ValueSaysItself(v: RGQLValue)
    requires ValueOk(v) && |EncodeValue(v)| < TWO63
    ensures forall v' :: ValueSays(EncodeValue(v), v') <==> v' == ValueBack(v)
  {
    ValueRoundTrip(v);
    hide ValueSays, EncodeValue, DecodeValue, ValueOk, ValueBack;
    forall v' ensures ValueSays(EncodeValue(v), v') <==> v' == ValueBack(v) { ValueExact(EncodeValue(v), v'); }
  }

  // ----- cut short

  /** The records of accepted bytes, and those before a cut. */
  lemma CutParts(bs: seq<Byte>, n: nat, kinds: map<int, Kind>) returns (fs: seq<Field>, up: seq<Field>)
    requires n <= |bs| < TWO63 && Frame(bs, 0, kinds).end == None
    ensures Frame(bs, 0, kinds).fields == fs && Frame(bs[..n], 0, kinds).fields == up && up <= fs
    ensures
      if Whole(bs[..n], kinds) then Frame(bs[..n], 0, kinds).end == None
      else Frame(bs[..n], 0, kinds).end == Some(UnexpectedEOF)
    ensures OfKinds(fs, kinds) && OfKinds(up, kinds)
  {
    FramesWhole(bs, kinds);
    FramesWhole(bs[..n], kinds);
    FrameCut(bs, 0, n, kinds);
    fs, up := Frame(bs, 0, kinds).fields, Frame(bs[..n], 0, kinds).fields;
    assert forall f | f in up :: f in fs;
    hide Frame, Whole, Records;
  }

  /** Cut between two records, accepted bytes are accepted; cut anywhere else, in a tag, a length or a
      payload, they end too early. */
  lemma ArgCut(bs: seq<Byte>, n: nat)
    requires n <= |bs| < TWO63 && DecodeArg(bs).Ok?
    ensures if Whole(bs[..n], ARG_KINDS) then DecodeArg(bs[..n]).Ok? else DecodeArg(bs[..n]) == Err(UnexpectedEOF)
  {
    hide Frame, FoldArg, Whole, Records, OfKinds;
    var fs, up := CutParts(bs, n, ARG_KINDS);
    FoldArgIs(up);
  }

  lemma DirectiveCut(bs: seq<Byte>, n: nat)
    requires n <= |bs| < TWO63 && DecodeDirective(bs).Ok?
    ensures if Whole(bs[..n], DIRECTIVE_KINDS) then DecodeDirective(bs[..n]).Ok?
            else DecodeDirective(bs[..n]) == Err(UnexpectedEOF)
  {
    hide Frame, FoldDirective, Whole, Records, OfKinds;
    var fs, up := CutParts(bs, n, DIRECTIVE_KINDS);
    DirectivePrefix(fs, up);
  }

  /** What is accepted is accepted record by record. */
  lemma DirectivePrefix(fs: seq<Field>, up: seq<Field>)
    requires up <= fs && FoldDirective(EMPTY_DIRECTIVE, fs).Ok?
    ensures FoldDirective(EMPTY_DIRECTIVE, up).Ok?
  {
    hide FoldDirective;
    assert up + fs[|up|..] == fs;
    if FoldDirective(EMPTY_DIRECTIVE, up).Err? { FoldDirectiveFails(EMPTY_DIRECTIVE, up, fs[|up|..]); }
  }

  lemma NodeCut(bs: seq<Byte>, n: nat)
    requires n <= |bs| < TWO63 && DecodeNode(bs).Ok?
    ensures if Whole(bs[..n], NODE_KINDS) then DecodeNode(bs[..n]).Ok? else DecodeNode(bs[..n]) == Err(UnexpectedEOF)
  {
    DecodeNodeParts(bs);
    DecodeNodeParts(bs[..n]);
    hide Frame, FoldNode, Whole, Records, OfKinds, DecodeNode;
    var fs, up := CutParts(bs, n, NODE_KINDS);
    NodePrefix(fs, up, |bs|, n);
  }

  lemma NodePrefix(fs: seq<Field>, up: seq<Field>, len: nat, n: nat)
    requires up <= fs && (forall f | f in fs :: |Payload(f)| < len) && (forall f | f in up :: |Payload(f)| < n)
    requires FoldNode(EMPTY_NODE, fs, len).Ok?
    ensures FoldNode(EMPTY_NODE, up, n).Ok?
  {
    hide FoldNode, Payload;
    assert up + fs[|up|..] == fs && forall f | f in up :: f in fs;
    FoldNodeLen(EMPTY_NODE, up, n, len);
    if FoldNode(EMPTY_NODE, up, len).Err? { FoldNodeFails(EMPTY_NODE, up, fs[|up|..], len); }
  }

  lemma PrimitiveCut(bs: seq<Byte>, n: nat, p: Primitive)
    requires n <= |bs| < TWO63 && MergePrimitive(p, bs).Ok?
    ensures if Whole(bs[..n], PRIMITIVE_KINDS) then MergePrimitive(p, bs[..n]).Ok?
            else MergePrimitive(p, bs[..n]) == Err(UnexpectedEOF)
  {
    hide Frame, FoldPrimitive, Whole, Records, OfKinds;
    var fs, up := CutParts(bs, n, PRIMITIVE_KINDS);
    PrimitivePrefix(p, fs, up);
  }

  lemma PrimitivePrefix(p: Primitive, fs: seq<Field>, up: seq<Field>)
    requires up <= fs && FoldPrimitive(p, fs).Ok?
    ensures FoldPrimitive(p, up).Ok?
  {
    hide FoldPrimitive;
    assert up + fs[|up|..] == fs;
    if FoldPrimitive(p, up).Err? { FoldPrimitiveFails(p, up, fs[|up|..]); }
  }

  lemma {:induction false} FoldPrimitiveFails(p: Primitive, a: seq<Field>, b: seq<Field>)
    requires FoldPrimitive(p, a).Err?
    ensures FoldPrimitive(p, a + b).Err?
    decreases |a|
  {
    hide PutPrimitive;
    if a != [] {
      assert (a + b)[0] == a[0] && (a + b)[1..] == a[1..] + b;
      if PutPrimitive(p, a[0]).Ok? { FoldPrimitiveFails(PutPrimitive(p, a[0]).value, a[1..], b); }
    }
  }

  lemma ValueCut(bs: seq<Byte>, n: nat)
    requires n <= |bs| < TWO63 && DecodeValue(bs).Ok?
    ensures
      if Whole(bs[..n], VALUE_KINDS) then DecodeValue(bs[..n]).Ok? else DecodeValue(bs[..n]) == Err(UnexpectedEOF)
  {
    hide Frame, FoldValue, Whole, Records, OfKinds;
    var fs, up := CutParts(bs, n, VALUE_KINDS);
    ValuePrefix(fs, up);
  }

  lemma ValuePrefix(fs: seq<Field>, up: seq<Field>)
    requires up <= fs && FoldValue(EMPTY_VALUE, fs).Ok?
    ensures FoldValue(EMPTY_VALUE, up).Ok?
  {
    hide FoldValue;
    assert up + fs[|up|..] == fs;
    if FoldValue(EMPTY_VALUE, up).Err? { FoldValueFails(EMPTY_VALUE, up, fs[|up|..]); }
  }

  // ----- what is written

  /** A record that is left out when there is nothing to say. */
  ghost function Numbered(tag: Byte, n: nat): seq<Byte> {
    if n == 0 then [] else [tag] + VarintOf(n)
  }

  ghost function Lengthed(tag: Byte, b: seq<Byte>): seq<Byte> {
    [tag] + VarintOf(|b|) + b
  }

  ghost function Text(tag: Byte, b: seq<Byte>): seq<Byte> {
    if b == [] then [] else Lengthed(tag, b)
  }

  ghost function Blocks(tag: Byte, bs: seq<seq<Byte>>): seq<Byte> {
    if bs == [] then [] else Lengthed(tag, bs[0]) + Blocks(tag, bs[1..])
  }

  lemma TextIs(num: nat, b: seq<Byte>)
    requires num < 16
    ensures Encode(BytesField(num, b)) == Text(num * 8 + 2, b)
  {
    if b != [] { LenRecord(num, b, []); }
  }

  lemma EncodeCons(f: Field, rest: seq<Field>)
    ensures Encode([f] + rest) == EncodeField(f) + Encode(rest)
  {
    hide EncodeField;
    assert ([f] + rest)[1..] == rest;
  }

  lemma LenRecord(num: nat, b: seq<Byte>, rest: seq<Field>)
    requires num < 16
    ensures Encode([LenF(num, b)] + rest) == Lengthed(num * 8 + 2, b) + Encode(rest)
  {
    FieldBytes(LenF(num, b));
    assert [num * 8 + 2] + (VarintOf(|b|) + b) == [num * 8 + 2] + VarintOf(|b|) + b;
    hide EncodeField, VarintOf;
    EncodeCons(LenF(num, b), rest);
  }

  lemma NumberedIs(num: nat, v: nat)
    requires num < 16
    ensures Encode(VarField(num, v)) == Numbered(num * 8, v)
  {
    if v != 0 {
      FieldBytes(VarF(num, v));
      assert [VarF(num, v)][1..] == [];
      assert Numbered(num * 8, v) + [] == Numbered(num * 8, v);
    }
  }

  lemma {:induction false} BlocksIs(num: nat, bs: seq<seq<Byte>>)
    requires num < 16
    ensures Encode(Each(num, bs)) == Blocks(num * 8 + 2, bs)
    decreases |bs|
  {
    hide Lengthed;
    if bs != [] {
      EachHead(num, bs);
      assert Each(num, bs) == [LenF(num, bs[0])] + Each(num, bs[1..]);
      LenRecord(num, bs[0], Each(num, bs[1..]));
      BlocksIs(num, bs[1..]);
    }
  }

  lemma {:induction false} EncodeJoin(a: seq<Field>, b: seq<Field>)
    ensures Encode(a + b) == Encode(a) + Encode(b)
    decreases |a|
  {
    hide EncodeField;
    if a == [] {
      assert a + b == b;
    } else {
      assert (a + b)[0] == a[0] && (a + b)[1..] == a[1..] + b;
      EncodeJoin(a[1..], b);
      assert EncodeField(a[0]) + (Encode(a[1..]) + Encode(b)) == (EncodeField(a[0]) + Encode(a[1..])) + Encode(b);
    }
  }

  /** What a query subtree looks like on the wire: its fields in order, with the tags of the generated
      code, and none that holds its default. */
  lemma NodeLayout(m: TreeNode)
    ensures EncodeNode(m) ==
            Numbered(0x08, m.id) + Text(0x12, m.fieldName) + Blocks(0x1a, ArgsBytes(m.args))
            + Blocks(0x22, DirectivesBytes(m.directive)) + Blocks(0x2a, ChildrenBytes(m.children))
  {
    NodeFieldsAre(m);
    var a, b, c := VarField(1, m.id), BytesField(2, m.fieldName), Each(3, ArgsBytes(m.args));
    var d, e := Each(4, DirectivesBytes(m.directive)), Each(5, ChildrenBytes(m.children));
    NumberedIs(1, m.id);
    TextIs(2, m.fieldName);
    BlocksIs(3, ArgsBytes(m.args));
    BlocksIs(4, DirectivesBytes(m.directive));
    BlocksIs(5, ChildrenBytes(m.children));
    hide Encode, Numbered, Text, Blocks, Each, VarField, BytesField, NodeFields, EncodeNode;
    EncodeJoin(a, b);
    EncodeJoin(a + b, c);
    EncodeJoin(a + b + c, d);
    EncodeJoin(a + b + c + d, e);
  }

  lemma DirectiveLayout(m: Directive)
    ensures EncodeDirective(m) == Text(0x0a, m.name) + Blocks(0x12, ArgsBytes(m.args))
  {
    TextIs(1, m.name);
    BlocksIs(2, ArgsBytes(m.args));
    EncodeJoin(BytesField(1, m.name), Each(2, ArgsBytes(m.args)));
  }

  lemma ArgLayout(m: FieldArgument)
    ensures EncodeArg(m) == Text(0x0a, m.name) + Numbered(0x10, m.variableId)
  {
    TextIs(1, m.name);
    NumberedIs(2, m.variableId);
    EncodeJoin(BytesField(1, m.name), VarField(2, m.variableId));
  }

  /** The eight bytes of a float, which is left out when it compares equal to zero. */
  ghost function Float(tag: Byte, bits: nat): seq<Byte> {
    if bits == 0 || bits == 0x8000_0000_0000_0000 then [] else [tag] + LE(bits, 8)
  }

  lemma FloatIs(num: nat, bits: nat)
    requires num < 16
    ensures Encode(FloatField(num, bits)) == Float(num * 8 + 1, bits)
  {
    if bits != 0 && bits != TWO63 {
      FieldBytes(FixF(num, LE(bits, 8)));
      assert [FixF(num, LE(bits, 8))][1..] == [];
      assert Float(num * 8 + 1, bits) + [] == Float(num * 8 + 1, bits);
    }
  }

  /** A negative int32 is sent with its sign in all 64 bits. */
  ghost function Wide(v: Int32): nat {
    if v < 0 then v + 0x1_0000_0000_0000_0000 else v
  }

  lemma WideIs(p: Primitive)
    ensures
      PrimitiveFields(p) ==
        VarField(1, Wide(p.kind)) + VarField(2, Wide(p.intValue)) + FloatField(3, p.floatBits)
        + BytesField(4, p.stringValue) + VarField(5, if p.boolValue then 1 else 0)
    ensures EncodePrimitive(p) == Encode(PrimitiveFields(p))
  {
    assert SignExtended(p.kind) == Wide(p.kind) && SignExtended(p.intValue) == Wide(p.intValue);
    hide VarField, FloatField, BytesField, Encode;
  }

  lemma PrimitiveLayout(p: Primitive)
    ensures EncodePrimitive(p) ==
            Numbered(0x08, Wide(p.kind)) + Numbered(0x10, Wide(p.intValue)) + Float(0x19, p.floatBits)
            + Text(0x22, p.stringValue) + Numbered(0x28, if p.boolValue then 1 else 0)
  {
    var a, b, c := VarField(1, Wide(p.kind)), VarField(2, Wide(p.intValue)), FloatField(3, p.floatBits);
    var d, e := BytesField(4, p.stringValue), VarField(5, if p.boolValue then 1 else 0);
    NumberedIs(1, Wide(p.kind));
    NumberedIs(2, Wide(p.intValue));
    FloatIs(3, p.floatBits);
    TextIs(4, p.stringValue);
    NumberedIs(5, if p.boolValue then 1 else 0);
    WideIs(p);
    hide Encode, Numbered, Text, Float, VarField, BytesField, FloatField, PrimitiveFields, Wide;
    EncodeJoin(a, b);
    EncodeJoin(a + b, c);
    EncodeJoin(a + b + c, d);
    EncodeJoin(a + b + c + d, e);
  }

  lemma ValueLayout(v: RGQLValue)
    ensures EncodeValue(v) ==
            Numbered(0x08, v.queryNodeId) + Numbered(0x10, v.arrayIndex) + Numbered(0x18, v.posIdentifier)
            + (if v.value.Some? then Lengthed(0x22, EncodePrimitive(v.value.value)) else []) + Text(0x2a, v.error)
  {
    var a, b, c := VarField(1, v.queryNodeId), VarField(2, v.arrayIndex), VarField(3, v.posIdentifier);
    var d := if v.value.Some? then [LenF(4, EncodePrimitive(v.value.value))] else [];
    var e := BytesField(5, v.error);
    NumberedIs(1, v.queryNodeId);
    NumberedIs(2, v.arrayIndex);
    NumberedIs(3, v.posIdentifier);
    TextIs(5, v.error);
    if v.value.Some? {
      var bytes := EncodePrimitive(v.value.value);
      LenRecord(4, bytes, []);
      assert [LenF(4, bytes)] + [] == [LenF(4, bytes)];
      assert Lengthed(0x22, bytes) + Encode([]) == Lengthed(0x22, bytes);
    }
    assert Encode(d) == if v.value.Some? then Lengthed(0x22, EncodePrimitive(v.value.value)) else [];
    assert ValueFields(v) == a + b + c + d + e;
    hide Encode, Numbered, Text, Lengthed, VarField, BytesField, ValueFields, EncodePrimitive;
    EncodeJoin(a, b);
    EncodeJoin(a + b, c);
    EncodeJoin(a + b + c, d);
    EncodeJoin(a + b + c + d, e);
  }
}
