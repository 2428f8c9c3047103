/** The generated parser, in place: UnmarshalVT of rgraphql.pb.go. The first half of every round of
    its loops, which the generator repeats for each message, is NextField here. */
module WireReader {
  import opened Messages
  import opened WireSpec
  import opened WireProofs
  import opened WireRecords
  import opened WireMessages

  // ----- varints

  /** The value of a varint of which the first bytes are already in `acc`. */
  ghost function Resume(r: VarRead, acc: nat, place: nat): VarRead {
    match r
    case Bad(e) => Bad(e)
    case Got(raw, next) => Got(acc + place * raw, next)
  }

  lemma ModAdd(a: nat, b: nat)
    ensures (a % TWO64 + b) % TWO64 == (a + b) % TWO64
  {
  }

  lemma NextByte(bs: seq<Byte>, i: nat, k: nat, acc: nat)
    requires i < |bs| && k < 10
    ensures var b, p := bs[i], Power128(k);
            Resume(ReadVar(bs, i, k), acc, p) ==
            if b < 128 then Got(acc + b % 128 * p, i + 1)
            else Resume(ReadVar(bs, i + 1, k + 1), acc + b % 128 * p, Power128(k + 1))
  {
    var b, p := bs[i], Power128(k);
    if b >= 128 {
      match ReadVar(bs, i + 1, k + 1)
      case Bad(_) =>
      case Got(raw, _) => Distribute(p, b - 128, raw);
    } else {
      Distribute(p, b, 0);
    }
  }

  lemma Distribute(p: nat, b: nat, raw: nat)
    ensures p * (b + 128 * raw) == b * p + (128 * p) * raw && p * b == b * p
  {
  }

  /** The reader loop: seven bits a byte, into 64 bits. */
  method ReadVarint(dAtA: seq<Byte>, from: nat) returns (r: VarRead)
    requires from <= |dAtA|
    ensures r == match ReadVar(dAtA, from, 0) case Bad(e) => Bad(e) case Got(raw, next) => Got(raw % TWO64, next)
  {
    hide ReadVar, Power128, Resume;
    var iNdEx, k, v := from, 0, 0;
    ghost var acc: nat := 0;
    ResumeNone(ReadVar(dAtA, from, 0));
    while true
      invariant from <= iNdEx <= |dAtA| && k <= 10 && v == acc % TWO64
      invariant ReadVar(dAtA, from, 0) == Resume(ReadVar(dAtA, iNdEx, k), acc, Power128(k))
      decreases |dAtA| - iNdEx
    {
      ReadStops(dAtA, iNdEx, k, acc);
      if 7 * k >= 64 {
        return Bad(IntOverflow);
      }
      if iNdEx >= |dAtA| {
        return Bad(UnexpectedEOF);
      }
      var b := dAtA[iNdEx];
      NextByte(dAtA, iNdEx, k, acc);
      ModAdd(acc, b % 128 * Power128(k));
      iNdEx := iNdEx + 1;
      v := (v + b % 128 * Power128(k)) % TWO64;
      acc := acc + b % 128 * Power128(k);
      if b < 0x80 {
        return Got(v, iNdEx);
      }
      k := k + 1;
    }
  }

  lemma ResumeNone(r: VarRead)
    ensures Resume(r, 0, Power128(0)) == r
  {
  }

  lemma ReadStops(bs: seq<Byte>, i: nat, k: nat, acc: nat)
    requires i <= |bs| && k <= 10
    ensures 7 * k >= 64 <==> k == 10
    ensures k == 10 ==> Resume(ReadVar(bs, i, k), acc, Power128(k)) == Bad(IntOverflow)
    ensures k < 10 && i == |bs| ==> Resume(ReadVar(bs, i, k), acc, Power128(k)) == Bad(UnexpectedEOF)
  {
  }

  // ----- one record

  lemma ReadIsRecord(dAtA: seq<Byte>, from: nat, kinds: map<int, Kind>)
    requires from < |dAtA|
    ensures var r := ReadField(dAtA, from, kinds);
            r.GotField? && |dAtA| < TWO63 ==> Record(dAtA[from..r.next], r.field) && OfKind(r.field, kinds)
  {
    hide ReadField, Record, OfKind;
    if ReadField(dAtA, from, kinds).GotField? && |dAtA| < TWO63 { FieldIsRecord(dAtA, from, kinds); }
  }

  /** One round of the loops: the tag, the checks on it, and the payload. */
  method NextField(dAtA: seq<Byte>, from: nat, kinds: map<int, Kind>) returns (r: FieldRead)
    requires from < |dAtA|
    ensures r == ReadField(dAtA, from, kinds)
    ensures r.GotField? && |dAtA| < TWO63 ==> Record(dAtA[from..r.next], r.field) && OfKind(r.field, kinds)
  {
    ReadIsRecord(dAtA, from, kinds);
    hide Record, OfKind, ReadVar, ReadPayload, S32;
    var tag := ReadVarint(dAtA, from);
    if tag.Bad? { return NoField(tag.error); }
    var wire, iNdEx := tag.raw, tag.next;
    var fieldNum, wireType := S32(wire / 8), wire % 8;
    if wireType == 4 { return NoField(EndGroup); }
    if fieldNum <= 0 { return NoField(IllegalTag); }
    if fieldNum !in kinds { return NoField(UnknownField); }
    r := NextPayload(dAtA, iNdEx, fieldNum, wireType, kinds[fieldNum]);
  }

  /** What follows a tag, in the form its field has. */
  method NextPayload(dAtA: seq<Byte>, from: nat, fieldNum: nat, wireType: nat, kind: Kind) returns (r: FieldRead)
    requires 0 < from <= |dAtA|
    ensures r == ReadPayload(dAtA, from, fieldNum, wireType, kind)
  {
    hide ReadVar;
    match kind {
      case VarintKind =>
        if wireType != 0 { return NoField(WrongWireType); }
        var v := ReadVarint(dAtA, from);
        if v.Bad? { return NoField(v.error); }
        return GotField(VarF(fieldNum, v.raw), v.next);
      case Fixed64Kind =>
        if wireType != 1 { return NoField(WrongWireType); }
        if from + 8 > |dAtA| { return NoField(UnexpectedEOF); }
        return GotField(FixF(fieldNum, dAtA[from..from + 8]), from + 8);
      case BytesKind =>
        if wireType != 2 { return NoField(WrongWireType); }
        var len := ReadVarint(dAtA, from);
        if len.Bad? { return NoField(len.error); }
        if len.raw >= TWO63 { return NoField(InvalidLength); }
        var postIndex := len.next + len.raw;
        if postIndex >= TWO63 { return NoField(InvalidLength); }
        if postIndex > |dAtA| { return NoField(UnexpectedEOF); }
        return GotField(LenF(fieldNum, dAtA[len.next..postIndex]), postIndex);
    }
  }

  /** The records read so far, and those still to come. */
  ghost predicate Sofar(dAtA: seq<Byte>, kinds: map<int, Kind>, done: seq<Field>, i: int) {
    0 <= i <= |dAtA|
    && Frame(dAtA, 0, kinds) == Framing(done + Frame(dAtA, i, kinds).fields, Frame(dAtA, i, kinds).end)
  }

  lemma SofarStarts(dAtA: seq<Byte>, kinds: map<int, Kind>)
    ensures Sofar(dAtA, kinds, [], 0)
  {
  }

  /** One record further, or the end. */
  lemma SofarNext(dAtA: seq<Byte>, kinds: map<int, Kind>, done: seq<Field>, i: nat)
    requires Sofar(dAtA, kinds, done, i) && i < |dAtA|
    ensures var r := ReadField(dAtA, i, kinds);
            && (r.NoField? ==> Frame(dAtA, 0, kinds) == Framing(done, Some(r.error)))
            && (r.GotField? ==>
                  && Sofar(dAtA, kinds, done + [r.field], r.next)
                  && Frame(dAtA, 0, kinds).fields == done + ([r.field] + Frame(dAtA, r.next, kinds).fields))
  {
    match ReadField(dAtA, i, kinds)
    case NoField(e) => assert done + [] == done;
    case GotField(f, next) =>
      assert done + ([f] + Frame(dAtA, next, kinds).fields) == (done + [f]) + Frame(dAtA, next, kinds).fields;
  }

  lemma SofarEnds(dAtA: seq<Byte>, kinds: map<int, Kind>, done: seq<Field>)
    requires Sofar(dAtA, kinds, done, |dAtA|)
    ensures Frame(dAtA, 0, kinds) == Framing(done, None)
  {
    assert done + [] == done;
  }

  // ----- FieldArgument

  lemma ArgNext(m: FieldArgument, done: seq<Field>, f: Field, rest: seq<Field>)
    requires FoldArg(EMPTY_ARG, done) == Ok(m)
    ensures FoldArg(EMPTY_ARG, done + [f]) == PutArg(m, f)
    ensures PutArg(m, f).Err? ==> FoldArg(EMPTY_ARG, done + ([f] + rest)) == Err(PutArg(m, f).error)
  {
    FoldArgAppend(EMPTY_ARG, done, [f]);
    FoldArgAppend(EMPTY_ARG, done, [f] + rest);
    assert [f][1..] == [];
  }

  lemma ArgMeaning(dAtA: seq<Byte>)
    ensures |dAtA| < TWO63 ==> forall m :: DecodeArg(dAtA) == Ok(m) <==> ArgSays(dAtA, m)
  {
    hide *;
    if |dAtA| < TWO63 {
      forall m ensures DecodeArg(dAtA) == Ok(m) <==> ArgSays(dAtA, m) { ArgExact(dAtA, m); }
    }
  }

  lemma DecodeArgMeans(dAtA: seq<Byte>)
    ensures var fr := Frame(dAtA, 0, ARG_KINDS);
            && (fr.end == None ==> DecodeArg(dAtA) == FoldArg(EMPTY_ARG, fr.fields))
            && (FoldArg(EMPTY_ARG, fr.fields).Err? ==> DecodeArg(dAtA) == FoldArg(EMPTY_ARG, fr.fields))
            && (FoldArg(EMPTY_ARG, fr.fields).Ok? && fr.end.Some? ==> DecodeArg(dAtA) == Err(fr.end.value))
  {
  }

  method UnmarshalArg(dAtA: seq<Byte>) returns (r: Result<FieldArgument>)
    ensures r == DecodeArg(dAtA)
    ensures |dAtA| < TWO63 ==> forall m :: r == Ok(m) <==> ArgSays(dAtA, m)
  {
    hide *;
    ArgMeaning(dAtA);
    DecodeArgMeans(dAtA);
    SofarStarts(dAtA, ARG_KINDS);
    ArgStarts();
    var m, iNdEx := EMPTY_ARG, 0;
    ghost var done := [];
    while iNdEx < |dAtA|
      invariant 0 <= iNdEx <= |dAtA| && Sofar(dAtA, ARG_KINDS, done, iNdEx) && FoldArg(EMPTY_ARG, done) == Ok(m)
      decreases |dAtA| - iNdEx
    {
      SofarNext(dAtA, ARG_KINDS, done, iNdEx);
      var next := NextField(dAtA, iNdEx, ARG_KINDS);
      if next.NoField? { return Err(next.error); }
      ArgNext(m, done, next.field, Frame(dAtA, next.next, ARG_KINDS).fields);
      PutArgIs(m, next.field);
      match next.field {
        case LenF(1, b) => m := m.(name := b);
        case VarF(2, v) => m := m.(variableId := U32(v));
        case _ => return Err(UnknownField);
      }
      done := done + [next.field];
      iNdEx := next.next;
    }
    SofarEnds(dAtA, ARG_KINDS, done);
    r := Ok(m);
  }

  lemma ArgStarts()
    ensures FoldArg(EMPTY_ARG, []) == Ok(EMPTY_ARG)
  {
  }

  lemma PutArgIs(m: FieldArgument, f: Field)
    ensures PutArg(m, f) ==
      match f
      case LenF(1, b) => Ok(m.(name := b))
      case VarF(2, v) => Ok(m.(variableId := U32(v)))
      case _ => Err(UnknownField)
  {
  }

  // ----- RGQLQueryFieldDirective

  lemma DirectiveNext(m: Directive, done: seq<Field>, f: Field, rest: seq<Field>)
    requires FoldDirective(EMPTY_DIRECTIVE, done) == Ok(m)
    ensures FoldDirective(EMPTY_DIRECTIVE, done + [f]) == PutDirective(m, f)
    ensures
      PutDirective(m, f).Err? ==> FoldDirective(EMPTY_DIRECTIVE, done + ([f] + rest)) == Err(PutDirective(m, f).error)
  {
    hide PutDirective;
    FoldDirectiveAppend(EMPTY_DIRECTIVE, done, [f]);
    FoldDirectiveAppend(EMPTY_DIRECTIVE, done, [f] + rest);
    assert [f][1..] == [];
  }

  lemma DirectiveMeaning(dAtA: seq<Byte>)
    ensures |dAtA| < TWO63 ==> forall m :: DecodeDirective(dAtA) == Ok(m) <==> DirectiveSays(dAtA, m)
  {
    hide *;
    if |dAtA| < TWO63 {
      forall m ensures DecodeDirective(dAtA) == Ok(m) <==> DirectiveSays(dAtA, m) { DirectiveExact(dAtA, m); }
    }
  }

  lemma DecodeDirectiveMeans(dAtA: seq<Byte>)
    ensures var fr := Frame(dAtA, 0, DIRECTIVE_KINDS);
            && (fr.end == None ==> DecodeDirective(dAtA) == FoldDirective(EMPTY_DIRECTIVE, fr.fields))
            && (FoldDirective(EMPTY_DIRECTIVE, fr.fields).Err? ==>
                  DecodeDirective(dAtA) == FoldDirective(EMPTY_DIRECTIVE, fr.fields))
            && (FoldDirective(EMPTY_DIRECTIVE, fr.fields).Ok? && fr.end.Some? ==>
                  DecodeDirective(dAtA) == Err(fr.end.value))
    ensures FoldDirective(EMPTY_DIRECTIVE, []) == Ok(EMPTY_DIRECTIVE)
  {
  }

  lemma PutDirectiveIs(m: Directive, f: Field)
    ensures PutDirective(m, f) ==
      match f
      case LenF(1, b) => Ok(m.(name := b))
      case LenF(2, b) => if DecodeArg(b).Ok? then Ok(m.(args := m.args
        + [DecodeArg(b).value])) else Err(DecodeArg(b).error)
      case _ => Err(UnknownField)
  {
    hide DecodeArg;
  }

  method UnmarshalDirective(dAtA: seq<Byte>) returns (r: Result<Directive>)
    ensures r == DecodeDirective(dAtA)
    ensures |dAtA| < TWO63 ==> forall m :: r == Ok(m) <==> DirectiveSays(dAtA, m)
  {
    hide *;
    DirectiveMeaning(dAtA);
    DecodeDirectiveMeans(dAtA);
    SofarStarts(dAtA, DIRECTIVE_KINDS);
    var m, iNdEx := EMPTY_DIRECTIVE, 0;
    ghost var done := [];
    while iNdEx < |dAtA|
      invariant 0 <= iNdEx <= |dAtA| && Sofar(dAtA, DIRECTIVE_KINDS, done, iNdEx)
      invariant FoldDirective(EMPTY_DIRECTIVE, done) == Ok(m)
      decreases |dAtA| - iNdEx
    {
      SofarNext(dAtA, DIRECTIVE_KINDS, done, iNdEx);
      var next := NextField(dAtA, iNdEx, DIRECTIVE_KINDS);
      if next.NoField? { return Err(next.error); }
      DirectiveNext(m, done, next.field, Frame(dAtA, next.next, DIRECTIVE_KINDS).fields);
      PutDirectiveIs(m, next.field);
      match next.field {
        case LenF(1, b) => m := m.(name := b);
        case LenF(2, b) =>
          var a := UnmarshalArg(b);
          if a.Err? { return Err(a.error); }
          m := m.(args := m.args + [a.value]);
        case _ => return Err(UnknownField);
      }
      done := done + [next.field];
      iNdEx := next.next;
    }
    SofarEnds(dAtA, DIRECTIVE_KINDS, done);
    r := Ok(m);
  }

  // ----- RGQLQueryTreeNode

  /** Folding the fields of a node; how long nested messages may be does not matter. */
  ghost function FoldFields(m: TreeNode, fs: seq<Field>): Result<TreeNode> {
    FoldNode(m, fs, Longest(fs))
  }

  ghost function Longest(fs: seq<Field>): (n: nat)
    ensures forall f | f in fs :: |Payload(f)| < n
  {
    if fs == [] then 0
    else
      var n := Longest(fs[1..]);
      if |Payload(fs[0])| < n then n else |Payload(fs[0])| + 1
  }

  lemma NodeNext(m: TreeNode, done: seq<Field>, f: Field, rest: seq<Field>)
    requires FoldFields(EMPTY_NODE, done) == Ok(m)
    ensures FoldFields(EMPTY_NODE, done + [f]) == PutNode(m, f)
    ensures PutNode(m, f).Err? ==> FoldFields(EMPTY_NODE, done + ([f] + rest)) == Err(PutNode(m, f).error)
  {
    hide PutNode;
    NodeNextLen(m, done, f, [], Longest(done + [f]));
    NodeNextLen(m, done, f, rest, Longest(done + ([f] + rest)));
    assert [f] + [] == [f];
  }

  lemma NodeNextLen(m: TreeNode, done: seq<Field>, f: Field, rest: seq<Field>, len: nat)
    requires FoldFields(EMPTY_NODE, done) == Ok(m) && forall x | x in done + ([f] + rest) :: |Payload(x)| < len
    ensures PutNode(m, f).Err? ==> FoldNode(EMPTY_NODE, done + ([f] + rest), len) == Err(PutNode(m, f).error)
    ensures rest == [] ==> FoldNode(EMPTY_NODE, done + ([f] + rest), len) == PutNode(m, f)
  {
    hide PutNode;
    assert forall x | x in done :: x in done + ([f] + rest);
    FoldNodeLen(EMPTY_NODE, done, Longest(done), len);
    FoldNodeAppend(EMPTY_NODE, done, [f] + rest, len);
    assert ([f] + rest)[1..] == rest;
  }

  lemma NodeMeaning(dAtA: seq<Byte>)
    ensures |dAtA| < TWO63 ==> forall m :: DecodeNode(dAtA) == Ok(m) <==> NodeSays(dAtA, m)
  {
    hide *;
    if |dAtA| < TWO63 {
      forall m ensures DecodeNode(dAtA) == Ok(m) <==> NodeSays(dAtA, m) { NodeExact(dAtA, m); }
    }
  }

  lemma DecodeNodeMeans(dAtA: seq<Byte>)
    ensures var fr := Frame(dAtA, 0, NODE_KINDS);
            && (fr.end == None ==> DecodeNode(dAtA) == FoldFields(EMPTY_NODE, fr.fields))
            && (FoldFields(EMPTY_NODE, fr.fields).Err? ==> DecodeNode(dAtA) == FoldFields(EMPTY_NODE, fr.fields))
            && (FoldFields(EMPTY_NODE, fr.fields).Ok? && fr.end.Some? ==> DecodeNode(dAtA) == Err(fr.end.value))
    ensures FoldFields(EMPTY_NODE, []) == Ok(EMPTY_NODE)
  {
    var fr := Frame(dAtA, 0, NODE_KINDS);
    FoldNodeLen(EMPTY_NODE, fr.fields, |dAtA|, Longest(fr.fields));
  }

  lemma PutNodeIs(m: TreeNode, f: Field)
    ensures PutNode(m, f) ==
      match f
      case VarF(1, v) => Ok(m.(id := U32(v)))
      case LenF(2, b) => Ok(m.(fieldName := b))
      case LenF(3, b) => if DecodeArg(b).Ok? then Ok(m.(args := m.args
        + [DecodeArg(b).value])) else Err(DecodeArg(b).error)
      case LenF(4, b) => if DecodeDirective(b).Ok? then Ok(m.(directive := m.directive
        + [DecodeDirective(b).value])) else Err(DecodeDirective(b).error)
      case LenF(5, b) => if DecodeNode(b).Ok? then Ok(m.(children := m.children
        + [DecodeNode(b).value])) else Err(DecodeNode(b).error)
      case _ => Err(UnknownField)
  {
    hide DecodeArg, DecodeDirective, DecodeNode;
  }

  lemma FieldShorter(dAtA: seq<Byte>, i: nat, kinds: map<int, Kind>)
    requires i < |dAtA|
    ensures ReadField(dAtA, i, kinds).GotField? ==> |Payload(ReadField(dAtA, i, kinds).field)| < |dAtA|
  {
  }

  lemma PayloadIs(f: Field)
    ensures f.LenF? ==> Payload(f) == f.bytes
  {
  }

  /** UnmarshalVT of a whole subtree: every recursion is on a strictly shorter slice. */
  method UnmarshalNode(dAtA: seq<Byte>) returns (r: Result<TreeNode>)
    ensures r == DecodeNode(dAtA)
    ensures |dAtA| < TWO63 ==> forall m :: r == Ok(m) <==> NodeSays(dAtA, m)
    decreases |dAtA|
  {
    hide *;
    NodeMeaning(dAtA);
    DecodeNodeMeans(dAtA);
    SofarStarts(dAtA, NODE_KINDS);
    var m, iNdEx := EMPTY_NODE, 0;
    ghost var done := [];
    while iNdEx < |dAtA|
      invariant 0 <= iNdEx <= |dAtA| && Sofar(dAtA, NODE_KINDS, done, iNdEx) && FoldFields(EMPTY_NODE, done) == Ok(m)
      decreases |dAtA| - iNdEx
    {
      SofarNext(dAtA, NODE_KINDS, done, iNdEx);
      FieldShorter(dAtA, iNdEx, NODE_KINDS);
      var next := NextField(dAtA, iNdEx, NODE_KINDS);
      if next.NoField? { return Err(next.error); }
      NodeNext(m, done, next.field, Frame(dAtA, next.next, NODE_KINDS).fields);
      PutNodeIs(m, next.field);
      PayloadIs(next.field);
      match next.field {
        case VarF(1, v) => m := m.(id := U32(v));
        case LenF(2, b) => m := m.(fieldName := b);
        case LenF(3, b) =>
          var a := UnmarshalArg(b);
          if a.Err? { return Err(a.error); }
          m := m.(args := m.args + [a.value]);
        case LenF(4, b) =>
          var d := UnmarshalDirective(b);
          if d.Err? { return Err(d.error); }
          m := m.(directive := m.directive + [d.value]);
        case LenF(5, b) =>
          var c := UnmarshalNode(b);
          if c.Err? { return Err(c.error); }
          m := m.(children := m.children + [c.value]);
        case _ => return Err(UnknownField);
      }
      done := done + [next.field];
      iNdEx := next.next;
    }
    SofarEnds(dAtA, NODE_KINDS, done);
    r := Ok(m);
  }

  // ----- RGQLPrimitive and RGQLValue

  lemma PrimitiveNext(start: Primitive, p: Primitive, done: seq<Field>, f: Field, rest: seq<Field>)
    requires FoldPrimitive(start, done) == Ok(p)
    ensures FoldPrimitive(start, done + [f]) == PutPrimitive(p, f)
    ensures PutPrimitive(p, f).Err? ==> FoldPrimitive(start, done + ([f] + rest)) == Err(PutPrimitive(p, f).error)
  {
    hide PutPrimitive;
    FoldPrimitiveAppend(start, done, [f]);
    FoldPrimitiveAppend(start, done, [f] + rest);
    assert [f][1..] == [];
  }

  lemma PrimitiveMeaning(dAtA: seq<Byte>)
    ensures |dAtA| < TWO63 ==>
              forall p :: MergePrimitive(EMPTY_PRIMITIVE, dAtA) == Ok(p) <==> PrimitiveSays(dAtA, p)
  {
    hide *;
    if |dAtA| < TWO63 {
      forall p ensures MergePrimitive(EMPTY_PRIMITIVE, dAtA) == Ok(p) <==> PrimitiveSays(dAtA, p) {
        PrimitiveExact(dAtA, p);
      }
    }
  }

  lemma MergePrimitiveMeans(start: Primitive, dAtA: seq<Byte>)
    ensures var fr := Frame(dAtA, 0, PRIMITIVE_KINDS);
            && (fr.end == None ==> MergePrimitive(start, dAtA) == FoldPrimitive(start, fr.fields))
            && (FoldPrimitive(start, fr.fields).Err? ==> MergePrimitive(start, dAtA) == FoldPrimitive(start, fr.fields))
            && (FoldPrimitive(start, fr.fields).Ok? && fr.end.Some? ==>
                  MergePrimitive(start, dAtA) == Err(fr.end.value))
    ensures FoldPrimitive(start, []) == Ok(start)
  {
  }

  lemma PutPrimitiveIs(p: Primitive, f: Field)
    ensures PutPrimitive(p, f) ==
      match f
      case VarF(1, v) => Ok(p.(kind := S32(v)))
      case VarF(2, v) => Ok(p.(intValue := S32(v)))
      case FixF(3, b) => Ok(p.(floatBits := FromLE(b)))
      case LenF(4, b) => Ok(p.(stringValue := b))
      case VarF(5, v) => Ok(p.(boolValue := AnyBit(v)))
      case _ => Err(UnknownField)
  {
  }

  /** UnmarshalVT into a primitive that may hold something already. */
  method UnmarshalPrimitive(start: Primitive, dAtA: seq<Byte>) returns (r: Result<Primitive>)
    ensures r == MergePrimitive(start, dAtA)
    ensures start == EMPTY_PRIMITIVE && |dAtA| < TWO63 ==> forall p :: r == Ok(p) <==> PrimitiveSays(dAtA, p)
  {
    hide *;
    PrimitiveMeaning(dAtA);
    MergePrimitiveMeans(start, dAtA);
    SofarStarts(dAtA, PRIMITIVE_KINDS);
    var p, iNdEx := start, 0;
    ghost var done := [];
    while iNdEx < |dAtA|
      invariant 0 <= iNdEx <= |dAtA| && Sofar(dAtA, PRIMITIVE_KINDS, done, iNdEx) && FoldPrimitive(start, done) == Ok(p)
      decreases |dAtA| - iNdEx
    {
      SofarNext(dAtA, PRIMITIVE_KINDS, done, iNdEx);
      var next := NextField(dAtA, iNdEx, PRIMITIVE_KINDS);
      if next.NoField? { return Err(next.error); }
      PrimitiveNext(start, p, done, next.field, Frame(dAtA, next.next, PRIMITIVE_KINDS).fields);
      PutPrimitiveIs(p, next.field);
      match next.field {
        case VarF(1, v) => p := p.(kind := S32(v));
        case VarF(2, v) => p := p.(intValue := S32(v));
        case FixF(3, b) => p := p.(floatBits := FromLE(b));
        case LenF(4, b) => p := p.(stringValue := b);
        case VarF(5, v) => p := p.(boolValue := AnyBit(v));
        case _ => return Err(UnknownField);
      }
      done := done + [next.field];
      iNdEx := next.next;
    }
    SofarEnds(dAtA, PRIMITIVE_KINDS, done);
    r := Ok(p);
  }

  lemma ValueNext(v: RGQLValue, done: seq<Field>, f: Field, rest: seq<Field>)
    requires FoldValue(EMPTY_VALUE, done) == Ok(v)
    ensures FoldValue(EMPTY_VALUE, done + [f]) == PutValue(v, f)
    ensures PutValue(v, f).Err? ==> FoldValue(EMPTY_VALUE, done + ([f] + rest)) == Err(PutValue(v, f).error)
  {
    hide PutValue;
    FoldValueAppend(EMPTY_VALUE, done, [f]);
    FoldValueAppend(EMPTY_VALUE, done, [f] + rest);
    assert [f][1..] == [];
  }

  lemma ValueMeaning(dAtA: seq<Byte>)
    ensures |dAtA| < TWO63 ==> forall v :: DecodeValue(dAtA) == Ok(v) <==> ValueSays(dAtA, v)
  {
    hide *;
    if |dAtA| < TWO63 {
      forall v ensures DecodeValue(dAtA) == Ok(v) <==> ValueSays(dAtA, v) { ValueExact(dAtA, v); }
    }
  }

  lemma DecodeValueMeans(dAtA: seq<Byte>)
    ensures var fr := Frame(dAtA, 0, VALUE_KINDS);
            && (fr.end == None ==> DecodeValue(dAtA) == FoldValue(EMPTY_VALUE, fr.fields))
            && (FoldValue(EMPTY_VALUE, fr.fields).Err? ==> DecodeValue(dAtA) == FoldValue(EMPTY_VALUE, fr.fields))
            && (FoldValue(EMPTY_VALUE, fr.fields).Ok? && fr.end.Some? ==> DecodeValue(dAtA) == Err(fr.end.value))
    ensures FoldValue(EMPTY_VALUE, []) == Ok(EMPTY_VALUE)
  {
  }

  lemma PutValueIs(v: RGQLValue, f: Field)
    ensures var start := if v.value.Some? then v.value.value else EMPTY_PRIMITIVE;
      PutValue(v, f) ==
      match f
      case VarF(1, n) => Ok(v.(queryNodeId := U32(n)))
      case VarF(2, n) => Ok(v.(arrayIndex := U32(n)))
      case VarF(3, n) => Ok(v.(posIdentifier := U32(n)))
      case LenF(4, b) =>
        if MergePrimitive(start, b).Ok? then Ok(v.(value := Some(MergePrimitive(start, b).value)))
        else Err(MergePrimitive(start, b).error)
      case LenF(5, b) => Ok(v.(error := b))
      case _ => Err(UnknownField)
  {
    hide MergePrimitive;
  }

  method UnmarshalValue(dAtA: seq<Byte>) returns (r: Result<RGQLValue>)
    ensures r == DecodeValue(dAtA)
    ensures |dAtA| < TWO63 ==> forall v :: r == Ok(v) <==> ValueSays(dAtA, v)
  {
    hide *;
    ValueMeaning(dAtA);
    DecodeValueMeans(dAtA);
    SofarStarts(dAtA, VALUE_KINDS);
    var v, iNdEx := EMPTY_VALUE, 0;
    ghost var done := [];
    while iNdEx < |dAtA|
      invariant 0 <= iNdEx <= |dAtA| && Sofar(dAtA, VALUE_KINDS, done, iNdEx) && FoldValue(EMPTY_VALUE, done) == Ok(v)
      decreases |dAtA| - iNdEx
    {
      SofarNext(dAtA, VALUE_KINDS, done, iNdEx);
      var next := NextField(dAtA, iNdEx, VALUE_KINDS);
      if next.NoField? { return Err(next.error); }
      ValueNext(v, done, next.field, Frame(dAtA, next.next, VALUE_KINDS).fields);
      PutValueIs(v, next.field);
      match next.field {
        case VarF(1, n) => v := v.(queryNodeId := U32(n));
        case VarF(2, n) => v := v.(arrayIndex := U32(n));
        case VarF(3, n) => v := v.(posIdentifier := U32(n));
        case LenF(4, b) =>
          var p := UnmarshalPrimitive(if v.value.Some? then v.value.value else EMPTY_PRIMITIVE, b);
          if p.Err? { return Err(p.error); }
          v := v.(value := Some(p.value));
        case LenF(5, b) => v := v.(error := b);
        case _ => return Err(UnknownField);
      }
      done := done + [next.field];
      iNdEx := next.next;
    }
    SofarEnds(dAtA, VALUE_KINDS, done);
    r := Ok(v);
  }
}
