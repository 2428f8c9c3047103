/** What is written is read back. */
module WireProofs {
  import opened Messages
  import opened WireSpec

  // ----- varints

  lemma {:induction false} VarintLength(n: nat, j: nat)
    requires 0 < j && n < Power128(j)
    ensures |VarintOf(n)| <= j
    decreases j
  {
    if n >= 128 { VarintLength(n / 128, j - 1); }
  }

  function Power128(j: nat): nat {
    if j == 0 then 1 else 128 * Power128(j - 1)
  }

  lemma Varint64(n: nat)
    requires n < TWO64
    ensures |VarintOf(n)| <= 10
  {
    assert Power128(10) == 64 * TWO64 by {
      assert Power128(2) == 16384 && Power128(4) == 16384 * 16384 && Power128(6) == 16384 * 16384 * 16384;
      assert Power128(8) == 16384 * 16384 * 16384 * 16384;
    }
    VarintLength(n, 10);
  }

  lemma {:induction false} ReadVarOf(bs: seq<Byte>, i: nat, n: nat, k: nat)
    requires i + |VarintOf(n)| <= |bs| && bs[i..i + |VarintOf(n)|] == VarintOf(n) && k + |VarintOf(n)| <= 10
    ensures ReadVar(bs, i, k) == Got(n, i + |VarintOf(n)|)
    decreases n
  {
    var v := VarintOf(n);
    assert bs[i] == bs[i..i + |v|][0] == v[0];
    if n >= 128 {
      assert v == [n % 128 + 128] + VarintOf(n / 128);
      assert bs[i + 1..i + |v|] == bs[i..i + |v|][1..] == VarintOf(n / 128);
      ReadVarOf(bs, i + 1, n / 128, k + 1);
    }
  }

  lemma {:induction false} LEBack(n: nat, bytes: nat)
    requires n < Power256(bytes)
    ensures FromLE(LE(n, bytes)) == n
  {
    if bytes > 0 {
      LEBack(n / 256, bytes - 1);
      assert LE(n, bytes)[1..] == LE(n / 256, bytes - 1);
    }
  }

  function Power256(j: nat): nat {
    if j == 0 then 1 else 256 * Power256(j - 1)
  }

  /** Cutting the sign-extended form down to 32 bits gives the number back. */
  lemma Int32Back(v: Int32)
    ensures S32(SignExtended(v)) == v
  {
    if v < 0 { assert (v + TWO64) % TWO32 == v + TWO32; }
  }

  /** A negative int32 takes ten bytes, the last of them 1. */
  lemma NegativeTakesTen(v: Int32)
    requires v < 0
    ensures |VarintOf(SignExtended(v))| == 10 && VarintOf(SignExtended(v))[9] == 1
  {
    TenBytes(SignExtended(v), 9);
  }

  lemma {:induction false} TenBytes(n: nat, j: nat)
    requires Power128(j) <= n < 2 * Power128(j)
    ensures |VarintOf(n)| == j + 1 && VarintOf(n)[j] == 1
    decreases j
  {
    if j > 0 { TenBytes(n / 128, j - 1); }
  }

  // ----- fields

  /** A field that this message has, in a size the reader takes. */
  ghost predicate Fits(f: Field, kinds: map<int, Kind>) {
    && 0 < f.num < 16 && f.num in kinds
    && match f
       case VarF(_, v) => kinds[f.num] == VarintKind && v < TWO64
       case FixF(_, b) => kinds[f.num] == Fixed64Kind && |b| == 8
       case LenF(_, _) => kinds[f.num] == BytesKind
  }

  lemma TagRead(bs: seq<Byte>, i: nat, num: nat, wireType: nat)
    requires i < |bs| && 0 < num < 16 && wireType < 8 && bs[i] == num * 8 + wireType
    ensures ReadVar(bs, i, 0) == Got(num * 8 + wireType, i + 1)
    ensures var wire := (num * 8 + wireType) % TWO64; wire % 8 == wireType && S32(wire / 8) == num
  {
  }

  lemma SliceSplit(bs: seq<Byte>, i: nat, a: seq<Byte>, b: seq<Byte>)
    requires i + |a| + |b| <= |bs| && bs[i..i + |a| + |b|] == a + b
    ensures bs[i..i + |a|] == a && bs[i + |a|..i + |a| + |b|] == b
  {
    assert bs[i..i + |a|] == bs[i..i + |a| + |b|][..|a|];
    assert bs[i + |a|..i + |a| + |b|] == bs[i..i + |a| + |b|][|a|..];
  }

  lemma ReadVarF(bs: seq<Byte>, j: nat, num: nat, v: nat)
    requires 0 < j && v < TWO64 && j + |VarintOf(v)| <= |bs| && bs[j..j + |VarintOf(v)|] == VarintOf(v)
    ensures ReadPayload(bs, j, num, 0, VarintKind) == GotField(VarF(num, v), j + |VarintOf(v)|)
  {
    Varint64(v);
    ReadVarOf(bs, j, v, 0);
  }

  lemma ReadLenF(bs: seq<Byte>, j: nat, num: nat, b: seq<Byte>)
    requires 0 < j && |bs| < TWO63
    requires var e := VarintOf(|b|) + b; j + |e| <= |bs| && bs[j..j + |e|] == e
    ensures ReadPayload(bs, j, num, 2, BytesKind) == GotField(LenF(num, b), j + |VarintOf(|b|) + b|)
  {
    var n := VarintOf(|b|);
    SliceSplit(bs, j, n, b);
    Varint64(|b|);
    ReadVarOf(bs, j, |b|, 0);
    hide ReadVar, VarintOf;
    assert |b| % TWO64 == |b|;
    assert bs[j + |n|..j + |n| + |b|] == b;
  }

  function WireTypeOf(f: Field): nat {
    match f case VarF(_, _) => 0 case FixF(_, _) => 1 case LenF(_, _) => 2
  }

  function BodyOf(f: Field): seq<Byte> {
    match f case VarF(_, v) => VarintOf(v) case FixF(_, b) => b case LenF(_, b) => VarintOf(|b|) + b
  }

  lemma FieldBytes(f: Field)
    requires f.num < 16
    ensures f.num * 8 + WireTypeOf(f) < 128 && EncodeField(f) == [f.num * 8 + WireTypeOf(f)] + BodyOf(f)
  {
    var tag := f.num * 8 + WireTypeOf(f);
    assert VarintOf(tag) == [tag];
    match f
    case VarF(_, _) =>
    case FixF(_, _) =>
    case LenF(_, b) => assert [tag] + VarintOf(|b|) + b == [tag] + (VarintOf(|b|) + b);
  }

  lemma ReadBody(bs: seq<Byte>, j: nat, f: Field, kinds: map<int, Kind>)
    requires Fits(f, kinds) && 0 < j && |bs| < TWO63 && j + |BodyOf(f)| <= |bs| && bs[j..j + |BodyOf(f)|] == BodyOf(f)
    ensures ReadPayload(bs, j, f.num, WireTypeOf(f), kinds[f.num]) == GotField(f, j + |BodyOf(f)|)
  {
    hide ReadVar, VarintOf;
    match f {
      case VarF(_, v) => ReadVarF(bs, j, f.num, v);
      case FixF(_, b) =>
      case LenF(_, b) => ReadLenF(bs, j, f.num, b);
    }
  }

  lemma ReadFieldOf(bs: seq<Byte>, i: nat, f: Field, kinds: map<int, Kind>)
    requires Fits(f, kinds) && |bs| < TWO63 && i + |EncodeField(f)| <= |bs|
    requires bs[i..i + |EncodeField(f)|] == EncodeField(f)
    ensures ReadField(bs, i, kinds) == GotField(f, i + |EncodeField(f)|)
  {
    var e, body := EncodeField(f), BodyOf(f);
    FieldBytes(f);
    hide EncodeField, BodyOf, VarintOf, ReadField, ReadVar, ReadPayload, S32;
    assert bs[i] == e[0] by { assert bs[i..i + |e|][0] == bs[i]; }
    SliceSplit(bs, i, [e[0]], body);
    TagRead(bs, i, f.num, WireTypeOf(f));
    ReadBody(bs, i + 1, f, kinds);
    TagThen(bs, i, f.num, WireTypeOf(f), kinds);
  }

  /** After a tag of one byte, the payload is read. */
  lemma TagThen(bs: seq<Byte>, i: nat, num: nat, wireType: nat, kinds: map<int, Kind>)
    requires i < |bs| && 0 < num && num in kinds && wireType < 4
    requires ReadVar(bs, i, 0) == Got(num * 8 + wireType, i + 1)
    requires var wire := (num * 8 + wireType) % TWO64; wire % 8 == wireType && S32(wire / 8) == num
    ensures ReadField(bs, i, kinds) == ReadPayload(bs, i + 1, num, wireType, kinds[num])
  {
    hide ReadVar, ReadPayload, S32;
  }

  ghost predicate AllFit(fs: seq<Field>, kinds: map<int, Kind>) {
    forall f | f in fs :: Fits(f, kinds)
  }

  /** Framing: the records written are the records read, with nothing left over. */
  lemma {:induction false} FrameOf(bs: seq<Byte>, i: nat, fs: seq<Field>, kinds: map<int, Kind>)
    requires AllFit(fs, kinds) && |bs| < TWO63 && i <= |bs| && bs[i..] == Encode(fs)
    ensures Frame(bs, i, kinds) == Framing(fs, None)
    decreases |fs|
  {
    hide ReadField, EncodeField, Fits;
    if fs != [] {
      assert fs[0] in fs && Fits(fs[0], kinds);
      var e, rest := EncodeField(fs[0]), Encode(fs[1..]);
      assert bs[i..i + |e| + |rest|] == bs[i..] == e + rest;
      SliceSplit(bs, i, e, rest);
      ReadFieldOf(bs, i, fs[0], kinds);
      assert bs[i + |e|..] == rest;
      FrameOf(bs, i + |e|, fs[1..], kinds);
      assert fs == [fs[0]] + fs[1..];
    }
  }

  lemma Framed(fs: seq<Field>, kinds: map<int, Kind>)
    requires AllFit(fs, kinds) && |Encode(fs)| < TWO63
    ensures Frame(Encode(fs), 0, kinds) == Framing(fs, None)
  {
    assert Encode(fs)[0..] == Encode(fs);
    FrameOf(Encode(fs), 0, fs, kinds);
  }

  lemma {:induction false} PayloadShorter(fs: seq<Field>, f: Field)
    requires f in fs
    ensures |Payload(f)| < |Encode(fs)|
    decreases |fs|
  {
    if f != fs[0] { PayloadShorter(fs[1..], f); }
  }

  // ----- arguments

  ghost predicate ArgOk(m: FieldArgument) {
    m.variableId < TWO32
  }

  lemma ArgFits(m: FieldArgument)
    requires ArgOk(m)
    ensures AllFit(ArgFields(m), ARG_KINDS)
  {
  }

  lemma ArgFolds(m: FieldArgument)
    requires ArgOk(m)
    ensures FoldArg(EMPTY_ARG, ArgFields(m)) == Ok(m)
  {
    var a, b := BytesField(1, m.name), VarField(2, m.variableId);
    if m.name != [] { assert a[1..] == []; }
    assert FoldArg(EMPTY_ARG, a) == Ok(FieldArgument(m.name, 0));
    FoldArgAppend(EMPTY_ARG, a, b);
    if m.variableId != 0 { assert b[1..] == []; }
  }

  lemma DecodeArgIs(fs: seq<Field>)
    ensures Frame(Encode(fs), 0, ARG_KINDS) == Framing(fs, None) ==> DecodeArg(Encode(fs)) == FoldArg(EMPTY_ARG, fs)
  {
  }

  lemma ArgRoundTrip(m: FieldArgument)
    requires ArgOk(m) && |EncodeArg(m)| < TWO63
    ensures DecodeArg(EncodeArg(m)) == Ok(m)
  {
    assert EncodeArg(m) == Encode(ArgFields(m));
    hide *;
    ArgFits(m);
    Framed(ArgFields(m), ARG_KINDS);
    DecodeArgIs(ArgFields(m));
    ArgFolds(m);
  }

  lemma {:induction false} FoldArgAppend(m: FieldArgument, a: seq<Field>, b: seq<Field>)
    requires FoldArg(m, a).Ok?
    ensures FoldArg(m, a + b) == FoldArg(FoldArg(m, a).value, b)
    decreases |a|
  {
    if a == [] {
      assert a + b == b;
    } else {
      assert (a + b)[0] == a[0] && (a + b)[1..] == a[1..] + b;
      FoldArgAppend(PutArg(m, a[0]).value, a[1..], b);
    }
  }

  // ----- directives

  ghost predicate DirectiveOk(m: Directive) {
    forall a | a in m.args :: ArgOk(a)
  }

  lemma {:induction false} FoldDirectiveAppend(m: Directive, a: seq<Field>, b: seq<Field>)
    requires FoldDirective(m, a).Ok?
    ensures FoldDirective(m, a + b) == FoldDirective(FoldDirective(m, a).value, b)
    decreases |a|
  {
    if a == [] {
      assert a + b == b;
    } else {
      assert (a + b)[0] == a[0] && (a + b)[1..] == a[1..] + b;
      FoldDirectiveAppend(PutDirective(m, a[0]).value, a[1..], b);
    }
  }

  lemma EachHead(num: nat, bs: seq<seq<Byte>>)
    requires bs != []
    ensures Each(num, bs) != [] && Each(num, bs)[0] == LenF(num, bs[0]) && Each(num, bs)[1..] == Each(num, bs[1..])
  {
  }

  lemma {:induction false} DirectiveArgs(m: Directive, args: seq<FieldArgument>)
    requires forall a | a in args :: ArgOk(a) && |EncodeArg(a)| < TWO63
    ensures FoldDirective(m, Each(2, ArgsBytes(args))) == Ok(m.(args := m.args + args))
    decreases |args|
  {
    hide DecodeArg, EncodeArg;
    if args == [] {
      assert m.args + args == m.args;
    } else {
      ArgRoundTrip(args[0]);
      EachHead(2, ArgsBytes(args));
      assert ArgsBytes(args)[1..] == ArgsBytes(args[1..]) && ArgsBytes(args)[0] == EncodeArg(args[0]);
      DirectiveArgs(m.(args := m.args + [args[0]]), args[1..]);
      assert (m.args + [args[0]]) + args[1..] == m.args + args;
    }
  }

  lemma DirectiveFits(m: Directive)
    ensures AllFit(DirectiveFields(m), DIRECTIVE_KINDS)
  {
  }

  lemma DirectiveFolds(m: Directive)
    requires DirectiveOk(m) && |EncodeDirective(m)| < TWO63
    ensures FoldDirective(EMPTY_DIRECTIVE, DirectiveFields(m)) == Ok(m)
  {
    var a, b := BytesField(1, m.name), Each(2, ArgsBytes(m.args));
    forall x | x in m.args ensures |EncodeArg(x)| < TWO63 {
      var i :| 0 <= i < |m.args| && m.args[i] == x;
      assert ArgsBytes(m.args)[i] == EncodeArg(x);
      assert DirectiveFields(m) == a + b + [];
      EachShorter(DirectiveFields(m), a, 2, ArgsBytes(m.args), [], EncodeArg(x));
    }
    hide ArgsBytes, Each, EncodeDirective;
    if m.name != [] { assert a[1..] == []; }
    assert FoldDirective(EMPTY_DIRECTIVE, a) == Ok(Directive(m.name, []));
    FoldDirectiveAppend(EMPTY_DIRECTIVE, a, b);
    DirectiveArgs(Directive(m.name, []), m.args);
    assert [] + m.args == m.args;
  }

  lemma DecodeDirectiveIs(fs: seq<Field>)
    ensures Frame(Encode(fs), 0, DIRECTIVE_KINDS) == Framing(fs, None) ==>
        DecodeDirective(Encode(fs)) == FoldDirective(EMPTY_DIRECTIVE, fs)
  {
  }

  lemma DirectiveRoundTrip(m: Directive)
    requires DirectiveOk(m) && |EncodeDirective(m)| < TWO63
    ensures DecodeDirective(EncodeDirective(m)) == Ok(m)
  {
    assert EncodeDirective(m) == Encode(DirectiveFields(m));
    hide *;
    DirectiveFits(m);
    Framed(DirectiveFields(m), DIRECTIVE_KINDS);
    DecodeDirectiveIs(DirectiveFields(m));
    DirectiveFolds(m);
  }

  /** A nested message is shorter than the one it is in. */
  lemma EachShorter(fs: seq<Field>, a: seq<Field>, num: nat, bs: seq<seq<Byte>>, c: seq<Field>, b: seq<Byte>)
    requires fs == a + Each(num, bs) + c && b in bs
    ensures |b| < |Encode(fs)|
  {
    var i :| 0 <= i < |bs| && bs[i] == b;
    assert Each(num, bs)[i] == LenF(num, b);
    assert fs[|a| + i] == LenF(num, b);
    PayloadShorter(fs, LenF(num, b));
  }

  // ----- query tree nodes

  ghost predicate NodeOk(m: TreeNode) {
    && m.id < TWO32
    && (forall a | a in m.args :: ArgOk(a))
    && (forall d | d in m.directive :: DirectiveOk(d))
    && (forall c | c in m.children :: NodeOk(c))
  }

  function ChildrenBytes(cs: seq<TreeNode>): seq<seq<Byte>> {
    seq(|cs|, i requires 0 <= i < |cs| => EncodeNode(cs[i]))
  }

  lemma NodeFieldsAre(m: TreeNode)
    ensures NodeFields(m) ==
      VarField(1, m.id) + BytesField(2, m.fieldName) + Each(3, ArgsBytes(m.args))
        + Each(4, DirectivesBytes(m.directive))
      + Each(5, ChildrenBytes(m.children))
    ensures EncodeNode(m) == Encode(NodeFields(m))
  {
    assert ChildrenBytes(m.children) ==
           seq(|m.children|, i requires 0 <= i < |m.children| => EncodeNode(m.children[i]));
  }

  lemma {:induction false} FoldNodeAppend(m: TreeNode, a: seq<Field>, b: seq<Field>, len: nat)
    requires forall f | f in a + b :: |Payload(f)| < len
    requires FoldNode(m, a, len).Ok?
    ensures FoldNode(m, a + b, len) == FoldNode(FoldNode(m, a, len).value, b, len)
    decreases |a|
  {
    hide PutNode;
    if a == [] {
      assert a + b == b;
    } else {
      assert (a + b)[0] == a[0] && (a + b)[1..] == a[1..] + b;
      FoldNodeAppend(PutNode(m, a[0]).value, a[1..], b, len);
    }
  }

  ghost predicate Short(bs: seq<seq<Byte>>, len: nat) {
    forall b | b in bs :: |b| < len
  }

  lemma EachShort(num: nat, bs: seq<seq<Byte>>, len: nat)
    requires Short(bs, len)
    ensures forall f | f in Each(num, bs) :: |Payload(f)| < len
  {
    forall f | f in Each(num, bs) ensures |Payload(f)| < len {
      var i :| 0 <= i < |bs| && Each(num, bs)[i] == f;
      assert bs[i] in bs;
    }
  }

  lemma {:induction false} NodeArgs(m: TreeNode, args: seq<FieldArgument>, len: nat)
    requires len <= TWO63 && Short(ArgsBytes(args), len) && forall a | a in args :: ArgOk(a)
    ensures (forall f | f in Each(3, ArgsBytes(args)) :: |Payload(f)| < len)
            && FoldNode(m, Each(3, ArgsBytes(args)), len) == Ok(m.(args := m.args + args))
    decreases |args|
  {
    hide DecodeArg, EncodeArg;
    EachShort(3, ArgsBytes(args), len);
    if args == [] {
      assert m.args + args == m.args;
    } else {
      EachHead(3, ArgsBytes(args));
      assert ArgsBytes(args)[1..] == ArgsBytes(args[1..]) && ArgsBytes(args)[0] == EncodeArg(args[0]);
      ArgRoundTrip(args[0]);
      NodeArgs(m.(args := m.args + [args[0]]), args[1..], len);
      assert (m.args + [args[0]]) + args[1..] == m.args + args;
    }
  }

  lemma {:induction false} NodeDirectives(m: TreeNode, ds: seq<Directive>, len: nat)
    requires len <= TWO63 && Short(DirectivesBytes(ds), len) && forall d | d in ds :: DirectiveOk(d)
    ensures (forall f | f in Each(4, DirectivesBytes(ds)) :: |Payload(f)| < len)
            && FoldNode(m, Each(4, DirectivesBytes(ds)), len) == Ok(m.(directive := m.directive + ds))
    decreases |ds|
  {
    hide DecodeDirective, EncodeDirective, DirectiveOk;
    EachShort(4, DirectivesBytes(ds), len);
    if ds == [] {
      assert m.directive + ds == m.directive;
    } else {
      EachHead(4, DirectivesBytes(ds));
      assert DirectivesBytes(ds)[1..] == DirectivesBytes(ds[1..]) && DirectivesBytes(ds)[0] == EncodeDirective(ds[0]);
      DirectiveRoundTrip(ds[0]);
      NodeDirectives(m.(directive := m.directive + [ds[0]]), ds[1..], len);
      assert (m.directive + [ds[0]]) + ds[1..] == m.directive + ds;
    }
  }

  lemma {:induction false} NodeChildren(m: TreeNode, cs: seq<TreeNode>, len: nat)
    requires Short(ChildrenBytes(cs), len) && forall c | c in cs :: DecodeNode(EncodeNode(c)) == Ok(c)
    ensures (forall f | f in Each(5, ChildrenBytes(cs)) :: |Payload(f)| < len)
            && FoldNode(m, Each(5, ChildrenBytes(cs)), len) == Ok(m.(children := m.children + cs))
    decreases |cs|
  {
    hide DecodeNode, EncodeNode;
    EachShort(5, ChildrenBytes(cs), len);
    if cs == [] {
      assert m.children + cs == m.children;
    } else {
      EachHead(5, ChildrenBytes(cs));
      assert ChildrenBytes(cs)[1..] == ChildrenBytes(cs[1..]) && ChildrenBytes(cs)[0] == EncodeNode(cs[0]);
      NodeChildren(m.(children := m.children + [cs[0]]), cs[1..], len);
      assert (m.children + [cs[0]]) + cs[1..] == m.children + cs;
    }
  }

  lemma NodeFits(m: TreeNode)
    requires m.id < TWO32
    ensures AllFit(NodeFields(m), NODE_KINDS)
  {
    NodeFieldsAre(m);
    hide NodeFields, EncodeNode, ArgsBytes, DirectivesBytes, ChildrenBytes;
    EachFits(3, ArgsBytes(m.args));
    EachFits(4, DirectivesBytes(m.directive));
    EachFits(5, ChildrenBytes(m.children));
  }

  lemma EachFits(num: nat, bs: seq<seq<Byte>>)
    requires 3 <= num <= 5
    ensures AllFit(Each(num, bs), NODE_KINDS)
  {
  }

  /** The nested encodings are shorter than the whole. */
  lemma NodeShort(m: TreeNode)
    ensures var len := |EncodeNode(m)|;
            && Short(ArgsBytes(m.args), len) && Short(DirectivesBytes(m.directive), len)
            && Short(ChildrenBytes(m.children), len)
  {
    NodeFieldsAre(m);
    var v, a, d, c := VarField(1, m.id) + BytesField(2, m.fieldName), Each(3, ArgsBytes(m.args)),
      Each(4, DirectivesBytes(m.directive)), Each(5, ChildrenBytes(m.children));
    var fs := NodeFields(m);
    hide NodeFields, EncodeNode, ArgsBytes, DirectivesBytes, ChildrenBytes, Each, VarField, BytesField;
    assert fs == v + a + (d + c) && fs == (v + a) + d + c && fs == (v + a + d) + c + [];
    forall b | b in ArgsBytes(m.args) ensures |b| < |Encode(fs)| { EachShorter(fs, v, 3, ArgsBytes(m.args), d + c, b); }
    forall b | b in DirectivesBytes(m.directive) ensures |b| < |Encode(fs)| {
      EachShorter(fs, v + a, 4, DirectivesBytes(m.directive), c, b);
    }
    forall b | b in ChildrenBytes(m.children) ensures |b| < |Encode(fs)| {
      EachShorter(fs, v + a + d, 5, ChildrenBytes(m.children), [], b);
    }
  }

  lemma NodeHead(m: TreeNode, len: nat)
    requires m.id < TWO32 && |m.fieldName| < len
    ensures var fs := VarField(1, m.id) + BytesField(2, m.fieldName);
            && (forall f | f in fs :: |Payload(f)| < len)
            && FoldNode(EMPTY_NODE, fs, len) == Ok(TreeNode(m.id, m.fieldName, [], [], []))
  {
    var a, b := VarField(1, m.id), BytesField(2, m.fieldName);
    if m.id != 0 { assert a[1..] == []; }
    if m.fieldName != [] { assert b[1..] == []; }
    assert FoldNode(EMPTY_NODE, a, len) == Ok(EMPTY_NODE.(id := m.id));
    FoldNodeAppend(EMPTY_NODE, a, b, len);
  }

  lemma {:induction false} FoldNodeLen(m: TreeNode, fs: seq<Field>, a: nat, b: nat)
    requires (forall f | f in fs :: |Payload(f)| < a) && (forall f | f in fs :: |Payload(f)| < b)
    ensures FoldNode(m, fs, a) == FoldNode(m, fs, b)
    decreases |fs|
  {
    hide PutNode;
    if fs != [] && PutNode(m, fs[0]).Ok? { FoldNodeLen(PutNode(m, fs[0]).value, fs[1..], a, b); }
  }

  lemma NodeFolds(m: TreeNode, len: nat)
    requires NodeOk(m) && len <= TWO63 && |m.fieldName| < len
    requires Short(ArgsBytes(m.args), len) && Short(DirectivesBytes(m.directive), len)
    requires Short(ChildrenBytes(m.children), len)
    requires forall c | c in m.children :: DecodeNode(EncodeNode(c)) == Ok(c)
    ensures (forall f | f in NodeFields(m) :: |Payload(f)| < len) && FoldNode(EMPTY_NODE, NodeFields(m), len) == Ok(m)
  {
    NodeFieldsAre(m);
    var head, a, d, c := VarField(1, m.id) + BytesField(2, m.fieldName), Each(3, ArgsBytes(m.args)),
      Each(4, DirectivesBytes(m.directive)), Each(5, ChildrenBytes(m.children));
    var m1 := TreeNode(m.id, m.fieldName, [], [], []);
    NodeHead(m, len);
    NodeArgs(m1, m.args, len);
    var m2 := m1.(args := m.args);
    NodeDirectives(m2, m.directive, len);
    var m3 := m2.(directive := m.directive);
    NodeChildren(m3, m.children, len);
    hide NodeFields, EncodeNode, DecodeNode, ArgsBytes, DirectivesBytes, ChildrenBytes, Each, VarField, BytesField,
      FoldNode, NodeOk;
    assert m1.args + m.args == m.args && m2.directive + m.directive == m.directive
           && m3.children + m.children == m.children;
    FoldNodeAppend(EMPTY_NODE, head, a, len);
    FoldNodeAppend(EMPTY_NODE, head + a, d, len);
    FoldNodeAppend(EMPTY_NODE, head + a + d, c, len);
  }

  lemma DecodeNodeIs(fs: seq<Field>, len: nat)
    requires forall f | f in fs :: |Payload(f)| < len
    ensures
      Frame(Encode(fs), 0, NODE_KINDS) == Framing(fs, None) ==> DecodeNode(Encode(fs)) == FoldNode(EMPTY_NODE, fs, len)
  {
    if Frame(Encode(fs), 0, NODE_KINDS) == Framing(fs, None) {
      FoldNodeLen(EMPTY_NODE, fs, |Encode(fs)|, len);
    }
  }

  /** Round trip of RGQLQueryTreeNode, to any depth and width. */
  lemma {:induction false} NodeRoundTrip(m: TreeNode)
    requires NodeOk(m) && |EncodeNode(m)| < TWO63
    ensures DecodeNode(EncodeNode(m)) == Ok(m)
    decreases m
  {
    var len := |EncodeNode(m)| + 1;
    NodeShort(m);
    NodeFieldsAre(m);
    forall c | c in m.children ensures DecodeNode(EncodeNode(c)) == Ok(c) {
      var i :| 0 <= i < |m.children| && m.children[i] == c;
      assert ChildrenBytes(m.children)[i] == EncodeNode(c);
      NodeRoundTrip(c);
    }
    NameShorter(m);
    LongerStill(m);
    NodeFits(m);
    hide *;
    NodeFolds(m, len);
    Framed(NodeFields(m), NODE_KINDS);
    DecodeNodeIs(NodeFields(m), len);
  }

  lemma LongerStill(m: TreeNode)
    requires var len := |EncodeNode(m)|;
             && Short(ArgsBytes(m.args), len) && Short(DirectivesBytes(m.directive), len)
             && Short(ChildrenBytes(m.children), len)
    ensures var len := |EncodeNode(m)| + 1;
            && Short(ArgsBytes(m.args), len) && Short(DirectivesBytes(m.directive), len)
            && Short(ChildrenBytes(m.children), len)
  {
    hide EncodeNode, ArgsBytes, DirectivesBytes, ChildrenBytes;
  }

  lemma NameShorter(m: TreeNode)
    ensures |m.fieldName| < |EncodeNode(m)| + 1
  {
    NodeFieldsAre(m);
    if m.fieldName != [] {
      var fs := NodeFields(m);
      assert BytesField(2, m.fieldName)[0] == LenF(2, m.fieldName);
      assert fs[|VarField(1, m.id)|] == LenF(2, m.fieldName);
      PayloadShorter(fs, LenF(2, m.fieldName));
    }
  }

  // ----- values

  lemma {:induction false} FoldPrimitiveAppend(p: Primitive, a: seq<Field>, b: seq<Field>)
    requires FoldPrimitive(p, a).Ok?
    ensures FoldPrimitive(p, a + b) == FoldPrimitive(FoldPrimitive(p, a).value, b)
    decreases |a|
  {
    hide PutPrimitive;
    if a == [] {
      assert a + b == b;
    } else {
      assert (a + b)[0] == a[0] && (a + b)[1..] == a[1..] + b;
      FoldPrimitiveAppend(PutPrimitive(p, a[0]).value, a[1..], b);
    }
  }

  /** Positive zero is what a negative zero comes back as. */
  function FloatBack(p: Primitive): Primitive {
    if p.floatBits == TWO63 then p.(floatBits := 0) else p
  }

  lemma OnePrimitive(p: Primitive, f: Field)
    ensures FoldPrimitive(p, [f]) == PutPrimitive(p, f)
  {
    assert [f][1..] == [];
  }

  lemma PrimitiveFolds(p: Primitive)
    requires p.floatBits < TWO64
    ensures FoldPrimitive(EMPTY_PRIMITIVE, PrimitiveFields(p)) == Ok(FloatBack(p))
  {
    var a, b, c, d, e := VarField(1, SignExtended(p.kind)), VarField(2, SignExtended(p.intValue)),
      FloatField(3, p.floatBits),
                         BytesField(4, p.stringValue), VarField(5, if p.boolValue then 1 else 0);
    var bits := FloatBack(p).floatBits;
    Int32Back(p.kind);
    Int32Back(p.intValue);
    FloatBits(p.floatBits);
    var p1 := Primitive(p.kind, 0, 0, [], false);
    var p2 := p1.(intValue := p.intValue);
    var p3 := p2.(floatBits := bits);
    var p4 := p3.(stringValue := p.stringValue);
    var p5 := p4.(boolValue := p.boolValue);
    assert FoldPrimitive(EMPTY_PRIMITIVE, a) == Ok(p1) by { if a != [] { OnePrimitive(EMPTY_PRIMITIVE, a[0]); } }
    assert FoldPrimitive(p1, b) == Ok(p2) by { if b != [] { OnePrimitive(p1, b[0]); } }
    assert FoldPrimitive(p2, c) == Ok(p3) by { if c != [] { OnePrimitive(p2, c[0]); } }
    assert FoldPrimitive(p3, d) == Ok(p4) by { if d != [] { OnePrimitive(p3, d[0]); } }
    assert FoldPrimitive(p4, e) == Ok(p5) by { if e != [] { OnePrimitive(p4, e[0]); } }
    hide FoldPrimitive, VarField, BytesField, FloatField;
    FoldPrimitiveAppend(EMPTY_PRIMITIVE, a, b);
    FoldPrimitiveAppend(EMPTY_PRIMITIVE, a + b, c);
    FoldPrimitiveAppend(EMPTY_PRIMITIVE, a + b + c, d);
    FoldPrimitiveAppend(EMPTY_PRIMITIVE, a + b + c + d, e);
  }

  lemma FloatBits(bits: nat)
    requires bits < TWO64
    ensures FromLE(LE(bits, 8)) == bits
  {
    assert Power256(8) == TWO64 by { assert Power256(2) == 65536 && Power256(4) == 65536 * 65536; }
    LEBack(bits, 8);
  }

  lemma PrimitiveFits(p: Primitive)
    ensures AllFit(PrimitiveFields(p), PRIMITIVE_KINDS)
  {
  }

  lemma MergePrimitiveIs(fs: seq<Field>)
    ensures Frame(Encode(fs), 0, PRIMITIVE_KINDS) == Framing(fs, None) ==>
              MergePrimitive(EMPTY_PRIMITIVE, Encode(fs)) == FoldPrimitive(EMPTY_PRIMITIVE, fs)
  {
  }

  /** Round trip of RGQLPrimitive, negative int32 values included: only negative zero changes. */
  lemma PrimitiveRoundTrip(p: Primitive)
    requires p.floatBits < TWO64 && |EncodePrimitive(p)| < TWO63
    ensures MergePrimitive(EMPTY_PRIMITIVE, EncodePrimitive(p)) == Ok(FloatBack(p))
    ensures MergePrimitive(EMPTY_PRIMITIVE, EncodePrimitive(p)) == Ok(p) <==> p.floatBits != TWO63
  {
    assert EncodePrimitive(p) == Encode(PrimitiveFields(p));
    assert FloatBack(p) == p <==> p.floatBits != TWO63;
    hide *;
    PrimitiveFits(p);
    Framed(PrimitiveFields(p), PRIMITIVE_KINDS);
    MergePrimitiveIs(PrimitiveFields(p));
    PrimitiveFolds(p);
  }

  lemma {:induction false} FoldValueAppend(v: RGQLValue, a: seq<Field>, b: seq<Field>)
    requires FoldValue(v, a).Ok?
    ensures FoldValue(v, a + b) == FoldValue(FoldValue(v, a).value, b)
    decreases |a|
  {
    hide PutValue;
    if a == [] {
      assert a + b == b;
    } else {
      assert (a + b)[0] == a[0] && (a + b)[1..] == a[1..] + b;
      FoldValueAppend(PutValue(v, a[0]).value, a[1..], b);
    }
  }

  lemma OneValue(v: RGQLValue, f: Field)
    ensures FoldValue(v, [f]) == PutValue(v, f)
  {
    assert [f][1..] == [];
  }

  ghost predicate ValueOk(v: RGQLValue) {
    && v.queryNodeId < TWO32 && v.arrayIndex < TWO32 && v.posIdentifier < TWO32
    && (v.value.Some? ==> v.value.value.floatBits < TWO64)
  }

  function ValueBack(v: RGQLValue): RGQLValue {
    if v.value.Some? then v.(value := Some(FloatBack(v.value.value))) else v
  }

  function NestedField(v: RGQLValue): seq<Field> {
    if v.value.Some? then [LenF(4, EncodePrimitive(v.value.value))] else []
  }

  lemma NestedFolds(v: RGQLValue, w: RGQLValue)
    requires ValueOk(v) && |EncodeValue(v)| < TWO63 && w.value == None
    ensures FoldValue(w, NestedField(v)) == Ok(w.(value := ValueBack(v).value))
  {
    if v.value.Some? {
      var b := EncodePrimitive(v.value.value);
      OneValue(w, LenF(4, b));
      assert LenF(4, b) in ValueFields(v) by { assert NestedField(v)[0] == LenF(4, b); }
      PayloadShorter(ValueFields(v), LenF(4, b));
      PrimitiveRoundTrip(v.value.value);
    }
  }

  lemma ValueFolds(v: RGQLValue)
    requires ValueOk(v) && |EncodeValue(v)| < TWO63
    ensures FoldValue(EMPTY_VALUE, ValueFields(v)) == Ok(ValueBack(v))
  {
    var a, b, c, d, e := VarField(1, v.queryNodeId), VarField(2, v.arrayIndex), VarField(3, v.posIdentifier),
      NestedField(v), BytesField(5, v.error);
    assert ValueFields(v) == a + b + c + d + e;
    var v1 := RGQLValue(v.queryNodeId, 0, 0, None, []);
    var v2 := v1.(arrayIndex := v.arrayIndex);
    var v3 := v2.(posIdentifier := v.posIdentifier);
    var v4 := v3.(value := ValueBack(v).value);
    assert FoldValue(EMPTY_VALUE, a) == Ok(v1) by { if a != [] { OneValue(EMPTY_VALUE, a[0]); } }
    assert FoldValue(v1, b) == Ok(v2) by { if b != [] { OneValue(v1, b[0]); } }
    assert FoldValue(v2, c) == Ok(v3) by { if c != [] { OneValue(v2, c[0]); } }
    NestedFolds(v, v3);
    assert FoldValue(v4, e) == Ok(v4.(error := v.error)) by { if e != [] { OneValue(v4, e[0]); } }
    assert v4.(error := v.error) == ValueBack(v);
    hide FoldValue, VarField, BytesField, NestedField, ValueFields;
    FoldValueAppend(EMPTY_VALUE, a, b);
    FoldValueAppend(EMPTY_VALUE, a + b, c);
    FoldValueAppend(EMPTY_VALUE, a + b + c, d);
    FoldValueAppend(EMPTY_VALUE, a + b + c + d, e);
  }

  lemma ValueFits(v: RGQLValue)
    requires ValueOk(v)
    ensures AllFit(ValueFields(v), VALUE_KINDS)
  {
    var a, b, c, d, e := VarField(1, v.queryNodeId), VarField(2, v.arrayIndex), VarField(3, v.posIdentifier),
      NestedField(v), BytesField(5, v.error);
    assert ValueFields(v) == a + b + c + d + e;
    assert AllFit(a, VALUE_KINDS) && AllFit(b, VALUE_KINDS) && AllFit(c, VALUE_KINDS);
    assert AllFit(d, VALUE_KINDS) && AllFit(e, VALUE_KINDS);
    hide VarField, NestedField, BytesField, ValueFields, Fits;
  }

  lemma DecodeValueIs(fs: seq<Field>)
    ensures
      Frame(Encode(fs), 0, VALUE_KINDS) == Framing(fs, None) ==> DecodeValue(Encode(fs)) == FoldValue(EMPTY_VALUE, fs)
  {
  }

  /** Round trip of RGQLValue: exact but for a negative zero, which comes back positive. */
  lemma ValueRoundTrip(v: RGQLValue)
    requires ValueOk(v) && |EncodeValue(v)| < TWO63
    ensures DecodeValue(EncodeValue(v)) == Ok(ValueBack(v))
    ensures DecodeValue(EncodeValue(v)) == Ok(v) <==> !(v.value.Some? && v.value.value.floatBits == TWO63)
  {
    assert EncodeValue(v) == Encode(ValueFields(v));
    assert ValueBack(v) == v <==> !(v.value.Some? && v.value.value.floatBits == TWO63);
    ValueFits(v);
    hide *;
    Framed(ValueFields(v), VALUE_KINDS);
    DecodeValueIs(ValueFields(v));
    ValueFolds(v);
  }
}
