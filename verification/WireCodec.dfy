/** The generated codec, in place: SizeVT, MarshalToSizedBufferVT and UnmarshalVT of rgraphql.pb.go.
    The buffer is written backward, from `hi` down. */
module WireCodec {
  import opened Messages
  import opened WireSpec
  import opened WireProofs
  import opened WireMessages

  // ----- varints

  /** SizeOfVarint, a library function. */
  function SizeOfVarint(x: nat): (n: nat)
    ensures n == |VarintOf(x)|
  {
    if x < 128 then 1 else 1 + SizeOfVarint(x / 128)
  }

  /** `now` is `before` with `bytes` between `i` and `hi`. */
  ghost predicate Wrote(now: seq<Byte>, before: seq<Byte>, i: int, hi: int, bytes: seq<Byte>) {
    && |now| == |before| && 0 <= i <= hi <= |now|
    && now[i..hi] == bytes && now[..i] == before[..i] && now[hi..] == before[hi..]
  }

  lemma WroteMore(a: seq<Byte>, b: seq<Byte>, c: seq<Byte>, i: nat, j: nat, hi: nat, x: seq<Byte>, y: seq<Byte>)
    requires Wrote(b, a, j, hi, x) && Wrote(c, b, i, j, y)
    ensures Wrote(c, a, i, hi, y + x)
  {
    assert c[j..hi] == c[j..][..hi - j] == b[j..][..hi - j] == b[j..hi];
    assert c[i..hi] == c[i..j] + c[j..hi];
    assert b[..i] == b[..j][..i] == a[..j][..i] == a[..i];
    assert c[hi..] == c[j..][hi - j..] == b[j..][hi - j..] == b[hi..];
  }

  /** EncodeVarint, a library function: the varint of `v`, ending at `offset`. */
  method EncodeVarint(dAtA: array<Byte>, offset: nat, v: nat) returns (base: nat)
    requires |VarintOf(v)| <= offset <= dAtA.Length
    modifies dAtA
    ensures base == offset - |VarintOf(v)| && Wrote(dAtA[..], old(dAtA[..]), base, offset, VarintOf(v))
  {
    base := offset - SizeOfVarint(v);
    var i, rest := base, v;
    assert VarintOf(rest) == VarintOf(v);
    while rest >= 128
      invariant base <= i && i + |VarintOf(rest)| == offset
      invariant dAtA[..base] == old(dAtA[..base]) && dAtA[offset..] == old(dAtA[offset..])
      invariant dAtA[base..i] + VarintOf(rest) == VarintOf(v)
      decreases rest
    {
      ghost var sofar := dAtA[base..i];
      dAtA[i] := rest % 128 + 128;
      assert dAtA[base..i + 1] == sofar + [rest % 128 + 128];
      rest := rest / 128;
      i := i + 1;
    }
    ghost var sofar := dAtA[base..i];
    dAtA[i] := rest;
    assert dAtA[base..i + 1] == sofar + [rest];
    assert dAtA[..][base..offset] == dAtA[base..offset] && dAtA[..][..base] == dAtA[..base]
           && dAtA[..][offset..] == dAtA[offset..];
  }

  /** copy into the buffer. */
  method CopyBytes(dAtA: array<Byte>, i: nat, b: seq<Byte>)
    requires i + |b| <= dAtA.Length
    modifies dAtA
    ensures Wrote(dAtA[..], old(dAtA[..]), i, i + |b|, b)
  {
    for k := 0 to |b|
      invariant dAtA[..i] == old(dAtA[..i]) && dAtA[i..i + k] == b[..k] && dAtA[i + k..] == old(dAtA[i + k..])
    {
      ghost var tail := dAtA[i + k..];
      dAtA[i + k] := b[k];
      assert dAtA[i..i + k + 1] == b[..k] + [b[k]] == b[..k + 1];
      assert dAtA[i + k + 1..] == tail[1..] == old(dAtA[i + k + 1..]);
    }
    assert dAtA[..][i..i + |b|] == dAtA[i..i + |b|] == b[..|b|] == b;
    assert dAtA[..][..i] == dAtA[..i] && dAtA[..][i + |b|..] == dAtA[i + |b|..];
  }

  // ----- records

  /** The tag of a record, before what is written already. */
  method PutTag(dAtA: array<Byte>, i: nat, tag: Byte) returns (j: nat)
    requires 0 < i <= dAtA.Length
    modifies dAtA
    ensures j == i - 1 && Wrote(dAtA[..], old(dAtA[..]), j, i, [tag])
  {
    j := i - 1;
    dAtA[j] := tag;
    assert dAtA[..][j..i] == [tag] && dAtA[..][i..] == dAtA[i..] == old(dAtA[i..]) == old(dAtA[..])[i..];
    assert dAtA[..][..j] == dAtA[..j] == old(dAtA[..j]) == old(dAtA[..])[..j];
  }

  /** A varint record. */
  method PutVarint(dAtA: array<Byte>, hi: nat, num: nat, v: nat) returns (i: nat)
    requires num < 16 && |EncodeField(VarF(num, v))| <= hi <= dAtA.Length
    modifies dAtA
    ensures Wrote(dAtA[..], old(dAtA[..]), i, hi, EncodeField(VarF(num, v)))
  {
    hide *;
    ghost var a := dAtA[..];
    VarFieldIs(num, v);
    i := EncodeVarint(dAtA, hi, v);
    ghost var b, j := dAtA[..], i;
    i := PutTag(dAtA, i, num * 8);
    WroteMore(a, b, dAtA[..], i, j, hi, VarintOf(v), [num * 8]);
  }

  /** The length prefix and the tag of a record whose `size` bytes are there already. */
  method PutLength(dAtA: array<Byte>, j: nat, num: nat, size: nat, ghost before: seq<Byte>, ghost hi: nat,
                   ghost b: seq<Byte>)
    returns (i: nat)
    requires num < 16 && |EncodeField(LenF(num, b))| <= hi <= dAtA.Length && size == |b|
    requires Wrote(dAtA[..], before, j, hi, b)
    modifies dAtA
    ensures Wrote(dAtA[..], before, i, hi, EncodeField(LenF(num, b)))
  {
    hide *;
    ghost var a := dAtA[..];
    LenFieldIs(num, b);
    WroteRange(a, before, j, hi, b);
    i := EncodeVarint(dAtA, j, size);
    ghost var c, k := dAtA[..], i;
    WroteMore(before, a, c, k, j, hi, b, VarintOf(size));
    i := PutTag(dAtA, i, num * 8 + 2);
    WroteMore(before, c, dAtA[..], i, k, hi, VarintOf(size) + b, [num * 8 + 2]);
  }

  /** A bytes record. */
  method PutBytes(dAtA: array<Byte>, hi: nat, num: nat, b: seq<Byte>) returns (i: nat)
    requires num < 16 && |EncodeField(LenF(num, b))| <= hi <= dAtA.Length
    modifies dAtA
    ensures Wrote(dAtA[..], old(dAtA[..]), i, hi, EncodeField(LenF(num, b)))
  {
    hide *;
    LenFieldIs(num, b);
    CopyBytes(dAtA, hi - |b|, b);
    i := PutLength(dAtA, hi - |b|, num, |b|, old(dAtA[..]), hi, b);
  }

  /** A fixed64 record. */
  method PutFixed(dAtA: array<Byte>, hi: nat, num: nat, bits: nat) returns (i: nat)
    requires num < 16 && |EncodeField(FixF(num, LE(bits, 8)))| <= hi <= dAtA.Length
    modifies dAtA
    ensures Wrote(dAtA[..], old(dAtA[..]), i, hi, EncodeField(FixF(num, LE(bits, 8))))
  {
    hide *;
    FixFieldIs(num, LE(bits, 8));
    ghost var a := dAtA[..];
    CopyBytes(dAtA, hi - 8, LE(bits, 8));
    ghost var b := dAtA[..];
    i := PutTag(dAtA, hi - 8, num * 8 + 1);
    WroteMore(a, b, dAtA[..], i, hi - 8, hi, LE(bits, 8), [num * 8 + 1]);
  }

  lemma VarFieldIs(num: nat, v: nat)
    requires num < 16
    ensures EncodeField(VarF(num, v)) == [num * 8] + VarintOf(v) && num * 8 < 256
  {
    assert VarintOf(num * 8) == [num * 8];
  }

  lemma LenFieldIs(num: nat, b: seq<Byte>)
    requires num < 16
    ensures EncodeField(LenF(num, b)) == [num * 8 + 2] + (VarintOf(|b|) + b) && num * 8 + 2 < 256
  {
    FieldBytes(LenF(num, b));
    hide EncodeField, VarintOf;
  }

  lemma FixFieldIs(num: nat, b: seq<Byte>)
    requires num < 16
    ensures EncodeField(FixF(num, b)) == [num * 8 + 1] + b && num * 8 + 1 < 256
  {
    assert VarintOf(num * 8 + 1) == [num * 8 + 1];
  }

  lemma WroteRange(now: seq<Byte>, before: seq<Byte>, i: nat, hi: nat, b: seq<Byte>)
    requires Wrote(now, before, i, hi, b)
    ensures i + |b| == hi <= |now| == |before|
  {
  }

  // ----- writing a message from its last record to its first

  /** The records from the `k`-th on are written, and there is room for the others. */
  ghost predicate Writing(now: seq<Byte>, before: seq<Byte>, i: int, hi: int, fs: seq<Field>, k: int)
  {
    0 <= k <= |fs| && Wrote(now, before, i, hi, Encode(fs[k..])) && i >= |Encode(fs[..k])|
  }

  lemma {:induction false} EncodeAppend(a: seq<Field>, b: seq<Field>)
    ensures Encode(a + b) == Encode(a) + Encode(b)
    decreases |a|
  {
    assert forall f | f in a :: f in a + b;
    assert forall f | f in b :: f in a + b;
    if a == [] {
      assert a + b == b;
    } else {
      assert (a + b)[0] == a[0] && (a + b)[1..] == a[1..] + b;
      EncodeAppend(a[1..], b);
    }
  }

  lemma WritingStarts(now: seq<Byte>, hi: nat, fs: seq<Field>)
    requires |Encode(fs)| <= hi <= |now|
    ensures Writing(now, now, hi, hi, fs, |fs|)
  {
    assert fs[|fs|..] == [] && fs[..|fs|] == fs;
  }

  lemma Room(now: seq<Byte>, before: seq<Byte>, i: nat, hi: nat, fs: seq<Field>, k: nat)
    requires 0 < k <= |fs| && Writing(now, before, i, hi, fs, k)
    ensures |EncodeField(fs[k - 1])| <= i <= hi <= |now|
  {
    assert fs[..k] == fs[..k - 1] + [fs[k - 1]];
    EncodeAppend(fs[..k - 1], [fs[k - 1]]);
    OneField(fs[k - 1]);
  }

  lemma OneField(f: Field)
    ensures Encode([f]) == EncodeField(f)
  {
    assert [f][1..] == [];
  }

  lemma WriteStep(now: seq<Byte>, now': seq<Byte>, before: seq<Byte>, i: nat, i': nat, hi: nat, fs: seq<Field>, k: nat)
    requires 0 < k <= |fs| && Writing(now, before, i, hi, fs, k)
    requires Wrote(now', now, i', i, EncodeField(fs[k - 1]))
    ensures Writing(now', before, i', hi, fs, k - 1)
  {
    assert fs[k - 1..] == [fs[k - 1]] + fs[k..] && fs[..k] == fs[..k - 1] + [fs[k - 1]];
    EncodeAppend([fs[k - 1]], fs[k..]);
    EncodeAppend(fs[..k - 1], [fs[k - 1]]);
    OneField(fs[k - 1]);
    WroteMore(before, now, now', i', i, hi, Encode(fs[k..]), EncodeField(fs[k - 1]));
  }

  lemma WritingEnds(now: seq<Byte>, before: seq<Byte>, i: nat, hi: nat, fs: seq<Field>)
    requires Writing(now, before, i, hi, fs, 0)
    ensures Wrote(now, before, i, hi, Encode(fs)) && i + |Encode(fs)| == hi
  {
    assert fs[0..] == fs;
  }

  /** Where a part of the records stands in the whole. */
  ghost predicate PartAt(fs: seq<Field>, k: int, part: seq<Field>) {
    0 <= k <= k + |part| <= |fs| && fs[k..k + |part|] == part
  }

  lemma PartElement(fs: seq<Field>, k: nat, part: seq<Field>, j: nat)
    requires PartAt(fs, k, part) && j < |part|
    ensures fs[k + j] == part[j] && k + j < |fs|
  {
    assert fs[k..k + |part|][j] == fs[k + j];
  }

  lemma PartMeans(fs: seq<Field>, k: nat, part: seq<Field>)
    requires PartAt(fs, k, part)
    ensures k + |part| <= |fs|
  {
  }

  lemma OptFields(num: nat, v: nat, b: seq<Byte>, bits: nat)
    ensures VarField(num, v) == if v == 0 then [] else [VarF(num, v)]
    ensures BytesField(num, b) == if b == [] then [] else [LenF(num, b)]
    ensures FloatField(num, bits) == if bits == 0 || bits == TWO63 then [] else [FixF(num, LE(bits, 8))]
  {
  }

  /** A varint field, unless it holds its default. */
  method WriteVarint(dAtA: array<Byte>, hi: nat, num: nat, v: nat, ghost before: seq<Byte>, ghost top: nat,
                     ghost fs: seq<Field>, ghost k: nat)
    returns (i: nat)
    requires num < 16 && PartAt(fs, k, VarField(num, v))
    requires Writing(dAtA[..], before, hi, top, fs, k + |VarField(num, v)|)
    modifies dAtA
    ensures Writing(dAtA[..], before, i, top, fs, k)
  {
    hide *;
    i := hi;
    PartMeans(fs, k, VarField(num, v));
    OptFields(num, v, [], 0);
    if v != 0 {
      ghost var now := dAtA[..];
      PartElement(fs, k, VarField(num, v), 0);
      Room(now, before, hi, top, fs, k + 1);
      i := PutVarint(dAtA, hi, num, v);
      WriteStep(now, dAtA[..], before, hi, i, top, fs, k + 1);
    }
  }

  /** A bytes field, unless it is empty. */
  method WriteBytes(dAtA: array<Byte>, hi: nat, num: nat, b: seq<Byte>, ghost before: seq<Byte>, ghost top: nat,
                    ghost fs: seq<Field>, ghost k: nat)
    returns (i: nat)
    requires num < 16 && PartAt(fs, k, BytesField(num, b))
    requires Writing(dAtA[..], before, hi, top, fs, k + |BytesField(num, b)|)
    modifies dAtA
    ensures Writing(dAtA[..], before, i, top, fs, k)
  {
    hide *;
    i := hi;
    PartMeans(fs, k, BytesField(num, b));
    OptFields(num, 0, b, 0);
    if |b| > 0 {
      ghost var now := dAtA[..];
      PartElement(fs, k, BytesField(num, b), 0);
      Room(now, before, hi, top, fs, k + 1);
      i := PutBytes(dAtA, hi, num, b);
      WriteStep(now, dAtA[..], before, hi, i, top, fs, k + 1);
    }
  }

  /** A double field, unless it compares equal to zero. */
  method WriteFloat(dAtA: array<Byte>, hi: nat, num: nat, bits: nat, ghost before: seq<Byte>, ghost top: nat,
                    ghost fs: seq<Field>, ghost k: nat)
    returns (i: nat)
    requires num < 16 && PartAt(fs, k, FloatField(num, bits))
    requires Writing(dAtA[..], before, hi, top, fs, k + |FloatField(num, bits)|)
    modifies dAtA
    ensures Writing(dAtA[..], before, i, top, fs, k)
  {
    hide *;
    i := hi;
    PartMeans(fs, k, FloatField(num, bits));
    OptFields(num, 0, [], bits);
    if bits != 0 && bits != TWO63 {
      ghost var now := dAtA[..];
      PartElement(fs, k, FloatField(num, bits), 0);
      Room(now, before, hi, top, fs, k + 1);
      i := PutFixed(dAtA, hi, num, bits);
      WriteStep(now, dAtA[..], before, hi, i, top, fs, k + 1);
    }
  }

  /** The prefix of a nested message that has just been written below `hi`. */
  method WriteLength(dAtA: array<Byte>, hi: nat, num: nat, size: nat, ghost now: seq<Byte>, ghost b: seq<Byte>,
                     ghost before: seq<Byte>, ghost top: nat, ghost fs: seq<Field>, ghost k: nat)
    returns (i: nat)
    requires num < 16 && PartAt(fs, k, [LenF(num, b)]) && Writing(now, before, hi, top, fs, k + 1)
    requires size == |b| <= hi && Wrote(dAtA[..], now, hi - size, hi, b)
    modifies dAtA
    ensures Writing(dAtA[..], before, i, top, fs, k)
  {
    hide *;
    PartElement(fs, k, [LenF(num, b)], 0);
    Room(now, before, hi, top, fs, k + 1);
    WroteRange(dAtA[..], now, hi - size, hi, b);
    i := PutLength(dAtA, hi - size, num, size, now, hi, b);
    WriteStep(now, dAtA[..], before, hi, i, top, fs, k + 1);
  }

  /** There is room for a nested message. */
  lemma NestedRoom(now: seq<Byte>, before: seq<Byte>, i: nat, top: nat, fs: seq<Field>, k: nat, num: nat, b: seq<Byte>)
    requires PartAt(fs, k, [LenF(num, b)]) && Writing(now, before, i, top, fs, k + 1)
    ensures |b| <= i <= |now|
  {
    PartElement(fs, k, [LenF(num, b)], 0);
    Room(now, before, i, top, fs, k + 1);
  }

  lemma EachAt(fs: seq<Field>, k: nat, num: nat, bs: seq<seq<Byte>>, j: nat)
    requires PartAt(fs, k, Each(num, bs)) && j < |bs|
    ensures PartAt(fs, k + j, [LenF(num, bs[j])])
  {
    PartElement(fs, k, Each(num, bs), j);
    assert fs[k + j..k + j + 1] == [fs[k + j]];
  }

  // ----- FieldArgument

  method MarshalArg(m: FieldArgument, dAtA: array<Byte>, hi: nat) returns (n: nat)
    requires |EncodeArg(m)| <= hi <= dAtA.Length
    modifies dAtA
    ensures n == |EncodeArg(m)| && Wrote(dAtA[..], old(dAtA[..]), hi - n, hi, EncodeArg(m))
  {
    hide *;
    ghost var before, fs, a, b := dAtA[..], ArgFields(m), BytesField(1, m.name), VarField(2, m.variableId);
    ArgParts(m);
    WritingStarts(before, hi, fs);
    var i := WriteVarint(dAtA, hi, 2, m.variableId, before, hi, fs, |a|);
    i := WriteBytes(dAtA, i, 1, m.name, before, hi, fs, 0);
    WritingEnds(dAtA[..], before, i, hi, fs);
    n := hi - i;
  }

  lemma ArgParts(m: FieldArgument)
    ensures var fs, a, b := ArgFields(m), BytesField(1, m.name), VarField(2, m.variableId);
            |fs| == |a| + |b| && PartAt(fs, 0, a) && PartAt(fs, |a|, b) && EncodeArg(m) == Encode(fs)
  {
  }

  /** The records of the arguments, last one first. */
  method WriteArgs(dAtA: array<Byte>, hi: nat, num: nat, args: seq<FieldArgument>, ghost before: seq<Byte>,
                   ghost top: nat, ghost fs: seq<Field>, ghost k: nat)
    returns (i: nat)
    requires num < 16 && PartAt(fs, k, Each(num, ArgsBytes(args))) && Writing(dAtA[..], before, hi, top, fs, k + |args|)
    modifies dAtA
    ensures Writing(dAtA[..], before, i, top, fs, k)
  {
    hide *;
    PartMeans(fs, k, Each(num, ArgsBytes(args)));
    ArgsLength(num, args);
    i := hi;
    var iNdEx := |args|;
    while iNdEx > 0
      invariant 0 <= iNdEx <= |args| && Writing(dAtA[..], before, i, top, fs, k + iNdEx)
    {
      iNdEx := iNdEx - 1;
      ghost var now, b := dAtA[..], EncodeArg(args[iNdEx]);
      EachAt(fs, k, num, ArgsBytes(args), iNdEx);
      NestedRoom(now, before, i, top, fs, k + iNdEx, num, b);
      var size := MarshalArg(args[iNdEx], dAtA, i);
      i := WriteLength(dAtA, i, num, size, now, b, before, top, fs, k + iNdEx);
    }
  }

  lemma ArgsLength(num: nat, args: seq<FieldArgument>)
    ensures |Each(num, ArgsBytes(args))| == |ArgsBytes(args)| == |args|
    ensures forall j | 0 <= j < |args| :: ArgsBytes(args)[j] == EncodeArg(args[j])
  {
  }

  // ----- RGQLQueryFieldDirective

  method MarshalDirective(m: Directive, dAtA: array<Byte>, hi: nat) returns (n: nat)
    requires |EncodeDirective(m)| <= hi <= dAtA.Length
    modifies dAtA
    ensures n == |EncodeDirective(m)| && Wrote(dAtA[..], old(dAtA[..]), hi - n, hi, EncodeDirective(m))
  {
    hide *;
    ghost var before, fs, a := dAtA[..], DirectiveFields(m), BytesField(1, m.name);
    DirectiveParts(m);
    WritingStarts(before, hi, fs);
    var i := WriteArgs(dAtA, hi, 2, m.args, before, hi, fs, |a|);
    i := WriteBytes(dAtA, i, 1, m.name, before, hi, fs, 0);
    WritingEnds(dAtA[..], before, i, hi, fs);
    n := hi - i;
  }

  lemma DirectiveParts(m: Directive)
    ensures var fs, a, b := DirectiveFields(m), BytesField(1, m.name), Each(2, ArgsBytes(m.args));
            |fs| == |a| + |m.args| && PartAt(fs, 0, a) && PartAt(fs, |a|, b) && EncodeDirective(m) == Encode(fs)
  {
    ArgsLength(2, m.args);
  }

  /** The records of the directives, last one first. */
  method WriteDirectives(dAtA: array<Byte>, hi: nat, ds: seq<Directive>, ghost before: seq<Byte>, ghost top: nat,
                         ghost fs: seq<Field>, ghost k: nat)
    returns (i: nat)
    requires PartAt(fs, k, Each(4, DirectivesBytes(ds))) && Writing(dAtA[..], before, hi, top, fs, k + |ds|)
    modifies dAtA
    ensures Writing(dAtA[..], before, i, top, fs, k)
  {
    hide *;
    PartMeans(fs, k, Each(4, DirectivesBytes(ds)));
    DirectivesLength(ds);
    i := hi;
    var iNdEx := |ds|;
    while iNdEx > 0
      invariant 0 <= iNdEx <= |ds| && Writing(dAtA[..], before, i, top, fs, k + iNdEx)
    {
      iNdEx := iNdEx - 1;
      ghost var now, b := dAtA[..], EncodeDirective(ds[iNdEx]);
      EachAt(fs, k, 4, DirectivesBytes(ds), iNdEx);
      NestedRoom(now, before, i, top, fs, k + iNdEx, 4, b);
      var size := MarshalDirective(ds[iNdEx], dAtA, i);
      i := WriteLength(dAtA, i, 4, size, now, b, before, top, fs, k + iNdEx);
    }
  }

  lemma DirectivesLength(ds: seq<Directive>)
    ensures |Each(4, DirectivesBytes(ds))| == |DirectivesBytes(ds)| == |ds|
    ensures forall j | 0 <= j < |ds| :: DirectivesBytes(ds)[j] == EncodeDirective(ds[j])
  {
  }

  // ----- RGQLQueryTreeNode

  /** MarshalToSizedBufferVT of a whole subtree: exactly its encoding, right below `hi`. */
  method MarshalNode(m: TreeNode, dAtA: array<Byte>, hi: nat) returns (n: nat)
    requires |EncodeNode(m)| <= hi <= dAtA.Length
    modifies dAtA
    ensures n == |EncodeNode(m)| && Wrote(dAtA[..], old(dAtA[..]), hi - n, hi, EncodeNode(m))
    decreases m
  {
    hide *;
    ghost var before, fs := dAtA[..], NodeFields(m);
    ghost var a := |VarField(1, m.id)|;
    ghost var b := a + |BytesField(2, m.fieldName)|;
    ghost var c := b + |m.args|;
    ghost var d := c + |m.directive|;
    NodeParts(m);
    ChildrenLength(m.children);
    PartMeans(fs, d, Each(5, ChildrenBytes(m.children)));
    WritingStarts(before, hi, fs);
    var i := hi;
    var iNdEx := |m.children|;
    while iNdEx > 0
      invariant 0 <= iNdEx <= |m.children| && Writing(dAtA[..], before, i, hi, fs, d + iNdEx)
    {
      iNdEx := iNdEx - 1;
      ghost var now, bytes := dAtA[..], EncodeNode(m.children[iNdEx]);
      EachAt(fs, d, 5, ChildrenBytes(m.children), iNdEx);
      NestedRoom(now, before, i, hi, fs, d + iNdEx, 5, bytes);
      var size := MarshalNode(m.children[iNdEx], dAtA, i);
      i := WriteLength(dAtA, i, 5, size, now, bytes, before, hi, fs, d + iNdEx);
    }
    i := WriteDirectives(dAtA, i, m.directive, before, hi, fs, c);
    i := WriteArgs(dAtA, i, 3, m.args, before, hi, fs, b);
    i := WriteBytes(dAtA, i, 2, m.fieldName, before, hi, fs, a);
    i := WriteVarint(dAtA, i, 1, m.id, before, hi, fs, 0);
    WritingEnds(dAtA[..], before, i, hi, fs);
    n := hi - i;
  }

  lemma ChildrenLength(cs: seq<TreeNode>)
    ensures |Each(5, ChildrenBytes(cs))| == |ChildrenBytes(cs)| == |cs|
    ensures forall j | 0 <= j < |cs| :: ChildrenBytes(cs)[j] == EncodeNode(cs[j])
  {
  }

  lemma PartOf(p: seq<Field>, q: seq<Field>, r: seq<Field>)
    ensures PartAt(p + q + r, |p|, q)
  {
  }

  lemma NodeParts(m: TreeNode)
    ensures var fs := NodeFields(m);
            var a := |VarField(1, m.id)|;
            var b := a + |BytesField(2, m.fieldName)|;
            var c := b + |m.args|;
            var d := c + |m.directive|;
            && PartAt(fs, 0, VarField(1, m.id)) && PartAt(fs, a, BytesField(2, m.fieldName))
            && PartAt(fs, b, Each(3, ArgsBytes(m.args))) && PartAt(fs, c, Each(4, DirectivesBytes(m.directive)))
            && PartAt(fs, d, Each(5, ChildrenBytes(m.children))) && |fs| == d + |m.children|
            && EncodeNode(m) == Encode(fs)
  {
    hide VarField, BytesField, Each, ArgsBytes, DirectivesBytes, ChildrenBytes, NodeFields, EncodeNode, Encode, PartAt;
    var fs := NodeFields(m);
    var v, w, x, y, z := VarField(1, m.id), BytesField(2, m.fieldName), Each(3, ArgsBytes(m.args)),
      Each(4, DirectivesBytes(m.directive)), Each(5, ChildrenBytes(m.children));
    NodeFieldsAre(m);
    ArgsLength(3, m.args);
    DirectivesLength(m.directive);
    ChildrenLength(m.children);
    FiveParts(fs, v, w, x, y, z);
  }

  // ----- RGQLPrimitive and RGQLValue

  /** uint64 of an int32: the sign is extended. */
  function Uint64(v: Int32): (n: nat)
    ensures n == SignExtended(v)
  {
    if v < 0 then v + TWO64 else v
  }

  method MarshalPrimitive(p: Primitive, dAtA: array<Byte>, hi: nat) returns (n: nat)
    requires |EncodePrimitive(p)| <= hi <= dAtA.Length
    modifies dAtA
    ensures n == |EncodePrimitive(p)| && Wrote(dAtA[..], old(dAtA[..]), hi - n, hi, EncodePrimitive(p))
  {
    hide *;
    ghost var before, fs := dAtA[..], PrimitiveFields(p);
    ghost var a := |VarField(1, SignExtended(p.kind))|;
    ghost var b := a + |VarField(2, SignExtended(p.intValue))|;
    ghost var c := b + |FloatField(3, p.floatBits)|;
    ghost var d := c + |BytesField(4, p.stringValue)|;
    PrimitiveParts(p);
    WritingStarts(before, hi, fs);
    var i := WriteVarint(dAtA, hi, 5, if p.boolValue then 1 else 0, before, hi, fs, d);
    i := WriteBytes(dAtA, i, 4, p.stringValue, before, hi, fs, c);
    i := WriteFloat(dAtA, i, 3, p.floatBits, before, hi, fs, b);
    i := WriteVarint(dAtA, i, 2, Uint64(p.intValue), before, hi, fs, a);
    i := WriteVarint(dAtA, i, 1, Uint64(p.kind), before, hi, fs, 0);
    WritingEnds(dAtA[..], before, i, hi, fs);
    n := hi - i;
  }

  lemma PrimitiveParts(p: Primitive)
    ensures var fs := PrimitiveFields(p);
            var v, w, x, y, z := VarField(1, SignExtended(p.kind)), VarField(2, SignExtended(p.intValue)),
              FloatField(3, p.floatBits),
                                 BytesField(4, p.stringValue), VarField(5, if p.boolValue then 1 else 0);
            var a := |v|; var b := a + |w|; var c := b + |x|; var d := c + |y|;
            && PartAt(fs, 0, v) && PartAt(fs, a, w) && PartAt(fs, b, x) && PartAt(fs, c, y) && PartAt(fs, d, z)
            && |fs| == d + |z|
            && EncodePrimitive(p) == Encode(fs)
  {
    hide *;
    PrimitiveFieldsAre(p);
    FiveParts(PrimitiveFields(p), VarField(1, SignExtended(p.kind)), VarField(2, SignExtended(p.intValue)),
      FloatField(3, p.floatBits),
              BytesField(4, p.stringValue), VarField(5, if p.boolValue then 1 else 0));
  }

  lemma PrimitiveFieldsAre(p: Primitive)
    ensures PrimitiveFields(p) ==
            VarField(1, SignExtended(p.kind)) + VarField(2, SignExtended(p.intValue)) + FloatField(3, p.floatBits)
            + BytesField(4, p.stringValue) + VarField(5, if p.boolValue then 1 else 0)
    ensures EncodePrimitive(p) == Encode(PrimitiveFields(p))
  {
  }

  lemma FiveParts(fs: seq<Field>, v: seq<Field>, w: seq<Field>, x: seq<Field>, y: seq<Field>, z: seq<Field>)
    requires fs == v + w + x + y + z
    ensures PartAt(fs, 0, v) && PartAt(fs, |v|, w) && PartAt(fs, |v| + |w|, x) && PartAt(fs, |v| + |w| + |x|, y)
    ensures PartAt(fs, |v| + |w| + |x| + |y|, z) && |fs| == |v| + |w| + |x| + |y| + |z|
  {
    hide PartAt;
    Regroup(v, w, x, y, z);
    PartOf([], v, w + x + y + z);
    PartOf(v, w, x + y + z);
    PartOf(v + w, x, y + z);
    PartOf(v + w + x, y, z);
    PartOf(v + w + x + y, z, []);
  }

  lemma Regroup(v: seq<Field>, w: seq<Field>, x: seq<Field>, y: seq<Field>, z: seq<Field>)
    ensures
      var fs := v + w + x + y + z;
      && fs == [] + v + (w + x + y + z) && fs == v + w + (x + y + z)
      && fs == (v + w) + x + (y + z) && fs == (v + w + x) + y + z && fs == (v + w + x + y) + z + []
  {
    Reassociate(v, w, x);
    Reassociate(v + w, x, y);
    Reassociate(v + w + x, y, z);
    Reassociate(v, w, x + y);
    Reassociate(v + w, x, y + z);
    Reassociate(v, w + x, y);
    Reassociate(v, w, x + y + z);
    Reassociate(w, x, y + z);
    Reassociate(w + x, y, z);
    Reassociate(x, y, z);
    Reassociate(w, x, y);
  }

  lemma Reassociate(a: seq<Field>, b: seq<Field>, c: seq<Field>)
    ensures a + b + c == a + (b + c) && [] + a == a && a + [] == a
  {
  }

  method MarshalValue(v: RGQLValue, dAtA: array<Byte>, hi: nat) returns (n: nat)
    requires |EncodeValue(v)| <= hi <= dAtA.Length
    modifies dAtA
    ensures n == |EncodeValue(v)| && Wrote(dAtA[..], old(dAtA[..]), hi - n, hi, EncodeValue(v))
  {
    hide *;
    ghost var before, fs := dAtA[..], ValueFields(v);
    ghost var a := |VarField(1, v.queryNodeId)|;
    ghost var b := a + |VarField(2, v.arrayIndex)|;
    ghost var c := b + |VarField(3, v.posIdentifier)|;
    ghost var d := c + |NestedField(v)|;
    ValueParts(v);
    NestedIs(v);
    WritingStarts(before, hi, fs);
    var i := WriteBytes(dAtA, hi, 5, v.error, before, hi, fs, d);
    if v.value.Some? {
      ghost var now, bytes := dAtA[..], EncodePrimitive(v.value.value);
      NestedRoom(now, before, i, hi, fs, c, 4, bytes);
      var size := MarshalPrimitive(v.value.value, dAtA, i);
      i := WriteLength(dAtA, i, 4, size, now, bytes, before, hi, fs, c);
    }
    i := WriteVarint(dAtA, i, 3, v.posIdentifier, before, hi, fs, b);
    i := WriteVarint(dAtA, i, 2, v.arrayIndex, before, hi, fs, a);
    i := WriteVarint(dAtA, i, 1, v.queryNodeId, before, hi, fs, 0);
    WritingEnds(dAtA[..], before, i, hi, fs);
    n := hi - i;
  }

  lemma NestedIs(v: RGQLValue)
    ensures NestedField(v) == if v.value.Some? then [LenF(4, EncodePrimitive(v.value.value))] else []
  {
  }

  lemma ValueParts(v: RGQLValue)
    ensures var fs := ValueFields(v);
            var p, q, r, x, y := VarField(1, v.queryNodeId), VarField(2, v.arrayIndex), VarField(3, v.posIdentifier),
              NestedField(v), BytesField(5, v.error);
            var a := |p|; var b := a + |q|; var c := b + |r|; var d := c + |x|;
            && PartAt(fs, 0, p) && PartAt(fs, a, q) && PartAt(fs, b, r) && PartAt(fs, c, x) && PartAt(fs, d, y)
            && |fs| == d + |y|
            && EncodeValue(v) == Encode(fs)
  {
    hide *;
    ValueFieldsAre(v);
    FiveParts(ValueFields(v), VarField(1, v.queryNodeId), VarField(2, v.arrayIndex), VarField(3, v.posIdentifier),
      NestedField(v), BytesField(5, v.error));
  }

  lemma ValueFieldsAre(v: RGQLValue)
    ensures ValueFields(v) ==
            VarField(1, v.queryNodeId) + VarField(2, v.arrayIndex) + VarField(3, v.posIdentifier) + NestedField(v)
              + BytesField(5, v.error)
    ensures EncodeValue(v) == Encode(ValueFields(v))
  {
  }

  // ----- SizeVT

  lemma OptSizes(num: nat, v: nat, b: seq<Byte>, bits: nat)
    requires num < 16
    ensures |Encode(VarField(num, v))| == if v == 0 then 0 else 1 + SizeOfVarint(v)
    ensures |Encode(BytesField(num, b))| == if b == [] then 0 else 1 + |b| + SizeOfVarint(|b|)
    ensures |Encode(FloatField(num, bits))| == if bits == 0 || bits == TWO63 then 0 else 9
  {
    OneField(VarF(num, v));
    OneField(LenF(num, b));
    OneField(FixF(num, LE(bits, 8)));
  }

  lemma EachSize(num: nat, bs: seq<seq<Byte>>, i: nat)
    requires num < 16 && i < |bs|
    ensures |Encode(Each(num, bs[..i + 1]))| == |Encode(Each(num, bs[..i]))| + 1 + |bs[i]| + SizeOfVarint(|bs[i]|)
  {
    assert Each(num, bs[..i + 1]) == Each(num, bs[..i]) + [LenF(num, bs[i])];
    EncodeAppend(Each(num, bs[..i]), [LenF(num, bs[i])]);
    OneField(LenF(num, bs[i]));
  }

  lemma EachNone(num: nat, bs: seq<seq<Byte>>)
    requires num < 16
    ensures |Encode(Each(num, bs[..0]))| == 0 && bs[..|bs|] == bs
  {
  }

  method SizeArg(m: FieldArgument) returns (n: nat)
    ensures n == |EncodeArg(m)|
  {
    hide *;
    ArgParts(m);
    OptSizes(1, 0, m.name, 0);
    OptSizes(2, m.variableId, [], 0);
    ArgSum(m);
    n := 0;
    if |m.name| > 0 { n := n + 1 + |m.name| + SizeOfVarint(|m.name|); }
    if m.variableId != 0 { n := n + 1 + SizeOfVarint(m.variableId); }
  }

  lemma ArgSum(m: FieldArgument)
    ensures |EncodeArg(m)| == |Encode(BytesField(1, m.name))| + |Encode(VarField(2, m.variableId))|
  {
    EncodeAppend(BytesField(1, m.name), VarField(2, m.variableId));
  }

  method SizeArgs(num: nat, args: seq<FieldArgument>) returns (n: nat)
    requires num < 16
    ensures n == |Encode(Each(num, ArgsBytes(args)))|
  {
    hide *;
    ghost var bs := ArgsBytes(args);
    ArgsLength(num, args);
    EachNone(num, bs);
    n := 0;
    for i := 0 to |args|
      invariant n == |Encode(Each(num, bs[..i]))|
    {
      EachSize(num, bs, i);
      var l := SizeArg(args[i]);
      n := n + 1 + l + SizeOfVarint(l);
    }
  }

  method SizeDirective(m: Directive) returns (n: nat)
    ensures n == |EncodeDirective(m)|
  {
    hide *;
    OptSizes(1, 0, m.name, 0);
    DirectiveSum(m);
    n := 0;
    if |m.name| > 0 { n := n + 1 + |m.name| + SizeOfVarint(|m.name|); }
    var l := SizeArgs(2, m.args);
    n := n + l;
  }

  lemma DirectiveSum(m: Directive)
    ensures |EncodeDirective(m)| == |Encode(BytesField(1, m.name))| + |Encode(Each(2, ArgsBytes(m.args)))|
  {
    EncodeAppend(BytesField(1, m.name), Each(2, ArgsBytes(m.args)));
  }

  /** SizeVT of a whole subtree is exact, through every nested length prefix. */
  method SizeNode(m: TreeNode) returns (n: nat)
    ensures n == |EncodeNode(m)|
    decreases m
  {
    hide *;
    OptSizes(1, m.id, [], 0);
    OptSizes(2, 0, m.fieldName, 0);
    NodeSum(m);
    n := 0;
    if m.id != 0 { n := n + 1 + SizeOfVarint(m.id); }
    if |m.fieldName| > 0 { n := n + 1 + |m.fieldName| + SizeOfVarint(|m.fieldName|); }
    var a := SizeArgs(3, m.args);
    n := n + a;
    ghost var ds, cs := DirectivesBytes(m.directive), ChildrenBytes(m.children);
    DirectivesLength(m.directive);
    EachNone(4, ds);
    ghost var n1 := n;
    for i := 0 to |m.directive|
      invariant n == n1 + |Encode(Each(4, ds[..i]))|
    {
      EachSize(4, ds, i);
      var l := SizeDirective(m.directive[i]);
      n := n + 1 + l + SizeOfVarint(l);
    }
    ChildrenLength(m.children);
    EachNone(5, cs);
    ghost var n2 := n;
    for i := 0 to |m.children|
      invariant n == n2 + |Encode(Each(5, cs[..i]))|
    {
      EachSize(5, cs, i);
      var l := SizeNode(m.children[i]);
      n := n + 1 + l + SizeOfVarint(l);
    }
  }

  lemma NodeSum(m: TreeNode)
    ensures |EncodeNode(m)| ==
            |Encode(VarField(1, m.id))| + |Encode(BytesField(2, m.fieldName))| + |Encode(Each(3, ArgsBytes(m.args)))|
            + |Encode(Each(4, DirectivesBytes(m.directive)))| + |Encode(Each(5, ChildrenBytes(m.children)))|
  {
    NodeFieldsAre(m);
    FiveSizes(NodeFields(m), VarField(1, m.id), BytesField(2, m.fieldName), Each(3, ArgsBytes(m.args)),
      Each(4, DirectivesBytes(m.directive)), Each(5, ChildrenBytes(m.children)));
  }

  ghost function SizeOf(fs: seq<Field>): nat {
    |Encode(fs)|
  }

  lemma TwoSizes(a: seq<Field>, b: seq<Field>)
    ensures SizeOf(a + b) == SizeOf(a) + SizeOf(b)
  {
    EncodeAppend(a, b);
  }

  lemma FiveSizes(fs: seq<Field>, v: seq<Field>, w: seq<Field>, x: seq<Field>, y: seq<Field>, z: seq<Field>)
    requires fs == v + w + x + y + z
    ensures SizeOf(fs) == SizeOf(v) + SizeOf(w) + SizeOf(x) + SizeOf(y) + SizeOf(z)
  {
    hide *;
    TwoSizes(v, w);
    TwoSizes(v + w, x);
    TwoSizes(v + w + x, y);
    TwoSizes(v + w + x + y, z);
  }

  method SizePrimitive(p: Primitive) returns (n: nat)
    ensures n == |EncodePrimitive(p)|
  {
    hide *;
    PrimitiveSum(p);
    OptSizes(1, Uint64(p.kind), [], 0);
    OptSizes(2, Uint64(p.intValue), [], 0);
    OptSizes(3, 0, [], p.floatBits);
    OptSizes(4, 0, p.stringValue, 0);
    OptSizes(5, if p.boolValue then 1 else 0, [], 0);
    SignZero(p.kind);
    SignZero(p.intValue);
    n := 0;
    if p.kind != 0 { n := n + 1 + SizeOfVarint(Uint64(p.kind)); }
    if p.intValue != 0 { n := n + 1 + SizeOfVarint(Uint64(p.intValue)); }
    if p.floatBits != 0 && p.floatBits != TWO63 { n := n + 9; }
    if |p.stringValue| > 0 { n := n + 1 + |p.stringValue| + SizeOfVarint(|p.stringValue|); }
    if p.boolValue { n := n + 2; }
  }

  lemma SignZero(v: Int32)
    ensures Uint64(v) == 0 <==> v == 0
    ensures SizeOfVarint(1) == 1
  {
  }

  lemma PrimitiveSum(p: Primitive)
    ensures |EncodePrimitive(p)| ==
            |Encode(VarField(1, Uint64(p.kind)))| + |Encode(VarField(2, Uint64(p.intValue)))|
              + |Encode(FloatField(3, p.floatBits))|
            + |Encode(BytesField(4, p.stringValue))| + |Encode(VarField(5, if p.boolValue then 1 else 0))|
  {
    FiveSizes(PrimitiveFields(p), VarField(1, Uint64(p.kind)), VarField(2, Uint64(p.intValue)),
      FloatField(3, p.floatBits),
              BytesField(4, p.stringValue), VarField(5, if p.boolValue then 1 else 0));
  }

  method SizeValue(v: RGQLValue) returns (n: nat)
    ensures n == |EncodeValue(v)|
  {
    hide *;
    ValueSum(v);
    NestedIs(v);
    OptSizes(1, v.queryNodeId, [], 0);
    OptSizes(2, v.arrayIndex, [], 0);
    OptSizes(3, v.posIdentifier, [], 0);
    OptSizes(5, 0, v.error, 0);
    n := 0;
    if v.queryNodeId != 0 { n := n + 1 + SizeOfVarint(v.queryNodeId); }
    if v.arrayIndex != 0 { n := n + 1 + SizeOfVarint(v.arrayIndex); }
    if v.posIdentifier != 0 { n := n + 1 + SizeOfVarint(v.posIdentifier); }
    if v.value.Some? {
      NestedSize(EncodePrimitive(v.value.value));
      var l := SizePrimitive(v.value.value);
      n := n + 1 + l + SizeOfVarint(l);
    } else {
      NoneSize();
    }
    if |v.error| > 0 { n := n + 1 + |v.error| + SizeOfVarint(|v.error|); }
  }

  lemma NestedSize(b: seq<Byte>)
    ensures |Encode([LenF(4, b)])| == 1 + |b| + SizeOfVarint(|b|)
  {
    OneField(LenF(4, b));
  }

  lemma NoneSize()
    ensures |Encode([])| == 0
  {
  }

  lemma ValueSum(v: RGQLValue)
    ensures |EncodeValue(v)| ==
            |Encode(VarField(1, v.queryNodeId))| + |Encode(VarField(2, v.arrayIndex))|
              + |Encode(VarField(3, v.posIdentifier))|
            + |Encode(NestedField(v))| + |Encode(BytesField(5, v.error))|
  {
    FiveSizes(ValueFields(v), VarField(1, v.queryNodeId), VarField(2, v.arrayIndex), VarField(3, v.posIdentifier),
      NestedField(v), BytesField(5, v.error));
  }

  // ----- MarshalVT

  /** A buffer of exactly that size is filled from end to end. */
  lemma Filled(now: seq<Byte>, before: seq<Byte>, n: nat, bytes: seq<Byte>)
    requires |bytes| == n == |now| && Wrote(now, before, 0, n, bytes)
    ensures now == bytes
  {
  }

  method MarshalVTNode(m: TreeNode) returns (out: seq<Byte>)
    ensures out == EncodeNode(m)
    ensures NodeOk(m) && |out| < TWO63 ==> forall m' :: NodeSays(out, m') <==> m' == m
  {
    if NodeOk(m) && |EncodeNode(m)| < TWO63 { NodeSaysItself(m); }
    hide *;
    var size := SizeNode(m);
    var dAtA := new Byte[size];
    ghost var before := dAtA[..];
    var n := MarshalNode(m, dAtA, size);
    Filled(dAtA[..], before, n, EncodeNode(m));
    out := dAtA[..n];
  }

  method MarshalVTValue(v: RGQLValue) returns (out: seq<Byte>)
    ensures out == EncodeValue(v)
    ensures ValueOk(v) && |out| < TWO63 ==> forall v' :: ValueSays(out, v') <==> v' == ValueBack(v)
  {
    if ValueOk(v) && |EncodeValue(v)| < TWO63 { ValueSaysItself(v); }
    hide *;
    var size := SizeValue(v);
    var dAtA := new Byte[size];
    ghost var before := dAtA[..];
    var n := MarshalValue(v, dAtA, size);
    Filled(dAtA[..], before, n, EncodeValue(v));
    out := dAtA[..n];
  }
}
