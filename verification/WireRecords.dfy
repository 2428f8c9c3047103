/** What the parser accepts, independently of how it reads: the wire format as a relation between bytes
    and records (Protocol Buffers Encoding guide, sections "Base 128 Varints", "Message Structure" and
    "Length-Delimited Records"). An accepted slice is a row of whole records; cut anywhere else it is
    refused for its end. */
module WireRecords {
  import opened Messages
  import opened WireSpec
  import opened WireProofs

  // ----- varints

  /** Every byte but the last says that more follow, and there are ten at most. */
  ghost predicate Varint(s: seq<Byte>) {
    && 0 < |s| <= 10 && s[|s| - 1] < 128
    && forall k :: 0 <= k < |s| - 1 ==> s[k] >= 128
  }

  /** The groups of seven bits, the lowest first. */
  ghost function Septets(s: seq<Byte>): nat {
    if s == [] then 0 else s[0] % 128 + 128 * Septets(s[1..])
  }

  lemma {:induction false} ReadVarFinds(bs: seq<Byte>, i: nat, k: nat, j: nat)
    requires i < j <= |bs| && k + (j - i) <= 10 && bs[j - 1] < 128 && forall x :: i <= x < j - 1 ==> bs[x] >= 128
    ensures ReadVar(bs, i, k) == Got(Septets(bs[i..j]), j)
    decreases j - i
  {
    assert bs[i..j][1..] == bs[i + 1..j];
    if i + 1 < j {
      ReadVarFinds(bs, i + 1, k + 1, j);
    } else {
      assert Septets(bs[i + 1..j]) == 0;
    }
  }

  lemma {:induction false} ReadVarGot(bs: seq<Byte>, i: nat, k: nat)
    requires i <= |bs| && ReadVar(bs, i, k).Got?
    ensures
      var j := ReadVar(bs, i, k).next;
      && i < j <= |bs| && k + (j - i) <= 10 && bs[j - 1] < 128 && forall x :: i <= x < j - 1 ==> bs[x] >= 128
    decreases |bs| - i
  {
    if bs[i] >= 128 { ReadVarGot(bs, i + 1, k + 1); }
  }

  /** Cut within a varint. */
  lemma {:induction false} ReadVarCut(bs: seq<Byte>, i: nat, k: nat)
    requires i <= |bs| && k + (|bs| - i) < 10 && forall x :: i <= x < |bs| ==> bs[x] >= 128
    ensures ReadVar(bs, i, k) == Bad(UnexpectedEOF)
    decreases |bs| - i
  {
    if i < |bs| { ReadVarCut(bs, i + 1, k + 1); }
  }

  lemma VarintAt(bs: seq<Byte>, i: nat, j: nat)
    requires i <= j <= |bs|
    ensures Varint(bs[i..j]) <==>
            i < j <= i + 10 && bs[j - 1] < 128 && forall x :: i <= x < j - 1 ==> bs[x] >= 128
  {
    var s := bs[i..j];
    assert forall k :: 0 <= k < |s| ==> s[k] == bs[i + k];
    assert forall x :: i <= x < j ==> bs[x] == s[x - i];
  }

  /** The reader loop finds the varint that is there, and no other. */
  lemma VarintRead(bs: seq<Byte>, i: nat, j: nat)
    requires i <= j <= |bs|
    ensures Varint(bs[i..j]) <==> ReadVar(bs, i, 0).Got? && ReadVar(bs, i, 0).next == j
    ensures Varint(bs[i..j]) ==> ReadVar(bs, i, 0) == Got(Septets(bs[i..j]), j)
  {
    VarintAt(bs, i, j);
    if Varint(bs[i..j]) { ReadVarFinds(bs, i, 0, j); }
    if ReadVar(bs, i, 0).Got? { ReadVarGot(bs, i, 0); }
  }

  /** The encoding of a number is a varint for it, and the shortest one. */
  lemma {:induction false} VarintOfSays(n: nat)
    ensures Septets(VarintOf(n)) == n
    ensures forall k :: 0 <= k < |VarintOf(n)| - 1 ==> VarintOf(n)[k] >= 128
    ensures var last := VarintOf(n)[|VarintOf(n)| - 1]; last < 128 && (last == 0 ==> n == 0)
    decreases n
  {
    var v := VarintOf(n);
    if n >= 128 {
      VarintOfSays(n / 128);
      assert v[1..] == VarintOf(n / 128);
      assert forall k :: 1 <= k < |v| ==> v[k] == VarintOf(n / 128)[k - 1];
      assert v[0] % 128 == n % 128;
    } else {
      assert v[1..] == [] && Septets(v[1..]) == 0;
    }
  }

  lemma VarintOfIs(n: nat)
    requires n < TWO64
    ensures Varint(VarintOf(n)) && Septets(VarintOf(n)) == n
  {
    VarintOfSays(n);
    Varint64(n);
  }

  // ----- records

  function KindOf(f: Field): Kind {
    match f case VarF(_, _) => VarintKind case FixF(_, _) => Fixed64Kind case LenF(_, _) => BytesKind
  }

  /** A tag: the number of a field, and how its payload is sent. */
  ghost predicate Tag(s: seq<Byte>, num: int, wireType: nat) {
    && Varint(s) && 0 < num < TWO31
    && Septets(s) % TWO64 % 8 == wireType && Septets(s) % TWO64 / 8 % TWO32 == num
  }

  /** What follows the tag. */
  ghost predicate Body(s: seq<Byte>, f: Field) {
    match f
    case VarF(_, v) => Varint(s) && v == Septets(s) % TWO64
    case FixF(_, b) => |b| == 8 && s == b
    case LenF(_, b) => exists k: nat :: k <= |s| && Varint(s[..k]) && Septets(s[..k]) % TWO64 == |b| && s[k..] == b
  }

  /** These bytes are one whole record. */
  ghost predicate Record(s: seq<Byte>, f: Field) {
    exists t: nat :: t <= |s| && Tag(s[..t], f.num, WireTypeOf(f)) && Body(s[t..], f)
  }

  /** These bytes are these records, one after the other. */
  ghost predicate Records(s: seq<Byte>, fs: seq<Field>)
    decreases |fs|
  {
    if fs == [] then s == []
    else exists c: nat :: c <= |s| && Record(s[..c], fs[0]) && Records(s[c..], fs[1..])
  }

  ghost predicate OfKind(f: Field, kinds: map<int, Kind>) {
    f.num in kinds && kinds[f.num] == KindOf(f)
  }

  ghost predicate OfKinds(fs: seq<Field>, kinds: map<int, Kind>) {
    forall f | f in fs :: OfKind(f, kinds)
  }

  /** These bytes are whole records of a message with such fields. */
  ghost predicate Whole(s: seq<Byte>, kinds: map<int, Kind>) {
    exists fs :: Records(s, fs) && OfKinds(fs, kinds)
  }

  lemma TagIs(bs: seq<Byte>, i: nat, t: nat, num: int, wireType: nat)
    requires i <= i + t <= |bs|
    ensures Tag(bs[i..i + t], num, wireType) <==>
            && ReadVar(bs, i, 0).Got? && ReadVar(bs, i, 0).next == i + t && 0 < num
            && ReadVar(bs, i, 0).raw % TWO64 % 8 == wireType && S32(ReadVar(bs, i, 0).raw % TWO64 / 8) == num
  {
    VarintRead(bs, i, i + t);
    hide ReadVar, Septets, Varint;
  }

  lemma SliceOf(bs: seq<Byte>, i: nat, j: nat, k: nat)
    requires i <= j <= k <= |bs|
    ensures bs[i..k][..j - i] == bs[i..j] && bs[i..k][j - i..] == bs[j..k]
  {
  }

  lemma LenBody(bs: seq<Byte>, j: nat, n: nat, b: seq<Byte>, num: nat)
    requires 0 < j <= n <= |bs| < TWO63
    ensures Body(bs[j..n], LenF(num, b)) <==>
            && ReadVar(bs, j, 0).Got? && var k := ReadVar(bs, j, 0).next;
               k <= n && ReadVar(bs, j, 0).raw % TWO64 == |b| && bs[k..n] == b
  {
    hide ReadVar, Septets, Varint;
    var s := bs[j..n];
    if Body(s, LenF(num, b)) {
      var k: nat :| k <= |s| && Varint(s[..k]) && Septets(s[..k]) % TWO64 == |b| && s[k..] == b;
      SliceOf(bs, j, j + k, n);
      VarintRead(bs, j, j + k);
    }
    if ReadVar(bs, j, 0).Got? && ReadVar(bs, j, 0).next <= n {
      var k := ReadVar(bs, j, 0).next;
      SliceOf(bs, j, k, n);
      VarintRead(bs, j, k);
    }
  }

  /** What follows a tag is read as what it is. */
  lemma BodyExact(bs: seq<Byte>, j: nat, f: Field, n: nat)
    requires 0 < j <= n <= |bs| < TWO63
    ensures ReadPayload(bs, j, f.num, WireTypeOf(f), KindOf(f)) == GotField(f, n) <==> Body(bs[j..n], f)
  {
    hide ReadVar, Septets, Varint;
    match f {
      case VarF(_, _) => VarintRead(bs, j, n);
      case FixF(_, _) =>
      case LenF(num, b) => LenBody(bs, j, n, b, num);
    }
  }

  /** Only its own kind of payload is read for a field. */
  lemma PayloadKind(bs: seq<Byte>, j: nat, num: nat, wireType: nat, kind: Kind)
    requires 0 < j <= |bs| && ReadPayload(bs, j, num, wireType, kind).GotField?
    ensures var f := ReadPayload(bs, j, num, wireType, kind).field;
            f.num == num && KindOf(f) == kind && WireTypeOf(f) == wireType
  {
  }

  lemma ReadFieldParts(bs: seq<Byte>, i: nat, kinds: map<int, Kind>) returns (j: nat, num: nat, wireType: nat)
    requires i <= |bs| && ReadField(bs, i, kinds).GotField?
    ensures i < j <= |bs| && Tag(bs[i..j], num, wireType) && num in kinds
    ensures ReadField(bs, i, kinds) == ReadPayload(bs, j, num, wireType, kinds[num])
  {
    hide Tag, Varint, Septets, ReadPayload, S32;
    var tag := ReadVar(bs, i, 0);
    j, num, wireType := tag.next, S32(tag.raw % TWO64 / 8), tag.raw % TWO64 % 8;
    TagIs(bs, i, j - i, num, wireType);
  }

  /** What is read as a field is a record. */
  lemma FieldIsRecord(bs: seq<Byte>, i: nat, kinds: map<int, Kind>)
    requires i <= |bs| < TWO63 && ReadField(bs, i, kinds).GotField?
    ensures var r := ReadField(bs, i, kinds); Record(bs[i..r.next], r.field) && OfKind(r.field, kinds)
  {
    hide ReadVar, Septets, Varint, Tag, S32, ReadField, Body, ReadPayload;
    var r := ReadField(bs, i, kinds);
    var j, num, wireType := ReadFieldParts(bs, i, kinds);
    PayloadKind(bs, j, num, wireType, kinds[num]);
    BodyExact(bs, j, r.field, r.next);
    SliceOf(bs, i, j, r.next);
    assert Tag(bs[i..r.next][..j - i], r.field.num, WireTypeOf(r.field)) && Body(bs[i..r.next][j - i..], r.field);
  }

  lemma ReadFieldTagged(bs: seq<Byte>, i: nat, j: nat, num: nat, wireType: nat, kinds: map<int, Kind>)
    requires i <= j <= |bs| && Tag(bs[i..j], num, wireType) && wireType < 4 && num in kinds
    ensures 0 < j && i < j && ReadField(bs, i, kinds) == ReadPayload(bs, j, num, wireType, kinds[num])
  {
    TagIs(bs, i, j - i, num, wireType);
    VarintRead(bs, i, j);
    hide ReadPayload, Septets;
  }

  /** A record is read as its field. */
  lemma RecordIsField(bs: seq<Byte>, i: nat, j: nat, f: Field, kinds: map<int, Kind>)
    requires i <= j <= |bs| < TWO63 && Record(bs[i..j], f) && OfKind(f, kinds)
    ensures i < j && ReadField(bs, i, kinds) == GotField(f, j)
  {
    hide ReadVar, Septets, Varint, Tag, S32, Body, ReadPayload, ReadField;
    var s := bs[i..j];
    var t: nat :| t <= |s| && Tag(s[..t], f.num, WireTypeOf(f)) && Body(s[t..], f);
    SliceOf(bs, i, i + t, j);
    ReadFieldTagged(bs, i, i + t, f.num, WireTypeOf(f), kinds);
    BodyExact(bs, i + t, f, j);
  }

  /** Framing accepts exactly whole records. */
  lemma {:induction false} FrameExact(bs: seq<Byte>, i: nat, fs: seq<Field>, kinds: map<int, Kind>)
    requires i <= |bs| < TWO63
    ensures Frame(bs, i, kinds) == Framing(fs, None) <==> Records(bs[i..], fs) && OfKinds(fs, kinds)
    decreases |bs| - i
  {
    hide ReadField, Record, OfKind;
    var s, fr := bs[i..], Frame(bs, i, kinds);
    if Records(s, fs) && OfKinds(fs, kinds) && fs != [] {
      var c: nat :| c <= |s| && Record(s[..c], fs[0]) && Records(s[c..], fs[1..]);
      assert s[..c] == bs[i..i + c] && s[c..] == bs[i + c..];
      assert fs[0] in fs;
      RecordIsField(bs, i, i + c, fs[0], kinds);
      FrameExact(bs, i + c, fs[1..], kinds);
      assert fs == [fs[0]] + fs[1..];
    }
    if fr == Framing(fs, None) && i < |bs| {
      var r := ReadField(bs, i, kinds);
      FieldIsRecord(bs, i, kinds);
      FrameExact(bs, r.next, fs[1..], kinds);
      var c := r.next - i;
      assert s[..c] == bs[i..r.next] && s[c..] == bs[r.next..];
      assert fs[0] == r.field && forall f | f in fs :: f == fs[0] || f in fs[1..];
    }
  }

  lemma FramesWhole(bs: seq<Byte>, kinds: map<int, Kind>)
    requires |bs| < TWO63
    ensures Frame(bs, 0, kinds).end == None <==> Whole(bs, kinds)
    ensures Frame(bs, 0, kinds).end == None ==>
        Records(bs, Frame(bs, 0, kinds).fields) && OfKinds(Frame(bs, 0, kinds).fields, kinds)
  {
    assert bs[0..] == bs;
    FrameExact(bs, 0, Frame(bs, 0, kinds).fields, kinds);
    if Whole(bs, kinds) {
      var fs :| Records(bs, fs) && OfKinds(fs, kinds);
      FrameExact(bs, 0, fs, kinds);
    }
  }

  /** Bytes are the records of one list of fields only. */
  lemma RecordsUnique(bs: seq<Byte>, fs: seq<Field>, gs: seq<Field>, kinds: map<int, Kind>)
    requires |bs| < TWO63 && Records(bs, fs) && OfKinds(fs, kinds) && Records(bs, gs) && OfKinds(gs, kinds)
    ensures fs == gs
  {
    assert bs[0..] == bs;
    FrameExact(bs, 0, fs, kinds);
    FrameExact(bs, 0, gs, kinds);
  }

  // ----- cut short

  /** A varint that is cut ends too early. */
  lemma VarCut(bs: seq<Byte>, i: nat, n: nat)
    requires i <= n <= |bs| && ReadVar(bs, i, 0).Got? && n < ReadVar(bs, i, 0).next
    ensures ReadVar(bs[..n], i, 0) == Bad(UnexpectedEOF)
  {
    ReadVarGot(bs, i, 0);
    ReadVarCut(bs[..n], i, 0);
  }

  /** One that is not cut does not. */
  lemma VarKept(bs: seq<Byte>, i: nat, n: nat)
    requires i <= n <= |bs| && ReadVar(bs, i, 0).Got? && ReadVar(bs, i, 0).next <= n
    ensures ReadVar(bs[..n], i, 0) == ReadVar(bs, i, 0)
  {
    hide ReadVar;
    var j := ReadVar(bs, i, 0).next;
    VarintRead(bs, i, j) by { hide Varint; }
    assert bs[..n][i..j] == bs[i..j];
    VarintRead(bs[..n], i, j);
  }

  lemma BodyCut(bs: seq<Byte>, j: nat, n: nat, num: nat, wireType: nat, kind: Kind)
    requires 0 < j <= n <= |bs| && ReadPayload(bs, j, num, wireType, kind).GotField?
    requires n < ReadPayload(bs, j, num, wireType, kind).next
    ensures ReadPayload(bs[..n], j, num, wireType, kind) == NoField(UnexpectedEOF)
  {
    if kind.VarintKind? {
      VarCut(bs, j, n);
    } else if kind.BytesKind? {
      if ReadVar(bs, j, 0).next <= n { VarKept(bs, j, n); } else { VarCut(bs, j, n); }
    }
    hide ReadVar;
  }

  lemma FieldKept(bs: seq<Byte>, i: nat, n: nat, kinds: map<int, Kind>)
    requires i <= n <= |bs| < TWO63 && ReadField(bs, i, kinds).GotField? && ReadField(bs, i, kinds).next <= n
    ensures ReadField(bs[..n], i, kinds) == ReadField(bs, i, kinds)
  {
    hide ReadField, Record, OfKind;
    var r := ReadField(bs, i, kinds);
    FieldIsRecord(bs, i, kinds);
    assert bs[..n][i..r.next] == bs[i..r.next];
    RecordIsField(bs[..n], i, r.next, r.field, kinds);
  }

  /** A field that is cut ends too early, wherever it is cut: in its tag, its length or its payload. */
  lemma FieldCut(bs: seq<Byte>, i: nat, n: nat, kinds: map<int, Kind>)
    requires i < n <= |bs| && ReadField(bs, i, kinds).GotField? && n < ReadField(bs, i, kinds).next
    ensures ReadField(bs[..n], i, kinds) == NoField(UnexpectedEOF)
  {
    hide ReadVar, Varint, Septets, ReadPayload;
    var j, num, wireType := ReadFieldParts(bs, i, kinds);
    VarintRead(bs, i, j) by { hide Varint; }
    assert ReadVar(bs, i, 0).Got? && ReadVar(bs, i, 0).next == j;
    if n < j {
      VarCut(bs, i, n);
    } else {
      VarKept(bs, i, n);
      assert bs[..n][i..j] == bs[i..j];
      PayloadKind(bs, j, num, wireType, kinds[num]);
      ReadFieldTagged(bs[..n], i, j, num, wireType, kinds);
      BodyCut(bs, j, n, num, wireType, kinds[num]);
    }
  }

  /** Cut anywhere: the records before the cut are read, and unless it is between two of them the rest
      ends too early. */
  lemma {:induction false} FrameCut(bs: seq<Byte>, i: nat, n: nat, kinds: map<int, Kind>)
    requires i <= n <= |bs| < TWO63 && Frame(bs, i, kinds).end == None
    ensures Frame(bs[..n], i, kinds).fields <= Frame(bs, i, kinds).fields
    ensures Frame(bs[..n], i, kinds).end in {None, Some(UnexpectedEOF)}
    decreases |bs| - i
  {
    hide ReadField;
    if i < n {
      var next := ReadField(bs, i, kinds).next;
      if next <= n {
        FieldKept(bs, i, n, kinds);
        FrameCut(bs, next, n, kinds);
      } else {
        FieldCut(bs, i, n, kinds);
      }
    }
  }
}
