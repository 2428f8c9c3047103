/** Protocol Buffers wire format for the messages of rgraphql.pb.go, as functions (Encoding guide,
    sections "Base 128 Varints" and "Length-Delimited Records"). The methods in WireCodec.dfy are
    proved to compute these. Byte strings stand for Go strings. */
module WireSpec {
  import opened Messages

  const TWO31: nat := 0x8000_0000
  const TWO32: nat := 0x1_0000_0000
  const TWO63: nat := 0x8000_0000_0000_0000
  const TWO64: nat := 0x1_0000_0000_0000_0000

  /** ErrIntOverflow, io.ErrUnexpectedEOF, ErrInvalidLength, and the errors about tags. An unknown
      field, which the program keeps as raw bytes, is an error here. */
  datatype WireError =
    | IntOverflow
    | UnexpectedEOF
    | InvalidLength
    | EndGroup
    | IllegalTag
    | WrongWireType
    | UnknownField

  datatype Result<T> = Ok(value: T) | Err(error: WireError)

  // ----- varints

  /** Seven bits per byte, least significant first; the top bit says that more follow. */
  function VarintOf(n: nat): (s: seq<Byte>)
    ensures s != []
  {
    if n < 128 then [n] else [n % 128 + 128] + VarintOf(n / 128)
  }

  /** What a varint at `i` says, before it is cut down to the width of a field. */
  datatype VarRead = Bad(error: WireError) | Got(raw: nat, next: nat)

  /** The reader loop, at its `k`-th byte: ten bytes at most. */
  function ReadVar(bs: seq<Byte>, i: nat, k: nat): (r: VarRead)
    requires i <= |bs|
    ensures r.Got? ==> i < r.next <= |bs|
    decreases |bs| - i
  {
    if k >= 10 then Bad(IntOverflow)
    else if i == |bs| then Bad(UnexpectedEOF)
    else if bs[i] < 128 then Got(bs[i], i + 1)
    else
      match ReadVar(bs, i + 1, k + 1)
      case Bad(e) => Bad(e)
      case Got(raw, next) => Got(bs[i] - 128 + 128 * raw, next)
  }

  /** The low 32 bits. */
  function U32(n: nat): (r: nat)
    ensures r < TWO32
  {
    n % TWO32
  }

  /** Whether any of 64 bits is set. */
  predicate AnyBit(n: nat) {
    n % TWO64 != 0
  }

  /** A two's complement reading of 32 bits. */
  function S32(n: nat): Int32 {
    if n % TWO32 < TWO31 then n % TWO32 else n % TWO32 - TWO32
  }

  /** The sign-extended 64 bits an int32 is sent as. */
  function SignExtended(v: Int32): (n: nat)
    ensures n < TWO64
  {
    if v < 0 then v + TWO64 else v
  }

  // ----- fixed width

  function LE(n: nat, bytes: nat): (s: seq<Byte>)
    ensures |s| == bytes
  {
    if bytes == 0 then [] else [n % 256] + LE(n / 256, bytes - 1)
  }

  function FromLE(s: seq<Byte>): nat {
    if s == [] then 0 else s[0] + 256 * FromLE(s[1..])
  }

  // ----- fields

  datatype Kind = VarintKind | Fixed64Kind | BytesKind

  /** One field on the wire, by its number. A varint is the 64 bits read; a narrower field keeps the
      low bits of them, as the narrower accumulator it is read into would. */
  datatype Field =
    | VarF(num: nat, raw: nat)
    | FixF(num: nat, fixed: seq<Byte>)
    | LenF(num: nat, bytes: seq<Byte>)

  function Payload(f: Field): seq<Byte> {
    match f
    case VarF(_, _) => []
    case FixF(_, b) => b
    case LenF(_, b) => b
  }

  function EncodeField(f: Field): seq<Byte>
  {
    match f
    case VarF(n, v) => VarintOf(n * 8) + VarintOf(v)
    case FixF(n, b) => VarintOf(n * 8 + 1) + b
    case LenF(n, b) => VarintOf(n * 8 + 2) + VarintOf(|b|) + b
  }

  function Encode(fs: seq<Field>): seq<Byte>
  {
    if fs == [] then [] else EncodeField(fs[0]) + Encode(fs[1..])
  }

  datatype FieldRead = NoField(error: WireError) | GotField(field: Field, next: nat)

  /** One round of UnmarshalVT: the tag, the checks on it, and the payload its field calls for. */
  function ReadField(bs: seq<Byte>, i: nat, kinds: map<int, Kind>): (r: FieldRead)
    requires i <= |bs|
    ensures r.GotField? ==> i < r.next <= |bs| && |Payload(r.field)| < |bs| && r.field.num in kinds
  {
    match ReadVar(bs, i, 0)
    case Bad(e) => NoField(e)
    case Got(raw, j) =>
      var wire := raw % TWO64;
      var num := S32(wire / 8);
      if wire % 8 == 4 then NoField(EndGroup)
      else if num <= 0 then NoField(IllegalTag)
      else if num !in kinds then NoField(UnknownField)
      else ReadPayload(bs, j, num, wire % 8, kinds[num])
  }

  function ReadPayload(bs: seq<Byte>, j: nat, num: nat, wireType: nat, kind: Kind): (r: FieldRead)
    requires 0 < j <= |bs|
    ensures r.GotField? ==> j <= r.next <= |bs| && |Payload(r.field)| < |bs| && r.field.num == num
  {
    match kind
    case VarintKind =>
      if wireType != 0 then NoField(WrongWireType)
      else (match ReadVar(bs, j, 0)
            case Bad(e) => NoField(e)
            case Got(v, next) => GotField(VarF(num, v % TWO64), next))
    case Fixed64Kind =>
      if wireType != 1 then NoField(WrongWireType)
      else if j + 8 > |bs| then NoField(UnexpectedEOF)
      else GotField(FixF(num, bs[j..j + 8]), j + 8)
    case BytesKind =>
      if wireType != 2 then NoField(WrongWireType)
      else
        match ReadVar(bs, j, 0)
        case Bad(e) => NoField(e)
        case Got(v, k) =>
          var len := v % TWO64;
          if len >= TWO63 || k + len >= TWO63 then NoField(InvalidLength)
          else if k + len > |bs| then NoField(UnexpectedEOF)
          else GotField(LenF(num, bs[k..k + len]), k + len)
  }

  /** The fields up to the first error, and the error. */
  datatype Framing = Framing(fields: seq<Field>, end: Option<WireError>)

  function Frame(bs: seq<Byte>, i: nat, kinds: map<int, Kind>): (r: Framing)
    requires i <= |bs|
    ensures forall f | f in r.fields :: |Payload(f)| < |bs| && f.num in kinds
    decreases |bs| - i
  {
    if i == |bs| then Framing([], None)
    else
      match ReadField(bs, i, kinds)
      case NoField(e) => Framing([], Some(e))
      case GotField(f, next) =>
        var rest := Frame(bs, next, kinds);
        Framing([f] + rest.fields, rest.end)
  }

  // ----- messages

  datatype FieldArgument = FieldArgument(name: seq<Byte>, variableId: nat)
  datatype Directive = Directive(name: seq<Byte>, args: seq<FieldArgument>)
  datatype TreeNode = TreeNode(
    id: nat,
    fieldName: seq<Byte>,
    args: seq<FieldArgument>,
    directive: seq<Directive>,
    children: seq<TreeNode>)

  const ARG_KINDS: map<int, Kind> := map[1 := BytesKind, 2 := VarintKind]
  const DIRECTIVE_KINDS: map<int, Kind> := map[1 := BytesKind, 2 := BytesKind]
  const NODE_KINDS: map<int,
    Kind> := map[1 := VarintKind, 2 := BytesKind, 3 := BytesKind, 4 := BytesKind, 5 := BytesKind]
  const PRIMITIVE_KINDS: map<int, Kind> :=
    map[1 := VarintKind, 2 := VarintKind, 3 := Fixed64Kind, 4 := BytesKind, 5 := VarintKind]
  const VALUE_KINDS: map<int, Kind> :=
    map[1 := VarintKind, 2 := VarintKind, 3 := VarintKind, 4 := BytesKind, 5 := BytesKind]

  /** A field that is left out when it holds its default. */
  function VarField(num: nat, v: nat): (fs: seq<Field>)
    ensures forall f | f in fs :: f.num == num
  {
    if v == 0 then [] else [VarF(num, v)]
  }

  function BytesField(num: nat, b: seq<Byte>): (fs: seq<Field>)
    ensures forall f | f in fs :: f.num == num
  {
    if b == [] then [] else [LenF(num, b)]
  }

  /** A repeated field: one record an element. */
  function Each(num: nat, bs: seq<seq<Byte>>): (fs: seq<Field>)
    ensures forall f | f in fs :: f.num == num
  {
    seq(|bs|, i requires 0 <= i < |bs| => LenF(num, bs[i]))
  }

  function ArgFields(m: FieldArgument): (fs: seq<Field>)
  {
    BytesField(1, m.name) + VarField(2, m.variableId)
  }

  function EncodeArg(m: FieldArgument): seq<Byte> {
    Encode(ArgFields(m))
  }

  function ArgsBytes(args: seq<FieldArgument>): seq<seq<Byte>> {
    seq(|args|, i requires 0 <= i < |args| => EncodeArg(args[i]))
  }

  function DirectiveFields(m: Directive): (fs: seq<Field>)
  {
    BytesField(1, m.name) + Each(2, ArgsBytes(m.args))
  }

  function EncodeDirective(m: Directive): seq<Byte> {
    Encode(DirectiveFields(m))
  }

  function DirectivesBytes(ds: seq<Directive>): seq<seq<Byte>> {
    seq(|ds|, i requires 0 <= i < |ds| => EncodeDirective(ds[i]))
  }

  function NodeFields(m: TreeNode): (fs: seq<Field>)
    decreases m, 0
  {
    VarField(1, m.id) + BytesField(2, m.fieldName) + Each(3, ArgsBytes(m.args)) + Each(4, DirectivesBytes(m.directive))
    + Each(5, seq(|m.children|, i requires 0 <= i < |m.children| => EncodeNode(m.children[i])))
  }

  function EncodeNode(m: TreeNode): seq<Byte>
    decreases m, 1
  {
    Encode(NodeFields(m))
  }

  /** Negative zero compares equal to zero, and is left out like it. */
  function FloatField(num: nat, bits: nat): (fs: seq<Field>)
    ensures forall f | f in fs :: f.num == num
  {
    if bits == 0 || bits == TWO63 then [] else [FixF(num, LE(bits, 8))]
  }

  function PrimitiveFields(p: Primitive): (fs: seq<Field>)
  {
    VarField(1, SignExtended(p.kind)) + VarField(2, SignExtended(p.intValue)) + FloatField(3, p.floatBits)
    + BytesField(4, p.stringValue) + VarField(5, if p.boolValue then 1 else 0)
  }

  function EncodePrimitive(p: Primitive): seq<Byte>
  {
    Encode(PrimitiveFields(p))
  }

  function ValueFields(v: RGQLValue): (fs: seq<Field>)
  {
    VarField(1, v.queryNodeId) + VarField(2, v.arrayIndex) + VarField(3, v.posIdentifier)
    + (if v.value.Some? then [LenF(4, EncodePrimitive(v.value.value))] else []) + BytesField(5, v.error)
  }

  function EncodeValue(v: RGQLValue): seq<Byte>
  {
    Encode(ValueFields(v))
  }

  // ----- reading messages back

  const EMPTY_ARG := FieldArgument([], 0)
  const EMPTY_DIRECTIVE := Directive([], [])
  const EMPTY_NODE := TreeNode(0, [], [], [], [])
  const EMPTY_PRIMITIVE := Primitive(0, 0, 0, [], false)
  const EMPTY_VALUE := RGQLValue(0, 0, 0, None, [])

  function PutArg(m: FieldArgument, f: Field): Result<FieldArgument> {
    if f.num == 1 && f.LenF? then Ok(m.(name := f.bytes))
    else if f.num == 2 && f.VarF? then Ok(m.(variableId := U32(f.raw)))
    else Err(UnknownField)
  }

  function FoldArg(m: FieldArgument, fs: seq<Field>): Result<FieldArgument>
    decreases |fs|
  {
    if fs == [] then Ok(m)
    else
      match PutArg(m, fs[0])
      case Err(e) => Err(e)
      case Ok(m') => FoldArg(m', fs[1..])
  }

  /** The result of the fields, unless reading stops early. */
  function Ended<T>(r: Result<T>, end: Option<WireError>): Result<T> {
    if r.Ok? && end.Some? then Err(end.value) else r
  }

  function DecodeArg(bs: seq<Byte>): Result<FieldArgument> {
    var fr := Frame(bs, 0, ARG_KINDS);
    Ended(FoldArg(EMPTY_ARG, fr.fields), fr.end)
  }

  function PutDirective(m: Directive, f: Field): Result<Directive> {
    if f.num == 1 && f.LenF? then Ok(m.(name := f.bytes))
    else if f.num == 2 && f.LenF? then
      match DecodeArg(f.bytes)
      case Err(e) => Err(e)
      case Ok(a) => Ok(m.(args := m.args + [a]))
    else Err(UnknownField)
  }

  function FoldDirective(m: Directive, fs: seq<Field>): Result<Directive>
    decreases |fs|
  {
    if fs == [] then Ok(m)
    else
      match PutDirective(m, fs[0])
      case Err(e) => Err(e)
      case Ok(m') => FoldDirective(m', fs[1..])
  }

  function DecodeDirective(bs: seq<Byte>): Result<Directive> {
    var fr := Frame(bs, 0, DIRECTIVE_KINDS);
    Ended(FoldDirective(EMPTY_DIRECTIVE, fr.fields), fr.end)
  }

  function PutNode(m: TreeNode, f: Field): Result<TreeNode>
    decreases |Payload(f)|, 2
  {
    if f.num == 1 && f.VarF? then Ok(m.(id := U32(f.raw)))
    else if f.num == 2 && f.LenF? then Ok(m.(fieldName := f.bytes))
    else if f.num == 3 && f.LenF? then
      (match DecodeArg(f.bytes)
       case Err(e) => Err(e)
       case Ok(a) => Ok(m.(args := m.args + [a])))
    else if f.num == 4 && f.LenF? then
      (match DecodeDirective(f.bytes)
       case Err(e) => Err(e)
       case Ok(d) => Ok(m.(directive := m.directive + [d])))
    else if f.num == 5 && f.LenF? then
      (match DecodeNode(f.bytes)
       case Err(e) => Err(e)
       case Ok(c) => Ok(m.(children := m.children + [c])))
    else Err(UnknownField)
  }

  /** Every nested message is shorter than `len`. */
  function FoldNode(m: TreeNode, fs: seq<Field>, len: nat): Result<TreeNode>
    requires forall f | f in fs :: |Payload(f)| < len
    decreases len, 0, |fs|
  {
    if fs == [] then Ok(m)
    else
      assert |Payload(fs[0])| < len;
      match PutNode(m, fs[0])
      case Err(e) => Err(e)
      case Ok(m') => FoldNode(m', fs[1..], len)
  }

  function DecodeNode(bs: seq<Byte>): Result<TreeNode>
    decreases |bs|, 1
  {
    var fr := Frame(bs, 0, NODE_KINDS);
    Ended(FoldNode(EMPTY_NODE, fr.fields, |bs|), fr.end)
  }

  function PutPrimitive(p: Primitive, f: Field): Result<Primitive> {
    if f.num == 1 && f.VarF? then Ok(p.(kind := S32(f.raw)))
    else if f.num == 2 && f.VarF? then Ok(p.(intValue := S32(f.raw)))
    else if f.num == 3 && f.FixF? then Ok(p.(floatBits := FromLE(f.fixed)))
    else if f.num == 4 && f.LenF? then Ok(p.(stringValue := f.bytes))
    else if f.num == 5 && f.VarF? then Ok(p.(boolValue := AnyBit(f.raw)))
    else Err(UnknownField)
  }

  function FoldPrimitive(p: Primitive, fs: seq<Field>): Result<Primitive>
    decreases |fs|
  {
    if fs == [] then Ok(p)
    else
      match PutPrimitive(p, fs[0])
      case Err(e) => Err(e)
      case Ok(p') => FoldPrimitive(p', fs[1..])
  }

  /** A message that occurs twice is merged into what is there. */
  function MergePrimitive(p: Primitive, bs: seq<Byte>): Result<Primitive> {
    var fr := Frame(bs, 0, PRIMITIVE_KINDS);
    Ended(FoldPrimitive(p, fr.fields), fr.end)
  }

  function PutValue(v: RGQLValue, f: Field): Result<RGQLValue> {
    if f.num == 1 && f.VarF? then Ok(v.(queryNodeId := U32(f.raw)))
    else if f.num == 2 && f.VarF? then Ok(v.(arrayIndex := U32(f.raw)))
    else if f.num == 3 && f.VarF? then Ok(v.(posIdentifier := U32(f.raw)))
    else if f.num == 4 && f.LenF? then
      (match MergePrimitive(if v.value.Some? then v.value.value else EMPTY_PRIMITIVE, f.bytes)
       case Err(e) => Err(e)
       case Ok(p) => Ok(v.(value := Some(p))))
    else if f.num == 5 && f.LenF? then Ok(v.(error := f.bytes))
    else Err(UnknownField)
  }

  function FoldValue(v: RGQLValue, fs: seq<Field>): Result<RGQLValue>
    decreases |fs|
  {
    if fs == [] then Ok(v)
    else
      match PutValue(v, fs[0])
      case Err(e) => Err(e)
      case Ok(v') => FoldValue(v', fs[1..])
  }

  function DecodeValue(bs: seq<Byte>): Result<RGQLValue> {
    var fr := Frame(bs, 0, VALUE_KINDS);
    Ended(FoldValue(EMPTY_VALUE, fr.fields), fr.end)
  }
}
