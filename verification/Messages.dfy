/** The messages of the result stream and the paths they describe (rgraphql.proto). */
module Messages {

  datatype Option<+T> = None | Some(value: T)

  /** One byte of a string or of an encoded message. */
  type Byte = b: int | 0 <= b < 256

  /** An int32. */
  type Int32 = n: int | -0x8000_0000 <= n < 0x8000_0000

  /** RGQLPrimitive. The float is kept as its 64 raw bits. */
  datatype Primitive = Primitive(
    kind: Int32,
    intValue: Int32,
    floatBits: nat,
    stringValue: seq<Byte>,
    boolValue: bool)

  /** RGQLValue: one frame of the stream. Zero means "absent" in the three numeric fields. */
  datatype RGQLValue = RGQLValue(
    queryNodeId: nat,
    arrayIndex: nat,
    posIdentifier: nat,
    value: Option<Primitive>,
    error: seq<Byte>)

  type Pos = n: nat | 0 < n witness 1

  /** One step of a result path: into a field, or into an array element (1-based). */
  datatype Step = Field(id: Pos) | Index(idx: Pos)

  type Path = seq<Step>

  /** A path of the query tree: the query node ids below the root. */
  type QPath = seq<nat>

  /** The frame that carries one path component. */
  function FrameOf(s: Step, pos: nat, value: Option<Primitive>, error: seq<Byte>): RGQLValue {
    RGQLValue(if s.Field? then s.id else 0, if s.Index? then s.idx else 0, pos, value, error)
  }

  /** The step a frame takes, as the client reads it: the field id wins over the array index. */
  function StepOf(f: RGQLValue): Option<Step> {
    if f.queryNodeId != 0 then Some(Field(f.queryNodeId))
    else if f.arrayIndex != 0 then Some(Index(f.arrayIndex))
    else None
  }

  /** Projects a result path onto the query tree by dropping the array indices. */
  function Proj(p: Path): QPath {
    if p == [] then []
    else
      var q := Proj(p[..|p| - 1]);
      var s := p[|p| - 1];
      if s.Field? then q + [s.id] else q
  }

  lemma ProjSnoc(p: Path, s: Step)
    ensures Proj(p + [s]) == if s.Field? then Proj(p) + [s.id] else Proj(p)
  {
    assert (p + [s])[..|p|] == p;
  }

  lemma {:induction false} ProjConcat(p: Path, r: Path)
    ensures Proj(p + r) == Proj(p) + Proj(r)
  {
    if r == [] {
      assert p + r == p;
    } else {
      var r', s := r[..|r| - 1], r[|r| - 1];
      assert r == r' + [s] && p + r == (p + r') + [s];
      ProjConcat(p, r');
      ProjSnoc(p + r', s);
      ProjSnoc(r', s);
      assert Proj(p) + (Proj(r') + Proj([s])) == (Proj(p) + Proj(r')) + Proj([s]);
    }
  }

  lemma ProjPrefix(p: Path, r: Path)
    requires p <= r
    ensures Proj(p) <= Proj(r)
  {
    assert r == p + r[|p|..];
    ProjConcat(p, r[|p|..]);
  }
}
