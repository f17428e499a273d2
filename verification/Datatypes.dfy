/** Payload datatypes: how declarations lay them out, and why the precomputed layout agrees with their meaning. */
module Datatypes {
  import opened Arithmetic
  import opened Options
  import opened Limbs
  import opened Words
  import A = AttributeValues

  datatype Primitive =
    | Unit | Bool | I8 | I16 | I32 | I64 | U8 | U16 | U32 | U64 | F32 | F64
    | Str | Text | Bytes | Bits | Logic | Logic9 | Time | Enum | Pointer | Fixed | Ufixed

  const PRIMITIVES: seq<Primitive> :=
    [Unit, Bool, I8, I16, I32, I64, U8, U16, U32, U64, F32, F64,
     Str, Text, Bytes, Bits, Logic, Logic9, Time, Enum, Pointer, Fixed, Ufixed]

  const FIRST_DECLARED: nat := 23
  const ENUM_ID: nat := 19
  const MAX_DEPTH: nat := 64
  const MAX_PROGRAM: nat := 256

  function Width(p: Primitive): Option<nat> {
    match p
    case Unit => Some(0)
    case Bool | I8 | U8 => Some(1)
    case I16 | U16 => Some(2)
    case I32 | U32 | F32 | Str => Some(4)
    case I64 | U64 | F64 | Time | Pointer => Some(8)
    case Fixed | Ufixed => Some(16)
    case _ => None
  }

  predicate Signed(p: Primitive) {
    p.I8? || p.I16? || p.I32? || p.I64?
  }

  predicate Integer(p: Primitive) {
    Signed(p) || p.U8? || p.U16? || p.U32? || p.U64?
  }

  predicate Packed(p: Primitive) {
    p.Bits? || p.Logic? || p.Logic9?
  }

  function Packing(p: Primitive): A.Packing
    requires Packed(p)
  {
    match p
    case Bits => A.Bits
    case Logic => A.Logic
    case _ => A.Logic9
  }

  // ---------------------------------------------------------------- tables of datatypes

  datatype Field = Field(name: string, datatype_: nat)

  datatype Enumerator = Enumerator(value: nat, name: string)

  datatype Kind =
    | Scalar(primitive: Primitive)
    | Struct(fields: seq<Field>)
    | Array(element: nat, count: u32)
    | Sequence(element: nat)
    | Enumeration(underlying: nat, values: seq<Enumerator>)

  /** What a declaration computes once: sizes, nesting, and the scalars in order when there are few. */
  datatype Datatype = Datatype(kind: Kind, minimum: nat, fixed: Option<nat>, depth: nat, scalars: Option<seq<Primitive>>, bySize: bool)

  datatype Child = Child(id: nat, count: nat)

  function OneOfEach(fields: seq<Field>): (cs: seq<Child>)
    ensures |cs| == |fields| && forall i :: 0 <= i < |fields| ==> cs[i] == Child(fields[i].datatype_, 1)
  {
    seq(|fields|, i requires 0 <= i < |fields| => Child(fields[i].datatype_, 1))
  }

  /** The parts that a value always has. */
  function Children(kind: Kind): seq<Child> {
    match kind
    case Scalar(_) => []
    case Struct(fields) => OneOfEach(fields)
    case Array(element, count) => [Child(element, count)]
    case Sequence(element) => [Child(element, 0)]
    case Enumeration(underlying, _) => [Child(underlying, 1)]
  }

  function Repeat(program: seq<Primitive>, n: nat): (r: seq<Primitive>)
    ensures |r| == n * |program|
  {
    if n == 0 then [] else Repeat(program, n - 1) + program
  }

  predicate Known(types: seq<Datatype>, id: nat) {
    id < |types| && id != ENUM_ID
  }

  predicate AllKnown(types: seq<Datatype>, children: seq<Child>) {
    forall i :: 0 <= i < |children| ==> Known(types, children[i].id)
  }

  function Minimum(types: seq<Datatype>, children: seq<Child>): nat
    requires AllKnown(types, children)
  {
    if children == [] then 0 else
      var last := children[|children| - 1];
      Minimum(types, children[..|children| - 1]) + types[last.id].minimum * last.count
  }

  function FixedSize(types: seq<Datatype>, children: seq<Child>): Option<nat>
    requires AllKnown(types, children)
  {
    if children == [] then Some(0) else
      var last := children[|children| - 1];
      match FixedSize(types, children[..|children| - 1])
      case None => None
      case Some(total) => if types[last.id].fixed.None? then None else Some(total + types[last.id].fixed.value * last.count)
  }

  function Depth(types: seq<Datatype>, children: seq<Child>): nat
    requires AllKnown(types, children)
  {
    if children == [] then 1 else
      var last := children[|children| - 1];
      var d := Depth(types, children[..|children| - 1]);
      if d > types[last.id].depth + 1 then d else types[last.id].depth + 1
  }

  lemma {:induction false} StillFits(n: nat, size: nat, room: nat)
    requires size > 0 && n <= room / size
    ensures n * size <= room
  {
    Scaled(room / size - n + 1, size);
    assert (room / size - n + 1) * size == room / size * size - n * size + size;
  }

  /** The scalars one after the other, unless a part has none or they become more than 256. */
  function Program(types: seq<Datatype>, children: seq<Child>): (r: Option<seq<Primitive>>)
    requires AllKnown(types, children)
    ensures r.Some? ==> |r.value| <= MAX_PROGRAM
  {
    if children == [] then Some([]) else
      var last := children[|children| - 1];
      match (Program(types, children[..|children| - 1]), types[last.id].scalars)
      case (Some(program), Some(child)) =>
        if child == [] then Some(program)
        else if last.count <= (MAX_PROGRAM - |program|) / |child| then
          StillFits(last.count, |child|, MAX_PROGRAM - |program|);
          Some(program + Repeat(child, last.count))
        else None
      case _ => None
  }

  predicate ValidatesBySize(fixed: Option<nat>, scalars: Option<seq<Primitive>>) {
    && fixed.Some? && scalars.Some?
    && forall i :: 0 <= i < |scalars.value| ==> Width(scalars.value[i]).Some? && !scalars.value[i].Bool? && !scalars.value[i].Str?
  }

  function PrimitiveMinimum(p: Primitive): nat {
    match Width(p)
    case Some(n) => n
    case None => if p.Text? || p.Bytes? then 4 else 8
  }

  function PrimitiveType(p: Primitive): Datatype {
    var scalars := Some(if p.Unit? then [] else [p]);
    Datatype(Scalar(p), PrimitiveMinimum(p), Width(p), 1, scalars, ValidatesBySize(Width(p), scalars))
  }

  // ---------------------------------------------------------------- integers of few bytes

  /** The signed number that the low bytes spell in two's complement. */
  function SignExtend(low: nat, size: nat): int {
    if 2 * low >= Pow(size) then low - Pow(size) else low
  }

  function TwosComplement(v: int): nat
    requires -0x8000_0000_0000_0000 <= v < 0x1_0000_0000_0000_0000
  {
    if v < 0 then v + LIMB else v
  }

  /** `integer_range`: the 64 bits are those of a value of the primitive. */
  predicate IntegerRange(p: Primitive, value: nat) {
    match Width(p)
    case None => false
    case Some(size) =>
      if size >= 8 then true
      else if Signed(p) then
        var v := SignExtend(value % Pow(size), size);
        PowFits(size);
        TwosComplement(v) == value
      else value < Pow(size)
  }

  /** The layout of a declared kind over the datatypes before it. */
  function Laid(types: seq<Datatype>, kind: Kind): Datatype
    requires AllKnown(types, Children(kind))
  {
    var children := Children(kind);
    if kind.Sequence? then Datatype(kind, 4, None, Depth(types, children), None, false)
    else
      var fixed, scalars := FixedSize(types, children), Program(types, children);
      Datatype(kind, Minimum(types, children), fixed, Depth(types, children), scalars, ValidatesBySize(fixed, scalars))
  }

  predicate WellKinded(types: seq<Datatype>, kind: Kind) {
    && !kind.Scalar?
    && AllKnown(types, Children(kind))
    && (kind.Enumeration? ==> Known(types, kind.underlying) && types[kind.underlying].kind.Scalar? && Integer(types[kind.underlying].kind.primitive))
  }

  /** A table that grew by declarations only. */
  ghost predicate Proper(types: seq<Datatype>) {
    && |types| >= FIRST_DECLARED
    && (forall i :: 0 <= i < FIRST_DECLARED ==> types[i] == PrimitiveType(PRIMITIVES[i]))
    && forall i :: FIRST_DECLARED <= i < |types| ==> Declared(types, i)
  }

  ghost predicate Declared(types: seq<Datatype>, i: nat)
    requires i < |types|
  {
    WellKinded(types[..i], types[i].kind) && types[i] == Laid(types[..i], types[i].kind)
  }

  // ---------------------------------------------------------------- tokens: what a visitor is shown

  datatype Token = Count(n: u32) | Leaf(primitive: Primitive, data: seq<byte>)

  function TokenBytes(t: Token): seq<byte> {
    match t
    case Count(n) => Limbs.Bytes(n, 4)
    case Leaf(_, data) => data
  }

  function AllBytes(ts: seq<Token>): seq<byte> {
    if ts == [] then [] else AllBytes(ts[..|ts| - 1]) + TokenBytes(ts[|ts| - 1])
  }

  datatype Split = Split(data: seq<byte>, rest: seq<byte>)

  function Cut(row: seq<byte>, n: nat): (r: Option<Split>)
    ensures r.Some? ==> row == r.value.data + r.value.rest && |r.value.data| == n
  {
    if n <= |row| then Some(Split(row[..n], row[n..])) else None
  }

  /** How many strings are known, and what counts as UTF-8. */
  datatype Context = Context(strings: nat, utf8: seq<byte> -> bool)

  /** A length of four bytes and as many bytes. */
  function CutBlob(row: seq<byte>): (r: Option<Split>)
    ensures r.Some? ==> row == r.value.data + r.value.rest && |r.value.data| >= 4
    ensures r.Some? ==> row[..4] == r.value.data[..4] && |r.value.data| == 4 + Word(row[..4])
  {
    if |row| < 4 then None else Cut(row, 4 + Word(row[..4]))
  }

  /** `validate_scalar`: the bytes of one scalar, if they are in order. */
  function ReadLeaf(p: Primitive, row: seq<byte>, c: Context): (r: Option<Split>)
    ensures r.Some? ==> row == r.value.data + r.value.rest && (Width(p).Some? ==> |r.value.data| == Width(p).value)
    ensures r.Some? ==> |r.value.data| >= PrimitiveMinimum(p)
  {
    match p
    case Bool =>
      (match Cut(row, 1)
       case None => None
       case Some(s) => if s.data[0] > 1 then None else Some(s))
    case Str =>
      (match Cut(row, 4)
       case None => None
       case Some(s) => if Word(s.data) >= c.strings then None else Some(s))
    case Text =>
      (match CutBlob(row)
       case None => None
       case Some(s) => if c.utf8(s.data[4..]) then Some(s) else None)
    case Bytes => CutBlob(row)
    case Bits | Logic | Logic9 =>
      if |row| < 8 then None else
        (match A.PackedBytes(Packing(p), Word(row[..8]))
         case None => None
         case Some(n) =>
           match Cut(row, 8 + n)
           case None => None
           case Some(s) => if A.PackedOk(Packing(p), s.data[8..], Word(row[..8])) then Some(s) else None)
    case Enum => None
    case _ => Cut(row, Width(p).value)
  }

  datatype Walked = Walked(tokens: seq<Token>, rest: seq<byte>)

  // ---------------------------------------------------------------- what a datatype means

  /** Values part by part, each part a number of times; an enumeration is its underlying integer. */
  ghost function Meaning(types: seq<Datatype>, id: nat, row: seq<byte>, c: Context): (r: Option<Walked>)
    requires Proper(types)
    decreases id, 2, 0
  {
    if !Known(types, id) then None
    else if types[id].kind.Scalar? then
      var p := types[id].kind.primitive;
      if p.Unit? then Some(Walked([], row)) else
        match ReadLeaf(p, row, c)
        case None => None
        case Some(s) => Some(Walked([Leaf(p, s.data)], s.rest))
    else
      KindOf(types, id);
      if types[id].kind.Sequence? then
        if |row| < 4 then None else
          FourBytes(row);
          var n: u32 := Word(row[..4]);
          match MeaningMany(types, types[id].kind.element, n, row[4..], c)
          case None => None
          case Some(w) => Some(Walked([Count(n)] + w.tokens, w.rest))
      else
        MeaningAll(types, id, Children(types[id].kind), row, c)
  }

  ghost function MeaningMany(types: seq<Datatype>, id: nat, n: nat, row: seq<byte>, c: Context): Option<Walked>
    requires Proper(types)
    decreases id, 3, n
  {
    if n == 0 then Some(Walked([], row)) else
      match MeaningMany(types, id, n - 1, row, c)
      case None => None
      case Some(w) => Then(w, Meaning(types, id, w.rest, c))
  }

  ghost function MeaningAll(types: seq<Datatype>, bound: nat, children: seq<Child>, row: seq<byte>, c: Context): Option<Walked>
    requires Proper(types) && forall i :: 0 <= i < |children| ==> children[i].id < bound
    decreases bound, 1, |children|
  {
    if children == [] then Some(Walked([], row)) else
      var last := children[|children| - 1];
      match MeaningAll(types, bound, children[..|children| - 1], row, c)
      case None => None
      case Some(w) => Then(w, MeaningMany(types, last.id, last.count, w.rest, c))
  }

  function Then(w: Walked, next: Option<Walked>): Option<Walked> {
    match next
    case None => None
    case Some(v) => Some(Walked(w.tokens + v.tokens, v.rest))
  }

  lemma {:induction false} FourBytes(row: seq<byte>)
    requires |row| >= 4
    ensures Word(row[..4]) < 0x1_0000_0000 && row[..4] == Limbs.Bytes(Word(row[..4]), 4)
  {
    hide Le, Limbs.Bytes;
    LeBound(row[..4]);
    PowFour();
    BytesOfLe(row[..4]);
  }

  /** Children come before their parents. */
  lemma {:induction false} KindOf(types: seq<Datatype>, id: nat)
    requires Proper(types) && Known(types, id) && !types[id].kind.Scalar?
    ensures id >= FIRST_DECLARED && Declared(types, id)
    ensures AllKnown(types, Children(types[id].kind))
    ensures forall i :: 0 <= i < |Children(types[id].kind)| ==> Children(types[id].kind)[i].id < id
    ensures types[id].kind.Sequence? ==> types[id].kind.element < id && Known(types, types[id].kind.element)
    ensures types[id].kind.Array? ==> types[id].kind.element < id && Known(types, types[id].kind.element)
  {
    assert Declared(types, id);
    var children := Children(types[id].kind);
    forall i | 0 <= i < |children|
      ensures children[i].id < id && Known(types, children[i].id)
    {
      assert Known(types[..id], children[i].id);
    }
    if types[id].kind.Sequence? || types[id].kind.Array? {
      assert children[0].id == types[id].kind.element;
    }
  }
}
