/** Attribute values: a recursive codec, and why it accepts exactly one encoding of each value. */
module AttributeValues {
  import opened Options
  import opened Limbs
  import opened Words
  import opened Varint

  const MAX_DEPTH: nat := 64
  const U32_LIMIT: int := 0x1_0000_0000

  datatype Width = W8 | W16 | W32 | W64

  datatype Packing = Bits | Logic | Logic9

  /** Floating-point values are their bit patterns; a text is its bytes. */
  datatype Value =
    | Null
    | Bool(flag: bool)
    | Signed(size: Width, number: i64)
    | Unsigned(size: Width, count: u64)
    | F32(bits: nat)
    | F64(bits: nat)
    | Str(id: nat)
    | Text(text: seq<byte>)
    | Bytes(data: seq<byte>)
    | Packed(packing: Packing, width: u64, data: seq<byte>)
    | Time(time: u64)
    | Enum(value: i64, name: nat)
    | Pointer(address: u64)
    | Fixed(raw: i64, scale: i64)
    | UFixed(uraw: u64, scale: i64)
    | List(values: seq<Value>)
    | Map(attributes: seq<Attribute>)

  datatype Attribute = Attribute(key: nat, value: Value)

  /** The number of interned strings, what counts as UTF-8, and the sizes the allocation budget is charged by. */
  datatype Context = Context(strings: u64, utf8: seq<byte> -> bool, valueSize: nat, attributeSize: nat)

  // ---------------------------------------------------------------- what the types of the fields promise

  function WidthIndex(w: Width): nat {
    match w
    case W8 => 0
    case W16 => 1
    case W32 => 2
    case W64 => 3
  }

  function Half(w: Width): int {
    match w
    case W8 => 0x80
    case W16 => 0x8000
    case W32 => 0x8000_0000
    case W64 => 0x8000_0000_0000_0000
  }

  predicate FitsSigned(w: Width, v: int) {
    -Half(w) <= v < Half(w)
  }

  predicate FitsUnsigned(w: Width, v: int) {
    0 <= v < 2 * Half(w)
  }

  predicate Typed(v: Value, c: Context)
    decreases v
  {
    match v
    case Signed(w, n) => FitsSigned(w, n)
    case Unsigned(w, n) => FitsUnsigned(w, n)
    case F32(bits) => bits < U32_LIMIT
    case F64(bits) => bits < 0x1_0000_0000_0000_0000
    case Str(id) => id < U32_LIMIT
    case Text(text) => c.utf8(text) && |text| < 0x1_0000_0000_0000_0000
    case Bytes(data) => |data| < 0x1_0000_0000_0000_0000
    case Enum(_, name) => name < U32_LIMIT
    case List(values) => |values| < 0x1_0000_0000_0000_0000 && forall i :: 0 <= i < |values| ==> Typed(values[i], c)
    case Map(attributes) =>
      |attributes| < 0x1_0000_0000_0000_0000 &&
      forall i :: 0 <= i < |attributes| ==> attributes[i].key < U32_LIMIT && Typed(attributes[i].value, c)
    case _ => true
  }

  function Tag(v: Value): byte {
    match v
    case Null => 0
    case Bool(_) => 1
    case Signed(w, _) => 2 + WidthIndex(w)
    case Unsigned(w, _) => 6 + WidthIndex(w)
    case F32(_) => 10
    case F64(_) => 11
    case Str(_) => 12
    case Text(_) => 13
    case Bytes(_) => 14
    case Packed(p, _, _) => (match p case Bits => 15 case Logic => 16 case Logic9 => 17)
    case Time(_) => 18
    case Enum(_, _) => 19
    case Pointer(_) => 20
    case Fixed(_, _) => 21
    case UFixed(_, _) => 22
    case List(_) => 23
    case Map(_) => 24
  }

  // ---------------------------------------------------------------- packed values

  function PerByte(p: Packing): nat {
    match p
    case Bits => 8
    case Logic => 4
    case Logic9 => 2
  }

  function PackedBytes(p: Packing, width: u64): Option<nat> {
    var n := width / PerByte(p) + (if width % PerByte(p) == 0 then 0 else 1);
    if n >= U32_LIMIT then None else Some(n)
  }

  function PowTwo(n: nat): (r: nat)
    ensures r > 0
  {
    if n == 0 then 1 else 2 * PowTwo(n - 1)
  }

  /** No bits beyond the width, and only the nine states. */
  predicate PackedOk(p: Packing, data: seq<byte>, width: u64) {
    var stride := 8 / PerByte(p);
    var remainder := width % (8 / stride) * stride;
    && (remainder != 0 && data != [] ==> data[|data| - 1] / PowTwo(remainder) == 0)
    && (p == Logic9 ==> forall i :: 0 <= i < |data| ==> data[i] % 16 <= 8 && (i * 2 + 1 < width ==> data[i] / 16 <= 8))
  }

  // ---------------------------------------------------------------- encoding

  function EncodeTagged(v: Value, c: Context, depth: nat): Option<seq<byte>>
    decreases v, 1
  {
    match EncodePayload(v, c, depth)
    case None => None
    case Some(s) => Some([Tag(v)] + s)
  }

  function EncodePayload(v: Value, c: Context, depth: nat): Option<seq<byte>>
    decreases v, 0
  {
    if depth >= MAX_DEPTH then None else
      match v
      case Null => Some([])
      case Bool(b) => Some([if b then 1 else 0])
      case Signed(_, n) => Some(Leb(Zigzag(n)))
      case Unsigned(_, n) => Some(Leb(n))
      case F32(bits) => Some(Limbs.Bytes(bits, 4))
      case F64(bits) => Some(Limbs.Bytes(bits, 8))
      case Str(id) => if id < c.strings then Some(Leb(id)) else None
      case Text(text) => Some(Leb(|text|) + text)
      case Bytes(data) => Some(Leb(|data|) + data)
      case Packed(p, width, data) =>
        if PackedBytes(p, width) == Some(|data|) && PackedOk(p, data, width) then Some(Leb(width) + data) else None
      case Time(n) => Some(Leb(n))
      case Enum(n, name) => if name < c.strings then Some(Leb(Zigzag(n)) + Leb(name)) else None
      case Pointer(n) => Some(Leb(n))
      case Fixed(raw, scale) => Some(Leb(Zigzag(raw)) + Leb(Zigzag(scale)))
      case UFixed(raw, scale) => Some(Leb(raw) + Leb(Zigzag(scale)))
      case List(values) =>
        (match EncodeList(values, c, depth + 1)
         case None => None
         case Some(s) => Some(Leb(|values|) + s))
      case Map(attributes) =>
        (match EncodePairs(attributes, {}, c, depth + 1)
         case None => None
         case Some(s) => Some(Leb(|attributes|) + s))
  }

  function EncodeList(values: seq<Value>, c: Context, depth: nat): Option<seq<byte>>
    decreases values
  {
    if values == [] then Some([]) else
      match EncodeTagged(values[0], c, depth)
      case None => None
      case Some(s) =>
        match EncodeList(values[1..], c, depth)
        case None => None
        case Some(t) => Some(s + t)
  }

  /** Keys are known strings and differ. */
  function EncodePairs(attributes: seq<Attribute>, seen: set<nat>, c: Context, depth: nat): Option<seq<byte>>
    decreases attributes
  {
    if attributes == [] then Some([]) else
      match EncodePair(attributes[0], seen, c, depth)
      case None => None
      case Some(s) =>
        match EncodePairs(attributes[1..], seen + {attributes[0].key}, c, depth)
        case None => None
        case Some(t) => Some(s + t)
  }

  function EncodePair(a: Attribute, seen: set<nat>, c: Context, depth: nat): Option<seq<byte>>
    decreases a
  {
    if a.key >= c.strings || a.key in seen then None else
      match EncodeTagged(a.value, c, depth)
      case None => None
      case Some(s) => Some(Leb(a.key) + s)
  }

  // ---------------------------------------------------------------- decoding

  datatype Read<+T> = Read(value: T, rest: seq<byte>, budget: nat)

  /** Take `n` bytes. */
  function Take(s: seq<byte>, n: nat): (r: Option<(seq<byte>, seq<byte>)>)
    ensures r.Some? ==> s == r.value.0 + r.value.1 && |r.value.0| == n
  {
    if n <= |s| then Some((s[..n], s[n..])) else None
  }

  function ReadId(s: seq<byte>, c: Context): (r: Option<(nat, seq<byte>)>)
    ensures r.Some? ==> |r.value.1| < |s|
  {
    match ReadVar(s)
    case None => None
    case Some((v, rest)) => if v < U32_LIMIT && v < c.strings then Some((v, rest)) else None
  }

  function ReadSigned(s: seq<byte>): (r: Option<(i64, seq<byte>)>)
    ensures r.Some? ==> |r.value.1| < |s|
  {
    match ReadVar(s)
    case None => None
    case Some((v, rest)) => Some((Unzigzag(v), rest))
  }

  function ReadTagged(retain: bool, s: seq<byte>, c: Context, depth: nat, budget: nat): (r: Option<Read<Value>>)
    ensures r.Some? ==> |r.value.rest| < |s|
    decreases |s|, 0
  {
    if s == [] then None else ReadPayload(retain, s[0], s[1..], c, depth, budget)
  }

  function WidthOf(i: nat): Width {
    if i == 0 then W8 else if i == 1 then W16 else if i == 2 then W32 else W64
  }

  function ReadInteger(tag: byte, s: seq<byte>, budget: nat): (r: Option<Read<Value>>)
    requires 2 <= tag <= 9
    ensures r.Some? ==> |r.value.rest| <= |s|
  {
    match ReadVar(s)
    case None => None
    case Some((raw, rest)) =>
      if tag <= 5 then
        (if FitsSigned(WidthOf(tag - 2), Unzigzag(raw)) then Some(Read(Signed(WidthOf(tag - 2), Unzigzag(raw)), rest, budget)) else None)
      else
        (if FitsUnsigned(WidthOf(tag - 6), raw) then Some(Read(Unsigned(WidthOf(tag - 6), raw), rest, budget)) else None)
  }

  function ReadBlob(retain: bool, tag: byte, s: seq<byte>, c: Context, budget: nat): (r: Option<Read<Value>>)
    requires tag == 13 || tag == 14
    ensures r.Some? ==> |r.value.rest| <= |s|
  {
    match ReadVar(s)
    case None => None
    case Some((n, rest)) =>
      match Take(rest, n)
      case None => None
      case Some((data, rest)) =>
        if |data| > budget || (tag == 13 && !c.utf8(data)) then None
        else Some(Read(if !retain then Null else if tag == 13 then Text(data) else Bytes(data), rest, budget - |data|))
  }

  function ReadPacked(retain: bool, p: Packing, s: seq<byte>, budget: nat): (r: Option<Read<Value>>)
    ensures r.Some? ==> |r.value.rest| <= |s|
  {
    match ReadVar(s)
    case None => None
    case Some((width, rest)) =>
      match PackedBytes(p, width)
      case None => None
      case Some(n) =>
        match Take(rest, n)
        case None => None
        case Some((data, rest)) =>
          if !PackedOk(p, data, width) || |data| > budget then None
          else Some(Read(Packed(p, width, if retain then data else []), rest, budget - |data|))
  }

  function ReadPayload(retain: bool, tag: byte, s: seq<byte>, c: Context, depth: nat, budget: nat): (r: Option<Read<Value>>)
    ensures r.Some? ==> |r.value.rest| <= |s|
    decreases |s|, 1
  {
    if depth >= MAX_DEPTH then None
    else if tag == 0 then Some(Read(Null, s, budget))
    else if tag == 1 then
      (if s == [] || s[0] > 1 then None else Some(Read(Bool(s[0] == 1), s[1..], budget)))
    else if tag <= 9 then ReadInteger(tag, s, budget)
    else if tag <= 11 then
      (match Take(s, if tag == 10 then 4 else 8)
       case None => None
       case Some((data, rest)) => Some(Read(if tag == 10 then F32(Le(data)) else F64(Le(data)), rest, budget)))
    else if tag == 12 then
      (match ReadId(s, c)
       case None => None
       case Some((id, rest)) => Some(Read(Str(id), rest, budget)))
    else if tag <= 14 then ReadBlob(retain, tag, s, c, budget)
    else if tag <= 17 then ReadPacked(retain, if tag == 15 then Bits else if tag == 16 then Logic else Logic9, s, budget)
    else if tag == 18 || tag == 20 then
      (match ReadVar(s)
       case None => None
       case Some((v, rest)) => Some(Read(if tag == 18 then Time(v) else Pointer(v), rest, budget)))
    else if tag == 19 then
      (match ReadSigned(s)
       case None => None
       case Some((v, rest)) =>
         match ReadId(rest, c)
         case None => None
         case Some((name, rest)) => Some(Read(Enum(v, name), rest, budget)))
    else if tag == 21 then
      (match ReadSigned(s)
       case None => None
       case Some((raw, rest)) =>
         match ReadSigned(rest)
         case None => None
         case Some((scale, rest)) => Some(Read(Fixed(raw, scale), rest, budget)))
    else if tag == 22 then
      (match ReadVar(s)
       case None => None
       case Some((raw, rest)) =>
         match ReadSigned(rest)
         case None => None
         case Some((scale, rest)) => Some(Read(UFixed(raw, scale), rest, budget)))
    else if tag == 23 then
      (match BoundedCount(s, c.valueSize, budget)
       case None => None
       case Some(Read(count, rest, left)) =>
         match ReadList(retain, rest, count, c, depth + 1, left)
         case None => None
         case Some(Read(values, rest, left)) => Some(Read(List(values), rest, left)))
    else if tag == 24 then
      (match BoundedCount(s, c.attributeSize, budget)
       case None => None
       case Some(Read(count, rest, left)) =>
         match ReadPairs(retain, rest, count, {}, c, depth + 1, left)
         case None => None
         case Some(Read(attributes, rest, left)) => Some(Read(Map(attributes), rest, left)))
    else None
  }

  /** A count no larger than the bytes left, charged before anything is read. */
  function BoundedCount(s: seq<byte>, size: nat, budget: nat): (r: Option<Read<nat>>)
    ensures r.Some? ==> |r.value.rest| < |s|
  {
    match ReadVar(s)
    case None => None
    case Some((count, rest)) =>
      if count > |rest| || count * size > budget then None else Some(Read(count, rest, budget - count * size))
  }

  function ReadList(retain: bool, s: seq<byte>, count: nat, c: Context, depth: nat, budget: nat): (r: Option<Read<seq<Value>>>)
    ensures r.Some? ==> |r.value.rest| <= |s|
    decreases |s|, 1, count
  {
    if count == 0 then Some(Read([], s, budget)) else
      match ReadTagged(retain, s, c, depth, budget)
      case None => None
      case Some(Read(v, rest, left)) =>
        match ReadList(retain, rest, count - 1, c, depth, left)
        case None => None
        case Some(Read(vs, rest, left)) => Some(Read(if retain then [v] + vs else [], rest, left))
  }

  function ReadPairs(retain: bool, s: seq<byte>, count: nat, seen: set<nat>, c: Context, depth: nat, budget: nat): (r: Option<Read<seq<Attribute>>>)
    ensures r.Some? ==> |r.value.rest| <= |s|
    decreases |s|, 1, count
  {
    if count == 0 then Some(Read([], s, budget)) else
      match ReadId(s, c)
      case None => None
      case Some((key, rest)) =>
        if key in seen then None else
          match ReadTagged(retain, rest, c, depth, budget)
          case None => None
          case Some(Read(v, rest, left)) =>
            match ReadPairs(retain, rest, count - 1, seen + {key}, c, depth, left)
            case None => None
            case Some(Read(vs, rest, left)) => Some(Read(if retain then [Attribute(key, v)] + vs else [], rest, left))
  }

  /** What a value costs of the allocation budget. */
  function Charge(v: Value, c: Context): nat
    decreases v
  {
    match v
    case Text(text) => |text|
    case Bytes(data) => |data|
    case Packed(_, _, data) => |data|
    case List(values) => |values| * c.valueSize + ChargeList(values, c)
    case Map(attributes) => |attributes| * c.attributeSize + ChargePairs(attributes, c)
    case _ => 0
  }

  function ChargeList(values: seq<Value>, c: Context): nat
    decreases values
  {
    if values == [] then 0 else Charge(values[0], c) + ChargeList(values[1..], c)
  }

  function ChargePairs(attributes: seq<Attribute>, c: Context): nat
    decreases attributes
  {
    if attributes == [] then 0 else ChargePair(attributes[0], c) + ChargePairs(attributes[1..], c)
  }

  function ChargePair(a: Attribute, c: Context): nat
    decreases a
  {
    Charge(a.value, c)
  }
}
