/** Decoding undoes encoding, and whatever is decoded is exactly what encoding writes. */
module AttributeRoundTrip {
  import opened Options
  import opened Arithmetic
  import opened Limbs
  import opened Words
  import opened Varint
  import opened AttributeValues

  // ---------------------------------------------------------------- what is written is read

  /** The value is read back from the front of the bytes, and costs its charge. */
  ghost predicate ReadsBack(v: Value, s: seq<byte>, c: Context, depth: nat, rest: seq<byte>, budget: nat) {
    budget >= Charge(v, c) && ReadPayload(true, Tag(v), s + rest, c, depth, budget) == Some(Read(v, rest, budget - Charge(v, c)))
  }

  lemma {:induction false} SignedReads(v: i64, rest: seq<byte>)
    ensures ReadSigned(Leb(Zigzag(v)) + rest) == Some((v, rest))
  {
    VarReads(Zigzag(v), rest);
    ZigzagInverse(v, 0);
  }

  lemma {:induction false} IdReads(id: nat, c: Context, rest: seq<byte>)
    requires id < U32_LIMIT && id < c.strings
    ensures ReadId(Leb(id) + rest, c) == Some((id, rest))
  {
    VarReads(id, rest);
  }

  lemma {:induction false} TakeReads(data: seq<byte>, rest: seq<byte>)
    ensures Take(data + rest, |data|) == Some((data, rest))
  {
  }

  /** A number, a flag or a pair of numbers. */
  lemma {:induction false} NumberReads(v: Value, c: Context, depth: nat, rest: seq<byte>, budget: nat)
    requires Typed(v, c) && EncodePayload(v, c, depth).Some?
    requires v.Null? || v.Bool? || v.Signed? || v.Unsigned? || v.Str? || v.Time? || v.Pointer?
    ensures ReadsBack(v, EncodePayload(v, c, depth).value, c, depth, rest, budget)
  {
    hide Unleb, Leb, ReadVar;
    match v
    case Null => assert [] + rest == rest;
    case Bool(b) => assert ([if b then 1 else 0] + rest)[1..] == rest;
    case Signed(_, n) =>
      SignedReads(n, rest);
      VarReads(Zigzag(n), rest);
    case Unsigned(_, n) => VarReads(n, rest);
    case Str(id) => IdReads(id, c, rest);
    case Time(n) => VarReads(n, rest);
    case Pointer(n) => VarReads(n, rest);
  }

  lemma {:induction false} PairReads(v: Value, c: Context, depth: nat, rest: seq<byte>, budget: nat)
    requires Typed(v, c) && EncodePayload(v, c, depth).Some? && (v.Enum? || v.Fixed? || v.UFixed?)
    ensures ReadsBack(v, EncodePayload(v, c, depth).value, c, depth, rest, budget)
  {
    hide Unleb, Leb, ReadVar;
    match v
    case Enum(n, name) =>
      assert Leb(Zigzag(n)) + Leb(name) + rest == Leb(Zigzag(n)) + (Leb(name) + rest);
      SignedReads(n, Leb(name) + rest);
      IdReads(name, c, rest);
    case Fixed(raw, scale) =>
      assert Leb(Zigzag(raw)) + Leb(Zigzag(scale)) + rest == Leb(Zigzag(raw)) + (Leb(Zigzag(scale)) + rest);
      SignedReads(raw, Leb(Zigzag(scale)) + rest);
      SignedReads(scale, rest);
    case UFixed(raw, scale) =>
      assert Leb(raw) + Leb(Zigzag(scale)) + rest == Leb(raw) + (Leb(Zigzag(scale)) + rest);
      VarReads(raw, Leb(Zigzag(scale)) + rest);
      SignedReads(scale, rest);
  }

  lemma {:induction false} BytesRead(v: Value, c: Context, depth: nat, rest: seq<byte>, budget: nat)
    requires Typed(v, c) && EncodePayload(v, c, depth).Some? && budget >= Charge(v, c)
    requires v.F32? || v.F64? || v.Text? || v.Bytes? || v.Packed?
    ensures ReadsBack(v, EncodePayload(v, c, depth).value, c, depth, rest, budget)
  {
    hide Unleb, Leb, ReadVar, PackedOk, PackedBytes, Le, Limbs.Bytes;
    match v
    case F32(bits) =>
      FloatReads(bits, 4);
      TakeReads(Limbs.Bytes(bits, 4), rest);
    case F64(bits) =>
      FloatReads(bits, 8);
      TakeReads(Limbs.Bytes(bits, 8), rest);
    case Text(data) =>
      assert Leb(|data|) + data + rest == Leb(|data|) + (data + rest);
      VarReads(|data|, data + rest);
      TakeReads(data, rest);
    case Bytes(data) =>
      assert Leb(|data|) + data + rest == Leb(|data|) + (data + rest);
      VarReads(|data|, data + rest);
      TakeReads(data, rest);
    case Packed(p, width, data) =>
      assert Leb(width) + data + rest == Leb(width) + (data + rest);
      VarReads(width, data + rest);
      TakeReads(data, rest);
  }

  lemma {:induction false} FloatReads(bits: nat, n: nat)
    requires (n == 4 && bits < U32_LIMIT) || (n == 8 && bits < 0x1_0000_0000_0000_0000)
    ensures Le(Limbs.Bytes(bits, n)) == bits
  {
    LeOfBytes(bits, n);
    PowEight();
    assert Pow(4) == U32_LIMIT by {
      assert Pow(2) == 65536 && Pow(3) == 256 * Pow(2);
    }
    DivModIs(bits, Pow(n), 0, bits);
  }

  lemma {:induction false} TaggedReads(v: Value, c: Context, depth: nat, rest: seq<byte>, budget: nat)
    requires Typed(v, c) && EncodeTagged(v, c, depth).Some? && budget >= Charge(v, c)
    ensures ReadTagged(true, EncodeTagged(v, c, depth).value + rest, c, depth, budget) == Some(Read(v, rest, budget - Charge(v, c)))
    decreases v, 1
  {
    hide ReadPayload, EncodePayload, Charge;
    var s := EncodePayload(v, c, depth).value;
    assert ([Tag(v)] + s + rest)[1..] == s + rest;
    PayloadReads(v, c, depth, rest, budget);
  }

  lemma {:induction false} PayloadReads(v: Value, c: Context, depth: nat, rest: seq<byte>, budget: nat)
    requires Typed(v, c) && EncodePayload(v, c, depth).Some? && budget >= Charge(v, c)
    ensures ReadsBack(v, EncodePayload(v, c, depth).value, c, depth, rest, budget)
    decreases v, 0
  {
    if v.List? {
      ManyRead(v, c, depth, rest, budget);
    } else if v.Map? {
      ManyRead(v, c, depth, rest, budget);
    } else if v.F32? || v.F64? || v.Text? || v.Bytes? || v.Packed? {
      hide *;
      BytesRead(v, c, depth, rest, budget);
    } else if v.Enum? || v.Fixed? || v.UFixed? {
      hide *;
      PairReads(v, c, depth, rest, budget);
    } else {
      hide *;
      NumberReads(v, c, depth, rest, budget);
    }
  }

  lemma {:induction false} ManyRead(v: Value, c: Context, depth: nat, rest: seq<byte>, budget: nat)
    requires Typed(v, c) && EncodePayload(v, c, depth).Some? && budget >= Charge(v, c) && (v.List? || v.Map?)
    ensures ReadsBack(v, EncodePayload(v, c, depth).value, c, depth, rest, budget)
    decreases v, 0, 0
  {
    hide Unleb, Leb, ReadVar, ReadList, ReadPairs, EncodeList, EncodePairs, ChargeList, ChargePairs;
    match v
    case List(values) =>
      var s := EncodeList(values, c, depth + 1).value;
      assert Leb(|values|) + s + rest == Leb(|values|) + (s + rest);
      VarReads(|values|, s + rest);
      ListReads(values, c, depth + 1, rest, budget - |values| * c.valueSize);
    case Map(attributes) =>
      var s := EncodePairs(attributes, {}, c, depth + 1).value;
      assert Leb(|attributes|) + s + rest == Leb(|attributes|) + (s + rest);
      VarReads(|attributes|, s + rest);
      PairsRead(attributes, {}, c, depth + 1, rest, budget - |attributes| * c.attributeSize);
  }

  lemma {:induction false} ListReads(values: seq<Value>, c: Context, depth: nat, rest: seq<byte>, budget: nat)
    requires (forall i :: 0 <= i < |values| ==> Typed(values[i], c)) && EncodeList(values, c, depth).Some?
    requires budget >= ChargeList(values, c)
    ensures |EncodeList(values, c, depth).value| >= |values|
    ensures ReadList(true, EncodeList(values, c, depth).value + rest, |values|, c, depth, budget)
            == Some(Read(values, rest, budget - ChargeList(values, c)))
    decreases values
  {
    hide ReadTagged, EncodeTagged, Charge;
    if values == [] {
      assert [] + rest == rest;
    } else {
      var s, t := EncodeTagged(values[0], c, depth).value, EncodeList(values[1..], c, depth).value;
      assert s + t + rest == s + (t + rest);
      TaggedReads(values[0], c, depth, t + rest, budget);
      NotEmpty(values[0], c, depth);
      ListReads(values[1..], c, depth, rest, budget - Charge(values[0], c));
      assert values == [values[0]] + values[1..];
    }
  }

  lemma {:induction false} NotEmpty(v: Value, c: Context, depth: nat)
    requires EncodeTagged(v, c, depth).Some?
    ensures EncodeTagged(v, c, depth).value != []
  {
  }

  lemma {:induction false} PairsRead(attributes: seq<Attribute>, seen: set<nat>, c: Context, depth: nat, rest: seq<byte>, budget: nat)
    requires forall i :: 0 <= i < |attributes| ==> attributes[i].key < U32_LIMIT && Typed(attributes[i].value, c)
    requires EncodePairs(attributes, seen, c, depth).Some? && budget >= ChargePairs(attributes, c)
    ensures |EncodePairs(attributes, seen, c, depth).value| >= |attributes|
    ensures ReadPairs(true, EncodePairs(attributes, seen, c, depth).value + rest, |attributes|, seen, c, depth, budget)
            == Some(Read(attributes, rest, budget - ChargePairs(attributes, c)))
    decreases attributes
  {
    hide ReadTagged, EncodeTagged, Charge, ReadId, Leb;
    if attributes == [] {
      assert [] + rest == rest;
    } else {
      var a := attributes[0];
      var s, t := EncodeTagged(a.value, c, depth).value, EncodePairs(attributes[1..], seen + {a.key}, c, depth).value;
      assert Leb(a.key) + s + t + rest == Leb(a.key) + (s + (t + rest));
      IdReads(a.key, c, s + (t + rest));
      PairReadsFirst(a, c, depth, t + rest, budget);
      NotEmpty(a.value, c, depth);
      PairsRead(attributes[1..], seen + {a.key}, c, depth, rest, budget - ChargePair(a, c));
      assert attributes == [a] + attributes[1..];
    }
  }

  lemma {:induction false} PairReadsFirst(a: Attribute, c: Context, depth: nat, rest: seq<byte>, budget: nat)
    requires Typed(a.value, c) && EncodeTagged(a.value, c, depth).Some? && budget >= ChargePair(a, c)
    ensures ReadTagged(true, EncodeTagged(a.value, c, depth).value + rest, c, depth, budget)
            == Some(Read(a.value, rest, budget - ChargePair(a, c)))
    decreases a
  {
    hide Typed, EncodeTagged, ReadTagged, Charge;
    TaggedReads(a.value, c, depth, rest, budget);
  }

  // ---------------------------------------------------------------- only what is written is read

  /** What was read is a proper value, its encoding is exactly the bytes read, and its charge was paid. */
  ghost predicate WrittenAs(tag: byte, s: seq<byte>, c: Context, depth: nat, budget: nat, r: Read<Value>) {
    && Typed(r.value, c) && tag == Tag(r.value)
    && EncodePayload(r.value, c, depth).Some? && s == EncodePayload(r.value, c, depth).value + r.rest
    && budget == Charge(r.value, c) + r.budget
  }

  lemma {:induction false} VarWritten(s: seq<byte>)
    ensures ReadVar(s).Some? ==> s == Leb(ReadVar(s).value.0) + ReadVar(s).value.1
  {
    if ReadVar(s).Some? {
      ReadVarIff(s, ReadVar(s).value.0, ReadVar(s).value.1);
    }
  }

  lemma {:induction false} SignedWritten(s: seq<byte>)
    ensures ReadSigned(s).Some? ==> s == Leb(Zigzag(ReadSigned(s).value.0)) + ReadSigned(s).value.1
  {
    VarWritten(s);
    if ReadVar(s).Some? {
      ZigzagInverse(0, ReadVar(s).value.0);
    }
  }

  lemma {:induction false} IdWritten(s: seq<byte>, c: Context)
    ensures ReadId(s, c).Some? ==>
              s == Leb(ReadId(s, c).value.0) + ReadId(s, c).value.1 && ReadId(s, c).value.0 < U32_LIMIT && ReadId(s, c).value.0 < c.strings
  {
    VarWritten(s);
  }

  lemma {:induction false} NumberWritten(tag: byte, s: seq<byte>, c: Context, depth: nat, budget: nat)
    requires ReadPayload(true, tag, s, c, depth, budget).Some?
    requires tag <= 9 || tag == 12 || tag == 18 || tag == 20
    ensures WrittenAs(tag, s, c, depth, budget, ReadPayload(true, tag, s, c, depth, budget).value)
  {
    hide Unleb, Leb, ReadVar;
    VarWritten(s);
    SignedWritten(s);
    IdWritten(s, c);
    if tag == 0 {
      assert [] + s == s;
    } else if tag == 1 {
      assert s == [s[0]] + s[1..];
    }
  }

  lemma {:induction false} PairWritten(tag: byte, s: seq<byte>, c: Context, depth: nat, budget: nat)
    requires ReadPayload(true, tag, s, c, depth, budget).Some? && (tag == 19 || tag == 21 || tag == 22)
    ensures WrittenAs(tag, s, c, depth, budget, ReadPayload(true, tag, s, c, depth, budget).value)
  {
    hide Unleb, Leb, ReadVar, ReadSigned, ReadId;
    var (v, rest, r) := (ReadPayload(true, tag, s, c, depth, budget).value.value,
                         if tag == 22 then ReadVar(s).value.1 else ReadSigned(s).value.1,
                         ReadPayload(true, tag, s, c, depth, budget).value.rest);
    VarWritten(s);
    SignedWritten(s);
    SignedWritten(rest);
    IdWritten(rest, c);
    var first := if tag == 19 then Leb(Zigzag(v.value)) else if tag == 21 then Leb(Zigzag(v.raw)) else Leb(v.uraw);
    var second := if tag == 19 then Leb(v.name) else Leb(Zigzag(v.scale));
    assert first + (second + r) == first + second + r;
  }

  lemma {:induction false} BytesWritten(tag: byte, s: seq<byte>, c: Context, depth: nat, budget: nat)
    requires ReadPayload(true, tag, s, c, depth, budget).Some? && (10 <= tag <= 11 || 13 <= tag <= 17)
    ensures WrittenAs(tag, s, c, depth, budget, ReadPayload(true, tag, s, c, depth, budget).value)
  {
    hide Unleb, Leb, ReadVar, PackedOk, Le, Limbs.Bytes, Pow;
    var r := ReadPayload(true, tag, s, c, depth, budget).value;
    if tag <= 11 {
      FloatWritten(Take(s, if tag == 10 then 4 else 8).value.0);
    } else {
      VarWritten(s);
      var (n, rest) := ReadVar(s).value;
      assert Leb(n) + (DataOf(r.value) + r.rest) == Leb(n) + DataOf(r.value) + r.rest;
    }
  }

  function DataOf(v: Value): seq<byte> {
    match v
    case Text(data) => data
    case Bytes(data) => data
    case Packed(_, _, data) => data
    case _ => []
  }

  lemma {:induction false} FloatWritten(data: seq<byte>)
    requires |data| == 4 || |data| == 8
    ensures Limbs.Bytes(Le(data), |data|) == data
    ensures Le(data) < if |data| == 4 then U32_LIMIT else 0x1_0000_0000_0000_0000
  {
    LeBound(data);
    PowEight();
    assert Pow(4) == U32_LIMIT by {
      assert Pow(2) == 65536 && Pow(3) == 256 * Pow(2);
    }
    LeOfBytes(Le(data), |data|);
    DivModIs(Le(data), Pow(|data|), 0, Le(data));
    LeDetermines(Limbs.Bytes(Le(data), |data|), data);
  }

  lemma {:induction false} TaggedWritten(s: seq<byte>, c: Context, depth: nat, budget: nat)
    requires ReadTagged(true, s, c, depth, budget).Some?
    ensures var r := ReadTagged(true, s, c, depth, budget).value;
      && Typed(r.value, c) && EncodeTagged(r.value, c, depth).Some? && s == EncodeTagged(r.value, c, depth).value + r.rest
      && budget == Charge(r.value, c) + r.budget
    decreases |s|, 0
  {
    hide ReadPayload, EncodePayload, Charge, Typed;
    PayloadWritten(s[0], s[1..], c, depth, budget);
    var r := ReadTagged(true, s, c, depth, budget).value;
    assert s == [s[0]] + s[1..];
    assert [s[0]] + (EncodePayload(r.value, c, depth).value + r.rest) == [s[0]] + EncodePayload(r.value, c, depth).value + r.rest;
  }

  lemma {:induction false} PayloadWritten(tag: byte, s: seq<byte>, c: Context, depth: nat, budget: nat)
    requires ReadPayload(true, tag, s, c, depth, budget).Some?
    ensures WrittenAs(tag, s, c, depth, budget, ReadPayload(true, tag, s, c, depth, budget).value)
    decreases |s|, 2
  {
    if tag <= 9 || tag == 12 || tag == 18 || tag == 20 {
      hide *;
      NumberWritten(tag, s, c, depth, budget);
    } else if tag == 19 || tag == 21 || tag == 22 {
      hide *;
      PairWritten(tag, s, c, depth, budget);
    } else if 10 <= tag <= 11 || 13 <= tag <= 17 {
      hide *;
      BytesWritten(tag, s, c, depth, budget);
    } else if tag == 23 {
      ListPayloadWritten(s, c, depth, budget);
    } else {
      KnownTag(true, tag, s, c, depth, budget);
      MapPayloadWritten(s, c, depth, budget);
    }
  }

  lemma {:induction false} KnownTag(retain: bool, tag: byte, s: seq<byte>, c: Context, depth: nat, budget: nat)
    requires ReadPayload(retain, tag, s, c, depth, budget).Some?
    ensures tag <= 24
  {
  }

  lemma {:induction false} ListPayloadWritten(s: seq<byte>, c: Context, depth: nat, budget: nat)
    requires ReadPayload(true, 23, s, c, depth, budget).Some?
    ensures WrittenAs(23, s, c, depth, budget, ReadPayload(true, 23, s, c, depth, budget).value)
    decreases |s|, 1
  {
    hide Unleb, Leb, ReadVar, ReadList, ReadPairs, EncodeList, EncodePairs, ChargeList, ChargePairs;
    var r := ReadPayload(true, 23, s, c, depth, budget).value;
    VarWritten(s);
    var Read(count, rest, left) := BoundedCount(s, c.valueSize, budget).value;
    ListWritten(rest, count, c, depth + 1, left);
    var values := r.value.values;
    assert Leb(count) + (EncodeList(values, c, depth + 1).value + r.rest) == Leb(count) + EncodeList(values, c, depth + 1).value + r.rest;
  }

  lemma {:induction false} MapPayloadWritten(s: seq<byte>, c: Context, depth: nat, budget: nat)
    requires ReadPayload(true, 24, s, c, depth, budget).Some?
    ensures WrittenAs(24, s, c, depth, budget, ReadPayload(true, 24, s, c, depth, budget).value)
    decreases |s|, 1
  {
    hide Unleb, Leb, ReadVar, ReadList, ReadPairs, EncodeList, EncodePairs, ChargeList, ChargePairs;
    var r := ReadPayload(true, 24, s, c, depth, budget).value;
    VarWritten(s);
    var Read(count, rest, left) := BoundedCount(s, c.attributeSize, budget).value;
    PairsWritten(rest, count, {}, c, depth + 1, left);
    var attributes := r.value.attributes;
    assert Leb(count) + (EncodePairs(attributes, {}, c, depth + 1).value + r.rest)
        == Leb(count) + EncodePairs(attributes, {}, c, depth + 1).value + r.rest;
  }

  lemma {:induction false} ListWritten(s: seq<byte>, count: nat, c: Context, depth: nat, budget: nat)
    requires ReadList(true, s, count, c, depth, budget).Some?
    ensures var r := ReadList(true, s, count, c, depth, budget).value;
      && |r.value| == count && (forall i :: 0 <= i < count ==> Typed(r.value[i], c))
      && EncodeList(r.value, c, depth).Some? && s == EncodeList(r.value, c, depth).value + r.rest
      && budget == ChargeList(r.value, c) + r.budget
    decreases |s|, 1, count
  {
    hide ReadTagged, EncodeTagged, Charge, Typed;
    var r := ReadList(true, s, count, c, depth, budget).value;
    if count > 0 {
      TaggedWritten(s, c, depth, budget);
      var Read(v, rest, left) := ReadTagged(true, s, c, depth, budget).value;
      ListWritten(rest, count - 1, c, depth, left);
      var tail := ReadList(true, rest, count - 1, c, depth, left).value;
      assert r.value == [v] + tail.value && r.value[1..] == tail.value;
      assert EncodeTagged(v, c, depth).value + (EncodeList(tail.value, c, depth).value + r.rest)
          == EncodeTagged(v, c, depth).value + EncodeList(tail.value, c, depth).value + r.rest;
    } else {
      assert [] + s == s;
    }
  }

  lemma {:induction false} PairsWritten(s: seq<byte>, count: nat, seen: set<nat>, c: Context, depth: nat, budget: nat)
    requires ReadPairs(true, s, count, seen, c, depth, budget).Some?
    ensures var r := ReadPairs(true, s, count, seen, c, depth, budget).value;
      && |r.value| == count && (forall i :: 0 <= i < count ==> r.value[i].key < U32_LIMIT && Typed(r.value[i].value, c))
      && EncodePairs(r.value, seen, c, depth).Some? && s == EncodePairs(r.value, seen, c, depth).value + r.rest
      && budget == ChargePairs(r.value, c) + r.budget
    decreases |s|, 1, count
  {
    hide ReadTagged, EncodeTagged, Charge, Typed, ReadId, Leb;
    var r := ReadPairs(true, s, count, seen, c, depth, budget).value;
    if count > 0 {
      IdWritten(s, c);
      var (key, s1) := ReadId(s, c).value;
      TaggedWritten(s1, c, depth, budget);
      var Read(v, rest, left) := ReadTagged(true, s1, c, depth, budget).value;
      PairsWritten(rest, count - 1, seen + {key}, c, depth, left);
      var tail := ReadPairs(true, rest, count - 1, seen + {key}, c, depth, left).value;
      assert r.value == [Attribute(key, v)] + tail.value && r.value[1..] == tail.value;
      var x, y, z := Leb(key), EncodeTagged(v, c, depth).value, EncodePairs(tail.value, seen + {key}, c, depth).value;
      assert x + (y + (z + r.rest)) == x + y + z + r.rest;
    } else {
      assert [] + s == s;
    }
  }

  // ---------------------------------------------------------------- the whole law

  /** `Value::decode`: one value and nothing else. */
  function Decode(data: seq<byte>, c: Context, budget: nat): Option<Value> {
    match ReadTagged(true, data, c, 0, budget)
    case None => None
    case Some(Read(v, rest, _)) => if rest == [] then Some(v) else None
  }

  /** Bytes decode to a value exactly when they are its encoding and the budget covers its charge. */
  lemma {:induction false} DecodeIff(data: seq<byte>, v: Value, c: Context, budget: nat)
    ensures Decode(data, c, budget) == Some(v) <==>
            Typed(v, c) && EncodeTagged(v, c, 0) == Some(data) && Charge(v, c) <= budget
  {
    hide ReadTagged, EncodeTagged, Charge, Typed;
    if Decode(data, c, budget) == Some(v) {
      TaggedWritten(data, c, 0, budget);
      assert EncodeTagged(v, c, 0).value + [] == EncodeTagged(v, c, 0).value;
    }
    if Typed(v, c) && EncodeTagged(v, c, 0) == Some(data) && Charge(v, c) <= budget {
      TaggedReads(v, c, 0, [], budget);
      assert data + [] == data;
    }
  }

  // ---------------------------------------------------------------- integers of few bytes

  function ByteCount(w: Width): nat {
    match w
    case W8 => 1
    case W16 => 2
    case W32 => 4
    case W64 => 8
  }

  /** The number that bytes spell in two's complement. */
  function Complement(s: seq<byte>): int {
    if 2 * Le(s) >= Pow(|s|) then Le(s) - Pow(|s|) else Le(s)
  }

  /** The integers of a width are those that as many bytes spell, plainly or in two's complement. */
  lemma {:induction false} WidthsFit(w: Width, v: int)
    ensures FitsUnsigned(w, v) <==> exists s: seq<byte> :: |s| == ByteCount(w) && Le(s) == v
    ensures FitsSigned(w, v) <==> exists s: seq<byte> :: |s| == ByteCount(w) && Complement(s) == v
  {
    hide Le, Limbs.Bytes, Complement, Pow, FitsUnsigned, FitsSigned, Half, ByteCount;
    forall s: seq<byte> | |s| == ByteCount(w)
      ensures FitsUnsigned(w, Le(s)) && FitsSigned(w, Complement(s))
    {
      SpelledFits(w, s);
    }
    if FitsUnsigned(w, v) {
      var s := UnsignedSpelled(w, v);
    }
    if FitsSigned(w, v) {
      var s := SignedSpelled(w, v);
    }
  }

  lemma {:induction false} SpelledFits(w: Width, s: seq<byte>)
    requires |s| == ByteCount(w)
    ensures FitsUnsigned(w, Le(s)) && FitsSigned(w, Complement(s))
  {
    hide Le, Pow, Half, ByteCount;
    HalfIs(w);
    LeBound(s);
  }

  lemma {:induction false} UnsignedSpelled(w: Width, v: int) returns (s: seq<byte>)
    requires FitsUnsigned(w, v)
    ensures |s| == ByteCount(w) && Le(s) == v
  {
    hide Le, Limbs.Bytes, Pow, Half, ByteCount;
    HalfIs(w);
    LeOfBytes(v, ByteCount(w));
    DivModIs(v, Pow(ByteCount(w)), 0, v);
    s := Limbs.Bytes(v, ByteCount(w));
  }

  lemma {:induction false} SignedSpelled(w: Width, v: int) returns (s: seq<byte>)
    requires FitsSigned(w, v)
    ensures |s| == ByteCount(w) && Complement(s) == v
  {
    hide Le, Limbs.Bytes, Pow, Half, ByteCount;
    HalfIs(w);
    s := UnsignedSpelled(w, if v < 0 then v + Pow(ByteCount(w)) else v);
  }

  lemma {:induction false} HalfIs(w: Width)
    ensures 2 * Half(w) == Pow(ByteCount(w))
  {
    PowFour();
    PowEight();
    assert Pow(1) == 256 && Pow(2) == 256 * Pow(1);
  }
}
