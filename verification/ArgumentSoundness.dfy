/** Whatever is in the columns, a row that is read from them is a payload of its datatype and within the limit. */
module ArgumentSoundness {
  import opened Options
  import opened Limbs
  import opened Words
  import opened Varint
  import opened Datatypes
  import opened DatatypeWalks
  import opened DatatypeGrammar
  import opened ArgumentColumns
  import opened ArgumentReading
  import opened ArgumentRows
  import A = AttributeValues

  /** Every text that a row may refer to is UTF-8. */
  ghost predicate TextsOk(r: Setting) {
    && (forall i :: 0 <= i < |r.dictionary| ==> r.c.utf8(r.dictionary[i]))
    && (forall i :: 0 <= i < |r.sharedTexts| ==> r.c.utf8(r.sharedTexts[i]))
  }

  /** The payload is longer by the bytes that were given, and no longer than it may be. */
  predicate Counted(o: Out, length: nat, r: Setting) {
    o.length == length + |o.bytes| <= r.limit
  }

  // ---------------------------------------------------------------- one scalar

  lemma {:induction false} NumberIsScalar(p: Primitive, place: Place, length: nat, r: Setting)
    requires Width(p).Some? && !p.Bool? && !p.Str? && ReadNumber(true, p, place, length, r).Some?
    ensures var o := ReadNumber(true, p, place, length, r).value; ScalarBytes(p, o.bytes, r.c) && Counted(o, length, r)
  {
    hide ReadVar, Unzigzag, IntegerRange, TwosComplement;
  }

  lemma {:induction false} FixedIsScalar(p: Primitive, place: Place, length: nat, r: Setting)
    requires (p.Fixed? || p.Ufixed?) && ReadFixed(true, p, place, length, r).Some?
    ensures var o := ReadFixed(true, p, place, length, r).value; ScalarBytes(p, o.bytes, r.c) && Counted(o, length, r)
  {
    hide ReadVar, Unzigzag, TwosComplement;
  }

  lemma {:induction false} SizedBytes(n: nat, size: nat, data: seq<byte>)
    requires (n == 4 && size < 0x1_0000_0000) || (n == 8 && size < 0x1_0000_0000_0000_0000)
    ensures var s := Limbs.Bytes(size, n) + data; |s| == n + |data| && Word(s[..n]) == size && s[n..] == data
  {
    BytesBack(size, n);
  }

  lemma {:induction false} TextIsScalar(place: Place, text: Chars, length: nat, r: Setting)
    requires EmitText(true, place, text, length, r).Some?
    ensures var o := EmitText(true, place, text, length, r).value;
      Counted(o, length, r) && ScalarBytes(Primitive.Bytes, o.bytes, r.c) && (r.c.utf8(text) ==> ScalarBytes(Text, o.bytes, r.c))
  {
    hide Word, Limbs.Bytes;
    SizedBytes(4, |text|, text);
  }

  lemma {:induction false} StringIsScalar(place: Place, length: nat, r: Setting)
    requires ReadString(true, place, length, r).Some?
    ensures var o := ReadString(true, place, length, r).value; ScalarBytes(Str, o.bytes, r.c) && Counted(o, length, r)
  {
    hide ReadVar, Word, Limbs.Bytes;
    var id := ReadVar(place.columns.others).value.0;
    SizedBytes(4, id, []);
    assert Limbs.Bytes(id, 4) + [] == Limbs.Bytes(id, 4) == Limbs.Bytes(id, 4)[..4];
  }

  lemma {:induction false} PackedIsScalar(p: Primitive, place: Place, length: nat, r: Setting)
    requires Packed(p) && ReadPacked(true, p, place, length, r).Some?
    ensures var o := ReadPacked(true, p, place, length, r).value; ScalarBytes(p, o.bytes, r.c) && Counted(o, length, r)
  {
    hide ReadVar, Word, Limbs.Bytes, A.PackedBytes, A.PackedOk;
    var (bits, rest) := ReadVar(place.columns.others).value;
    var n := A.PackedBytes(Packing(p), bits).value;
    SizedBytes(8, bits, Cut(rest, n).value.data);
  }

  /** One scalar: its own bytes, in order. */
  lemma {:induction false} ScalarIsScalar(p: Primitive, place: Place, length: nat, r: Setting)
    requires TextsOk(r) && length <= r.limit && ReadScalar(true, p, place, length, r).Some?
    ensures var o := ReadScalar(true, p, place, length, r).value;
      && ReadLeaf(p, o.bytes, r.c).Some? && ReadLeaf(p, o.bytes, r.c).value.rest == []
      && Counted(o, length, r)
  {
    hide ReadVar, Word, Limbs.Bytes, ReadNumber, ReadFixed, ReadString, ReadPacked, EmitText, ScalarBytes, ReadLeaf;
    var o := ReadScalar(true, p, place, length, r).value;
    if p.Unit? {
      UnitLeaf(r.c);
    } else {
      LeafIs(p, o.bytes, r.c);
      match p
      case Bool | F32 | F64 => FewBytes(p, place, length, r);
      case Str => StringIsScalar(place, length, r);
      case Text =>
        var index := ReadVar(place.columns.texts).value.0;
        if r.shared && index % 2 == 1 {
          TextIsScalar(Place(place.columns.(texts := ReadVar(place.columns.texts).value.1), place.next), r.sharedTexts[index / 2], length, r);
        } else {
          var i := if r.shared then index / 2 else index;
          TextIsScalar(Place(place.columns.(texts := ReadVar(place.columns.texts).value.1), if i == place.next then i + 1 else place.next),
                       r.dictionary[i], length, r);
        }
      case Bytes =>
        var (size, rest) := ReadVar(place.columns.others).value;
        var s := Cut(rest, size).value;
        TextIsScalar(place.(columns := place.columns.(others := s.rest)), s.data, length, r);
      case Bits | Logic | Logic9 => PackedIsScalar(p, place, length, r);
      case Fixed | Ufixed => FixedIsScalar(p, place, length, r);
      case _ => NumberIsScalar(p, place, length, r);
    }
  }

  lemma {:induction false} UnitLeaf(c: Context)
    ensures ReadLeaf(Unit, [], c).Some? && ReadLeaf(Unit, [], c).value.rest == []
  {
  }

  lemma {:induction false} FewBytes(p: Primitive, place: Place, length: nat, r: Setting)
    requires (p.Bool? || p.F32? || p.F64?) && ReadScalar(true, p, place, length, r).Some?
    ensures var o := ReadScalar(true, p, place, length, r).value; ScalarBytes(p, o.bytes, r.c) && Counted(o, length, r)
  {
  }

  // ---------------------------------------------------------------- programs

  ghost predicate Whole(w: Option<Walked>) {
    w.Some? && w.value.rest == []
  }

  /** What comes behind stays behind. */
  lemma {:induction false} RunBefore(program: seq<Primitive>, p: seq<byte>, more: seq<byte>, c: Context)
    requires Run(program, p, c).Some?
    ensures Run(program, p + more, c) == Some(Walked(Run(program, p, c).value.tokens, Run(program, p, c).value.rest + more))
  {
    hide ReadLeaf;
    if program != [] {
      var front, last := program[..|program| - 1], program[|program| - 1];
      var w := Run(front, p, c).value;
      var s := ReadLeaf(last, w.rest, c).value;
      RunBefore(front, p, more, c);
      LeafMoves(last, w.rest, c, s.rest + more);
      assert w.rest + more == s.data + (s.rest + more);
    }
  }

  lemma {:induction false} ProgramIsWhole(program: seq<Primitive>, place: Place, length: nat, r: Setting)
    requires TextsOk(r) && length <= r.limit && ReadProgram(true, program, place, length, r).Some?
    ensures var o := ReadProgram(true, program, place, length, r).value; Whole(Run(program, o.bytes, r.c)) && Counted(o, length, r)
  {
    hide ReadScalar, ReadLeaf, TextsOk;
    if program != [] {
      var front, last := program[..|program| - 1], program[|program| - 1];
      var o := ReadProgram(true, front, place, length, r).value;
      ProgramIsWhole(front, place, length, r);
      ScalarIsScalar(last, o.place, o.length, r);
      var s := ReadScalar(true, last, o.place, o.length, r).value;
      RunBefore(front, o.bytes, s.bytes, r.c);
      assert [] + s.bytes == s.bytes;
    }
  }

  // ---------------------------------------------------------------- whole rows

  /** Whatever the columns, what is read is one whole value of the datatype, counted exactly and within the limit. */
  lemma {:induction false} ReadIsPayload(types: seq<Datatype>, id: nat, place: Place, length: nat, r: Setting)
    requires Proper(types) && TextsOk(r) && length <= r.limit && ReadType(true, types, id, place, length, r).Some?
    ensures var o := ReadType(true, types, id, place, length, r).value; Payload(types, id, o.bytes, r.c) && Counted(o, length, r)
    decreases id, 2, 0
  {
    hide ReadProgram, ReadFields, ReadElements, ReadCount, TextsOk, MadeOf, Run, Meaning;
    var o := ReadType(true, types, id, place, length, r).value;
    if types[id].scalars.Some? {
      ProgramIsWhole(types[id].scalars.value, place, length, r);
      ProgramMeans(types, id, o.bytes, r.c);
    } else {
      KindOf(types, id);
      PayloadIs(types, id, o.bytes, r.c);
      match types[id].kind
      case Struct(fields) =>
        FieldsBefore(types, id, fields);
        FieldsAreMade(types, id, fields, place, length, r);
      case Array(element, count) => ElementsAreMade(types, element, count, place, length, r);
      case Sequence(element) =>
        var (n, first) := ReadCount(true, place, length, r).value;
        CountIsCounted(place, length, r);
        ElementsAreMade(types, element, n, first.place, first.length, r);
        SizedBytes(4, n, ReadElements(true, types, element, n, first.place, first.length, r).value.bytes);
    }
  }

  lemma {:induction false} CountIsCounted(place: Place, length: nat, r: Setting)
    requires ReadCount(true, place, length, r).Some?
    ensures var (n, o) := ReadCount(true, place, length, r).value; o.bytes == Limbs.Bytes(n, 4) && Counted(o, length, r)
  {
    hide ReadVar;
  }

  lemma {:induction false} FieldsAreMade(types: seq<Datatype>, bound: nat, fields: seq<Field>, place: Place, length: nat, r: Setting)
    requires Proper(types) && forall i :: 0 <= i < |fields| ==> fields[i].datatype_ < bound
    requires TextsOk(r) && length <= r.limit && ReadFields(true, types, bound, fields, place, length, r).Some?
    ensures var o := ReadFields(true, types, bound, fields, place, length, r).value;
      MadeOf(types, FieldTypes(fields), o.bytes, r.c) && Counted(o, length, r)
    decreases bound, 1, |fields|
  {
    hide ReadType, TextsOk, MadeOf, Payload;
    if fields == [] {
      assert FieldTypes(fields) == [];
      NothingMade(types, [], r.c);
    } else {
      var front, last := fields[..|fields| - 1], fields[|fields| - 1];
      assert FieldTypes(fields) == FieldTypes(front) + [last.datatype_];
      FieldsAreMade(types, bound, front, place, length, r);
      var o := ReadFields(true, types, bound, front, place, length, r).value;
      ReadIsPayload(types, last.datatype_, o.place, o.length, r);
      OneMorePart(types, FieldTypes(front), last.datatype_, o.bytes, ReadType(true, types, last.datatype_, o.place, o.length, r).value.bytes, r.c);
    }
  }

  lemma {:induction false} ElementsAreMade(types: seq<Datatype>, id: nat, n: nat, place: Place, length: nat, r: Setting)
    requires Proper(types) && Known(types, id) && TextsOk(r) && length <= r.limit
    requires ReadElements(true, types, id, n, place, length, r).Some?
    ensures var o := ReadElements(true, types, id, n, place, length, r).value; MadeOf(types, Times(id, n), o.bytes, r.c) && Counted(o, length, r)
    decreases id, 4, n
  {
    hide ReadMany, TextsOk, MadeOf, MeaningMany;
    if types[id].fixed == Some(0) {
      FixedIsMinimum(types, id);
      NoneOfMany(types, id, n, [], r.c);
      WholeMany(types, id, n, [], r.c);
    } else {
      ManyAreMade(types, id, n, place, length, r);
    }
  }

  lemma {:induction false} ManyAreMade(types: seq<Datatype>, id: nat, n: nat, place: Place, length: nat, r: Setting)
    requires Proper(types) && TextsOk(r) && length <= r.limit && ReadMany(true, types, id, n, place, length, r).Some?
    ensures var o := ReadMany(true, types, id, n, place, length, r).value; MadeOf(types, Times(id, n), o.bytes, r.c) && Counted(o, length, r)
    decreases id, 3, n
  {
    hide ReadType, TextsOk, MadeOf, Payload;
    if n == 0 {
      assert Times(id, 0) == [];
      NothingMade(types, [], r.c);
    } else {
      assert Times(id, n) == Times(id, n - 1) + [id];
      ManyAreMade(types, id, n - 1, place, length, r);
      var o := ReadMany(true, types, id, n - 1, place, length, r).value;
      ReadIsPayload(types, id, o.place, o.length, r);
      OneMorePart(types, Times(id, n - 1), id, o.bytes, ReadType(true, types, id, o.place, o.length, r).value.bytes, r.c);
    }
  }

  // ---------------------------------------------------------------- columns that open

  lemma {:induction false} TextsAreChecked(s: seq<byte>, n: nat, c: Context)
    requires ReadTexts(s, n, c).Some?
    ensures forall i :: 0 <= i < |ReadTexts(s, n, c).value.0| ==> c.utf8(ReadTexts(s, n, c).value.0[i])
  {
    hide ReadVar;
    if n > 0 {
      TextsAreChecked(s, n - 1, c);
    }
  }

  lemma {:induction false} OpenedTextsOk(columns: Columns, c: Context, limit: nat, sharedTexts: seq<Chars>)
    requires (forall i :: 0 <= i < |sharedTexts| ==> c.utf8(sharedTexts[i])) && Opened(columns, c, limit, sharedTexts).Some?
    ensures var r := Opened(columns, c, limit, sharedTexts).value.0; TextsOk(r) && r.c == c && r.limit <= limit && r.limit < 0x1_0000_0000
  {
    hide ReadTexts, ReadVar;
    var (descriptor, rest) := ReadVar(columns.dictionary).value;
    TextsAreChecked(rest, descriptor / 2, c);
  }

  /** A row read anywhere in columns that open, however they came about, is valid and no longer than the limit. */
  lemma {:induction false} DecodedIsValid(types: seq<Datatype>, id: nat, columns: Columns, c: Context, limit: nat,
                                          sharedTexts: seq<Chars>, place: Place)
    requires Proper(types) && (forall i :: 0 <= i < |sharedTexts| ==> c.utf8(sharedTexts[i]))
    requires Opened(columns, c, limit, sharedTexts).Some?
    requires ReadType(true, types, id, place, 0, Opened(columns, c, limit, sharedTexts).value.0).Some?
    ensures var p := ReadType(true, types, id, place, 0, Opened(columns, c, limit, sharedTexts).value.0).value.bytes;
      Validate(types, id, p, c) && |p| <= limit
  {
    hide ReadType, Opened, Meaning, Validate, TextsOk;
    var r := Opened(columns, c, limit, sharedTexts).value.0;
    OpenedTextsOk(columns, c, limit, sharedTexts);
    ReadIsPayload(types, id, place, 0, r);
    ValidateIff(types, id, ReadType(true, types, id, place, 0, r).value.bytes, c);
  }
}
