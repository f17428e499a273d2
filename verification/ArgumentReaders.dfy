/** The reader of payload rows as it steps through its columns, and rows that fail. */
module ArgumentReaders {
  import opened Options
  import opened Limbs
  import opened Words
  import opened Varint
  import opened Datatypes
  import opened DatatypeWalks
  import opened DatatypeTables
  import opened ArgumentColumns
  import opened ArgumentReading
  import opened ArgumentRoundTrip
  import opened ArgumentRows

  // ---------------------------------------------------------------- rows that fail to be written

  /** What validation lets through and the columns still refuse: a text that has no usable number. */
  predicate Refused(d: seq<Chars>, t: Token, g: Config) {
    && t.Leaf? && t.primitive.Text? && |t.data| >= 4
    && if g.shared.Some? && t.data[4..] in g.shared.value then g.shared.value[t.data[4..]] >= g.c.strings
       else t.data[4..] !in d && |d| >= 0x1_0000_0000
  }

  lemma {:induction false} RefusedIff(d: seq<Chars>, t: Token, g: Config)
    requires TokenOk(t, g.c)
    ensures PutToken(d, t, g).None? <==> Refused(d, t, g)
  {
    hide Leb, SignedWord, Word, IndexOf;
  }

  /** A row that is refused half way leaves what it put down, unless its first token is the one refused. */
  lemma {:induction false} FailedRowKeeps(types: seq<Datatype>, id: nat, payload: seq<byte>, before: Store, after: Store, g: Config)
    requires Proper(types) && Validate(types, id, payload, g.c) && Meaning(types, id, payload, g.c).Some?
    requires After(before, Meaning(types, id, payload, g.c).value.tokens, g, after, false)
    ensures var ts := Meaning(types, id, payload, g.c).value.tokens;
      ts != [] && (after == before <==> Refused(before.dictionary, ts[0], g))
  {
    hide Proper, Validate, Meaning, PutAll, PutToken, Plus, Refused, TokenOk, Size;
    var ts := Meaning(types, id, payload, g.c).value.tokens;
    MeaningTokens(types, id, payload, g.c);
    NothingPut(before.dictionary, g);
    var t := ts[0];
    assert ts == [t] + ts[1..];
    RefusedIff(before.dictionary, t, g);
    PutsAdd(before.dictionary, [t], ts[1..], g);
    PutsOne(before.dictionary, t, g);
    PlusNothing(before.columns);
    if PutToken(before.dictionary, t, g).Some? {
      var first := PutAll(before.dictionary, [t], g);
      OkHasByte(before.dictionary, t, g);
      var second := PutAll(first.dictionary, ts[1..], g);
      SizeAdds(first.columns, second.columns);
      SizeAdds(before.columns, Plus(first.columns, second.columns));
    }
  }

  lemma {:induction false} NothingPut(d: seq<Chars>, g: Config)
    ensures PutAll(d, [], g) == Puts(NO_COLUMNS, d, true)
  {
  }

  /** Both cases occur: here a flag stays behind although its row is refused for an unknown shared text. */
  lemma {:induction false} HalfRowStays(types: seq<Datatype>, c: Context)
    requires Proper(types) && c.strings == 5 && c.utf8([97])
    ensures var kind := Struct([Field("valid", 1), Field("text", 13)]);
      var more, id, payload := types + [Laid(types, kind)], |types|, [1, 1, 0, 0, 0, 97];
      var g := Config(c, Some(map[[97] := 5]));
      && Declarable(types, kind) == (|types| < TWO_32 - 1)
      && Proper(more) && Validate(more, id, payload, c) && Meaning(more, id, payload, c).Some?
      && After(Store(NO_COLUMNS, []), Meaning(more, id, payload, c).value.tokens, g, Store(Numbers([1]), []), false)
  {
    hide Proper, Validate, Meaning, Run, Laid, Declarable, PutAll;
    var fields := [Field("valid", 1), Field("text", 13)];
    var payload: seq<byte> := [1, 1, 0, 0, 0, 97];
    BoolAndText(types);
    PrimitiveAt(types);
    GrowsProper(types, Struct(fields));
    var more, id := types + [Laid(types, Struct(fields))], |types|;
    assert Known(more, id);
    assert more[id].scalars == Some([Bool, Datatypes.Text]);
    ProgramMeans(more, id, payload, c);
    HalfRowRuns(c);
    ValidateIff(more, id, payload, c);
    HalfRowPuts(c);
    PlusNothing(Numbers([1]));
  }

  lemma {:induction false} BoolAndText(types: seq<Datatype>)
    requires Proper(types)
    ensures var kind := Struct([Field("valid", 1), Field("text", 13)]);
      && WellKinded(types, kind) && Laid(types, kind).scalars == Some([Bool, Datatypes.Text])
      && Declarable(types, kind) == (|types| < TWO_32 - 1)
  {
    hide Proper, Repeat, Minimum, FixedSize, Depth, Program;
    var kind := Struct([Field("valid", 1), Field("text", 13)]);
    assert Children(kind) == [Child(1, 1), Child(13, 1)];
    BoolTextLaid(types);
    PrimitiveAt(types);
    assert NamesOf(kind) == ["valid", "text"];
  }

  lemma {:induction false} BoolTextLaid(types: seq<Datatype>)
    requires Proper(types)
    ensures var children := [Child(1, 1), Child(13, 1)];
      && AllKnown(types, children) && Minimum(types, children) == 5 && Depth(types, children) == 2
      && Program(types, children) == Some([Bool, Datatypes.Text])
  {
    hide Proper, Repeat, Minimum, FixedSize, Depth, Program;
    BoolLaid(types);
    PrimitiveAt(types);
    assert [Child(1, 1)] + [Child(13, 1)] == [Child(1, 1), Child(13, 1)];
    SnocLaid(types, [Child(1, 1)], Child(13, 1));
    RepeatOnce([Datatypes.Text]);
    assert [Bool] + [Datatypes.Text] == [Bool, Datatypes.Text];
  }

  lemma {:induction false} BoolLaid(types: seq<Datatype>)
    requires Proper(types)
    ensures var children := [Child(1, 1)];
      && AllKnown(types, children) && Minimum(types, children) == 1 && Depth(types, children) == 2
      && Program(types, children) == Some([Bool])
  {
    hide Proper, Repeat, Minimum, FixedSize, Depth, Program;
    PrimitiveAt(types);
    NoChildren(types);
    assert [] + [Child(1, 1)] == [Child(1, 1)];
    SnocLaid(types, [], Child(1, 1));
    RepeatOnce([Bool]);
    assert [] + [Bool] == [Bool];
  }

  lemma {:induction false} PrimitiveAt(types: seq<Datatype>)
    requires Proper(types)
    ensures |types| >= FIRST_DECLARED
    ensures types[1] == Datatype(Scalar(Bool), 1, Some(1), 1, Some([Bool]), false)
    ensures types[13] == Datatype(Scalar(Datatypes.Text), 4, None, 1, Some([Datatypes.Text]), false)
  {
    assert types[1] == PrimitiveType(PRIMITIVES[1]) && types[13] == PrimitiveType(PRIMITIVES[13]);
    assert [Bool][0].Bool?;
  }

  lemma {:induction false} NoChildren(types: seq<Datatype>)
    ensures Minimum(types, []) == 0 && FixedSize(types, []) == Some(0) && Depth(types, []) == 1 && Program(types, []) == Some([])
  {
  }

  lemma {:induction false} RepeatOnce(program: seq<Primitive>)
    ensures Repeat(program, 1) == program
  {
    assert Repeat(program, 0) == [];
  }

  lemma {:induction false} HalfRowRuns(c: Context)
    requires c.utf8([97])
    ensures Run([Bool, Datatypes.Text], [1, 1, 0, 0, 0, 97], c)
            == Some(Walked([Leaf(Bool, [1]), Leaf(Datatypes.Text, [1, 0, 0, 0, 97])], []))
  {
    hide ReadLeaf, Run;
    var row: seq<byte>, rest: seq<byte> := [1, 1, 0, 0, 0, 97], [1, 0, 0, 0, 97];
    FlagLeaf(row, rest, c);
    TextLeaf(rest, c);
    assert [Bool] + [Datatypes.Text] == [Bool, Datatypes.Text];
    RunAdds([Bool], [Datatypes.Text], row, c);
    OneRuns(Bool, row, c);
    OneRuns(Datatypes.Text, rest, c);
    assert [Leaf(Bool, [1])] + [Leaf(Datatypes.Text, rest)] == [Leaf(Bool, [1]), Leaf(Datatypes.Text, rest)];
  }

  lemma {:induction false} FlagLeaf(row: seq<byte>, rest: seq<byte>, c: Context)
    requires row == [1] + rest
    ensures ReadLeaf(Bool, row, c) == Some(Split([1], rest))
  {
    assert row[..1] == [1] && row[1..] == rest;
  }

  lemma {:induction false} TextLeaf(row: seq<byte>, c: Context)
    requires c.utf8([97]) && row == [1, 0, 0, 0, 97]
    ensures ReadLeaf(Datatypes.Text, row, c) == Some(Split(row, []))
  {
    hide Le;
    assert row[..4] == [1, 0, 0, 0] && row[..5] == row && row[5..] == [] && row[4..] == [97];
    OneInFour();
  }

  lemma {:induction false} OneInFour()
    ensures Le([1, 0, 0, 0]) == 1
  {
    assert [1, 0, 0, 0][1..] == [0, 0, 0] && [0, 0, 0][1..] == [0, 0] && [0, 0][1..] == [0] && [0][1..] == [];
    assert Le([0]) == 0 && Le([0, 0]) == 0 && Le([0, 0, 0]) == 0;
  }

  lemma {:induction false} HalfRowPuts(c: Context)
    requires c.strings == 5 && c.utf8([97])
    ensures var g := Config(c, Some(map[[97] := 5]));
      PutAll([], [Leaf(Bool, [1]), Leaf(Datatypes.Text, [1, 0, 0, 0, 97])], g) == Puts(Numbers([1]), [], false)
  {
    var g := Config(c, Some(map[[97] := 5]));
    var ts := [Leaf(Bool, [1]), Leaf(Datatypes.Text, [1, 0, 0, 0, 97])];
    assert ts[..1] == [Leaf(Bool, [1])];
    PutsOne([], Leaf(Bool, [1]), g);
    assert [1, 0, 0, 0, 97][4..] == [97];
  }

  /** Tables that are not solid can be declared: a sequence of arrays of no texts. */
  lemma {:induction false} HollowIsDeclarable(types: seq<Datatype>)
    requires Proper(types) && |types| < TWO_32 - 2
    ensures var more := types + [Laid(types, Array(13, 0))];
      && Declarable(types, Array(13, 0)) && Declarable(more, Sequence(|types|))
      && Proper(more + [Laid(more, Sequence(|types|))]) && !Solid(more + [Laid(more, Sequence(|types|))])
  {
    hide Proper, Laid, Declarable, Solid;
    PrimitiveAt(types);
    NoTextsLaid(types);
    GrowsProper(types, Array(13, 0));
    var more := types + [Laid(types, Array(13, 0))];
    SequenceLaid(more, |types|);
    GrowsProper(more, Sequence(|types|));
    var whole := more + [Laid(more, Sequence(|types|))];
    assert whole[|types|] == more[|types|];
    LaidKind(more, Sequence(|types|));
    NotSolid(whole, |more|);
  }

  lemma {:induction false} NoTextsLaid(types: seq<Datatype>)
    requires Proper(types) && |types| < TWO_32 - 1
    ensures Declarable(types, Array(13, 0)) && WellKinded(types, Array(13, 0))
    ensures var d := Laid(types, Array(13, 0)); d.minimum == 0 && d.fixed == None && d.depth == 2
  {
    hide Proper, Repeat, Minimum, FixedSize, Depth, Program;
    PrimitiveAt(types);
    NoChildren(types);
    assert [] + [Child(13, 0)] == [Child(13, 0)];
    SnocLaid(types, [], Child(13, 0));
  }

  lemma {:induction false} SequenceLaid(types: seq<Datatype>, element: nat)
    requires Known(types, element) && types[element].depth == 2 && |types| < TWO_32 - 1
    ensures Declarable(types, Sequence(element)) && WellKinded(types, Sequence(element))
  {
    hide Repeat, Minimum, FixedSize, Depth, Program;
    NoChildren(types);
    assert [] + [Child(element, 0)] == [Child(element, 0)];
    SnocLaid(types, [], Child(element, 0));
  }

  lemma {:induction false} NotSolid(types: seq<Datatype>, id: nat)
    requires id < |types| && !SolidAt(types, id)
    ensures !Solid(types)
  {
  }

  // ---------------------------------------------------------------- the reader

  class Reader {
    var columns: Columns
    var next: nat
    const setting: Setting

    ghost function Here(): Place
      reads this
    {
      Place(columns, next)
    }

    constructor (columns: Columns, setting: Setting)
      ensures Here() == Place(columns, 0) && this.setting == setting
    {
      this.columns := columns;
      this.next := 0;
      this.setting := setting;
    }

    method Go(o: Out)
      modifies this
      ensures Here() == o.place
    {
      columns := o.place.columns;
      next := o.place.next;
    }

    method Program(retain: bool, program: seq<Primitive>, out0: seq<byte>, length0: nat) returns (r: Option<(seq<byte>, nat)>)
      modifies this
      ensures Followed(ReadProgram(retain, program, old(Here()), length0, setting), out0, r, Here())
    {
      hide ReadScalar;
      var out, length := out0, length0;
      assert program[..0] == [] && out0 + [] == out0;
      for k := 0 to |program|
        invariant Followed(ReadProgram(retain, program[..k], old(Here()), length0, setting), out0, Some((out, length)), Here())
      {
        assert program[..k + 1][..k] == program[..k] && program[..k + 1][k] == program[k];
        ghost var o := ReadProgram(retain, program[..k], old(Here()), length0, setting).value;
        var step := ReadScalar(retain, program[k], Place(columns, next), length, setting);
        if step.None? {
          ProgramFails(retain, program, k + 1, old(Here()), length0, setting);
          return None;
        }
        assert out0 + o.bytes + step.value.bytes == out0 + (o.bytes + step.value.bytes);
        Go(step.value);
        out, length := out + step.value.bytes, step.value.length;
      }
      assert program[..|program|] == program;
      r := Some((out, length));
    }

    /** `read_type`. */
    method Type(retain: bool, types: seq<Datatype>, id: nat, out0: seq<byte>, length0: nat) returns (r: Option<(seq<byte>, nat)>)
      requires Proper(types)
      modifies this
      ensures Followed(ReadType(retain, types, id, old(Here()), length0, setting), out0, r, Here())
      decreases id, 2, 0
    {
      hide ReadProgram, ReadFields, ReadElements, ReadCount, Proper;
      if !Known(types, id) {
        return None;
      }
      if types[id].scalars.Some? {
        r := Program(retain, types[id].scalars.value, out0, length0);
        return;
      }
      if types[id].kind.Scalar? || types[id].kind.Enumeration? {
        return None;
      }
      KindOf(types, id);
      match types[id].kind
      case Struct(fields) =>
        FieldsBefore(types, id, fields);
        r := Fields(retain, types, id, fields, out0, length0);
      case Array(element, count) =>
        r := Elements(retain, types, element, count, out0, length0);
      case Sequence(element) =>
        var read := ReadCount(retain, Place(columns, next), length0, setting);
        if read.None? {
          return None;
        }
        var (n, o) := read.value;
        Go(o);
        r := Elements(retain, types, element, n, out0 + o.bytes, o.length);
        ThenFollowed(o, ReadElements(retain, types, element, n, o.place, o.length, setting), out0, r, Here());
    }

    method Fields(retain: bool, types: seq<Datatype>, bound: nat, fields: seq<Field>, out0: seq<byte>, length0: nat)
      returns (r: Option<(seq<byte>, nat)>)
      requires Proper(types) && forall i :: 0 <= i < |fields| ==> fields[i].datatype_ < bound
      modifies this
      ensures Followed(ReadFields(retain, types, bound, fields, old(Here()), length0, setting), out0, r, Here())
      decreases bound, 1, |fields|
    {
      hide ReadType, Proper;
      var out, length := out0, length0;
      assert fields[..0] == [] && out0 + [] == out0;
      for k := 0 to |fields|
        invariant Followed(ReadFields(retain, types, bound, fields[..k], old(Here()), length0, setting), out0, Some((out, length)), Here())
      {
        assert fields[..k + 1][..k] == fields[..k] && fields[..k + 1][k] == fields[k];
        ghost var o := ReadFields(retain, types, bound, fields[..k], old(Here()), length0, setting).value;
        var step := Type(retain, types, fields[k].datatype_, out, length);
        ThenFollowed(o, ReadType(retain, types, fields[k].datatype_, o.place, o.length, setting), out0, step, Here());
        if step.None? {
          FieldsFail(retain, types, bound, fields, k + 1, old(Here()), length0, setting);
          return None;
        }
        out, length := step.value.0, step.value.1;
      }
      assert fields[..|fields|] == fields;
      r := Some((out, length));
    }

    method Elements(retain: bool, types: seq<Datatype>, id: nat, n: nat, out0: seq<byte>, length0: nat) returns (r: Option<(seq<byte>, nat)>)
      requires Proper(types) && Known(types, id)
      modifies this
      ensures Followed(ReadElements(retain, types, id, n, old(Here()), length0, setting), out0, r, Here())
      decreases id, 3, n
    {
      hide ReadType, Proper;
      assert out0 + [] == out0;
      if types[id].fixed == Some(0) {
        return Some((out0, length0));
      }
      if length0 > setting.limit || (types[id].minimum != 0 && n > (setting.limit - length0) / types[id].minimum) {
        return None;
      }
      if n > Size(columns) {
        return None;
      }
      var out, length := out0, length0;
      for k := 0 to n
        invariant Followed(ReadMany(retain, types, id, k, old(Here()), length0, setting), out0, Some((out, length)), Here())
      {
        ghost var o := ReadMany(retain, types, id, k, old(Here()), length0, setting).value;
        var step := Type(retain, types, id, out, length);
        ThenFollowed(o, ReadType(retain, types, id, o.place, o.length, setting), out0, step, Here());
        if step.None? {
          ManyFail(retain, types, id, n, k + 1, old(Here()), length0, setting);
          return None;
        }
        out, length := step.value.0, step.value.1;
      }
      r := Some((out, length));
    }

    /** A row is read, or skipped; a failed row uses up neither columns nor dictionary. */
    method Decode(retain: bool, types: seq<Datatype>, id: nat) returns (r: Option<seq<byte>>)
      requires Proper(types)
      modifies this
      ensures match ReadType(retain, types, id, old(Here()), 0, setting)
              case None => r == None && Here() == old(Here())
              case Some(o) => r == Some(o.bytes) && Here() == o.place
    {
      hide ReadType, Proper;
      var saved, savedNext := columns, next;
      var result := Type(retain, types, id, [], 0);
      if result.None? {
        columns, next := saved, savedNext;
        return None;
      }
      ghost var o := ReadType(retain, types, id, old(Here()), 0, setting).value;
      assert [] + o.bytes == o.bytes;
      r := Some(result.value.0);
    }

    /** `done`: every column is used up and every text of the dictionary was used. */
    method Done() returns (ok: bool)
      ensures ok <==> Here() == Place(NO_COLUMNS, |setting.dictionary|)
    {
      ok := columns.numbers == [] && columns.floats == [] && columns.texts == [] && columns.dictionary == [] && columns.others == []
            && next == |setting.dictionary|;
    }
  }

  /** The reader did what the reading says. */
  ghost predicate Followed(o: Option<Out>, out: seq<byte>, r: Option<(seq<byte>, nat)>, here: Place) {
    match o
    case None => r == None
    case Some(v) => r == Some((out + v.bytes, v.length)) && here == v.place
  }

  lemma {:induction false} ThenFollowed(o: Out, next: Option<Out>, out: seq<byte>, r: Option<(seq<byte>, nat)>, here: Place)
    requires Followed(next, out + o.bytes, r, here)
    ensures Followed(ThenRead(o, next), out, r, here)
  {
    if next.Some? {
      assert out + (o.bytes + next.value.bytes) == out + o.bytes + next.value.bytes;
    }
  }

  lemma {:induction false} ProgramFails(retain: bool, program: seq<Primitive>, k: nat, place: Place, length: nat, r: Setting)
    requires k <= |program| && ReadProgram(retain, program[..k], place, length, r).None?
    ensures ReadProgram(retain, program, place, length, r).None?
    decreases |program|
  {
    hide ReadScalar;
    if k == |program| {
      assert program[..k] == program;
    } else {
      var front := program[..|program| - 1];
      assert front[..k] == program[..k];
      ProgramFails(retain, front, k, place, length, r);
    }
  }

  lemma {:induction false} FieldsFail(retain: bool, types: seq<Datatype>, bound: nat, fields: seq<Field>, k: nat, place: Place, length: nat, r: Setting)
    requires Proper(types) && k <= |fields| && forall i :: 0 <= i < |fields| ==> fields[i].datatype_ < bound
    requires ReadFields(retain, types, bound, fields[..k], place, length, r).None?
    ensures ReadFields(retain, types, bound, fields, place, length, r).None?
    decreases |fields|
  {
    hide ReadType;
    if k == |fields| {
      assert fields[..k] == fields;
    } else {
      var front := fields[..|fields| - 1];
      assert front[..k] == fields[..k];
      FieldsFail(retain, types, bound, front, k, place, length, r);
    }
  }

  lemma {:induction false} ManyFail(retain: bool, types: seq<Datatype>, id: nat, n: nat, k: nat, place: Place, length: nat, r: Setting)
    requires Proper(types) && k <= n && ReadMany(retain, types, id, k, place, length, r).None?
    ensures ReadMany(retain, types, id, n, place, length, r).None?
  {
    hide ReadType;
    if k < n {
      ManyFail(retain, types, id, n - 1, k, place, length, r);
    }
  }
}
