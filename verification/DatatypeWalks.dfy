/** Walking payloads by the precomputed layout: the same calls and the same bytes as the meaning of the datatype. */
module DatatypeWalks {
  import opened Arithmetic
  import opened Options
  import opened Limbs
  import opened Words
  import opened Datatypes

  // ---------------------------------------------------------------- the walk

  function Run(program: seq<Primitive>, row: seq<byte>, c: Context): Option<Walked> {
    if program == [] then Some(Walked([], row)) else
      match Run(program[..|program| - 1], row, c)
      case None => None
      case Some(w) =>
        match ReadLeaf(program[|program| - 1], w.rest, c)
        case None => None
        case Some(s) => Some(Walked(w.tokens + [Leaf(program[|program| - 1], s.data)], s.rest))
  }

  /** `Types::walk`, and what its visitor was shown. */
  function Walk(types: seq<Datatype>, id: nat, row: seq<byte>, c: Context): Option<Walked>
    requires Proper(types)
    decreases id, 2, 0
  {
    if !Known(types, id) || |row| < types[id].minimum then None
    else if types[id].scalars.Some? then Run(types[id].scalars.value, row, c)
    else if types[id].kind.Scalar? || types[id].kind.Enumeration? then None
    else
      KindOf(types, id);
      match types[id].kind
      case Struct(fields) =>
        FieldsBefore(types, id, fields);
        WalkFields(types, id, fields, row, c)
      case Array(element, count) => WalkElements(types, element, count, row, c)
      case Sequence(element) =>
        if |row| < 4 then None else
          FourBytes(row);
          var n: u32 := Word(row[..4]);
          match WalkElements(types, element, n, row[4..], c)
          case None => None
          case Some(w) => Some(Walked([Count(n)] + w.tokens, w.rest))
  }

  lemma {:induction false} FieldsBefore(types: seq<Datatype>, id: nat, fields: seq<Field>)
    requires Proper(types) && Known(types, id) && types[id].kind == Struct(fields)
    ensures forall i :: 0 <= i < |fields| ==> fields[i].datatype_ < id && Known(types, fields[i].datatype_)
  {
    KindOf(types, id);
    var children := OneOfEach(fields);
    forall i | 0 <= i < |fields|
      ensures fields[i].datatype_ < id && Known(types, fields[i].datatype_)
    {
      assert children[i].id == fields[i].datatype_;
    }
  }

  function WalkFields(types: seq<Datatype>, bound: nat, fields: seq<Field>, row: seq<byte>, c: Context): Option<Walked>
    requires Proper(types) && forall i :: 0 <= i < |fields| ==> fields[i].datatype_ < bound
    decreases bound, 1, |fields|
  {
    if fields == [] then Some(Walked([], row)) else
      match WalkFields(types, bound, fields[..|fields| - 1], row, c)
      case None => None
      case Some(w) => Then(w, Walk(types, fields[|fields| - 1].datatype_, w.rest, c))
  }

  /** Enough bytes for the elements, and no loop over elements of no size. */
  function WalkElements(types: seq<Datatype>, id: nat, n: nat, row: seq<byte>, c: Context): Option<Walked>
    requires Proper(types) && Known(types, id)
    decreases id, 4, n
  {
    if types[id].minimum != 0 && n > |row| / types[id].minimum then None
    else if types[id].fixed == Some(0) then Some(Walked([], row))
    else WalkMany(types, id, n, row, c)
  }

  function WalkMany(types: seq<Datatype>, id: nat, n: nat, row: seq<byte>, c: Context): Option<Walked>
    requires Proper(types)
    decreases id, 3, n
  {
    if n == 0 then Some(Walked([], row)) else
      match WalkMany(types, id, n - 1, row, c)
      case None => None
      case Some(w) => Then(w, Walk(types, id, w.rest, c))
  }

  // ---------------------------------------------------------------- sizes

  /** The tokens are the front of the row, at least so many bytes, and exactly so many when the size is fixed. */
  ghost predicate Sized(w: Walked, row: seq<byte>, minimum: nat, fixed: Option<nat>) {
    && row == AllBytes(w.tokens) + w.rest
    && |AllBytes(w.tokens)| >= minimum && |AllBytes(w.tokens)| >= |w.tokens|
    && (fixed.Some? ==> |AllBytes(w.tokens)| == fixed.value)
  }

  lemma {:induction false} BytesAdd(a: seq<Token>, b: seq<Token>)
    ensures AllBytes(a + b) == AllBytes(a) + AllBytes(b)
    decreases |b|
  {
    hide TokenBytes;
    if b == [] {
      assert a + b == a;
    } else {
      var n := |b| - 1;
      assert (a + b)[..|a + b| - 1] == a + b[..n] && (a + b)[|a + b| - 1] == b[n];
      BytesAdd(a, b[..n]);
      assert AllBytes(a) + (AllBytes(b[..n]) + TokenBytes(b[n])) == AllBytes(a) + AllBytes(b[..n]) + TokenBytes(b[n]);
    }
  }

  lemma {:induction false} BytesOfOne(t: Token)
    ensures AllBytes([t]) == TokenBytes(t)
  {
    assert [t][..0] == [];
    assert [] + TokenBytes(t) == TokenBytes(t);
  }

  lemma {:induction false} NoneSized(row: seq<byte>)
    ensures Sized(Walked([], row), row, 0, Some(0))
  {
    assert [] + row == row;
  }

  lemma {:induction false} ThenSized(w: Walked, next: Option<Walked>, row: seq<byte>, m1: nat, m2: nat, f1: Option<nat>, f2: Option<nat>)
    requires Sized(w, row, m1, f1) && next.Some? && Sized(next.value, w.rest, m2, f2)
    ensures Sized(Then(w, next).value, row, m1 + m2, if f1.Some? && f2.Some? then Some(f1.value + f2.value) else None)
  {
    hide AllBytes;
    var v := next.value;
    BytesAdd(w.tokens, v.tokens);
    assert AllBytes(w.tokens) + (AllBytes(v.tokens) + v.rest) == AllBytes(w.tokens) + AllBytes(v.tokens) + v.rest;
  }

  lemma {:induction false} LeafSized(p: Primitive, row: seq<byte>, c: Context)
    requires !p.Unit? && ReadLeaf(p, row, c).Some?
    ensures var s := ReadLeaf(p, row, c).value; Sized(Walked([Leaf(p, s.data)], s.rest), row, PrimitiveMinimum(p), Width(p))
  {
    hide ReadLeaf, AllBytes;
    BytesOfOne(Leaf(p, ReadLeaf(p, row, c).value.data));
  }

  /** `minimum` is a lower bound, `fixed` is exact, and every token has a byte. */
  lemma {:induction false} SizesHold(types: seq<Datatype>, id: nat, row: seq<byte>, c: Context)
    requires Proper(types) && Meaning(types, id, row, c).Some?
    ensures Sized(Meaning(types, id, row, c).value, row, types[id].minimum, types[id].fixed)
    decreases id, 2, 0
  {
    hide Sized, ReadLeaf, AllBytes;
    if types[id].kind.Scalar? {
      var p := types[id].kind.primitive;
      ScalarIs(types, id);
      if p.Unit? {
        NoneSized(row);
      } else {
        LeafSized(p, row, c);
      }
    } else {
      KindOf(types, id);
      if types[id].kind.Sequence? {
        var element := types[id].kind.element;
        FourBytes(row);
        ManySized(types, element, Word(row[..4]), row[4..], c);
        SequenceSized(types, id, row, c);
      } else {
        AllSized(types, id, Children(types[id].kind), row, c);
      }
    }
  }

  lemma {:induction false} ScalarIs(types: seq<Datatype>, id: nat)
    requires Proper(types) && Known(types, id) && types[id].kind.Scalar?
    ensures types[id] == PrimitiveType(types[id].kind.primitive) && !types[id].kind.primitive.Enum?
  {
    assert id >= FIRST_DECLARED ==> Declared(types, id);
  }

  lemma {:induction false} SequenceSized(types: seq<Datatype>, id: nat, row: seq<byte>, c: Context)
    requires Proper(types) && Meaning(types, id, row, c).Some? && types[id].kind.Sequence? && Known(types, id) && |row| >= 4 && Word(row[..4]) < 0x1_0000_0000
    requires types[id].minimum == 4 && types[id].fixed == None && row[..4] == Limbs.Bytes(Word(row[..4]), 4)
    requires var n, element := Word(row[..4]), types[id].kind.element;
      && Known(types, element) && MeaningMany(types, element, n, row[4..], c).Some?
      && Sized(MeaningMany(types, element, n, row[4..], c).value, row[4..], types[element].minimum * n, Scale(types[element].fixed, n))
    ensures Sized(Meaning(types, id, row, c).value, row, types[id].minimum, types[id].fixed)
  {
    hide Sized, MeaningMany, ReadLeaf;
    var n, element := Word(row[..4]), types[id].kind.element;
    CountSized(n, row, MeaningMany(types, element, n, row[4..], c).value, types[element].minimum * n);
  }

  lemma {:induction false} CountSized(n: u32, row: seq<byte>, w: Walked, m: nat)
    requires |row| >= 4 && row[..4] == Limbs.Bytes(n, 4)
    requires Sized(w, row[4..], m, None) || exists f: nat :: Sized(w, row[4..], m, Some(f))
    ensures Sized(Walked([Count(n)] + w.tokens, w.rest), row, 4, None)
  {
    hide AllBytes, Limbs.Bytes;
    BytesOfOne(Count(n));
    BytesAdd([Count(n)], w.tokens);
    assert row == row[..4] + row[4..];
    assert row[..4] + (AllBytes(w.tokens) + w.rest) == row[..4] + AllBytes(w.tokens) + w.rest;
  }

  function Scale(fixed: Option<nat>, n: nat): Option<nat> {
    match fixed
    case None => None
    case Some(f) => Some(f * n)
  }

  lemma {:induction false} ScaleGrows(fixed: Option<nat>, n: nat)
    ensures Scale(fixed, 0) == (if fixed.Some? then Some(0) else None) && (Scale(fixed, n).Some? <==> fixed.Some?)
    ensures fixed.Some? ==> Scale(fixed, n + 1) == Some(Scale(fixed, n).value + fixed.value)
    ensures fixed.None? ==> Scale(fixed, n + 1) == None
  {
    if fixed.Some? {
      Distributes(fixed.value, n, 1);
    }
  }

  lemma {:induction false} ManySized(types: seq<Datatype>, id: nat, n: nat, row: seq<byte>, c: Context)
    requires Proper(types) && Known(types, id) && MeaningMany(types, id, n, row, c).Some?
    ensures Sized(MeaningMany(types, id, n, row, c).value, row, types[id].minimum * n, Scale(types[id].fixed, n))
    decreases id, 3, n
  {
    hide Sized, Meaning, Scale;
    ScaleGrows(types[id].fixed, if n == 0 then 0 else n - 1);
    if n == 0 {
      NoneSized(row);
      AlsoSized(Walked([], row), row, 0, Some(0), Scale(types[id].fixed, 0));
    } else {
      ManySized(types, id, n - 1, row, c);
      Distributes(types[id].minimum, n - 1, 1);
      var w := MeaningMany(types, id, n - 1, row, c).value;
      SizesHold(types, id, w.rest, c);
      ThenSized(w, Meaning(types, id, w.rest, c), row, types[id].minimum * (n - 1), types[id].minimum,
                Scale(types[id].fixed, n - 1), types[id].fixed);
    }
  }

  lemma {:induction false} AlsoSized(w: Walked, row: seq<byte>, minimum: nat, fixed: Option<nat>, less: Option<nat>)
    requires Sized(w, row, minimum, fixed) && (less.None? || less == fixed)
    ensures Sized(w, row, minimum, less)
  {
  }

  lemma {:induction false} AllSized(types: seq<Datatype>, bound: nat, children: seq<Child>, row: seq<byte>, c: Context)
    requires Proper(types) && bound <= |types| && AllKnown(types[..bound], children)
    requires MeaningAll(types, bound, children, row, c).Some?
    ensures Sized(MeaningAll(types, bound, children, row, c).value, row, Minimum(types[..bound], children),
                  FixedSize(types[..bound], children))
    decreases bound, 1, |children|
  {
    hide Sized, MeaningMany;
    if children == [] {
      NoneSized(row);
    } else {
      var last, front := children[|children| - 1], children[..|children| - 1];
      assert Known(types[..bound], last.id);
      AllSized(types, bound, front, row, c);
      var w := MeaningAll(types, bound, front, row, c).value;
      ManySized(types, last.id, last.count, w.rest, c);
      ThenSized(w, MeaningMany(types, last.id, last.count, w.rest, c), row, Minimum(types[..bound], front),
                types[last.id].minimum * last.count, FixedSize(types[..bound], front), Scale(types[last.id].fixed, last.count));
    }
  }

  /** A fixed size is also the least. */
  lemma {:induction false} FixedIsMinimum(types: seq<Datatype>, id: nat)
    requires Proper(types) && Known(types, id)
    ensures types[id].fixed.Some? ==> types[id].fixed.value == types[id].minimum
    decreases id, 1, 0
  {
    if types[id].kind.Scalar? {
      ScalarIs(types, id);
    } else {
      KindOf(types, id);
      FixedAreMinimum(types, id, Children(types[id].kind));
    }
  }

  lemma {:induction false} FixedAreMinimum(types: seq<Datatype>, bound: nat, children: seq<Child>)
    requires Proper(types) && bound <= |types| && AllKnown(types[..bound], children)
    ensures FixedSize(types[..bound], children).Some? ==> FixedSize(types[..bound], children).value == Minimum(types[..bound], children)
    decreases bound, 0, |children|
  {
    if children != [] {
      var last := children[|children| - 1];
      assert Known(types[..bound], last.id);
      FixedAreMinimum(types, bound, children[..|children| - 1]);
      FixedIsMinimum(types, last.id);
    }
  }

  // ---------------------------------------------------------------- nothing to walk

  /** Values whose least size is zero have no bytes and no tokens. */
  lemma {:induction false} NothingMeans(types: seq<Datatype>, id: nat, row: seq<byte>, c: Context)
    requires Proper(types) && Known(types, id) && types[id].minimum == 0
    ensures Meaning(types, id, row, c) == Some(Walked([], row))
    decreases id, 2, 0
  {
    hide ReadLeaf;
    if types[id].kind.Scalar? {
      ScalarIs(types, id);
    } else {
      KindOf(types, id);
      NoneOfAll(types, id, Children(types[id].kind), row, c);
    }
  }

  lemma {:induction false} NoTokens()
    ensures var none: seq<Token> := []; none + none == none
  {
  }

  lemma {:induction false} NoneOfMany(types: seq<Datatype>, id: nat, n: nat, row: seq<byte>, c: Context)
    requires Proper(types) && Known(types, id) && types[id].minimum == 0
    ensures MeaningMany(types, id, n, row, c) == Some(Walked([], row))
    decreases id, 3, n
  {
    if n > 0 {
      NoneOfMany(types, id, n - 1, row, c);
      NothingMeans(types, id, row, c);
      NoTokens();
    }
  }

  lemma {:induction false} NoneOfAll(types: seq<Datatype>, bound: nat, children: seq<Child>, row: seq<byte>, c: Context)
    requires Proper(types) && bound <= |types| && AllKnown(types[..bound], children)
    requires Minimum(types[..bound], children) == 0
    ensures MeaningAll(types, bound, children, row, c) == Some(Walked([], row))
    decreases bound, 1, |children|
  {
    hide MeaningMany;
    NoTokens();
    if children != [] {
      var last, front := children[|children| - 1], children[..|children| - 1];
      assert Known(types[..bound], last.id);
      NoProduct(types[last.id].minimum, last.count, Minimum(types[..bound], front));
      NoneOfAll(types, bound, front, row, c);
      if last.count > 0 {
        NoneOfMany(types, last.id, last.count, row, c);
      } else {
        NoneAtAll(types, last.id, row, c);
      }
    }
  }

  lemma {:induction false} NoProduct(m: nat, n: nat, rest: nat)
    ensures rest + m * n == 0 ==> rest == 0 && (m == 0 || n == 0)
  {
    Scaled(m, n);
  }

  lemma {:induction false} NoneAtAll(types: seq<Datatype>, id: nat, row: seq<byte>, c: Context)
    requires Proper(types)
    ensures MeaningMany(types, id, 0, row, c) == Some(Walked([], row))
  {
  }

  // ---------------------------------------------------------------- programs

  lemma {:induction false} RunAdds(a: seq<Primitive>, b: seq<Primitive>, row: seq<byte>, c: Context)
    ensures Run(a + b, row, c) == match Run(a, row, c)
                                  case None => None
                                  case Some(w) => Then(w, Run(b, w.rest, c))
    decreases |b|
  {
    hide ReadLeaf;
    if b == [] {
      assert a + b == a;
      if Run(a, row, c).Some? {
        assert Run(a, row, c).value.tokens + [] == Run(a, row, c).value.tokens;
      }
    } else {
      var n := |b| - 1;
      assert (a + b)[..|a + b| - 1] == a + b[..n] && (a + b)[|a + b| - 1] == b[n];
      RunAdds(a, b[..n], row, c);
      if Run(a, row, c).Some? && Run(b[..n], Run(a, row, c).value.rest, c).Some? {
        var w := Run(a, row, c).value;
        var v := Run(b[..n], w.rest, c).value;
        if ReadLeaf(b[n], v.rest, c).Some? {
          var t := Leaf(b[n], ReadLeaf(b[n], v.rest, c).value.data);
          assert w.tokens + v.tokens + [t] == w.tokens + (v.tokens + [t]);
        }
      }
    }
  }

  /** The flattened program goes as the datatype means. */
  lemma {:induction false} ProgramMeans(types: seq<Datatype>, id: nat, row: seq<byte>, c: Context)
    requires Proper(types) && Known(types, id) && types[id].scalars.Some?
    ensures Meaning(types, id, row, c) == Run(types[id].scalars.value, row, c)
    decreases id, 2, 0
  {
    hide ReadLeaf;
    if types[id].kind.Scalar? {
      ScalarIs(types, id);
      OneRuns(types[id].kind.primitive, row, c);
    } else {
      KindOf(types, id);
      AllRun(types, id, Children(types[id].kind), row, c);
    }
  }

  lemma {:induction false} OneRuns(p: Primitive, row: seq<byte>, c: Context)
    ensures Run([], row, c) == Some(Walked([], row))
    ensures Run([p], row, c) == match ReadLeaf(p, row, c)
                                case None => None
                                case Some(s) => Some(Walked([Leaf(p, s.data)], s.rest))
  {
    hide ReadLeaf;
    assert [p][..0] == [];
    assert Run([p][..0], row, c) == Some(Walked([], row));
    if ReadLeaf(p, row, c).Some? {
      var t := Leaf(p, ReadLeaf(p, row, c).value.data);
      assert [] + [t] == [t];
    }
  }

  lemma {:induction false} ManyRun(types: seq<Datatype>, id: nat, n: nat, row: seq<byte>, c: Context)
    requires Proper(types) && Known(types, id) && types[id].scalars.Some?
    ensures MeaningMany(types, id, n, row, c) == Run(Repeat(types[id].scalars.value, n), row, c)
    decreases id, 3, n
  {
    hide Meaning, ReadLeaf;
    if n > 0 {
      ManyRun(types, id, n - 1, row, c);
      RunAdds(Repeat(types[id].scalars.value, n - 1), types[id].scalars.value, row, c);
      if MeaningMany(types, id, n - 1, row, c).Some? {
        ProgramMeans(types, id, MeaningMany(types, id, n - 1, row, c).value.rest, c);
      }
    }
  }

  lemma {:induction false} AllRun(types: seq<Datatype>, bound: nat, children: seq<Child>, row: seq<byte>, c: Context)
    requires Proper(types) && bound <= |types| && AllKnown(types[..bound], children)
    requires Program(types[..bound], children).Some?
    ensures MeaningAll(types, bound, children, row, c) == Run(Program(types[..bound], children).value, row, c)
    decreases bound, 1, |children|
  {
    hide MeaningMany, Run, Repeat;
    if children == [] {
      OneRuns(Unit, row, c);
    } else {
      var last, front := children[|children| - 1], children[..|children| - 1];
      assert Known(types[..bound], last.id);
      AllRun(types, bound, front, row, c);
      var program, child := Program(types[..bound], front).value, types[last.id].scalars.value;
      NothingRepeats(last.count);
      assert program + [] == program;
      RunAdds(program, Repeat(child, last.count), row, c);
      if MeaningAll(types, bound, front, row, c).Some? {
        ManyRun(types, last.id, last.count, MeaningAll(types, bound, front, row, c).value.rest, c);
      }
    }
  }

  lemma {:induction false} NothingRepeats(n: nat)
    ensures Repeat([], n) == []
  {
  }

  // ---------------------------------------------------------------- the walk goes as the datatype means

  lemma {:induction false} TooShort(types: seq<Datatype>, id: nat, n: nat, row: seq<byte>, c: Context)
    requires Proper(types) && Known(types, id)
    ensures types[id].minimum > |row| ==> Meaning(types, id, row, c).None?
    ensures types[id].minimum * n > |row| ==> MeaningMany(types, id, n, row, c).None?
  {
    hide Meaning, MeaningMany, AllBytes;
    if Meaning(types, id, row, c).Some? {
      SizesHold(types, id, row, c);
    }
    if MeaningMany(types, id, n, row, c).Some? {
      ManySized(types, id, n, row, c);
    }
  }

  /** Early refusals, flattened programs and skipped loops make no difference: same calls, same bytes, same errors. */
  lemma {:induction false} WalkIsMeaning(types: seq<Datatype>, id: nat, row: seq<byte>, c: Context)
    requires Proper(types)
    ensures Walk(types, id, row, c) == Meaning(types, id, row, c)
    decreases id, 2, 0
  {
    hide ReadLeaf, Run, MeaningAll, MeaningMany, WalkFields, WalkElements;
    if Known(types, id) {
      TooShort(types, id, 0, row, c);
      if types[id].scalars.Some? {
        ProgramMeans(types, id, row, c);
      } else {
        if types[id].kind.Scalar? {
          ScalarIs(types, id);
        } else if |row| >= types[id].minimum {
          WalkDeclared(types, id, row, c);
        }
      }
    }
  }

  lemma {:induction false} WalkDeclared(types: seq<Datatype>, id: nat, row: seq<byte>, c: Context)
    requires Proper(types) && Known(types, id) && types[id].scalars.None? && !types[id].kind.Scalar? && |row| >= types[id].minimum
    ensures Walk(types, id, row, c) == Meaning(types, id, row, c)
    decreases id, 2, 0, 0
  {
    hide ReadLeaf, Run, MeaningAll, MeaningMany, WalkFields, WalkElements;
    KindOf(types, id);
    match types[id].kind
    case Struct(fields) =>
      FieldsBefore(types, id, fields);
      FieldsWalk(types, id, fields, row, c);
    case Array(element, count) =>
      ElementsWalk(types, element, count, row, c);
      OneOfAll(types, id, Child(element, count), row, c);
    case Sequence(element) =>
      if |row| >= 4 {
        FourBytes(row);
        ElementsWalk(types, element, Word(row[..4]), row[4..], c);
      }
    case Enumeration(underlying, _) => EnumerationRuns(types, id);
    case _ =>
  }

  lemma {:induction false} EnumerationRuns(types: seq<Datatype>, id: nat)
    requires Proper(types) && Known(types, id) && types[id].kind.Enumeration?
    ensures types[id].scalars.Some?
  {
    KindOf(types, id);
    var u := types[id].kind.underlying;
    assert Known(types[..id], u) && types[..id][u] == types[u];
    ScalarIs(types, u);
    var children := Children(types[id].kind);
    assert children[..0] == [] && Program(types[..id], children[..0]) == Some([]);
    assert Program(types[..id], children).Some?;
  }

  lemma {:induction false} OneOfAll(types: seq<Datatype>, bound: nat, child: Child, row: seq<byte>, c: Context)
    requires Proper(types) && child.id < bound
    ensures MeaningAll(types, bound, [child], row, c) == MeaningMany(types, child.id, child.count, row, c)
  {
    hide MeaningMany;
    assert [child][..0] == [];
    assert MeaningAll(types, bound, [child][..0], row, c) == Some(Walked([], row));
    var w := MeaningMany(types, child.id, child.count, row, c);
    if w.Some? {
      assert [] + w.value.tokens == w.value.tokens;
    }
  }

  lemma {:induction false} FieldsWalk(types: seq<Datatype>, bound: nat, fields: seq<Field>, row: seq<byte>, c: Context)
    requires Proper(types) && forall i :: 0 <= i < |fields| ==> fields[i].datatype_ < bound
    ensures WalkFields(types, bound, fields, row, c) == MeaningAll(types, bound, OneOfEach(fields), row, c)
    decreases bound, 1, |fields|
  {
    hide Walk, Meaning, MeaningMany;
    if fields != [] {
      var n := |fields| - 1;
      assert OneOfEach(fields)[..n] == OneOfEach(fields[..n]);
      FieldsWalk(types, bound, fields[..n], row, c);
      if WalkFields(types, bound, fields[..n], row, c).Some? {
        var w := WalkFields(types, bound, fields[..n], row, c).value;
        WalkIsMeaning(types, fields[n].datatype_, w.rest, c);
        OnceIs(types, fields[n].datatype_, w.rest, c);
      }
    }
  }

  lemma {:induction false} OnceIs(types: seq<Datatype>, id: nat, row: seq<byte>, c: Context)
    requires Proper(types)
    ensures MeaningMany(types, id, 1, row, c) == Meaning(types, id, row, c)
  {
    hide Meaning;
    NoneAtAll(types, id, row, c);
    var w := Meaning(types, id, row, c);
    if w.Some? {
      assert [] + w.value.tokens == w.value.tokens;
    }
  }

  lemma {:induction false} ElementsWalk(types: seq<Datatype>, id: nat, n: nat, row: seq<byte>, c: Context)
    requires Proper(types) && Known(types, id)
    ensures WalkElements(types, id, n, row, c) == MeaningMany(types, id, n, row, c)
    decreases id, 4, n
  {
    hide Walk, Meaning, MeaningMany, WalkMany;
    if types[id].fixed == Some(0) {
      FixedIsMinimum(types, id);
      NoneOfMany(types, id, n, row, c);
    } else {
      if types[id].minimum != 0 && n > |row| / types[id].minimum {
        BeyondRow(n, types[id].minimum, |row|);
        TooShort(types, id, n, row, c);
      } else {
        ManyWalk(types, id, n, row, c);
      }
    }
  }

  lemma {:induction false} BeyondRow(n: nat, size: nat, have: nat)
    requires size > 0 && n > have / size
    ensures size * n > have
  {
    Scaled(n - have / size, size);
    assert (n - have / size) * size == n * size - have / size * size;
  }

  lemma {:induction false} ManyWalk(types: seq<Datatype>, id: nat, n: nat, row: seq<byte>, c: Context)
    requires Proper(types)
    ensures WalkMany(types, id, n, row, c) == MeaningMany(types, id, n, row, c)
    decreases id, 3, n
  {
    hide Walk, Meaning;
    if n > 0 {
      ManyWalk(types, id, n - 1, row, c);
      if WalkMany(types, id, n - 1, row, c).Some? {
        WalkIsMeaning(types, id, WalkMany(types, id, n - 1, row, c).value.rest, c);
      }
    }
  }

  // ---------------------------------------------------------------- validating by size

  /** `Types::validate`. */
  function Validate(types: seq<Datatype>, id: nat, payload: seq<byte>, c: Context): bool
    requires Proper(types)
  {
    && |payload| < 0x1_0000_0000
    && Known(types, id)
    && if types[id].bySize then types[id].fixed == Some(|payload|)
       else Walk(types, id, payload, c).Some? && Walk(types, id, payload, c).value.rest == []
  }

  lemma {:induction false} PlainRuns(program: seq<Primitive>, row: seq<byte>, c: Context)
    requires forall i :: 0 <= i < |program| ==> Width(program[i]).Some? && !program[i].Bool? && !program[i].Str?
    ensures Run(program, row, c).Some? <==> Total(program) <= |row|
    ensures Run(program, row, c).Some? ==> |Run(program, row, c).value.rest| == |row| - Total(program)
  {
    if program != [] {
      PlainRuns(program[..|program| - 1], row, c);
    }
  }

  function Total(program: seq<Primitive>): nat
    requires forall i :: 0 <= i < |program| ==> Width(program[i]).Some?
  {
    if program == [] then 0 else Total(program[..|program| - 1]) + Width(program[|program| - 1]).value
  }

  function Zeros(n: nat): (s: seq<byte>)
    ensures |s| == n
  {
    seq(n, i => 0)
  }

  /** Looking only at the size accepts exactly what the meaning of the datatype accepts. */
  lemma {:induction false} ValidateIff(types: seq<Datatype>, id: nat, payload: seq<byte>, c: Context)
    requires Proper(types)
    ensures Validate(types, id, payload, c) <==>
            && |payload| < 0x1_0000_0000
            && Meaning(types, id, payload, c).Some? && Meaning(types, id, payload, c).value.rest == []
  {
    hide Meaning, Walk, Run, ReadLeaf, AllBytes;
    WalkIsMeaning(types, id, payload, c);
    UnknownMeansNothing(types, id, payload, c);
    if Known(types, id) && types[id].bySize {
      BySizeIs(types, id);
      var program := types[id].scalars.value;
      var full := Zeros(Total(program));
      ProgramMeans(types, id, full, c);
      PlainRuns(program, full, c);
      SizesHold(types, id, full, c);
      ProgramMeans(types, id, payload, c);
      PlainRuns(program, payload, c);
    }
  }

  lemma {:induction false} UnknownMeansNothing(types: seq<Datatype>, id: nat, row: seq<byte>, c: Context)
    requires Proper(types)
    ensures Meaning(types, id, row, c).Some? ==> Known(types, id)
  {
  }

  lemma {:induction false} BySizeIs(types: seq<Datatype>, id: nat)
    requires Proper(types) && Known(types, id)
    ensures types[id].bySize == ValidatesBySize(types[id].fixed, types[id].scalars)
  {
    if types[id].kind.Scalar? {
      ScalarIs(types, id);
    } else {
      KindOf(types, id);
    }
  }
}
