/** Rows put into columns come back as they were; exactly for which tables of datatypes. */
module ArgumentRoundTrip {
  import opened Arithmetic
  import opened Options
  import opened Limbs
  import opened Words
  import opened Varint
  import opened Datatypes
  import opened DatatypeWalks
  import opened ArgumentColumns
  import opened ArgumentReading
  import A = AttributeValues

  // ---------------------------------------------------------------- one scalar

  /** Reader and writer have the same strings and the same shared table. */
  ghost predicate Agrees(g: Config, r: Setting) {
    && r.c == g.c && r.shared == g.shared.Some?
    && (g.shared.Some? ==> forall t :: t in g.shared.value ==>
          g.shared.value[t] < |r.sharedTexts| && r.sharedTexts[g.shared.value[t]] == t)
  }

  lemma {:induction false} EmptyAdds(a: Columns)
    ensures [] + a.numbers == a.numbers && [] + a.floats == a.floats && [] + a.texts == a.texts
    ensures [] + a.dictionary == a.dictionary && [] + a.others == a.others
  {
  }

  lemma {:induction false} PlusOne(s: seq<byte>, more: Columns)
    ensures Plus(Numbers(s), more) == more.(numbers := s + more.numbers)
    ensures Plus(Floats(s), more) == more.(floats := s + more.floats)
    ensures Plus(Texts(s), more) == more.(texts := s + more.texts)
    ensures Plus(Others(s), more) == more.(others := s + more.others)
  {
    EmptyAdds(more);
  }

  lemma {:induction false} NumberBack(data: seq<byte>, signed: bool)
    requires |data| <= 8
    ensures var value := TwosComplement(if signed then SignedWord(data) else Word(data));
      && Limbs.Bytes(value, |data|) == data && value % Pow(|data|) == Word(data)
  {
    hide Le, Pow, Limbs.Bytes;
    var low, m := Word(data), Pow(|data|);
    var value := TwosComplement(if signed then SignedWord(data) else low);
    LeBound(data);
    PowFits(|data|);
    PowEight();
    LowBits(low, m, value);
    LeOfBytes(value, |data|);
    LeDetermines(data, Limbs.Bytes(value, |data|));
  }

  /** Adding or taking away a multiple does not change the low bits. */
  lemma {:induction false} LowBits(low: nat, m: nat, value: nat)
    requires 0 < m && low < m && LIMB % m == 0
    requires value == low || value == low - m + LIMB
    ensures value % m == low
  {
    if value == low {
      DivModIs(value, m, 0, low);
    } else {
      assert (LIMB / m - 1) * m == LIMB / m * m - m;
      DivModIs(value, m, LIMB / m - 1, low);
    }
  }

  lemma {:induction false} NumberInRange(p: Primitive, data: seq<byte>)
    requires Width(p) == Some(|data|) && |data| <= 8
    ensures IntegerRange(p, TwosComplement(if Signed(p) then SignedWord(data) else Word(data)))
  {
    hide Le;
    NumberBack(data, Signed(p));
    LeBound(data);
  }

  /** The number written for an integer stands for a value in range that has its bytes. */
  lemma {:induction false} NumberReads(p: Primitive, data: seq<byte>)
    requires Width(p) == Some(|data|) && |data| <= 8
    ensures var value := TwosComplement(if Signed(p) then Unzigzag(Number(p, data)) else Number(p, data));
      IntegerRange(p, value) && Limbs.Bytes(value, |data|) == data
  {
    hide IntegerRange, Limbs.Bytes, Le, SignExtend;
    NumberInRange(p, data);
    NumberBack(data, Signed(p));
    if Signed(p) {
      ZigzagInverse(SignedWord(data), 0);
    }
  }

  /** What one token puts down is read back in front of anything. */
  ghost predicate Back(d: seq<Chars>, p: Primitive, data: seq<byte>, put: Put, more: Columns, length: nat, r: Setting) {
    ReadScalar(true, p, Place(Plus(put.columns, more), |d|), length, r)
      == Some(Out(Place(more, |put.dictionary|), data, length + |data|))
  }

  predicate Fits(p: Primitive, row: seq<byte>, length: nat, g: Config, r: Setting) {
    ReadLeaf(p, row, g.c).Some? && length + |ReadLeaf(p, row, g.c).value.data| <= r.limit
  }

  lemma {:induction false} IntegerBack(d: seq<Chars>, p: Primitive, row: seq<byte>, more: Columns, length: nat, g: Config, r: Setting)
    requires (Integer(p) || p.Time? || p.Pointer?) && Fits(p, row, length, g, r) && Agrees(g, r)
    ensures var data := ReadLeaf(p, row, g.c).value.data;
      PutLeaf(d, p, data, g).Some? && Back(d, p, data, PutLeaf(d, p, data, g).value, more, length, r)
  {
    hide Unleb, Leb, ReadVar, Plus, IntegerRange, Limbs.Bytes, Number, TwosComplement, Agrees;
    var data := ReadLeaf(p, row, g.c).value.data;
    PlusOne(Leb(Number(p, data)), more);
    VarReads(Number(p, data), more.numbers);
    NumberReads(p, data);
  }

  lemma {:induction false} FixedBack(d: seq<Chars>, p: Primitive, row: seq<byte>, more: Columns, length: nat, g: Config, r: Setting)
    requires (p.Fixed? || p.Ufixed?) && Fits(p, row, length, g, r) && Agrees(g, r)
    ensures var data := ReadLeaf(p, row, g.c).value.data;
      PutLeaf(d, p, data, g).Some? && Back(d, p, data, PutLeaf(d, p, data, g).value, more, length, r)
  {
    hide Unleb, Leb, ReadVar, Plus, Limbs.Bytes, Le, SignExtend;
    var data := ReadLeaf(p, row, g.c).value.data;
    var raw: u64 := if p.Fixed? then Zigzag(SignedWord(data[..8])) else Word(data[..8]);
    var exponent := Zigzag(SignedWord(data[8..]));
    PlusOne(Leb(raw) + Leb(exponent), more);
    assert Leb(raw) + Leb(exponent) + more.numbers == Leb(raw) + (Leb(exponent) + more.numbers);
    VarReads(raw, Leb(exponent) + more.numbers);
    VarReads(exponent, more.numbers);
    NumberBack(data[..8], p.Fixed?);
    NumberBack(data[8..], true);
    ZigzagInverse(SignedWord(data[..8]), 0);
    ZigzagInverse(SignedWord(data[8..]), 0);
    assert data == data[..8] + data[8..];
  }

  lemma {:induction false} PlainBack(d: seq<Chars>, p: Primitive, row: seq<byte>, more: Columns, length: nat, g: Config, r: Setting)
    requires (p.Bool? || p.F32? || p.F64? || p.Str?) && Fits(p, row, length, g, r) && Agrees(g, r)
    ensures var data := ReadLeaf(p, row, g.c).value.data;
      PutLeaf(d, p, data, g).Some? && Back(d, p, data, PutLeaf(d, p, data, g).value, more, length, r)
  {
    hide Unleb, Leb, ReadVar, Plus, Limbs.Bytes, Le;
    var data := ReadLeaf(p, row, g.c).value.data;
    PlusOne(data, more);
    CutBack(data, more.numbers);
    CutBack(data, more.floats);
    if p.Str? {
      PlusOne(Leb(Word(data)), more);
      FourBytes(data);
      assert data[..4] == data;
      VarReads(Word(data), more.others);
    }
  }

  lemma {:induction false} CutBack(data: seq<byte>, rest: seq<byte>)
    ensures Cut(data + rest, |data|) == Some(Split(data, rest))
  {
  }

  lemma {:induction false} PackedBack(d: seq<Chars>, p: Primitive, row: seq<byte>, more: Columns, length: nat, g: Config, r: Setting)
    requires Packed(p) && Fits(p, row, length, g, r) && Agrees(g, r)
    ensures var data := ReadLeaf(p, row, g.c).value.data;
      PutLeaf(d, p, data, g).Some? && Back(d, p, data, PutLeaf(d, p, data, g).value, more, length, r)
  {
    hide Unleb, Leb, ReadVar, Plus, Limbs.Bytes, Le, A.PackedBytes, A.PackedOk;
    var data := ReadLeaf(p, row, g.c).value.data;
    assert data[..8] == row[..8];
    var bits := Word(data[..8]);
    PlusOne(Leb(bits) + data[8..], more);
    assert Leb(bits) + data[8..] + more.others == Leb(bits) + (data[8..] + more.others);
    VarReads(bits, data[8..] + more.others);
    CutBack(data[8..], more.others);
    NumberBack(data[..8], false);
    assert data == data[..8] + data[8..];
  }

  lemma {:induction false} BlobBack(d: seq<Chars>, row: seq<byte>, more: Columns, length: nat, g: Config, r: Setting)
    requires Fits(Datatypes.Bytes, row, length, g, r) && Agrees(g, r)
    ensures var data := ReadLeaf(Datatypes.Bytes, row, g.c).value.data;
      && PutLeaf(d, Datatypes.Bytes, data, g).Some?
      && Back(d, Datatypes.Bytes, data, PutLeaf(d, Datatypes.Bytes, data, g).value, more, length, r)
  {
    hide Unleb, Leb, ReadVar, Plus, Limbs.Bytes, Le;
    var data := ReadLeaf(Datatypes.Bytes, row, g.c).value.data;
    BlobSplits(row, data);
    var text := data[4..];
    PlusOne(Leb(|text|) + text, more);
    assert Leb(|text|) + text + more.others == Leb(|text|) + (text + more.others);
    VarReads(|text|, text + more.others);
    CutBack(text, more.others);
  }

  lemma {:induction false} BlobSplits(row: seq<byte>, data: seq<byte>)
    requires CutBlob(row).Some? && data == CutBlob(row).value.data
    ensures |data| < 0x1_0000_0004 && data == Limbs.Bytes(|data| - 4, 4) + data[4..]
  {
    FourBytes(row);
    assert data == data[..4] + data[4..];
  }

  lemma {:induction false} TextBack(d: seq<Chars>, row: seq<byte>, more: Columns, length: nat, g: Config, r: Setting)
    requires Fits(Datatypes.Text, row, length, g, r) && Agrees(g, r)
    requires var data := ReadLeaf(Datatypes.Text, row, g.c).value.data;
      PutLeaf(d, Datatypes.Text, data, g).Some? && PutLeaf(d, Datatypes.Text, data, g).value.dictionary <= r.dictionary
    requires |d| <= 0x1_0000_0000
    ensures var data := ReadLeaf(Datatypes.Text, row, g.c).value.data;
      Back(d, Datatypes.Text, data, PutLeaf(d, Datatypes.Text, data, g).value, more, length, r)
  {
    hide Unleb, Leb, ReadVar, Plus, Limbs.Bytes, Le, IndexOf;
    var data := ReadLeaf(Datatypes.Text, row, g.c).value.data;
    BlobSplits(row, data);
    var text := data[4..];
    var put := PutText(d, text, g).value;
    if g.shared.Some? && text in g.shared.value {
      var id: nat := g.shared.value[text];
      PlusOne(Leb(2 * id + 1), more);
      VarReads(2 * id + 1, more.texts);
    } else {
      var i := if IndexOf(d, text).Some? then IndexOf(d, text).value else |d|;
      assert put.dictionary[i] == text && r.dictionary[i] == text;
      var index: nat := if g.shared.Some? then 2 * i else i;
      PlusOne(Leb(index), more);
      VarReads(index, more.texts);
    }
  }

  lemma {:induction false} ScalarBack(d: seq<Chars>, p: Primitive, row: seq<byte>, more: Columns, length: nat, g: Config, r: Setting)
    requires !p.Unit? && Fits(p, row, length, g, r) && Agrees(g, r) && |d| <= 0x1_0000_0000
    requires var data := ReadLeaf(p, row, g.c).value.data;
      PutLeaf(d, p, data, g).Some? && PutLeaf(d, p, data, g).value.dictionary <= r.dictionary
    ensures var data := ReadLeaf(p, row, g.c).value.data;
      Back(d, p, data, PutLeaf(d, p, data, g).value, more, length, r)
  {
    hide PutLeaf, Back, Fits, Agrees;
    if Integer(p) || p.Time? || p.Pointer? {
      IntegerBack(d, p, row, more, length, g, r);
    } else if p.Fixed? || p.Ufixed? {
      FixedBack(d, p, row, more, length, g, r);
    } else if Packed(p) {
      PackedBack(d, p, row, more, length, g, r);
    } else if p.Bytes? {
      BlobBack(d, row, more, length, g, r);
    } else if p.Text? {
      TextBack(d, row, more, length, g, r);
    } else if p.Bool? || p.F32? || p.F64? || p.Str? {
      PlainBack(d, p, row, more, length, g, r);
    } else {
      EnumFails(row, length, g, r);
    }
  }

  lemma {:induction false} EnumFails(row: seq<byte>, length: nat, g: Config, r: Setting)
    ensures !Fits(Enum, row, length, g, r)
  {
  }

  // ---------------------------------------------------------------- the tokens of a row

  /** A token that was shown by a walk. */
  ghost predicate TokenOk(t: Token, c: Context) {
    t.Leaf? ==> !t.primitive.Unit? && !t.primitive.Enum? && Shaped(t.primitive, t.data) && (t.primitive.Text? ==> c.utf8(t.data[4..]))
  }

  ghost predicate TokensOk(ts: seq<Token>, c: Context) {
    forall i :: 0 <= i < |ts| ==> TokenOk(ts[i], c)
  }

  lemma {:induction false} LeafIsOk(p: Primitive, row: seq<byte>, c: Context)
    requires !p.Unit? && ReadLeaf(p, row, c).Some?
    ensures TokenOk(Leaf(p, ReadLeaf(p, row, c).value.data), c)
  {
    hide Shaped;
    LeafShaped(p, row, c);
  }

  lemma {:induction false} MeaningTokens(types: seq<Datatype>, id: nat, row: seq<byte>, c: Context)
    requires Proper(types) && Meaning(types, id, row, c).Some?
    ensures TokensOk(Meaning(types, id, row, c).value.tokens, c)
    decreases id, 2, 0
  {
    hide ReadLeaf, TokenOk;
    if types[id].kind.Scalar? {
      if !types[id].kind.primitive.Unit? {
        LeafIsOk(types[id].kind.primitive, row, c);
      }
    } else {
      KindOf(types, id);
      if types[id].kind.Sequence? {
        FourBytes(row);
        ManyTokens(types, types[id].kind.element, Word(row[..4]), row[4..], c);
        CountIsOk(Word(row[..4]), c);
      } else {
        AllTokens(types, id, Children(types[id].kind), row, c);
      }
    }
  }

  lemma {:induction false} CountIsOk(n: u32, c: Context)
    ensures TokenOk(Count(n), c)
  {
  }

  lemma {:induction false} ManyTokens(types: seq<Datatype>, id: nat, n: nat, row: seq<byte>, c: Context)
    requires Proper(types) && MeaningMany(types, id, n, row, c).Some?
    ensures TokensOk(MeaningMany(types, id, n, row, c).value.tokens, c)
    ensures Known(types, id) && types[id].minimum > 0 ==> |MeaningMany(types, id, n, row, c).value.tokens| >= n
    decreases id, 3, n
  {
    hide Meaning, TokenOk, AllBytes;
    if n > 0 {
      ManyTokens(types, id, n - 1, row, c);
      var w := MeaningMany(types, id, n - 1, row, c).value;
      MeaningTokens(types, id, w.rest, c);
      SizesHold(types, id, w.rest, c);
      NoBytes(Meaning(types, id, w.rest, c).value.tokens);
    }
  }

  lemma {:induction false} NoBytes(ts: seq<Token>)
    ensures ts == [] ==> AllBytes(ts) == []
  {
  }

  lemma {:induction false} AllTokens(types: seq<Datatype>, bound: nat, children: seq<Child>, row: seq<byte>, c: Context)
    requires Proper(types) && forall i :: 0 <= i < |children| ==> children[i].id < bound
    requires MeaningAll(types, bound, children, row, c).Some?
    ensures TokensOk(MeaningAll(types, bound, children, row, c).value.tokens, c)
    decreases bound, 1, |children|
  {
    hide MeaningMany, TokenOk;
    if children != [] {
      var last := children[|children| - 1];
      AllTokens(types, bound, children[..|children| - 1], row, c);
      ManyTokens(types, last.id, last.count, MeaningAll(types, bound, children[..|children| - 1], row, c).value.rest, c);
    }
  }

  lemma {:induction false} PutsHaveBytes(d: seq<Chars>, ts: seq<Token>, g: Config)
    requires TokensOk(ts, g.c) && PutAll(d, ts, g).ok
    ensures Size(PutAll(d, ts, g).columns) >= |ts|
  {
    hide PutToken, Plus, Size, TokenOk;
    if ts != [] {
      var front := PutAll(d, ts[..|ts| - 1], g);
      PutsHaveBytes(d, ts[..|ts| - 1], g);
      OkHasByte(front.dictionary, ts[|ts| - 1], g);
      SizeAdds(front.columns, PutToken(front.dictionary, ts[|ts| - 1], g).value.columns);
    }
  }

  lemma {:induction false} OkHasByte(d: seq<Chars>, t: Token, g: Config)
    requires TokenOk(t, g.c) && PutToken(d, t, g).Some?
    ensures Size(PutToken(d, t, g).value.columns) >= 1
  {
    hide PutToken, Size;
    TokenHasByte(d, t, g);
  }

  // ---------------------------------------------------------------- one row

  /** The tokens can be put down, fit the payload limit, and use the dictionary that the reader has. */
  ghost predicate Ready(d: seq<Chars>, ts: seq<Token>, length: nat, g: Config, r: Setting) {
    var puts := PutAll(d, ts, g);
    && puts.ok && puts.dictionary <= r.dictionary && length + |AllBytes(ts)| <= r.limit
    && DictionaryOk(d, g) && Agrees(g, r)
  }

  /** The place where these tokens come next, then `more`. */
  function Start(d: seq<Chars>, ts: seq<Token>, more: Columns, g: Config): Place {
    Place(Plus(PutAll(d, ts, g).columns, more), |d|)
  }

  /** The reading gave exactly the bytes of these tokens. */
  ghost predicate RowBack(o: Option<Out>, d: seq<Chars>, ts: seq<Token>, more: Columns, length: nat, g: Config) {
    o == Some(Out(Place(more, |PutAll(d, ts, g).dictionary|), AllBytes(ts), length + |AllBytes(ts)|))
  }

  lemma {:induction false} NothingBack(d: seq<Chars>, more: Columns, length: nat, g: Config)
    ensures RowBack(Some(Out(Start(d, [], more, g), [], length)), d, [], more, length, g)
  {
    PlusNothing(more);
  }

  /** What follows the first group: the second, and then `more`. */
  function Later(d: seq<Chars>, a: seq<Token>, b: seq<Token>, more: Columns, g: Config): Columns {
    Plus(PutAll(PutAll(d, a, g).dictionary, b, g).columns, more)
  }

  /** Two groups of tokens one after the other. */
  lemma {:induction false} SplitReady(d: seq<Chars>, a: seq<Token>, b: seq<Token>, more: Columns, length: nat, g: Config, r: Setting)
    requires Ready(d, a + b, length, g, r)
    ensures Ready(d, a, length, g, r) && Ready(PutAll(d, a, g).dictionary, b, length + |AllBytes(a)|, g, r)
    ensures Start(d, a + b, more, g) == Start(d, a, Later(d, a, b, more, g), g)
  {
    hide PutAll, AllBytes, Plus, Agrees, DictionaryOk;
    PutsAdd(d, a, b, g);
    BytesAdd(a, b);
    DictionariesGrow(d, a, g);
    var first := PutAll(d, a, g);
    DictionariesGrow(first.dictionary, b, g);
    PlusAssociates(first.columns, PutAll(first.dictionary, b, g).columns, more);
  }

  /** After the first group the reader is where the second starts, and then both have been read. */
  lemma {:induction false} JoinBack(o: Option<Out>, next: Option<Out>, d: seq<Chars>, a: seq<Token>, b: seq<Token>, more: Columns,
                                    length: nat, g: Config, r: Setting)
    requires Ready(d, a + b, length, g, r)
    requires RowBack(o, d, a, Later(d, a, b, more, g), length, g)
    requires RowBack(next, PutAll(d, a, g).dictionary, b, more, length + |AllBytes(a)|, g)
    ensures o.Some? && o.value.place == Start(PutAll(d, a, g).dictionary, b, more, g) && o.value.length == length + |AllBytes(a)|
    ensures RowBack(ThenRead(o.value, next), d, a + b, more, length, g)
  {
    hide PutAll, AllBytes, Plus, Agrees, DictionaryOk;
    PutsAdd(d, a, b, g);
    BytesAdd(a, b);
  }

  lemma {:induction false} LeafBack(d: seq<Chars>, p: Primitive, row: seq<byte>, more: Columns, length: nat, g: Config, r: Setting)
    requires !p.Unit? && ReadLeaf(p, row, g.c).Some?
    requires Ready(d, [Leaf(p, ReadLeaf(p, row, g.c).value.data)], length, g, r)
    ensures var ts := [Leaf(p, ReadLeaf(p, row, g.c).value.data)];
      RowBack(ReadScalar(true, p, Start(d, ts, more, g), length, r), d, ts, more, length, g)
  {
    hide ReadLeaf, PutLeaf, PutAll, ReadScalar, AllBytes, Plus, Agrees;
    var t := Leaf(p, ReadLeaf(p, row, g.c).value.data);
    PutsOne(d, t, g);
    BytesOfOne(t);
    ScalarBack(d, p, row, more, length, g, r);
  }

  lemma {:induction false} RunSnoc(program: seq<Primitive>, row: seq<byte>, c: Context)
    requires program != [] && Run(program, row, c).Some?
    ensures var front, p := program[..|program| - 1], program[|program| - 1];
      && Run(front, row, c).Some? && ReadLeaf(p, Run(front, row, c).value.rest, c).Some?
      && var w := Run(front, row, c).value;
         Run(program, row, c).value.tokens == w.tokens + [Leaf(p, ReadLeaf(p, w.rest, c).value.data)]
  {
    hide ReadLeaf;
  }

  lemma {:induction false} RunBack(program: seq<Primitive>, row: seq<byte>, d: seq<Chars>, more: Columns, length: nat, g: Config, r: Setting)
    requires Unit !in program && Run(program, row, g.c).Some? && Ready(d, Run(program, row, g.c).value.tokens, length, g, r)
    ensures var ts := Run(program, row, g.c).value.tokens;
      RowBack(ReadProgram(true, program, Start(d, ts, more, g), length, r), d, ts, more, length, g)
  {
    hide Run, ReadLeaf, ReadScalar, Ready, Start, RowBack, PutAll, AllBytes, Plus;
    if program == [] {
      NothingRun(row, g.c);
      NothingBack(d, more, length, g);
    } else {
      var front, p := program[..|program| - 1], program[|program| - 1];
      RunSnoc(program, row, g.c);
      var w := Run(front, row, g.c).value;
      var b := [Leaf(p, ReadLeaf(p, w.rest, g.c).value.data)];
      SplitReady(d, w.tokens, b, more, length, g, r);
      RunBack(front, row, d, Later(d, w.tokens, b, more, g), length, g, r);
      LeafBack(PutAll(d, w.tokens, g).dictionary, p, w.rest, more, length + |AllBytes(w.tokens)|, g, r);
      var o := ReadProgram(true, front, Start(d, w.tokens + b, more, g), length, r);
      JoinBack(o, ReadScalar(true, p, Start(PutAll(d, w.tokens, g).dictionary, b, more, g), length + |AllBytes(w.tokens)|, r),
               d, w.tokens, b, more, length, g, r);
    }
  }
}
