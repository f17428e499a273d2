/** Payload rows spread over five columns with a first-use dictionary of texts. */
module ArgumentColumns {
  import opened Options
  import opened Limbs
  import opened Words
  import opened Varint
  import opened Datatypes
  import opened DatatypeWalks

  type Chars = seq<byte>

  // ---------------------------------------------------------------- columns

  datatype Columns = Columns(numbers: seq<byte>, floats: seq<byte>, texts: seq<byte>, dictionary: seq<byte>, others: seq<byte>)

  const NO_COLUMNS: Columns := Columns([], [], [], [], [])

  function Plus(a: Columns, b: Columns): Columns {
    Columns(a.numbers + b.numbers, a.floats + b.floats, a.texts + b.texts, a.dictionary + b.dictionary, a.others + b.others)
  }

  function Size(a: Columns): nat {
    |a.numbers| + |a.floats| + |a.texts| + |a.dictionary| + |a.others|
  }

  lemma {:induction false} PlusAssociates(a: Columns, b: Columns, d: Columns)
    ensures Plus(Plus(a, b), d) == Plus(a, Plus(b, d))
  {
    assert a.numbers + b.numbers + d.numbers == a.numbers + (b.numbers + d.numbers);
    assert a.floats + b.floats + d.floats == a.floats + (b.floats + d.floats);
    assert a.texts + b.texts + d.texts == a.texts + (b.texts + d.texts);
    assert a.dictionary + b.dictionary + d.dictionary == a.dictionary + (b.dictionary + d.dictionary);
    assert a.others + b.others + d.others == a.others + (b.others + d.others);
  }

  lemma {:induction false} PlusNothing(a: Columns)
    ensures Plus(a, NO_COLUMNS) == a && Plus(NO_COLUMNS, a) == a
  {
    var n: seq<byte> := [];
    assert a.numbers + n == a.numbers && n + a.numbers == a.numbers && a.floats + n == a.floats && n + a.floats == a.floats;
    assert a.texts + n == a.texts && n + a.texts == a.texts && a.others + n == a.others && n + a.others == a.others;
    assert a.dictionary + n == a.dictionary && n + a.dictionary == a.dictionary;
  }

  lemma {:induction false} SizeAdds(a: Columns, b: Columns)
    ensures Size(Plus(a, b)) == Size(a) + Size(b)
  {
  }

  function Numbers(s: seq<byte>): Columns {
    Columns(s, [], [], [], [])
  }

  function Floats(s: seq<byte>): Columns {
    Columns([], s, [], [], [])
  }

  function Texts(s: seq<byte>): Columns {
    Columns([], [], s, [], [])
  }

  function Others(s: seq<byte>): Columns {
    Columns([], [], [], [], s)
  }

  // ---------------------------------------------------------------- what one token adds

  /** The shared table of texts, when there is one. */
  datatype Config = Config(c: Context, shared: Option<map<Chars, u32>>)

  predicate Shaped(p: Primitive, data: seq<byte>) {
    && (Width(p).Some? ==> |data| == Width(p).value)
    && (p.Text? || p.Bytes? ==> 4 <= |data| < 0x1_0000_0004)
    && (Packed(p) ==> 8 <= |data|)
  }

  function IndexOf(dictionary: seq<Chars>, text: Chars): (r: Option<nat>)
    ensures r.Some? ==> r.value < |dictionary| && dictionary[r.value] == text
    ensures r.None? <==> text !in dictionary
  {
    if dictionary == [] then None
    else if dictionary[|dictionary| - 1] == text then Some(|dictionary| - 1)
    else IndexOf(dictionary[..|dictionary| - 1], text)
  }

  function SignedWord(data: seq<byte>): i64
    requires |data| <= 8
  {
    SignRange(Word(data), |data|, data);
    SignExtend(Word(data), |data|)
  }

  lemma {:induction false} SignRange(low: nat, size: nat, data: seq<byte>)
    requires |data| == size <= 8 && low == Word(data)
    ensures low < Pow(size) && -0x8000_0000_0000_0000 <= SignExtend(low, size) < 0x8000_0000_0000_0000
  {
    LeBound(data);
    PowFits(size);
    PowEight();
  }

  /** The number written for an integer. */
  function Number(p: Primitive, data: seq<byte>): u64
    requires |data| <= 8
  {
    if Signed(p) then Zigzag(SignedWord(data)) else Word(data)
  }

  datatype Put = Put(columns: Columns, dictionary: seq<Chars>)

  /** A text is its place in the shared table, or in the dictionary of texts in order of first use. */
  function PutText(dictionary: seq<Chars>, text: Chars, g: Config): Option<Put> {
    if !g.c.utf8(text) then None
    else if g.shared.Some? && text in g.shared.value then
      var id := g.shared.value[text];
      if id >= g.c.strings then None else Some(Put(Texts(Leb(2 * id + 1)), dictionary))
    else
      match IndexOf(dictionary, text)
      case Some(i) => Some(Put(Texts(Leb(if g.shared.Some? then 2 * i else i)), dictionary))
      case None =>
        var i := |dictionary|;
        if i >= 0x1_0000_0000 then None
        else Some(Put(Texts(Leb(if g.shared.Some? then 2 * i else i)), dictionary + [text]))
  }

  function PutLeaf(dictionary: seq<Chars>, p: Primitive, data: seq<byte>, g: Config): Option<Put> {
    if !Shaped(p, data) then None else
      match p
      case Unit => Some(Put(NO_COLUMNS, dictionary))
      case Bool => Some(Put(Numbers(data), dictionary))
      case F32 | F64 => Some(Put(Floats(data), dictionary))
      case Str => Some(Put(Others(Leb(Word(data))), dictionary))
      case Text => PutText(dictionary, data[4..], g)
      case Bytes => Some(Put(Others(Leb(|data| - 4) + data[4..]), dictionary))
      case Bits | Logic | Logic9 => Some(Put(Others(Leb(Word(data[..8])) + data[8..]), dictionary))
      case Fixed => Some(Put(Numbers(Leb(Zigzag(SignedWord(data[..8]))) + Leb(Zigzag(SignedWord(data[8..])))), dictionary))
      case Ufixed => Some(Put(Numbers(Leb(Word(data[..8])) + Leb(Zigzag(SignedWord(data[8..])))), dictionary))
      case Enum => None
      case _ => Some(Put(Numbers(Leb(Number(p, data))), dictionary))
  }

  function PutToken(dictionary: seq<Chars>, t: Token, g: Config): Option<Put> {
    match t
    case Count(n) => Some(Put(Numbers(Leb(n)), dictionary))
    case Leaf(p, data) => PutLeaf(dictionary, p, data, g)
  }

  /** All tokens of a row, or those before the first that is refused. */
  datatype Puts = Puts(columns: Columns, dictionary: seq<Chars>, ok: bool)

  function PutAll(dictionary: seq<Chars>, ts: seq<Token>, g: Config): Puts {
    if ts == [] then Puts(NO_COLUMNS, dictionary, true) else
      var front := PutAll(dictionary, ts[..|ts| - 1], g);
      if !front.ok then front else
        match PutToken(front.dictionary, ts[|ts| - 1], g)
        case None => Puts(front.columns, front.dictionary, false)
        case Some(p) => Puts(Plus(front.columns, p.columns), p.dictionary, true)
  }

  lemma {:induction false} PutsAdd(dictionary: seq<Chars>, a: seq<Token>, b: seq<Token>, g: Config)
    ensures var first := PutAll(dictionary, a, g);
      PutAll(dictionary, a + b, g) ==
      if !first.ok then first else
        var second := PutAll(first.dictionary, b, g);
        Puts(Plus(first.columns, second.columns), second.dictionary, second.ok)
    decreases |b|
  {
    hide PutToken, Plus;
    var first := PutAll(dictionary, a, g);
    if b == [] {
      assert a + b == a;
      PlusNothing(first.columns);
    } else {
      var n := |b| - 1;
      assert (a + b)[..|a + b| - 1] == a + b[..n] && (a + b)[|a + b| - 1] == b[n];
      PutsAdd(dictionary, a, b[..n], g);
      if first.ok {
        var second := PutAll(first.dictionary, b[..n], g);
        if second.ok && PutToken(second.dictionary, b[n], g).Some? {
          PlusAssociates(first.columns, second.columns, PutToken(second.dictionary, b[n], g).value.columns);
        }
      }
    }
  }

  lemma {:induction false} PutsOne(dictionary: seq<Chars>, t: Token, g: Config)
    ensures PutAll(dictionary, [t], g) == match PutToken(dictionary, t, g)
                                          case None => Puts(NO_COLUMNS, dictionary, false)
                                          case Some(p) => Puts(p.columns, p.dictionary, true)
  {
    hide PutToken, Plus;
    assert [t][..0] == [];
    assert PutAll(dictionary, [t][..0], g) == Puts(NO_COLUMNS, dictionary, true);
    if PutToken(dictionary, t, g).Some? {
      PlusNothing(PutToken(dictionary, t, g).value.columns);
    }
  }

  /** The dictionary only grows, stays without repetition and holds texts only. */
  ghost predicate DictionaryOk(dictionary: seq<Chars>, g: Config) {
    && |dictionary| <= 0x1_0000_0000
    && (forall i, j :: 0 <= i < j < |dictionary| ==> dictionary[i] != dictionary[j])
    && forall i :: 0 <= i < |dictionary| ==> g.c.utf8(dictionary[i]) && |dictionary[i]| < 0x1_0000_0000
  }

  lemma {:induction false} DictionaryGrows(dictionary: seq<Chars>, t: Token, g: Config)
    requires DictionaryOk(dictionary, g) && PutToken(dictionary, t, g).Some?
    ensures dictionary <= PutToken(dictionary, t, g).value.dictionary && DictionaryOk(PutToken(dictionary, t, g).value.dictionary, g)
  {
    hide Leb, IndexOf, SignedWord, Word;
  }

  lemma {:induction false} DictionariesGrow(dictionary: seq<Chars>, ts: seq<Token>, g: Config)
    requires DictionaryOk(dictionary, g)
    ensures dictionary <= PutAll(dictionary, ts, g).dictionary && DictionaryOk(PutAll(dictionary, ts, g).dictionary, g)
  {
    hide PutToken, Plus, DictionaryOk;
    if ts != [] {
      DictionariesGrow(dictionary, ts[..|ts| - 1], g);
      var front := PutAll(dictionary, ts[..|ts| - 1], g);
      if front.ok && PutToken(front.dictionary, ts[|ts| - 1], g).Some? {
        DictionaryGrows(front.dictionary, ts[|ts| - 1], g);
      }
    }
  }

  /** Every token that is not empty puts down at least a byte. */
  lemma {:induction false} TokenHasByte(dictionary: seq<Chars>, t: Token, g: Config)
    requires PutToken(dictionary, t, g).Some? && t != Leaf(Unit, [])
    ensures Size(PutToken(dictionary, t, g).value.columns) >= 1
  {
    hide Leb, IndexOf, SignedWord, Word;
  }

  // ---------------------------------------------------------------- the writer

  datatype Store = Store(columns: Columns, dictionary: seq<Chars>)

  /** From one state to the next by putting tokens down, up to the first that is refused. */
  ghost predicate After(before: Store, ts: seq<Token>, g: Config, after: Store, ok: bool) {
    var puts := PutAll(before.dictionary, ts, g);
    after == Store(Plus(before.columns, puts.columns), puts.dictionary) && ok == puts.ok
  }

  lemma {:induction false} AfterNone(s: Store, g: Config)
    ensures After(s, [], g, s, true)
  {
    PlusNothing(s.columns);
  }

  lemma {:induction false} AfterOne(s: Store, t: Token, g: Config)
    ensures match PutToken(s.dictionary, t, g)
            case None => After(s, [t], g, s, false)
            case Some(p) => After(s, [t], g, Store(Plus(s.columns, p.columns), p.dictionary), true)
  {
    hide PutToken, Plus;
    PutsOne(s.dictionary, t, g);
    PlusNothing(s.columns);
  }

  lemma {:induction false} AfterMore(s0: Store, a: seq<Token>, s1: Store, b: seq<Token>, s2: Store, g: Config, ok: bool)
    requires After(s0, a, g, s1, true) && After(s1, b, g, s2, ok)
    ensures After(s0, a + b, g, s2, ok)
  {
    hide PutAll, Plus;
    PutsAdd(s0.dictionary, a, b, g);
    var first := PutAll(s0.dictionary, a, g);
    PlusAssociates(s0.columns, first.columns, PutAll(first.dictionary, b, g).columns);
  }

  lemma {:induction false} AfterFailed(s0: Store, a: seq<Token>, b: seq<Token>, s1: Store, g: Config)
    requires After(s0, a, g, s1, false)
    ensures After(s0, a + b, g, s1, false)
  {
    hide PutAll, Plus;
    PutsAdd(s0.dictionary, a, b, g);
  }

  /** The hash map of texts is the inverse of the dictionary. */
  ghost predicate Indexes(textIds: map<Chars, nat>, dictionary: seq<Chars>) {
    && (forall t :: t in textIds ==> textIds[t] < |dictionary| && dictionary[textIds[t]] == t)
    && forall i :: 0 <= i < |dictionary| ==> dictionary[i] in textIds && textIds[dictionary[i]] == i
  }

  lemma {:induction false} IndexesFind(textIds: map<Chars, nat>, dictionary: seq<Chars>, text: Chars)
    requires Indexes(textIds, dictionary)
    ensures IndexOf(dictionary, text) == if text in textIds then Some(textIds[text]) else None
  {
    if text in textIds {
      assert dictionary[textIds[text]] in dictionary;
    }
  }

  datatype Mark = Mark(numbers: nat, floats: nat, texts: nat, dictionary: nat, others: nat, entries: nat)

  function MarkOf(s: Store): Mark {
    Mark(|s.columns.numbers|, |s.columns.floats|, |s.columns.texts|, |s.columns.dictionary|, |s.columns.others|, |s.dictionary|)
  }

  predicate Beyond(s: Store, m: Mark) {
    && m.numbers <= |s.columns.numbers| && m.floats <= |s.columns.floats| && m.texts <= |s.columns.texts|
    && m.dictionary <= |s.columns.dictionary| && m.others <= |s.columns.others| && m.entries <= |s.dictionary|
  }

  function Truncated(s: Store, m: Mark): Store
    requires Beyond(s, m)
  {
    Store(Columns(s.columns.numbers[..m.numbers], s.columns.floats[..m.floats], s.columns.texts[..m.texts],
                  s.columns.dictionary[..m.dictionary], s.columns.others[..m.others]),
          s.dictionary[..m.entries])
  }

  /** Going back to a mark undoes whatever was put down since, also a row that failed half way. */
  lemma {:induction false} RestoreUndoes(s: Store, ts: seq<Token>, g: Config, after: Store, ok: bool)
    requires DictionaryOk(s.dictionary, g) && After(s, ts, g, after, ok)
    ensures Beyond(after, MarkOf(s)) && Truncated(after, MarkOf(s)) == s
  {
    hide PutAll, DictionaryOk;
    DictionariesGrow(s.dictionary, ts, g);
    var puts := PutAll(s.dictionary, ts, g);
    Prefix(s.columns.numbers, puts.columns.numbers);
    Prefix(s.columns.floats, puts.columns.floats);
    Prefix(s.columns.texts, puts.columns.texts);
    Prefix(s.columns.dictionary, puts.columns.dictionary);
    Prefix(s.columns.others, puts.columns.others);
    assert puts.dictionary[..|s.dictionary|] == s.dictionary;
  }

  lemma {:induction false} Prefix(s: seq<byte>, t: seq<byte>)
    ensures (s + t)[..|s|] == s && |s + t| == |s| + |t|
  {
  }

  /** Descriptor and texts, as the dictionary column. */
  function Blobs(dictionary: seq<Chars>): seq<byte> {
    if dictionary == [] then [] else
      Blobs(dictionary[..|dictionary| - 1]) + (Leb(|dictionary[|dictionary| - 1]|) + dictionary[|dictionary| - 1])
  }

  function Descriptor(dictionary: seq<Chars>, g: Config): nat {
    2 * |dictionary| + if g.shared.Some? then 1 else 0
  }

  function Finished(s: Store, g: Config): Columns {
    s.columns.(dictionary := s.columns.dictionary + (Leb(Descriptor(s.dictionary, g)) + Blobs(s.dictionary)))
  }

  class Writer {
    var columns: Columns
    var dictionary: seq<Chars>
    var textIds: map<Chars, nat>
    const config: Config

    ghost predicate Valid()
      reads this
    {
      DictionaryOk(dictionary, config) && Indexes(textIds, dictionary) && columns.dictionary == []
    }

    ghost function State(): Store
      reads this
    {
      Store(columns, dictionary)
    }

    constructor (config: Config)
      ensures Valid() && State() == Store(NO_COLUMNS, []) && this.config == config
    {
      columns := NO_COLUMNS;
      dictionary := [];
      textIds := map[];
      this.config := config;
    }

    method PutBytes(more: Columns)
      requires Valid() && more.dictionary == []
      modifies this`columns
      ensures Valid() && columns == Plus(old(columns), more)
    {
      columns := Plus(columns, more);
      assert columns.dictionary == [];
    }

    /** The visitor's `count`. */
    method Count(n: u32)
      requires Valid()
      modifies this`columns
      ensures Valid() && After(old(State()), [Datatypes.Count(n)], config, State(), true)
    {
      hide PutAll, Plus, DictionaryOk, Indexes;
      AfterOne(State(), Datatypes.Count(n), config);
      PutBytes(Numbers(Leb(n)));
    }

    method AddText(text: Chars) returns (ok: bool)
      requires Valid() && |text| < 0x1_0000_0000
      modifies this
      ensures Valid()
      ensures match PutText(old(dictionary), text, config)
              case None => !ok && State() == old(State())
              case Some(p) => ok && columns == Plus(old(columns), p.columns) && dictionary == p.dictionary
    {
      hide Plus, Leb, IndexOf;
      if !config.c.utf8(text) {
        return false;
      }
      var index: nat;
      if config.shared.Some? && text in config.shared.value {
        var id := config.shared.value[text];
        if id >= config.c.strings {
          return false;
        }
        index := 2 * id + 1;
      } else {
        IndexesFind(textIds, dictionary, text);
        var id: nat;
        if text in textIds {
          id := textIds[text];
        } else {
          id := |dictionary|;
          if id >= 0x1_0000_0000 {
            return false;
          }
          dictionary := dictionary + [text];
          textIds := textIds[text := id];
        }
        index := if config.shared.Some? then 2 * id else id;
      }
      PutBytes(Texts(Leb(index)));
      ok := true;
    }

    /** The visitor's `scalar`, for the front of a row that was validated. */
    method Scalar(p: Primitive, row: seq<byte>) returns (rest: Option<seq<byte>>)
      requires Valid() && !p.Unit? && ReadLeaf(p, row, config.c).Some?
      modifies this
      ensures Valid()
      ensures var s := ReadLeaf(p, row, config.c).value;
        && After(old(State()), [Leaf(p, s.data)], config, State(), rest.Some?)
        && (rest.Some? ==> rest.value == s.rest)
    {
      hide PutAll, Plus, Leb, DictionaryOk, Indexes, IndexOf, ReadLeaf, SignedWord, Word;
      var Split(data, left) := ReadLeaf(p, row, config.c).value;
      LeafShaped(p, row, config.c);
      AfterOne(State(), Leaf(p, data), config);
      if p.Text? {
        var ok := AddText(data[4..]);
        return if ok then Some(left) else None;
      }
      PutBytes(PutLeaf(dictionary, p, data, config).value.columns);
      rest := Some(left);
    }

    method Program(program: seq<Primitive>, row: seq<byte>) returns (rest: Option<seq<byte>>)
      requires Valid() && Run(program, row, config.c).Some? && Unit !in program
      modifies this
      ensures Valid() && Visited(old(State()), Run(program, row, config.c), config, State(), rest)
    {
      hide PutAll, Plus, DictionaryOk, Indexes, ReadLeaf, After;
      var left := row;
      NothingRun(row, config.c);
      assert program[..0] == [];
      AfterNone(State(), config);
      for k := 0 to |program|
        invariant Valid() && Run(program[..k], row, config.c).Some?
        invariant Visited(old(State()), Run(program[..k], row, config.c), config, State(), Some(left))
      {
        RunPrefix(program, k + 1, row, config.c);
        assert program[..k + 1][..k] == program[..k] && program[..k + 1][k] == program[k];
        ghost var before := State();
        var next := Scalar(program[k], left);
        VisitedMore(old(State()), Run(program[..k], row, config.c), before,
                    Some(Walked([Leaf(program[k], ReadLeaf(program[k], left, config.c).value.data)], ReadLeaf(program[k], left, config.c).value.rest)),
                    config, State(), next);
        if next.None? {
          VisitedFailed(old(State()), Run(program[..k + 1], row, config.c), Run(program, row, config.c), config, State());
          return None;
        }
        left := next.value;
      }
      assert program[..|program|] == program;
      rest := Some(left);
    }

    /** `walk` with this visitor. */
    method Visit(types: seq<Datatype>, id: nat, row: seq<byte>) returns (rest: Option<seq<byte>>)
      requires Valid() && Proper(types) && Walk(types, id, row, config.c).Some?
      modifies this
      ensures Valid() && Visited(old(State()), Walk(types, id, row, config.c), config, State(), rest)
      decreases id, 2, 0
    {
      hide PutAll, Plus, DictionaryOk, Indexes, ReadLeaf, After, Run, WalkElements, WalkFields, Proper;
      if types[id].scalars.Some? {
        ProgramHasNoUnit(types, id);
        rest := Program(types[id].scalars.value, row);
        return;
      }
      KindOf(types, id);
      match types[id].kind
      case Struct(fields) =>
        FieldsBefore(types, id, fields);
        rest := VisitFields(types, id, fields, row);
      case Array(element, count) =>
        rest := VisitElements(types, element, count, row);
      case Sequence(element) =>
        FourBytes(row);
        var n: u32 := Word(row[..4]);
        Count(n);
        ghost var before := State();
        rest := VisitElements(types, element, n, row[4..]);
        VisitedMore(old(State()), Some(Walked([Datatypes.Count(n)], row[4..])), before, WalkElements(types, element, n, row[4..], config.c),
                    config, State(), rest);
    }

    method VisitFields(types: seq<Datatype>, bound: nat, fields: seq<Field>, row: seq<byte>) returns (rest: Option<seq<byte>>)
      requires Valid() && Proper(types) && forall i :: 0 <= i < |fields| ==> fields[i].datatype_ < bound
      requires WalkFields(types, bound, fields, row, config.c).Some?
      modifies this
      ensures Valid() && Visited(old(State()), WalkFields(types, bound, fields, row, config.c), config, State(), rest)
      decreases bound, 1, |fields|
    {
      hide PutAll, Plus, DictionaryOk, Indexes, After, Walk, Proper;
      var left := row;
      assert fields[..0] == [];
      AfterNone(State(), config);
      for k := 0 to |fields|
        invariant Valid() && WalkFields(types, bound, fields[..k], row, config.c).Some?
        invariant Visited(old(State()), WalkFields(types, bound, fields[..k], row, config.c), config, State(), Some(left))
      {
        FieldsPrefix(types, bound, fields, k + 1, row, config.c);
        assert fields[..k + 1][..k] == fields[..k] && fields[..k + 1][k] == fields[k];
        ghost var before := State();
        var next := Visit(types, fields[k].datatype_, left);
        VisitedMore(old(State()), WalkFields(types, bound, fields[..k], row, config.c), before,
                    Walk(types, fields[k].datatype_, left, config.c), config, State(), next);
        if next.None? {
          VisitedFailed(old(State()), WalkFields(types, bound, fields[..k + 1], row, config.c),
                        WalkFields(types, bound, fields, row, config.c), config, State());
          return None;
        }
        left := next.value;
      }
      assert fields[..|fields|] == fields;
      rest := Some(left);
    }

    method VisitElements(types: seq<Datatype>, id: nat, n: nat, row: seq<byte>) returns (rest: Option<seq<byte>>)
      requires Valid() && Proper(types) && Known(types, id) && WalkElements(types, id, n, row, config.c).Some?
      modifies this
      ensures Valid() && Visited(old(State()), WalkElements(types, id, n, row, config.c), config, State(), rest)
      decreases id, 3, n
    {
      hide PutAll, Plus, DictionaryOk, Indexes, After, Walk, Proper;
      AfterNone(State(), config);
      if types[id].fixed == Some(0) {
        return Some(row);
      }
      var left := row;
      for k := 0 to n
        invariant Valid() && WalkMany(types, id, k, row, config.c).Some?
        invariant Visited(old(State()), WalkMany(types, id, k, row, config.c), config, State(), Some(left))
      {
        ManyPrefix(types, id, n, k + 1, row, config.c);
        ghost var before := State();
        var next := Visit(types, id, left);
        VisitedMore(old(State()), WalkMany(types, id, k, row, config.c), before, Walk(types, id, left, config.c), config, State(), next);
        if next.None? {
          VisitedFailed(old(State()), WalkMany(types, id, k + 1, row, config.c), WalkMany(types, id, n, row, config.c), config, State());
          return None;
        }
        left := next.value;
      }
      rest := Some(left);
    }

    /** A row is refused by validation, and nothing changes, or its tokens are put down, perhaps not all. */
    method Append(types: seq<Datatype>, id: nat, payload: seq<byte>) returns (ok: bool)
      requires Valid() && Proper(types)
      modifies this
      ensures Valid()
      ensures !Validate(types, id, payload, config.c) ==> !ok && State() == old(State())
      ensures Validate(types, id, payload, config.c) ==>
                Meaning(types, id, payload, config.c).Some? &&
                After(old(State()), Meaning(types, id, payload, config.c).value.tokens, config, State(), ok)
    {
      hide PutAll, Plus, DictionaryOk, Indexes, After, Walk, Meaning, Proper, Validate;
      if !Validate(types, id, payload, config.c) {
        return false;
      }
      ValidateIff(types, id, payload, config.c);
      WalkIsMeaning(types, id, payload, config.c);
      var rest := Visit(types, id, payload);
      ok := rest.Some? && rest.value == [];
    }

    method Checkpoint() returns (m: Mark)
      ensures m == MarkOf(State())
    {
      m := Mark(|columns.numbers|, |columns.floats|, |columns.texts|, |columns.dictionary|, |columns.others|, |dictionary|);
    }

    /** Columns and dictionary as they were at the mark. */
    method Restore(m: Mark)
      requires Valid() && Beyond(State(), m)
      modifies this
      ensures Valid() && State() == Truncated(old(State()), m)
    {
      hide DictionaryOk, Indexes, Draining;
      ghost var before := State();
      var all := dictionary;
      var drained := all[m.entries..];
      columns := Columns(columns.numbers[..m.numbers], columns.floats[..m.floats], columns.texts[..m.texts],
                         columns.dictionary[..m.dictionary], columns.others[..m.others]);
      dictionary := all[..m.entries];
      DrainStarts(textIds, all, m.entries, config);
      for i := 0 to |drained|
        invariant Draining(textIds, all, m.entries, i)
        invariant dictionary == all[..m.entries] && columns == Truncated(before, m).columns
      {
        DrainStep(textIds, all, m.entries, i);
        textIds := textIds - {drained[i]};
      }
      DrainEnds(textIds, all, m.entries, config);
    }

    method Finish() returns (result: Columns)
      requires Valid()
      ensures result == Finished(State(), config)
    {
      hide DictionaryOk, Indexes;
      var column := columns.dictionary + Leb(2 * |dictionary| + if config.shared.Some? then 1 else 0);
      ghost var start := column;
      assert start + [] == start;
      for i := 0 to |dictionary|
        invariant column == start + Blobs(dictionary[..i])
      {
        assert dictionary[..i + 1][..i] == dictionary[..i];
        var blob := Leb(|dictionary[i]|) + dictionary[i];
        assert start + Blobs(dictionary[..i]) + blob == start + (Blobs(dictionary[..i]) + blob);
        column := column + blob;
      }
      assert dictionary[..|dictionary|] == dictionary;
      assert start + Blobs(dictionary) == columns.dictionary + (Leb(Descriptor(dictionary, config)) + Blobs(dictionary));
      result := columns.(dictionary := column);
    }

    /** The lengths of what `Finish` would return, without building it. */
    method EncodedLengths() returns (m: Mark)
      requires Valid()
      ensures var f := Finished(State(), config);
        m == Mark(|f.numbers|, |f.floats|, |f.texts|, |f.dictionary|, |f.others|, |dictionary|)
    {
      hide Indexes;
      LengthIsFormula(2 * |dictionary| + if config.shared.Some? then 1 else 0);
      var size := LenU64(2 * |dictionary| + if config.shared.Some? then 1 else 0);
      ghost var first := size;
      for i := 0 to |dictionary|
        invariant size == first + |Blobs(dictionary[..i])|
      {
        assert dictionary[..i + 1][..i] == dictionary[..i];
        LengthIsFormula(|dictionary[i]|);
        size := size + LenU64(|dictionary[i]|) + |dictionary[i]|;
      }
      assert dictionary[..|dictionary|] == dictionary;
      m := Mark(|columns.numbers|, |columns.floats|, |columns.texts|, size, |columns.others|, |dictionary|);
    }
  }

  /** The first `i` entries from the mark on are no longer indexed. */
  ghost predicate Draining(textIds: map<Chars, nat>, all: seq<Chars>, entries: nat, i: nat) {
    && (forall t :: t in textIds ==> textIds[t] < |all| && all[textIds[t]] == t && !(entries <= textIds[t] < entries + i))
    && forall j :: 0 <= j < |all| && !(entries <= j < entries + i) ==> all[j] in textIds && textIds[all[j]] == j
  }

  lemma {:induction false} DrainStarts(textIds: map<Chars, nat>, all: seq<Chars>, entries: nat, g: Config)
    requires entries <= |all| && Indexes(textIds, all)
    ensures Draining(textIds, all, entries, 0)
  {
  }

  lemma {:induction false} DrainStep(textIds: map<Chars, nat>, all: seq<Chars>, entries: nat, i: nat)
    requires entries + i < |all| && Draining(textIds, all, entries, i)
    ensures all[entries..][i] == all[entries + i] && Draining(textIds - {all[entries + i]}, all, entries, i + 1)
  {
  }

  lemma {:induction false} DrainEnds(textIds: map<Chars, nat>, all: seq<Chars>, entries: nat, g: Config)
    requires entries <= |all| && Draining(textIds, all, entries, |all| - entries) && DictionaryOk(all, g)
    ensures Indexes(textIds, all[..entries]) && DictionaryOk(all[..entries], g)
  {
  }

  // ---------------------------------------------------------------- the walk of the writer

  /** The tokens of a walk were put down, up to the first that was refused. */
  ghost predicate Visited(before: Store, w: Option<Walked>, g: Config, after: Store, rest: Option<seq<byte>>)
    requires w.Some?
  {
    After(before, w.value.tokens, g, after, rest.Some?) && (rest.Some? ==> rest.value == w.value.rest)
  }

  lemma {:induction false} VisitedMore(s0: Store, w: Option<Walked>, s1: Store, next: Option<Walked>, g: Config, s2: Store, rest: Option<seq<byte>>)
    requires w.Some? && next.Some? && Visited(s0, w, g, s1, Some(w.value.rest)) && Visited(s1, next, g, s2, rest)
    ensures Visited(s0, Then(w.value, next), g, s2, rest)
  {
    hide After;
    AfterMore(s0, w.value.tokens, s1, next.value.tokens, s2, g, rest.Some?);
  }

  lemma {:induction false} VisitedFailed(s0: Store, part: Option<Walked>, whole: Option<Walked>, g: Config, s1: Store)
    requires part.Some? && whole.Some? && part.value.tokens <= whole.value.tokens && Visited(s0, part, g, s1, None)
    ensures Visited(s0, whole, g, s1, None)
  {
    hide After;
    var n := |part.value.tokens|;
    assert whole.value.tokens == part.value.tokens + whole.value.tokens[n..];
    AfterFailed(s0, part.value.tokens, whole.value.tokens[n..], s1, g);
  }

  lemma {:induction false} NothingRun(row: seq<byte>, c: Context)
    ensures Run([], row, c) == Some(Walked([], row))
  {
  }

  lemma {:induction false} RunPrefix(program: seq<Primitive>, k: nat, row: seq<byte>, c: Context)
    requires k <= |program| && Run(program, row, c).Some?
    ensures Run(program[..k], row, c).Some? && Run(program[..k], row, c).value.tokens <= Run(program, row, c).value.tokens
    decreases |program|
  {
    hide ReadLeaf;
    if k == |program| {
      assert program[..k] == program;
    } else {
      var front := program[..|program| - 1];
      RunPrefix(front, k, row, c);
      assert front[..k] == program[..k];
    }
  }

  lemma {:induction false} FieldsPrefix(types: seq<Datatype>, bound: nat, fields: seq<Field>, k: nat, row: seq<byte>, c: Context)
    requires Proper(types) && k <= |fields| && forall i :: 0 <= i < |fields| ==> fields[i].datatype_ < bound
    requires WalkFields(types, bound, fields, row, c).Some?
    ensures WalkFields(types, bound, fields[..k], row, c).Some?
    ensures WalkFields(types, bound, fields[..k], row, c).value.tokens <= WalkFields(types, bound, fields, row, c).value.tokens
    decreases |fields|
  {
    hide Walk;
    if k == |fields| {
      assert fields[..k] == fields;
    } else {
      var front := fields[..|fields| - 1];
      FieldsPrefix(types, bound, front, k, row, c);
      assert front[..k] == fields[..k];
    }
  }

  lemma {:induction false} ManyPrefix(types: seq<Datatype>, id: nat, n: nat, k: nat, row: seq<byte>, c: Context)
    requires Proper(types) && k <= n && WalkMany(types, id, n, row, c).Some?
    ensures WalkMany(types, id, k, row, c).Some? && WalkMany(types, id, k, row, c).value.tokens <= WalkMany(types, id, n, row, c).value.tokens
    decreases n
  {
    hide Walk;
    if k < n {
      ManyPrefix(types, id, n - 1, k, row, c);
    }
  }

  lemma {:induction false} ProgramHasNoUnit(types: seq<Datatype>, id: nat)
    requires Proper(types) && Known(types, id) && types[id].scalars.Some?
    ensures Unit !in types[id].scalars.value
    decreases id, 1, 0
  {
    if types[id].kind.Scalar? {
      ScalarIs(types, id);
    } else {
      KindOf(types, id);
      ChildrenHaveNoUnit(types, id, Children(types[id].kind));
    }
  }

  lemma {:induction false} ChildrenHaveNoUnit(types: seq<Datatype>, bound: nat, children: seq<Child>)
    requires Proper(types) && bound <= |types| && AllKnown(types[..bound], children) && Program(types[..bound], children).Some?
    ensures Unit !in Program(types[..bound], children).value
    decreases bound, 0, |children|
  {
    hide Repeat;
    if children != [] {
      var last := children[|children| - 1];
      assert Known(types[..bound], last.id);
      ChildrenHaveNoUnit(types, bound, children[..|children| - 1]);
      ProgramHasNoUnit(types, last.id);
      RepeatOf(types[last.id].scalars.value, last.count, Unit);
    }
  }

  lemma {:induction false} RepeatOf(program: seq<Primitive>, n: nat, p: Primitive)
    requires p !in program
    ensures p !in Repeat(program, n)
  {
    if n > 0 {
      RepeatOf(program, n - 1, p);
    }
  }

  lemma {:induction false} LeafShaped(p: Primitive, row: seq<byte>, c: Context)
    requires ReadLeaf(p, row, c).Some?
    ensures Shaped(p, ReadLeaf(p, row, c).value.data) && !p.Enum?
  {
    if p.Text? || p.Bytes? {
      FourBytes(row);
    }
  }
}
