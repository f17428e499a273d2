/** Whole rows and lists of rows: read back exactly when no repeated element can be without bytes. */
module ArgumentRows {
  import opened Arithmetic
  import opened Options
  import opened Limbs
  import opened Words
  import opened Varint
  import opened Datatypes
  import opened DatatypeWalks
  import opened ArgumentColumns
  import opened ArgumentReading
  import opened ArgumentRoundTrip

  // ---------------------------------------------------------------- elements without bytes

  /** Values of this datatype have no bytes, but its size does not count as fixed. */
  predicate Hollow(d: Datatype) {
    d.minimum == 0 && d.fixed != Some(0)
  }

  /** A datatype whose reading does not check the number of hollow elements against the bytes left. */
  predicate SolidAt(types: seq<Datatype>, id: nat)
    requires id < |types|
  {
    match types[id].kind
    case Sequence(element) => element < |types| ==> !Hollow(types[element])
    case Array(element, count) => types[id].scalars.None? && count > 0 && element < |types| ==> !Hollow(types[element])
    case _ => true
  }

  ghost predicate Solid(types: seq<Datatype>) {
    forall id :: 0 <= id < |types| ==> SolidAt(types, id)
  }

  /** The parts that are read one by one: none of a value that is read as one run of scalars, or that is repeated no times. */
  function PartsAt(types: seq<Datatype>, id: nat): seq<Child>
    requires id < |types|
  {
    if types[id].scalars.Some? || (types[id].kind.Array? && types[id].kind.count == 0) then [] else Children(types[id].kind)
  }

  lemma {:induction false} PartsBefore(types: seq<Datatype>, id: nat)
    requires Proper(types) && Known(types, id)
    ensures forall i :: 0 <= i < |PartsAt(types, id)| ==> PartsAt(types, id)[i].id < id && Known(types, PartsAt(types, id)[i].id)
  {
    if !types[id].kind.Scalar? {
      KindOf(types, id);
    }
  }

  /** Solid in itself and in all its parts. */
  ghost predicate SolidFrom(types: seq<Datatype>, id: nat)
    requires Proper(types)
    decreases id
  {
    if !Known(types, id) then true else
      PartsBefore(types, id);
      SolidAt(types, id) && forall i :: 0 <= i < |PartsAt(types, id)| ==> SolidFrom(types, PartsAt(types, id)[i].id)
  }

  /** The datatype itself, or a part of a part. */
  ghost predicate PartOf(types: seq<Datatype>, part: nat, id: nat)
    requires Proper(types)
    decreases id
  {
    if part == id || !Known(types, id) then part == id else
      PartsBefore(types, id);
      exists i :: 0 <= i < |PartsAt(types, id)| && PartOf(types, part, PartsAt(types, id)[i].id)
  }

  lemma {:induction false} PartIsSolid(types: seq<Datatype>, part: nat, id: nat)
    requires Proper(types) && SolidFrom(types, id) && PartOf(types, part, id)
    ensures SolidFrom(types, part)
    decreases id
  {
    hide Proper, PartsAt, SolidAt;
    if part != id {
      PartsBefore(types, id);
      var i :| 0 <= i < |PartsAt(types, id)| && PartOf(types, part, PartsAt(types, id)[i].id);
      PartIsSolid(types, part, PartsAt(types, id)[i].id);
    }
  }

  lemma {:induction false} HollowPart(types: seq<Datatype>, id: nat) returns (part: nat)
    requires Proper(types) && !SolidFrom(types, id)
    ensures part < |types| && PartOf(types, part, id) && !SolidAt(types, part)
    decreases id
  {
    hide Proper, PartsAt, SolidAt;
    if SolidAt(types, id) {
      PartsBefore(types, id);
      var i :| 0 <= i < |PartsAt(types, id)| && !SolidFrom(types, PartsAt(types, id)[i].id);
      part := HollowPart(types, PartsAt(types, id)[i].id);
    } else {
      part := id;
    }
  }

  lemma {:induction false} SolidEverywhere(types: seq<Datatype>, id: nat)
    requires Proper(types) && Solid(types)
    ensures SolidFrom(types, id)
    decreases id
  {
    hide Proper, PartsAt, SolidAt;
    if Known(types, id) {
      PartsBefore(types, id);
      forall i | 0 <= i < |PartsAt(types, id)|
        ensures SolidFrom(types, PartsAt(types, id)[i].id)
      {
        SolidEverywhere(types, PartsAt(types, id)[i].id);
      }
    }
  }

  /** What solidity says of each kind. */
  lemma {:induction false} SolidParts(types: seq<Datatype>, id: nat)
    requires Proper(types) && Known(types, id) && SolidFrom(types, id) && types[id].scalars.None?
    ensures match types[id].kind
            case Struct(fields) => forall i :: 0 <= i < |fields| ==> SolidFrom(types, fields[i].datatype_)
            case Array(element, count) => count > 0 ==> element < |types| && !Hollow(types[element]) && SolidFrom(types, element)
            case Sequence(element) => element < |types| && !Hollow(types[element]) && SolidFrom(types, element)
            case _ => true
  {
    hide Proper;
    PartsBefore(types, id);
    var parts := PartsAt(types, id);
    match types[id].kind
    case Struct(fields) =>
      forall i | 0 <= i < |fields|
        ensures SolidFrom(types, fields[i].datatype_)
      {
        assert parts[i].id == fields[i].datatype_;
      }
    case Array(element, count) => assert count > 0 ==> parts[0].id == element;
    case Sequence(element) => assert parts[0].id == element;
    case _ =>
  }

  // ---------------------------------------------------------------- one row is read back

  lemma {:induction false} TypeBack(types: seq<Datatype>, id: nat, row: seq<byte>, d: seq<Chars>, more: Columns, length: nat, g: Config, r: Setting)
    requires Proper(types) && SolidFrom(types, id) && Walk(types, id, row, g.c).Some?
    requires Ready(d, Walk(types, id, row, g.c).value.tokens, length, g, r)
    ensures var ts := Walk(types, id, row, g.c).value.tokens;
      RowBack(ReadType(true, types, id, Start(d, ts, more, g), length, r), d, ts, more, length, g)
    decreases id, 2, 0
  {
    hide Run, ReadProgram, WalkFields, WalkElements, ReadFields, ReadElements, Ready, Start, RowBack, Proper, SolidFrom;
    if types[id].scalars.Some? {
      ProgramHasNoUnit(types, id);
      RunBack(types[id].scalars.value, row, d, more, length, g, r);
    } else {
      KindOf(types, id);
      SolidParts(types, id);
      match types[id].kind
      case Struct(fields) =>
        FieldsBefore(types, id, fields);
        FieldsBack(types, id, fields, row, d, more, length, g, r);
      case Array(element, count) =>
        ElementsBack(types, element, count, row, d, more, length, g, r);
      case Sequence(element) =>
        SequenceBack(types, id, element, row, d, more, length, g, r);
    }
  }

  lemma {:induction false} SequenceBack(types: seq<Datatype>, id: nat, element: nat, row: seq<byte>, d: seq<Chars>, more: Columns, length: nat,
                                        g: Config, r: Setting)
    requires Proper(types) && Known(types, id) && types[id].kind == Sequence(element) && types[id].scalars.None?
    requires element < id && Known(types, element) && !Hollow(types[element]) && SolidFrom(types, element)
    requires Walk(types, id, row, g.c).Some? && Ready(d, Walk(types, id, row, g.c).value.tokens, length, g, r)
    ensures var ts := Walk(types, id, row, g.c).value.tokens;
      RowBack(ReadType(true, types, id, Start(d, ts, more, g), length, r), d, ts, more, length, g)
    decreases id, 1, 0
  {
    hide WalkElements, ReadElements, Ready, Start, RowBack, Proper, SolidFrom, ReadCount, Limbs.Bytes;
    FourBytes(row);
    var n: u32 := Word(row[..4]);
    var w := WalkElements(types, element, n, row[4..], g.c).value;
    SplitReady(d, [Count(n)], w.tokens, more, length, g, r);
    CountBack(n, d, Later(d, [Count(n)], w.tokens, more, g), length, g, r);
    var d' := PutAll(d, [Count(n)], g).dictionary;
    var length' := length + |AllBytes([Count(n)])|;
    ElementsBack(types, element, n, row[4..], d', more, length', g, r);
    var o := ReadCount(true, Start(d, [Count(n)] + w.tokens, more, g), length, r).value.1;
    JoinBack(Some(o), ReadElements(true, types, element, n, Start(d', w.tokens, more, g), length', r),
             d, [Count(n)], w.tokens, more, length, g, r);
  }

  lemma {:induction false} CountBack(n: u32, d: seq<Chars>, more: Columns, length: nat, g: Config, r: Setting)
    requires Ready(d, [Count(n)], length, g, r)
    ensures var o := ReadCount(true, Start(d, [Count(n)], more, g), length, r);
      o.Some? && o.value.0 == n && RowBack(Some(o.value.1), d, [Count(n)], more, length, g)
  {
    hide Leb, Unleb, ReadVar, Plus, PutAll, AllBytes, Limbs.Bytes, Agrees, DictionaryOk;
    PutsOne(d, Count(n), g);
    BytesOfOne(Count(n));
    PlusOne(Leb(n), more);
    VarReads(n, more.numbers);
  }

  lemma {:induction false} FieldsBack(types: seq<Datatype>, bound: nat, fields: seq<Field>, row: seq<byte>, d: seq<Chars>, more: Columns,
                                      length: nat, g: Config, r: Setting)
    requires Proper(types) && forall i :: 0 <= i < |fields| ==> fields[i].datatype_ < bound && SolidFrom(types, fields[i].datatype_)
    requires WalkFields(types, bound, fields, row, g.c).Some?
    requires Ready(d, WalkFields(types, bound, fields, row, g.c).value.tokens, length, g, r)
    ensures var ts := WalkFields(types, bound, fields, row, g.c).value.tokens;
      RowBack(ReadFields(true, types, bound, fields, Start(d, ts, more, g), length, r), d, ts, more, length, g)
    decreases bound, 1, |fields|
  {
    hide Walk, ReadType, Ready, Start, RowBack, Proper, SolidFrom, PutAll, AllBytes, Plus;
    if fields == [] {
      NothingBack(d, more, length, g);
    } else {
      var front, id := fields[..|fields| - 1], fields[|fields| - 1].datatype_;
      var w := WalkFields(types, bound, front, row, g.c).value;
      var b := Walk(types, id, w.rest, g.c).value.tokens;
      SplitReady(d, w.tokens, b, more, length, g, r);
      FieldsBack(types, bound, front, row, d, Later(d, w.tokens, b, more, g), length, g, r);
      TypeBack(types, id, w.rest, PutAll(d, w.tokens, g).dictionary, more, length + |AllBytes(w.tokens)|, g, r);
      var o := ReadFields(true, types, bound, front, Start(d, w.tokens + b, more, g), length, r);
      JoinBack(o, ReadType(true, types, id, Start(PutAll(d, w.tokens, g).dictionary, b, more, g), length + |AllBytes(w.tokens)|, r),
               d, w.tokens, b, more, length, g, r);
    }
  }

  lemma {:induction false} ManyBack(types: seq<Datatype>, id: nat, n: nat, row: seq<byte>, d: seq<Chars>, more: Columns, length: nat,
                                    g: Config, r: Setting)
    requires Proper(types) && (n > 0 ==> SolidFrom(types, id)) && WalkMany(types, id, n, row, g.c).Some?
    requires Ready(d, WalkMany(types, id, n, row, g.c).value.tokens, length, g, r)
    ensures var ts := WalkMany(types, id, n, row, g.c).value.tokens;
      RowBack(ReadMany(true, types, id, n, Start(d, ts, more, g), length, r), d, ts, more, length, g)
    decreases id, 3, n
  {
    hide Walk, ReadType, Ready, Start, RowBack, Proper, SolidFrom, PutAll, AllBytes, Plus;
    if n == 0 {
      NothingBack(d, more, length, g);
    } else {
      var w := WalkMany(types, id, n - 1, row, g.c).value;
      var b := Walk(types, id, w.rest, g.c).value.tokens;
      SplitReady(d, w.tokens, b, more, length, g, r);
      ManyBack(types, id, n - 1, row, d, Later(d, w.tokens, b, more, g), length, g, r);
      TypeBack(types, id, w.rest, PutAll(d, w.tokens, g).dictionary, more, length + |AllBytes(w.tokens)|, g, r);
      var o := ReadMany(true, types, id, n - 1, Start(d, w.tokens + b, more, g), length, r);
      JoinBack(o, ReadType(true, types, id, Start(PutAll(d, w.tokens, g).dictionary, b, more, g), length + |AllBytes(w.tokens)|, r),
               d, w.tokens, b, more, length, g, r);
    }
  }

  /** The guards of an array let everything through that was written, unless its elements are hollow. */
  lemma {:induction false} ElementsBack(types: seq<Datatype>, id: nat, n: nat, row: seq<byte>, d: seq<Chars>, more: Columns, length: nat,
                                        g: Config, r: Setting)
    requires Proper(types) && Known(types, id) && (n > 0 ==> !Hollow(types[id]) && SolidFrom(types, id))
    requires WalkElements(types, id, n, row, g.c).Some? && Ready(d, WalkElements(types, id, n, row, g.c).value.tokens, length, g, r)
    ensures var ts := WalkElements(types, id, n, row, g.c).value.tokens;
      RowBack(ReadElements(true, types, id, n, Start(d, ts, more, g), length, r), d, ts, more, length, g)
    decreases id, 4, n
  {
    hide WalkMany, ReadMany, RowBack, Proper, SolidFrom, AllBytes, PutAll, Agrees, DictionaryOk, Plus;
    var ts := WalkElements(types, id, n, row, g.c).value.tokens;
    if types[id].fixed == Some(0) {
      NothingBack(d, more, length, g);
    } else {
      ManyWalk(types, id, n, row, g.c);
      ManySized(types, id, n, row, g.c);
      ManyTokens(types, id, n, row, g.c);
      PutsHaveBytes(d, ts, g);
      SizeAdds(PutAll(d, ts, g).columns, more);
      RoomFor(n, types[id].minimum, r.limit - length);
      ManyBack(types, id, n, row, d, more, length, g, r);
    }
  }

  lemma {:induction false} RoomFor(n: nat, size: nat, room: int)
    requires size * n <= room
    ensures size != 0 ==> n <= room / size
  {
    if size != 0 {
      Scaled(n - room / size, size);
      assert (n - room / size) * size == n * size - room / size * size;
    }
  }

  /** The payload is accepted and put down, and is not read back. */
  ghost predicate Lost(types: seq<Datatype>, id: nat, payload: seq<byte>, g: Config, r: Setting)
    requires Proper(types)
  {
    && Validate(types, id, payload, g.c) && Meaning(types, id, payload, g.c).Some?
    && var puts := PutAll([], Meaning(types, id, payload, g.c).value.tokens, g);
       puts.ok && ReadType(true, types, id, Place(puts.columns, 0), 0, r).None?
  }

  lemma {:induction false} LostCount(types: seq<Datatype>, id: nat, element: nat, g: Config, r: Setting)
    requires Proper(types) && Known(types, id) && types[id].kind == Sequence(element)
    requires element < id && Known(types, element) && Hollow(types[element])
    ensures Lost(types, id, Limbs.Bytes(1, 4), g, r)
  {
    hide Leb, Unleb, ReadVar, Plus, PutAll, Proper, Validate, Le, Limbs.Bytes;
    var payload := Limbs.Bytes(1, 4);
    assert payload[..4] == payload && payload[4..] == [];
    LeOfBytes(1, 4);
    PowFour();
    DivModIs(1, Pow(4), 0, 1);
    NoneOfMany(types, element, 1, [], g.c);
    var none: seq<Token> := [];
    assert [Count(1)] + none == [Count(1)];
    ValidateIff(types, id, payload, g.c);
    PutsOne([], Count(1), g);
    VarReads(1, []);
    assert Leb(1) + [] == Leb(1);
    LaidSequence(types, id);
    assert Word(payload[..4]) == 1;
    assert MeaningMany(types, element, 1, payload[4..], g.c) == Some(Walked([], []));
    assert Meaning(types, id, payload, g.c) == Some(Walked([Count(1)], []));
    assert Validate(types, id, payload, g.c);
    assert PutAll([], [Count(1)], g).columns == Numbers(Leb(1));
    assert ReadType(true, types, id, Place(Numbers(Leb(1)), 0), 0, r).None?;
  }

  lemma {:induction false} LaidSequence(types: seq<Datatype>, id: nat)
    requires Proper(types) && Known(types, id) && types[id].kind.Sequence?
    ensures types[id].scalars.None?
  {
    KindOf(types, id);
  }

  lemma {:induction false} LostArray(types: seq<Datatype>, id: nat, element: nat, count: u32, g: Config, r: Setting)
    requires Proper(types) && Known(types, id) && types[id].kind == Array(element, count) && types[id].scalars.None? && count > 0
    requires element < id && Known(types, element) && Hollow(types[element])
    ensures Lost(types, id, [], g, r)
  {
    hide Proper, Validate, MeaningMany, MeaningAll;
    OneOfAll(types, id, Child(element, count), [], g.c);
    NoneOfMany(types, element, count, [], g.c);
    ValidateIff(types, id, [], g.c);
    assert Meaning(types, id, [], g.c) == Some(Walked([], []));
    assert Validate(types, id, [], g.c);
    assert PutAll([], [], g).columns == NO_COLUMNS;
    assert ReadElements(true, types, element, count, Place(NO_COLUMNS, 0), 0, r).None?;
    assert ReadType(true, types, id, Place(NO_COLUMNS, 0), 0, r).None?;
  }

  // ---------------------------------------------------------------- the dictionary column

  /** Texts one after the other, without repetition. */
  function ReadTexts(s: seq<byte>, n: nat, c: Context): Option<(seq<Chars>, seq<byte>)> {
    if n == 0 then Some(([], s)) else
      match ReadTexts(s, n - 1, c)
      case None => None
      case Some((texts, rest)) =>
        match ReadVar(rest)
        case None => None
        case Some((size, rest)) =>
          match Cut(rest, size)
          case None => None
          case Some(t) => if !c.utf8(t.data) || t.data in texts then None else Some((texts + [t.data], t.rest))
  }

  /** `ArgumentReader::new`. */
  function Opened(columns: Columns, c: Context, limit: nat, sharedTexts: seq<Chars>): Option<(Setting, Place)> {
    match ReadVar(columns.dictionary)
    case None => None
    case Some((descriptor, rest)) =>
      if (descriptor % 2 == 1 && sharedTexts == []) || descriptor / 2 > |rest| then None else
        match ReadTexts(rest, descriptor / 2, c)
        case None => None
        case Some((texts, left)) =>
          if left != [] then None
          else Some((Setting(c, texts, descriptor % 2 == 1, sharedTexts, if limit < 0xFFFF_FFFF then limit else 0xFFFF_FFFF),
                     Place(columns.(dictionary := []), 0)))
  }

  lemma {:induction false} TextsBack(dictionary: seq<Chars>, rest: seq<byte>, g: Config)
    requires DictionaryOk(dictionary, g)
    ensures ReadTexts(Blobs(dictionary) + rest, |dictionary|, g.c) == Some((dictionary, rest)) && |Blobs(dictionary)| >= |dictionary|
  {
    hide Leb, Unleb, ReadVar, Blobs, ReadTexts;
    if dictionary == [] {
      NoTexts(rest, g.c);
    } else {
      var n := |dictionary| - 1;
      var front, text := dictionary[..n], dictionary[n];
      TextsBack(front, Leb(|text|) + text + rest, g);
      MoreBlobs(dictionary, rest);
      OneText(Blobs(dictionary) + rest, n, front, text, rest, g.c);
      assert dictionary == front + [text];
    }
  }

  lemma {:induction false} NoTexts(rest: seq<byte>, c: Context)
    ensures Blobs([]) + rest == rest && Blobs([]) == [] && ReadTexts(rest, 0, c) == Some(([], rest))
  {
  }

  lemma {:induction false} MoreBlobs(dictionary: seq<Chars>, rest: seq<byte>)
    requires dictionary != []
    ensures var front, text := dictionary[..|dictionary| - 1], dictionary[|dictionary| - 1];
      Blobs(dictionary) + rest == Blobs(front) + (Leb(|text|) + text + rest) && |Blobs(dictionary)| > |Blobs(front)|
  {
    hide Leb;
    var front, text := dictionary[..|dictionary| - 1], dictionary[|dictionary| - 1];
    assert Blobs(front) + (Leb(|text|) + text) + rest == Blobs(front) + (Leb(|text|) + text + rest);
    assert |Leb(|text|)| > 0;
  }

  lemma {:induction false} OneText(s: seq<byte>, n: nat, front: seq<Chars>, text: Chars, rest: seq<byte>, c: Context)
    requires ReadTexts(s, n, c) == Some((front, Leb(|text|) + text + rest)) && c.utf8(text) && text !in front
    requires |text| < 0x1_0000_0000
    ensures ReadTexts(s, n + 1, c) == Some((front + [text], rest))
  {
    hide Leb, Unleb, ReadVar;
    assert Leb(|text|) + text + rest == Leb(|text|) + (text + rest);
    VarReads(|text|, text + rest);
    CutBack(text, rest);
  }

  /** A finished writer's columns open with its dictionary. */
  lemma {:induction false} FinishedOpens(s: Store, g: Config, limit: nat, sharedTexts: seq<Chars>)
    requires DictionaryOk(s.dictionary, g) && s.columns.dictionary == [] && (g.shared.Some? ==> sharedTexts != [])
    ensures Opened(Finished(s, g), g.c, limit, sharedTexts) ==
            Some((Setting(g.c, s.dictionary, g.shared.Some?, sharedTexts, if limit < 0xFFFF_FFFF then limit else 0xFFFF_FFFF),
                  Place(s.columns, 0)))
  {
    hide Leb, Unleb, ReadVar, ReadTexts, Blobs, DictionaryOk;
    TextsBack(s.dictionary, [], g);
    assert Blobs(s.dictionary) + [] == Blobs(s.dictionary);
    assert [] + (Leb(Descriptor(s.dictionary, g)) + Blobs(s.dictionary)) == Leb(Descriptor(s.dictionary, g)) + Blobs(s.dictionary);
    DescriptorFits(s.dictionary, g);
    VarReads(Descriptor(s.dictionary, g), Blobs(s.dictionary));
  }

  lemma {:induction false} DescriptorFits(dictionary: seq<Chars>, g: Config)
    requires DictionaryOk(dictionary, g)
    ensures Descriptor(dictionary, g) < 0x1_0000_0000_0000_0000
    ensures Descriptor(dictionary, g) / 2 == |dictionary| && (Descriptor(dictionary, g) % 2 == 1 <==> g.shared.Some?)
  {
  }

  // ---------------------------------------------------------------- many rows

  datatype Row = Row(id: nat, payload: seq<byte>)

  ghost predicate RowsOk(types: seq<Datatype>, rows: seq<Row>, c: Context)
    requires Proper(types)
  {
    forall i :: 0 <= i < |rows| ==> Validate(types, rows[i].id, rows[i].payload, c) && Meaning(types, rows[i].id, rows[i].payload, c).Some?
  }

  ghost predicate AllSolid(types: seq<Datatype>, rows: seq<Row>)
    requires Proper(types)
  {
    forall i :: 0 <= i < |rows| ==> SolidFrom(types, rows[i].id)
  }

  /** What appending the rows one after the other puts down. */
  ghost function TokensOf(types: seq<Datatype>, rows: seq<Row>, c: Context): seq<Token>
    requires Proper(types) && RowsOk(types, rows, c)
  {
    if rows == [] then [] else
      TokensOf(types, rows[..|rows| - 1], c) + Meaning(types, rows[|rows| - 1].id, rows[|rows| - 1].payload, c).value.tokens
  }

  function ReadRows(types: seq<Datatype>, rows: seq<Row>, place: Place, r: Setting): Option<(seq<seq<byte>>, Place)>
    requires Proper(types)
  {
    if rows == [] then Some(([], place)) else
      match ReadRows(types, rows[..|rows| - 1], place, r)
      case None => None
      case Some((payloads, place)) =>
        match ReadType(true, types, rows[|rows| - 1].id, place, 0, r)
        case None => None
        case Some(o) => Some((payloads + [o.bytes], o.place))
  }

  function Payloads(rows: seq<Row>): seq<seq<byte>> {
    seq(|rows|, i requires 0 <= i < |rows| => rows[i].payload)
  }

  ghost predicate Within(rows: seq<Row>, limit: nat) {
    forall i :: 0 <= i < |rows| ==> |rows[i].payload| <= limit
  }

  lemma {:induction false} RowsBack(types: seq<Datatype>, rows: seq<Row>, more: Columns, g: Config, r: Setting)
    requires Proper(types) && AllSolid(types, rows) && RowsOk(types, rows, g.c) && Within(rows, r.limit) && Agrees(g, r)
    requires var puts := PutAll([], TokensOf(types, rows, g.c), g); puts.ok && puts.dictionary <= r.dictionary
    ensures var puts := PutAll([], TokensOf(types, rows, g.c), g);
      ReadRows(types, rows, Place(Plus(puts.columns, more), 0), r) == Some((Payloads(rows), Place(more, |puts.dictionary|)))
  {
    hide Meaning, Walk, ReadType, Proper, SolidFrom, Validate, Plus, AllBytes, Agrees, PutAll, DictionaryOk, TokensOf, ReadRows, RowsOk;
    if rows == [] {
      NoRows(types, rows, more, g, r);
    } else {
      var front, last := rows[..|rows| - 1], rows[|rows| - 1];
      RowsSnoc(types, rows, g.c);
      var a, b := TokensOf(types, front, g.c), Meaning(types, last.id, last.payload, g.c).value.tokens;
      var first := PutAll([], a, g);
      PutsAdd([], a, b, g);
      EmptyDictionary(g);
      DictionariesGrow([], a, g);
      DictionariesGrow(first.dictionary, b, g);
      var second := PutAll(first.dictionary, b, g);
      PlusAssociates(first.columns, second.columns, more);
      RowsBack(types, front, Plus(second.columns, more), g, r);
      RowBackOf(types, last, first.dictionary, more, g, r);
      ReadRowsSnoc(types, rows, Place(Plus(first.columns, Plus(second.columns, more)), 0), r);
      assert Payloads(rows) == Payloads(front) + [last.payload];
    }
  }

  lemma {:induction false} NoRows(types: seq<Datatype>, rows: seq<Row>, more: Columns, g: Config, r: Setting)
    requires Proper(types) && rows == [] && RowsOk(types, rows, g.c)
    ensures var puts := PutAll([], TokensOf(types, rows, g.c), g);
      ReadRows(types, rows, Place(Plus(puts.columns, more), 0), r) == Some((Payloads(rows), Place(more, |puts.dictionary|)))
  {
    hide Proper, Plus;
    PlusNothing(more);
    assert TokensOf(types, rows, g.c) == [];
    assert Payloads(rows) == [];
  }

  lemma {:induction false} RowsSnoc(types: seq<Datatype>, rows: seq<Row>, c: Context)
    requires Proper(types) && rows != [] && RowsOk(types, rows, c)
    ensures var front, last := rows[..|rows| - 1], rows[|rows| - 1];
      && RowsOk(types, front, c) && Validate(types, last.id, last.payload, c) && Meaning(types, last.id, last.payload, c).Some?
      && TokensOf(types, rows, c) == TokensOf(types, front, c) + Meaning(types, last.id, last.payload, c).value.tokens
  {
    hide Proper, Validate, Meaning;
  }

  lemma {:induction false} ReadRowsSnoc(types: seq<Datatype>, rows: seq<Row>, place: Place, r: Setting)
    requires Proper(types) && rows != []
    ensures ReadRows(types, rows, place, r) ==
            match ReadRows(types, rows[..|rows| - 1], place, r)
            case None => None
            case Some((payloads, next)) =>
              match ReadType(true, types, rows[|rows| - 1].id, next, 0, r)
              case None => None
              case Some(o) => Some((payloads + [o.bytes], o.place))
  {
    hide Proper, ReadType;
  }

  lemma {:induction false} EmptyDictionary(g: Config)
    ensures DictionaryOk([], g)
  {
  }

  /** One validated row, in front of anything, comes back as its payload. */
  lemma {:induction false} RowBackOf(types: seq<Datatype>, row: Row, d: seq<Chars>, more: Columns, g: Config, r: Setting)
    requires Proper(types) && SolidFrom(types, row.id) && Validate(types, row.id, row.payload, g.c) && Meaning(types, row.id, row.payload, g.c).Some?
    requires DictionaryOk(d, g) && Agrees(g, r) && |row.payload| <= r.limit
    requires var puts := PutAll(d, Meaning(types, row.id, row.payload, g.c).value.tokens, g); puts.ok && puts.dictionary <= r.dictionary
    ensures var puts := PutAll(d, Meaning(types, row.id, row.payload, g.c).value.tokens, g);
      ReadType(true, types, row.id, Place(Plus(puts.columns, more), |d|), 0, r)
        == Some(Out(Place(more, |puts.dictionary|), row.payload, |row.payload|))
  {
    hide Meaning, Walk, ReadType, Proper, SolidFrom, Validate, Plus, AllBytes, Agrees, DictionaryOk, PutAll;
    ValidateIff(types, row.id, row.payload, g.c);
    WalkIsMeaning(types, row.id, row.payload, g.c);
    SizesHold(types, row.id, row.payload, g.c);
    var ts := Meaning(types, row.id, row.payload, g.c).value.tokens;
    assert AllBytes(ts) + [] == AllBytes(ts);
    TypeBack(types, row.id, row.payload, d, more, 0, g, r);
  }

  lemma {:induction false} NoDictionaryBytes(d: seq<Chars>, ts: seq<Token>, g: Config)
    ensures PutAll(d, ts, g).columns.dictionary == []
  {
    hide Leb, IndexOf, SignedWord, Word, Shaped;
    if ts != [] {
      NoDictionaryBytes(d, ts[..|ts| - 1], g);
    }
  }

  /** Rows appended to a new writer are read back by the reader of its columns, and nothing is left over. */
  lemma {:induction false} RowsReadBack(types: seq<Datatype>, rows: seq<Row>, g: Config, limit: nat, sharedTexts: seq<Chars>)
    requires Proper(types) && AllSolid(types, rows) && RowsOk(types, rows, g.c) && PutAll([], TokensOf(types, rows, g.c), g).ok
    requires Within(rows, limit) && (g.shared.Some? ==> sharedTexts != [])
    requires g.shared.Some? ==> forall t :: t in g.shared.value ==>
               g.shared.value[t] < |sharedTexts| && sharedTexts[g.shared.value[t]] == t
    ensures var puts := PutAll([], TokensOf(types, rows, g.c), g);
      var reader := Opened(Finished(Store(puts.columns, puts.dictionary), g), g.c, limit, sharedTexts);
      && reader.Some?
      && var (r, start) := reader.value;
         ReadRows(types, rows, start, r) == Some((Payloads(rows), Place(NO_COLUMNS, |r.dictionary|)))
  {
    hide PutAll, TokensOf, ReadRows, Proper, SolidFrom, Validate, DictionaryOk, Opened, Finished;
    var puts := PutAll([], TokensOf(types, rows, g.c), g);
    EmptyDictionary(g);
    DictionariesGrow([], TokensOf(types, rows, g.c), g);
    NoDictionaryBytes([], TokensOf(types, rows, g.c), g);
    FinishedOpens(Store(puts.columns, puts.dictionary), g, limit, sharedTexts);
    var r := Setting(g.c, puts.dictionary, g.shared.Some?, sharedTexts, if limit < 0xFFFF_FFFF then limit else 0xFFFF_FFFF);
    RowsAreShort(types, rows, g.c, limit);
    RowsBack(types, rows, NO_COLUMNS, g, r);
    PlusNothing(puts.columns);
  }

  lemma {:induction false} RowsAreShort(types: seq<Datatype>, rows: seq<Row>, c: Context, limit: nat)
    requires Proper(types) && RowsOk(types, rows, c) && Within(rows, limit)
    ensures Within(rows, if limit < 0xFFFF_FFFF then limit else 0xFFFF_FFFF)
  {
    hide Proper, Meaning, Walk;
  }

  // ---------------------------------------------------------------- exactly which tables

  ghost predicate SameTexts(g: Config, sharedTexts: seq<Chars>) {
    g.shared.Some? ==> sharedTexts != [] && forall t :: t in g.shared.value ==>
                         g.shared.value[t] < |sharedTexts| && sharedTexts[g.shared.value[t]] == t
  }

  /** Rows that can be appended to a new writer and are not too long. */
  ghost predicate Appendable(types: seq<Datatype>, rows: seq<Row>, g: Config, limit: nat)
    requires Proper(types)
  {
    RowsOk(types, rows, g.c) && PutAll([], TokensOf(types, rows, g.c), g).ok && Within(rows, limit)
  }

  ghost predicate ComesBack(types: seq<Datatype>, rows: seq<Row>, g: Config, limit: nat, sharedTexts: seq<Chars>)
    requires Proper(types) && RowsOk(types, rows, g.c)
  {
    var puts := PutAll([], TokensOf(types, rows, g.c), g);
    var reader := Opened(Finished(Store(puts.columns, puts.dictionary), g), g.c, limit, sharedTexts);
    && reader.Some?
    && var (r, start) := reader.value;
       ReadRows(types, rows, start, r) == Some((Payloads(rows), Place(NO_COLUMNS, |r.dictionary|)))
  }

  ghost predicate RowsOfParts(types: seq<Datatype>, rows: seq<Row>, id: nat)
    requires Proper(types)
  {
    forall i :: 0 <= i < |rows| ==> PartOf(types, rows[i].id, id)
  }

  /** Every list of rows of a datatype and its parts comes back if and only if it is solid, whatever else is in the table. */
  lemma {:induction false} PartsComeBackIffSolid(types: seq<Datatype>, id: nat, g: Config, limit: nat, sharedTexts: seq<Chars>)
    requires Proper(types) && limit >= 4 && SameTexts(g, sharedTexts)
    ensures SolidFrom(types, id) <==>
            forall rows: seq<Row> :: RowsOfParts(types, rows, id) && Appendable(types, rows, g, limit) ==> ComesBack(types, rows, g, limit, sharedTexts)
  {
    hide Proper, TokensOf, PutAll, Validate, Meaning, ComesBack, SolidAt, SolidFrom, PartOf;
    if SolidFrom(types, id) {
      forall rows: seq<Row> | RowsOfParts(types, rows, id) && Appendable(types, rows, g, limit)
        ensures ComesBack(types, rows, g, limit, sharedTexts)
      {
        forall i | 0 <= i < |rows|
          ensures SolidFrom(types, rows[i].id)
        {
          PartIsSolid(types, rows[i].id, id);
        }
        SolidComesBack(types, rows, g, limit, sharedTexts);
      }
    } else {
      var part := HollowPart(types, id);
      var rows := LostRows(types, part, g, limit, sharedTexts);
      assert RowsOfParts(types, rows, id);
    }
  }

  /** Every list of rows comes back if and only if the table is solid. */
  lemma {:induction false} ComesBackIffSolid(types: seq<Datatype>, g: Config, limit: nat, sharedTexts: seq<Chars>)
    requires Proper(types) && limit >= 4 && SameTexts(g, sharedTexts)
    ensures Solid(types) <==>
            forall rows: seq<Row> :: Appendable(types, rows, g, limit) ==> ComesBack(types, rows, g, limit, sharedTexts)
  {
    hide Proper, TokensOf, PutAll, Validate, Meaning, ComesBack, SolidAt, SolidFrom;
    if Solid(types) {
      forall rows: seq<Row> | Appendable(types, rows, g, limit)
        ensures ComesBack(types, rows, g, limit, sharedTexts)
      {
        forall i | 0 <= i < |rows|
          ensures SolidFrom(types, rows[i].id)
        {
          SolidEverywhere(types, rows[i].id);
        }
        SolidComesBack(types, rows, g, limit, sharedTexts);
      }
    } else {
      var id: nat :| id < |types| && !SolidAt(types, id);
      var rows := LostRows(types, id, g, limit, sharedTexts);
    }
  }

  lemma {:induction false} SolidComesBack(types: seq<Datatype>, rows: seq<Row>, g: Config, limit: nat, sharedTexts: seq<Chars>)
    requires Proper(types) && AllSolid(types, rows) && Appendable(types, rows, g, limit) && SameTexts(g, sharedTexts)
    ensures ComesBack(types, rows, g, limit, sharedTexts)
  {
    hide Proper, AllSolid, PutAll, TokensOf, ReadRows, Validate, Opened, Finished;
    RowsReadBack(types, rows, g, limit, sharedTexts);
  }

  lemma {:induction false} LostRows(types: seq<Datatype>, id: nat, g: Config, limit: nat, sharedTexts: seq<Chars>) returns (rows: seq<Row>)
    requires Proper(types) && id < |types| && !SolidAt(types, id) && limit >= 4 && SameTexts(g, sharedTexts)
    ensures |rows| == 1 && rows[0].id == id && Appendable(types, rows, g, limit) && !ComesBack(types, rows, g, limit, sharedTexts)
  {
    hide Proper, Validate, Meaning, PutAll, ReadType, Walk, Opened, Finished;
    EnumIsSolid(types, id);
    var r0 := Setting(g.c, [], g.shared.Some?, sharedTexts, if limit < 0xFFFF_FFFF then limit else 0xFFFF_FFFF);
    var payload := HollowPayload(types, id);
    var ts := HollowTokens(types, id, payload, g, r0);
    rows := [Row(id, payload)];
    assert rows[..0] == [] && TokensOf(types, rows[..0], g.c) == [];
    assert [] + ts == ts;
    assert TokensOf(types, rows, g.c) == ts;
    EmptyDictionary(g);
    DictionariesGrow([], ts, g);
    NoDictionaryBytes([], ts, g);
    var puts := PutAll([], ts, g);
    FinishedOpens(Store(puts.columns, puts.dictionary), g, limit, sharedTexts);
    var r := Opened(Finished(Store(puts.columns, puts.dictionary), g), g.c, limit, sharedTexts).value.0;
    var again := HollowTokens(types, id, payload, g, r);
    assert ReadRows(types, rows[..0], Place(puts.columns, 0), r) == Some(([], Place(puts.columns, 0)));
  }

  function HollowPayload(types: seq<Datatype>, id: nat): (payload: seq<byte>)
    requires id < |types|
    ensures |payload| <= 4
  {
    if types[id].kind.Sequence? then Limbs.Bytes(1, 4) else []
  }

  lemma {:induction false} EnumIsSolid(types: seq<Datatype>, id: nat)
    requires Proper(types) && id < |types| && !SolidAt(types, id)
    ensures Known(types, id)
  {
  }

  lemma {:induction false} HollowTokens(types: seq<Datatype>, id: nat, payload: seq<byte>, g: Config, r: Setting) returns (ts: seq<Token>)
    requires Proper(types) && Known(types, id) && !SolidAt(types, id) && payload == HollowPayload(types, id)
    ensures Lost(types, id, payload, g, r) && ts == Meaning(types, id, payload, g.c).value.tokens
  {
    hide Proper, Lost, Meaning;
    match types[id].kind
    case Sequence(element) =>
      KindOf(types, id);
      LostCount(types, id, element, g, r);
      LostMeans(types, id, payload, g, r);
      ts := Meaning(types, id, payload, g.c).value.tokens;
    case Array(element, count) =>
      KindOf(types, id);
      LostArray(types, id, element, count, g, r);
      LostMeans(types, id, payload, g, r);
      ts := Meaning(types, id, payload, g.c).value.tokens;
  }

  lemma {:induction false} LostMeans(types: seq<Datatype>, id: nat, payload: seq<byte>, g: Config, r: Setting)
    requires Proper(types) && Lost(types, id, payload, g, r)
    ensures Meaning(types, id, payload, g.c).Some?
  {
  }
}
