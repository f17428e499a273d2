/** Reading rows of attributes from their columns. */
module AttributeRows {
  import opened Options
  import opened Varint
  import opened AttributeValues
  import opened AttributeRoundTrip
  import opened AttributeColumns

  // ---------------------------------------------------------------- what a row reads as

  datatype Pair = Pair(attribute: Attribute, rest: Columns, budget: nat)

  /** One attribute: its key, its tag, and its payload from the column for values of its kind. */
  function ReadPair(retain: bool, cols: Columns, seen: set<nat>, c: Context, budget: nat): Option<Pair> {
    match ReadId(cols[1], c)
    case None => None
    case Some((key, keys)) =>
      if key in seen || cols[2] == [] then None else
        var tag, left := cols[2][0], cols[1 := keys][2 := cols[2][1..]];
        if tag == 19 then
          match ReadSigned(left[3])
          case None => None
          case Some((v, numbers)) =>
            match ReadId(left[5], c)
            case None => None
            case Some((name, strings)) => Some(Pair(Attribute(key, Enum(v, name)), left[3 := numbers][5 := strings], budget))
        else
          match ReadPayload(retain, tag, left[ValueColumn(tag)], c, 0, budget)
          case None => None
          case Some(Read(v, rest, b)) => Some(Pair(Attribute(key, v), left[ValueColumn(tag) := rest], b))
  }

  datatype Row = Row(attributes: seq<Attribute>, rest: Columns)

  function ReadRest(retain: bool, cols: Columns, count: nat, seen: set<nat>, c: Context, budget: nat): Option<Row>
    decreases count
  {
    if count == 0 then Some(Row([], cols)) else
      match ReadPair(retain, cols, seen, c, budget)
      case None => None
      case Some(Pair(a, rest, left)) =>
        match ReadRest(retain, rest, count - 1, seen + {a.key}, c, left)
        case None => None
        case Some(Row(attributes, rest)) => Some(Row(if retain then [a] + attributes else [], rest))
  }

  function ReadRow(retain: bool, cols: Columns, c: Context, budget: nat): Option<Row> {
    match ReadVar(cols[0])
    case None => None
    case Some((count, counts)) =>
      if count > |cols[2]| || count * c.attributeSize > budget then None
      else ReadRest(retain, cols[0 := counts], count, {}, c, budget - count * c.attributeSize)
  }

  // ---------------------------------------------------------------- what is written is read

  lemma {:induction false} PairReadsBack(a: Attribute, rest: Columns, seen: set<nat>, c: Context, budget: nat)
    requires a.key < U32_LIMIT && a.key < c.strings && a.key !in seen && Typed(a.value, c)
    requires EncodePayload(a.value, c, 0).Some? && budget >= Charge(a.value, c)
    ensures ReadPair(true, Plus(PairColumns(a, c), rest), seen, c, budget) == Some(Pair(a, rest, budget - Charge(a.value, c)))
  {
    hide ReadPayload, Charge, ReadVar, Leb, Unleb, ReadSigned, ReadId, Typed;
    PairParts(a, rest, c);
    IdReads(a.key, c, rest[1]);
    assert ([Tag(a.value)] + rest[2])[1..] == rest[2];
    var left := Plus(PairColumns(a, c), rest)[1 := rest[1]][2 := rest[2]];
    NotEnum(a.value);
    if a.value.Enum? {
      EnumFacts(a.value, c);
      SignedReads(a.value.value, rest[3]);
      IdReads(a.value.name, c, rest[5]);
      SameColumns(left[3 := rest[3]][5 := rest[5]], rest);
    } else {
      var k := ValueColumn(Tag(a.value));
      SameColumns(left[k := rest[k]], rest);
      PayloadReads(a.value, c, 0, rest[ValueColumn(Tag(a.value))], budget);
    }
  }

  lemma {:induction false} EnumFacts(v: Value, c: Context)
    requires v.Enum? && Typed(v, c) && EncodePayload(v, c, 0).Some?
    ensures v.name < U32_LIMIT && v.name < c.strings && Charge(v, c) == 0 && Tag(v) == 19
  {
  }

  lemma {:induction false} NotEnum(v: Value)
    ensures Tag(v) == 19 <==> v.Enum?
  {
  }

  /** The columns of one attribute in front of others. */
  lemma {:induction false} PairParts(a: Attribute, rest: Columns, c: Context)
    requires EncodePayload(a.value, c, 0).Some?
    ensures var cols := Plus(PairColumns(a, c), rest);
      && cols[0] == rest[0] && cols[1] == Leb(a.key) + rest[1] && cols[2] == [Tag(a.value)] + rest[2]
      && if a.value.Enum? then
           cols[3] == Leb(Zigzag(a.value.value)) + rest[3] && cols[5] == Leb(a.value.name) + rest[5] && cols[4] == rest[4] && cols[6] == rest[6]
         else var k := ValueColumn(Tag(a.value));
           cols[k] == EncodePayload(a.value, c, 0).value + rest[k] && forall i :: 3 <= i < 7 && i != k ==> cols[i] == rest[i]
  {
    hide Leb, EncodePayload, Tag;
    EmptyAdds(Leb(a.key));
    EmptyAdds([Tag(a.value)]);
    forall i | 0 <= i < 7
      ensures [] + rest[i] == rest[i]
    {
      EmptyAdds(rest[i]);
    }
    if a.value.Enum? {
      EmptyAdds(Leb(Zigzag(a.value.value)));
      EmptyAdds(Leb(a.value.name));
    } else {
      EmptyAdds(EncodePayload(a.value, c, 0).value);
    }
  }

  /** What the attributes of a row must be for their types to be kept. */
  ghost predicate AllTyped(attributes: seq<Attribute>, c: Context) {
    forall i :: 0 <= i < |attributes| ==> attributes[i].key < U32_LIMIT && Typed(attributes[i].value, c)
  }

  lemma {:induction false} RestReadsBack(attributes: seq<Attribute>, rest: Columns, seen: set<nat>, c: Context, budget: nat)
    requires AllTyped(attributes, c) && RowOk(attributes, seen, c) && budget >= ChargePairs(attributes, c)
    ensures ReadRest(true, Plus(PairsColumns(attributes, seen, c), rest), |attributes|, seen, c, budget) == Some(Row(attributes, rest))
  {
    hide ReadPair, Plus, PairColumns, EncodePayload, Charge, Typed;
    if attributes == [] {
      PlusFacts(rest, rest, rest);
    } else {
      var a, tail := attributes[0], attributes[1..];
      var others := PairsColumns(tail, seen + {a.key}, c);
      PlusFacts(PairColumns(a, c), others, rest);
      PairReadsBack(a, Plus(others, rest), seen, c, budget);
      RestReadsBack(tail, rest, seen + {a.key}, c, budget - Charge(a.value, c));
      assert attributes == [a] + tail;
    }
  }

  /** A row that was appended reads back as it was, and exactly its own bytes are used up. */
  lemma {:induction false} RowReadsBack(attributes: seq<Attribute>, rest: Columns, c: Context, budget: nat)
    requires AllTyped(attributes, c) && RowOk(attributes, {}, c) && |attributes| < 0x1_0000_0000_0000_0000
    requires budget >= |attributes| * c.attributeSize + ChargePairs(attributes, c)
    ensures ReadRow(true, Plus(RowColumns(attributes, c), rest), c, budget) == Some(Row(attributes, rest))
  {
    hide ReadRest, PairsColumns, ChargePairs, RowOk, ReadVar, Leb, Unleb;
    var count, pairs := Put(NO_COLUMNS, 0, Leb(|attributes|)), PairsColumns(attributes, {}, c);
    CountFront(attributes, pairs, rest);
    TagsAtLeast(attributes, {}, c);
    VarReads(|attributes|, Plus(pairs, rest)[0]);
    RestReadsBack(attributes, rest, {}, c, budget - |attributes| * c.attributeSize);
  }

  lemma {:induction false} CountFront(attributes: seq<Attribute>, pairs: Columns, rest: Columns)
    ensures var cols := Plus(Plus(Put(NO_COLUMNS, 0, Leb(|attributes|)), pairs), rest);
      && cols[0] == Leb(|attributes|) + Plus(pairs, rest)[0]
      && cols[0 := Plus(pairs, rest)[0]] == Plus(pairs, rest) && |cols[2]| >= |pairs[2]|
  {
    hide Leb;
    var n := Leb(|attributes|);
    EmptyAdds(n);
    forall i | 0 <= i < 7
      ensures [] + pairs[i] == pairs[i]
    {
      EmptyAdds(pairs[i]);
    }
    assert n + pairs[0] + rest[0] == n + (pairs[0] + rest[0]);
  }

  lemma {:induction false} TagsAtLeast(attributes: seq<Attribute>, seen: set<nat>, c: Context)
    requires RowOk(attributes, seen, c)
    ensures |PairsColumns(attributes, seen, c)[2]| == |attributes|
  {
    hide EncodePayload, Leb;
    if attributes != [] {
      var a := attributes[0];
      TagsAtLeast(attributes[1..], seen + {a.key}, c);
      PairParts(a, PairsColumns(attributes[1..], seen + {a.key}, c), c);
    }
  }

  // ---------------------------------------------------------------- only what is written is read

  lemma {:induction false} PairWrittenBack(cols: Columns, seen: set<nat>, c: Context, budget: nat)
    requires ReadPair(true, cols, seen, c, budget).Some?
    ensures var Pair(a, rest, left) := ReadPair(true, cols, seen, c, budget).value;
      && a.key < U32_LIMIT && a.key < c.strings && a.key !in seen && Typed(a.value, c) && EncodePayload(a.value, c, 0).Some?
      && cols == Plus(PairColumns(a, c), rest) && budget == Charge(a.value, c) + left
  {
    hide ReadPayload, Charge, ReadVar, Leb, Unleb, ReadSigned, ReadId, Typed, PairColumns, Plus;
    var Pair(a, rest, left) := ReadPair(true, cols, seen, c, budget).value;
    IdWritten(cols[1], c);
    assert cols[2] == [cols[2][0]] + cols[2][1..];
    if cols[2][0] == 19 {
      SignedWritten(cols[3]);
      IdWritten(cols[5], c);
      EnumEncodes(a.value.value, a.value.name, c);
    } else {
      PayloadWritten(cols[2][0], cols[ValueColumn(cols[2][0])], c, 0, budget);
      NotEnum(a.value);
    }
    PairParts(a, rest, c);
    SameColumns(cols, Plus(PairColumns(a, c), rest));
  }

  lemma {:induction false} SameColumns(a: Columns, b: Columns)
    requires a[0] == b[0] && a[1] == b[1] && a[2] == b[2] && a[3] == b[3] && a[4] == b[4] && a[5] == b[5] && a[6] == b[6]
    ensures a == b
  {
  }

  lemma {:induction false} EnumEncodes(v: i64, name: nat, c: Context)
    requires name < U32_LIMIT && name < c.strings
    ensures Typed(Enum(v, name), c) && EncodePayload(Enum(v, name), c, 0).Some? && Charge(Enum(v, name), c) == 0 && Tag(Enum(v, name)) == 19
  {
  }

  lemma {:induction false} RestWrittenBack(cols: Columns, count: nat, seen: set<nat>, c: Context, budget: nat)
    requires ReadRest(true, cols, count, seen, c, budget).Some?
    ensures var Row(attributes, rest) := ReadRest(true, cols, count, seen, c, budget).value;
      && |attributes| == count && AllTyped(attributes, c) && RowOk(attributes, seen, c) && ChargePairs(attributes, c) <= budget
      && cols == Plus(PairsColumns(attributes, seen, c), rest)
    decreases count
  {
    hide ReadPair, Plus, PairColumns, EncodePayload, Charge, Typed;
    if count == 0 {
      PlusFacts(cols, cols, cols);
    } else {
      PairWrittenBack(cols, seen, c, budget);
      var Pair(a, others, left) := ReadPair(true, cols, seen, c, budget).value;
      RestWrittenBack(others, count - 1, seen + {a.key}, c, left);
      var Row(tail, rest) := ReadRest(true, others, count - 1, seen + {a.key}, c, left).value;
      var attributes := [a] + tail;
      assert attributes[1..] == tail;
      PlusFacts(PairColumns(a, c), PairsColumns(tail, seen + {a.key}, c), rest);
    }
  }

  /** The columns that start with a row are exactly those the row appended in front of what is left. */
  lemma {:induction false} RowWrittenBack(cols: Columns, c: Context, budget: nat)
    requires ReadRow(true, cols, c, budget).Some?
    ensures var Row(attributes, rest) := ReadRow(true, cols, c, budget).value;
      && AllTyped(attributes, c) && RowOk(attributes, {}, c)
      && |attributes| * c.attributeSize + ChargePairs(attributes, c) <= budget
      && cols == Plus(RowColumns(attributes, c), rest)
  {
    hide ReadRest, PairsColumns, ChargePairs, RowOk, ReadVar, Leb, Unleb;
    VarWritten(cols[0]);
    var (count, counts) := ReadVar(cols[0]).value;
    RestWrittenBack(cols[0 := counts], count, {}, c, budget - count * c.attributeSize);
    var Row(attributes, rest) := ReadRow(true, cols, c, budget).value;
    CountFront(attributes, PairsColumns(attributes, {}, c), rest);
    var all := Plus(RowColumns(attributes, c), rest);
    forall i | 1 <= i < 7
      ensures all[i] == cols[i]
    {
      assert all[0 := counts][i] == cols[0 := counts][i];
    }
    SameColumns(cols, all);
  }

  // ---------------------------------------------------------------- skipping a row

  lemma {:induction false} RestSkips(cols: Columns, count: nat, seen: set<nat>, c: Context, budget: nat)
    ensures var a, b := ReadRest(false, cols, count, seen, c, budget), ReadRest(true, cols, count, seen, c, budget);
      a.Some? == b.Some? && (a.Some? ==> a.value.rest == b.value.rest)
    decreases count
  {
    hide ReadPair;
    if count > 0 {
      PairSkips(cols, seen, c, budget);
      if ReadPair(true, cols, seen, c, budget).Some? {
        var Pair(a, rest, left) := ReadPair(true, cols, seen, c, budget).value;
        RestSkips(rest, count - 1, seen + {a.key}, c, left);
      }
    }
  }

  lemma {:induction false} PairSkips(cols: Columns, seen: set<nat>, c: Context, budget: nat)
    ensures var a, b := ReadPair(false, cols, seen, c, budget), ReadPair(true, cols, seen, c, budget);
      a.Some? == b.Some? && (a.Some? ==> a.value.rest == b.value.rest && a.value.budget == b.value.budget
                                          && a.value.attribute.key == b.value.attribute.key)
  {
    hide ReadPayload, ReadId, ReadSigned;
    if ReadId(cols[1], c).Some? && cols[2] != [] {
      var tag, left := cols[2][0], cols[1 := ReadId(cols[1], c).value.1][2 := cols[2][1..]];
      PayloadSkips(tag, left[ValueColumn(tag)], c, 0, budget);
    }
  }

  /** Skipping a row accepts and uses up exactly what reading it does. */
  lemma {:induction false} RowSkips(cols: Columns, c: Context, budget: nat)
    ensures var a, b := ReadRow(false, cols, c, budget), ReadRow(true, cols, c, budget);
      a.Some? == b.Some? && (a.Some? ==> a.value.rest == b.value.rest)
  {
    hide ReadRest, ReadVar;
    if ReadVar(cols[0]).Some? {
      var (count, counts) := ReadVar(cols[0]).value;
      if count <= |cols[2]| && count * c.attributeSize <= budget {
        RestSkips(cols[0 := counts], count, {}, c, budget - count * c.attributeSize);
      }
    }
  }

  // ---------------------------------------------------------------- the reader

  class Reader {
    var columns: Columns

    constructor (columns: Columns)
      ensures this.columns == columns
    {
      this.columns := columns;
    }

    /** One row is read, or skipped: the same rows either way. */
    method Next(retain: bool, c: Context, budget0: nat) returns (r: Option<seq<Attribute>>)
      modifies this
      ensures match ReadRow(retain, old(columns), c, budget0)
              case None => r == None
              case Some(Row(attributes, rest)) => r == Some(attributes) && columns == rest
    {
      hide ReadPair, ReadVar, ReadRest, Goes;
      var first := ReadVar(columns[0]);
      if first.None? || first.value.0 > |columns[2]| || first.value.0 * c.attributeSize > budget0 {
        return None;
      }
      var count: nat := first.value.0;
      columns := columns[0 := first.value.1];
      var budget: nat := budget0 - count * c.attributeSize;
      var out: seq<Attribute>, keys: set<nat> := [], {};
      ghost var whole := ReadRest(retain, columns, count, {}, c, budget);
      SkippedNothing(columns, count, {}, c, budget);
      GoesStarts(retain, whole);
      for i := 0 to count
        invariant Goes(retain, whole, out, ReadRest(retain, columns, count - i, keys, c, budget))
      {
        GoesOn(retain, whole, out, columns, count - i, keys, c, budget);
        var pair := ReadPair(retain, columns, keys, c, budget);
        if pair.None? {
          return None;
        }
        var Pair(a, rest, left) := pair.value;
        columns := rest;
        budget := left;
        keys := keys + {a.key};
        if retain {
          out := out + [a];
        }
      }
      GoesEnds(retain, whole, out, columns, keys, c, budget);
      r := Some(out);
    }

    /** `done`: nothing is left in any column. */
    method Done() returns (ok: bool)
      ensures ok <==> columns == NO_COLUMNS
    {
      ok := true;
      for i := 0 to 7
        invariant ok <==> forall k :: 0 <= k < i ==> columns[k] == []
      {
        if columns[i] != [] {
          ok := false;
        }
      }
    }
  }

  /** The whole row is what is out already and then what is still to come. */
  ghost predicate Goes(retain: bool, whole: Option<Row>, out: seq<Attribute>, still: Option<Row>) {
    whole == match still
             case None => None
             case Some(Row(attributes, rest)) => Some(Row(if retain then out + attributes else out, rest))
  }

  lemma {:induction false} GoesStarts(retain: bool, whole: Option<Row>)
    requires whole.Some? && !retain ==> whole.value.attributes == []
    ensures Goes(retain, whole, [], whole)
  {
    if whole.Some? {
      assert [] + whole.value.attributes == whole.value.attributes;
    }
  }

  lemma {:induction false} SkippedNothing(cols: Columns, count: nat, seen: set<nat>, c: Context, budget: nat)
    ensures ReadRest(false, cols, count, seen, c, budget).Some? ==> ReadRest(false, cols, count, seen, c, budget).value.attributes == []
  {
    hide ReadPair;
  }

  lemma {:induction false} GoesOn(retain: bool, whole: Option<Row>, out: seq<Attribute>, cols: Columns, left: nat, keys: set<nat>,
                                  c: Context, budget: nat)
    requires left > 0 && Goes(retain, whole, out, ReadRest(retain, cols, left, keys, c, budget))
    ensures match ReadPair(retain, cols, keys, c, budget)
            case None => whole == None
            case Some(Pair(a, rest, b)) =>
              Goes(retain, whole, if retain then out + [a] else out, ReadRest(retain, rest, left - 1, keys + {a.key}, c, b))
  {
    hide ReadPair;
    match ReadPair(retain, cols, keys, c, budget)
    case None =>
    case Some(Pair(a, rest, b)) =>
      var tail := ReadRest(retain, rest, left - 1, keys + {a.key}, c, b);
      if tail.Some? {
        assert out + ([a] + tail.value.attributes) == out + [a] + tail.value.attributes;
      }
  }

  lemma {:induction false} GoesEnds(retain: bool, whole: Option<Row>, out: seq<Attribute>, cols: Columns, keys: set<nat>,
                                    c: Context, budget: nat)
    requires Goes(retain, whole, out, ReadRest(retain, cols, 0, keys, c, budget))
    ensures whole == Some(Row(out, cols))
  {
    assert out + [] == out;
  }

  // ---------------------------------------------------------------- many rows

  /** The columns of rows appended one after the other. */
  function AllColumns(rows: seq<seq<Attribute>>, c: Context): Columns
    requires forall i :: 0 <= i < |rows| ==> RowOk(rows[i], {}, c)
  {
    if rows == [] then NO_COLUMNS else Plus(AllColumns(rows[..|rows| - 1], c), RowColumns(rows[|rows| - 1], c))
  }

  /** All rows of the columns, until nothing is left. */
  function ReadAll(cols: Columns, n: nat, c: Context, budget: nat): Option<seq<seq<Attribute>>>
    decreases n
  {
    if n == 0 then (if cols == NO_COLUMNS then Some([]) else None) else
      match ReadRow(true, cols, c, budget)
      case None => None
      case Some(Row(row, rest)) =>
        match ReadAll(rest, n - 1, c, budget)
        case None => None
        case Some(rows) => Some([row] + rows)
  }

  ghost predicate Storable(row: seq<Attribute>, c: Context, budget: nat) {
    && AllTyped(row, c) && RowOk(row, {}, c) && |row| < 0x1_0000_0000_0000_0000
    && budget >= |row| * c.attributeSize + ChargePairs(row, c)
  }

  lemma {:induction false} FirstRow(rows: seq<seq<Attribute>>, c: Context)
    requires rows != [] && forall i :: 0 <= i < |rows| ==> RowOk(rows[i], {}, c)
    ensures AllColumns(rows, c) == Plus(RowColumns(rows[0], c), AllColumns(rows[1..], c))
  {
    hide Plus, RowColumns, RowOk;
    var n := |rows| - 1;
    if n == 0 {
      assert rows[..0] == [] && rows[1..] == [];
      PlusFacts(RowColumns(rows[0], c), NO_COLUMNS, NO_COLUMNS);
    } else {
      FirstRow(rows[..n], c);
      assert rows[1..][..n - 1] == rows[..n][1..];
      PlusFacts(RowColumns(rows[0], c), AllColumns(rows[..n][1..], c), RowColumns(rows[n], c));
    }
  }

  /** Any rows appended read back as they were, and nothing is left over. */
  lemma {:induction false} RowsReadBack(rows: seq<seq<Attribute>>, c: Context, budget: nat)
    requires forall i :: 0 <= i < |rows| ==> RowOk(rows[i], {}, c)
    requires forall i :: 0 <= i < |rows| ==> Storable(rows[i], c, budget)
    ensures ReadAll(AllColumns(rows, c), |rows|, c, budget) == Some(rows)
  {
    hide Plus, RowColumns, ReadRow, RowOk;
    if rows != [] {
      FirstRow(rows, c);
      RowReadsBack(rows[0], AllColumns(rows[1..], c), c, budget);
      RowsReadBack(rows[1..], c, budget);
      assert rows == [rows[0]] + rows[1..];
    }
  }
}
