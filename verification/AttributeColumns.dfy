/** Rows of attributes spread over seven columns, read back and skipped. */
module AttributeColumns {
  import opened Options
  import opened Limbs
  import opened Words
  import opened Varint
  import opened AttributeValues

  // ---------------------------------------------------------------- skipping

  /** Two readings accept the same bytes, stop at the same place and leave the same budget. */
  ghost predicate Alike<T>(a: Option<Read<T>>, b: Option<Read<T>>) {
    a.Some? == b.Some? && (a.Some? ==> a.value.rest == b.value.rest && a.value.budget == b.value.budget)
  }

  /** Reading without keeping anything goes exactly as reading. */
  lemma {:induction false} TaggedSkips(s: seq<byte>, c: Context, depth: nat, budget: nat)
    ensures Alike(ReadTagged(false, s, c, depth, budget), ReadTagged(true, s, c, depth, budget))
    decreases |s|, 0
  {
    hide ReadPayload;
    if s != [] {
      PayloadSkips(s[0], s[1..], c, depth, budget);
    }
  }

  lemma {:induction false} PayloadSkips(tag: byte, s: seq<byte>, c: Context, depth: nat, budget: nat)
    ensures Alike(ReadPayload(false, tag, s, c, depth, budget), ReadPayload(true, tag, s, c, depth, budget))
    decreases |s|, 2
  {
    hide Unleb, Leb, ReadVar, ReadList, ReadPairs, PackedOk, Le;
    if (tag == 23 || tag == 24) && depth < MAX_DEPTH {
      var count := BoundedCount(s, if tag == 23 then c.valueSize else c.attributeSize, budget);
      if count.Some? {
        ListSkips(count.value.rest, count.value.value, c, depth + 1, count.value.budget);
        PairsSkip(count.value.rest, count.value.value, {}, c, depth + 1, count.value.budget);
      }
    }
  }

  lemma {:induction false} ListSkips(s: seq<byte>, count: nat, c: Context, depth: nat, budget: nat)
    ensures Alike(ReadList(false, s, count, c, depth, budget), ReadList(true, s, count, c, depth, budget))
    decreases |s|, 1, count
  {
    hide ReadTagged;
    if count > 0 {
      TaggedSkips(s, c, depth, budget);
      if ReadTagged(true, s, c, depth, budget).Some? {
        var r := ReadTagged(true, s, c, depth, budget).value;
        ListSkips(r.rest, count - 1, c, depth, r.budget);
      }
    }
  }

  lemma {:induction false} PairsSkip(s: seq<byte>, count: nat, seen: set<nat>, c: Context, depth: nat, budget: nat)
    ensures Alike(ReadPairs(false, s, count, seen, c, depth, budget), ReadPairs(true, s, count, seen, c, depth, budget))
    decreases |s|, 1, count
  {
    hide ReadTagged, ReadId;
    if count > 0 && ReadId(s, c).Some? {
      var (key, rest) := ReadId(s, c).value;
      TaggedSkips(rest, c, depth, budget);
      if ReadTagged(true, rest, c, depth, budget).Some? {
        var r := ReadTagged(true, rest, c, depth, budget).value;
        PairsSkip(r.rest, count - 1, seen + {key}, c, depth, r.budget);
      }
    }
  }

  // ---------------------------------------------------------------- columns

  /** Counts, keys, tags, numbers, floats, strings, and the rest. */
  type Columns = s: seq<seq<byte>> | |s| == 7 witness [[], [], [], [], [], [], []]

  const NO_COLUMNS: Columns := [[], [], [], [], [], [], []]

  function Plus(a: Columns, b: Columns): Columns {
    [a[0] + b[0], a[1] + b[1], a[2] + b[2], a[3] + b[3], a[4] + b[4], a[5] + b[5], a[6] + b[6]]
  }

  lemma {:induction false} PlusFacts(a: Columns, b: Columns, d: Columns)
    ensures Plus(Plus(a, b), d) == Plus(a, Plus(b, d))
    ensures Plus(a, NO_COLUMNS) == a && Plus(NO_COLUMNS, a) == a
  {
    hide Plus;
    PlusAssociates(a, b, d);
    PlusNothing(a);
  }

  lemma {:induction false} PlusAssociates(a: Columns, b: Columns, d: Columns)
    ensures Plus(Plus(a, b), d) == Plus(a, Plus(b, d))
  {
    assert a[0] + b[0] + d[0] == a[0] + (b[0] + d[0]) && a[1] + b[1] + d[1] == a[1] + (b[1] + d[1]);
    assert a[2] + b[2] + d[2] == a[2] + (b[2] + d[2]) && a[3] + b[3] + d[3] == a[3] + (b[3] + d[3]);
    assert a[4] + b[4] + d[4] == a[4] + (b[4] + d[4]) && a[5] + b[5] + d[5] == a[5] + (b[5] + d[5]);
    assert a[6] + b[6] + d[6] == a[6] + (b[6] + d[6]);
  }

  lemma {:induction false} PlusNothing(a: Columns)
    ensures Plus(a, NO_COLUMNS) == a && Plus(NO_COLUMNS, a) == a
  {
    var left, right := Plus(NO_COLUMNS, a), Plus(a, NO_COLUMNS);
    forall i | 0 <= i < 7
      ensures left[i] == a[i] && right[i] == a[i]
    {
      EmptyAdds(a[i]);
    }
  }

  lemma {:induction false} EmptyAdds(s: seq<byte>)
    ensures [] + s == s && s + [] == s
  {
  }

  /** `column[i].extend(bytes)`. */
  function Put(a: Columns, i: nat, s: seq<byte>): Columns
    requires i < 7
  {
    a[i := a[i] + s]
  }

  function ValueColumn(tag: byte): (i: nat)
    ensures 3 <= i < 7
  {
    if tag == 10 || tag == 11 then 4
    else if tag == 12 then 5
    else if 13 <= tag <= 17 || tag == 23 || tag == 24 then 6
    else 3
  }

  /** What one attribute adds to the columns. */
  function PairColumns(a: Attribute, c: Context): Columns
    requires EncodePayload(a.value, c, 0).Some?
  {
    var head := Put(Put(NO_COLUMNS, 1, Leb(a.key)), 2, [Tag(a.value)]);
    if a.value.Enum? then Put(Put(head, 3, Leb(Zigzag(a.value.value))), 5, Leb(a.value.name))
    else Put(head, ValueColumn(Tag(a.value)), EncodePayload(a.value, c, 0).value)
  }

  /** The attributes a row may hold: known, different keys, and values that can be encoded. */
  predicate RowOk(attributes: seq<Attribute>, seen: set<nat>, c: Context) {
    attributes == [] ||
    (attributes[0].key < c.strings && attributes[0].key !in seen && EncodePayload(attributes[0].value, c, 0).Some?
     && RowOk(attributes[1..], seen + {attributes[0].key}, c))
  }

  /** What several attributes add to the columns. */
  function PairsColumns(attributes: seq<Attribute>, seen: set<nat>, c: Context): Columns
    requires RowOk(attributes, seen, c)
  {
    if attributes == [] then NO_COLUMNS
    else Plus(PairColumns(attributes[0], c), PairsColumns(attributes[1..], seen + {attributes[0].key}, c))
  }

  function RowColumns(attributes: seq<Attribute>, c: Context): Columns
    requires RowOk(attributes, {}, c)
  {
    Plus(Put(NO_COLUMNS, 0, Leb(|attributes|)), PairsColumns(attributes, {}, c))
  }

  // ---------------------------------------------------------------- writing a row

  class Writer {
    var columns: Columns

    constructor ()
      ensures columns == NO_COLUMNS
    {
      columns := NO_COLUMNS;
    }

    /** A row is added whole, or refused and nothing changes. */
    method Append(attributes: seq<Attribute>, c: Context) returns (ok: bool)
      modifies this
      ensures ok == RowOk(attributes, {}, c)
      ensures columns == if ok then Plus(old(columns), RowColumns(attributes, c)) else old(columns)
    {
      hide Plus, PairColumns, EncodePayload, Leb, WithPair;
      ok := Validate(attributes, c);
      if !ok {
        return;
      }
      ghost var all := Plus(columns, RowColumns(attributes, c));
      ghost var count := Put(NO_COLUMNS, 0, Leb(|attributes|));
      PlusFacts(columns, count, PairsColumns(attributes, {}, c));
      PutIsPlus(columns, 0, Leb(|attributes|));
      columns := Put(columns, 0, Leb(|attributes|));
      ghost var seen: set<nat> := {};
      assert attributes[0..] == attributes;
      for i := 0 to |attributes|
        invariant RowOk(attributes[i..], seen, c) && Plus(columns, PairsColumns(attributes[i..], seen, c)) == all
      {
        var a := attributes[i];
        assert attributes[i..][0] == a && attributes[i..][1..] == attributes[i + 1..];
        PlusFacts(columns, PairColumns(a, c), PairsColumns(attributes[i + 1..], seen + {a.key}, c));
        WithPairIsPlus(columns, a, c);
        columns := WithPair(columns, a, c);
        seen := seen + {a.key};
      }
      PlusFacts(columns, columns, columns);
    }
  }

  lemma {:induction false} PutIsPlus(a: Columns, i: nat, s: seq<byte>)
    requires i < 7
    ensures Put(a, i, s) == Plus(a, Put(NO_COLUMNS, i, s))
  {
    var r := Plus(a, Put(NO_COLUMNS, i, s));
    EmptyAdds(s);
    forall j | 0 <= j < 7
      ensures r[j] == Put(a, i, s)[j]
    {
      EmptyAdds(a[j]);
    }
  }

  /** Adding to a column of a sum adds to that column of its second part. */
  lemma {:induction false} PutInPlus(a: Columns, b: Columns, i: nat, s: seq<byte>)
    requires i < 7
    ensures Put(Plus(a, b), i, s) == Plus(a, Put(b, i, s))
  {
    assert a[i] + b[i] + s == a[i] + (b[i] + s);
  }

  /** The columns with one more attribute: key, tag, and its payload where values of its kind go. */
  function WithPair(columns: Columns, a: Attribute, c: Context): Columns
    requires EncodePayload(a.value, c, 0).Some?
  {
    var head := Put(Put(columns, 1, Leb(a.key)), 2, [Tag(a.value)]);
    if a.value.Enum? then Put(Put(head, 3, Leb(Zigzag(a.value.value))), 5, Leb(a.value.name))
    else Put(head, ValueColumn(Tag(a.value)), EncodePayload(a.value, c, 0).value)
  }

  lemma {:induction false} WithPairIsPlus(columns: Columns, a: Attribute, c: Context)
    requires EncodePayload(a.value, c, 0).Some?
    ensures WithPair(columns, a, c) == Plus(columns, PairColumns(a, c))
  {
    hide Plus, Put, Leb, EncodePayload, Tag;
    var key, tag := Leb(a.key), [Tag(a.value)];
    var first := Put(NO_COLUMNS, 1, key);
    var head := Put(first, 2, tag);
    PutIsPlus(columns, 1, key);
    PutInPlus(columns, first, 2, tag);
    if a.value.Enum? {
      PutInPlus(columns, head, 3, Leb(Zigzag(a.value.value)));
      PutInPlus(columns, Put(head, 3, Leb(Zigzag(a.value.value))), 5, Leb(a.value.name));
    } else {
      PutInPlus(columns, head, ValueColumn(Tag(a.value)), EncodePayload(a.value, c, 0).value);
    }
  }

  /** `validate_attributes`: keys known and different, values that can be encoded. */
  method Validate(attributes: seq<Attribute>, c: Context) returns (ok: bool)
    ensures ok == RowOk(attributes, {}, c)
  {
    hide EncodePayload;
    var keys: set<nat> := {};
    assert attributes[0..] == attributes;
    for i := 0 to |attributes|
      invariant RowOk(attributes, {}, c) == RowOk(attributes[i..], keys, c)
    {
      var a := attributes[i];
      assert attributes[i..][0] == a && attributes[i..][1..] == attributes[i + 1..];
      if a.key >= c.strings || a.key in keys || EncodePayload(a.value, c, 0).None? {
        return false;
      }
      keys := keys + {a.key};
    }
    ok := true;
  }
}
