/** When a block is too large for the format: what a caller can tell from the records alone, and what not. */
module RecordLimits {
  import opened Arithmetic
  import opened Options
  import opened Limbs
  import opened Words
  import opened Varint
  import opened Slices
  import opened ColumnPacking
  import opened Datatypes
  import opened DatatypeWalks
  import opened DatatypeTables
  import opened ArgumentColumns
  import opened ArgumentRows
  import opened ArgumentReaders
  import opened Records
  import opened RecordSegments
  import opened RecordGroups
  import opened RecordPieces
  import opened RecordBlocks

  // ---------------------------------------------------------------- what a caller can rely on

  ghost predicate Alone(b: Bucket, i: nat, types: seq<Datatype>, c: Context)
    requires Proper(types)
  {
    i < |b.records| && Oversized(Slice(b, i, i + 1), types, c)
  }

  /** A record of one of the sources that is too large on its own. */
  ghost predicate SomeAlone(bs: seq<Bucket>, types: seq<Datatype>, c: Context)
    requires Proper(types)
  {
    exists k, i :: 0 <= k < |bs| && i >= 0 && Alone(bs[k], i, types, c)
  }

  /** With room for the packing on a page, a block of fewer than 2^32 records is too large only if one of them is so on its own. */
  lemma {:induction false} TooLargeHasAlone(rs: seq<Record>, gens: Generators, separate: bool, pageBytes: nat, types: seq<Datatype>, c: Context)
    requires Proper(types) && AllSourced(rs, gens) && AllRowsOk(Ordered(BucketsOf(rs, gens), separate), types, c)
    requires |rs| < TWO_32 && pageBytes + 100 <= MAX_BLOCK_BYTES
    ensures var bs := Ordered(BucketsOf(rs, gens), separate); var pieces := AllPieces(bs, pageBytes, types, c);
      |pieces| >= TWO_32 || SomeOversized(pieces, types, c) ==> SomeAlone(bs, types, c)
  {
    hide Proper, RowsAreOk, Oversized, Pieces, SomeAlone, AllPieces, Sourced, Ordered, BucketsOf, AllRowsOk;
    var bs := Ordered(BucketsOf(rs, gens), separate);
    CountOfGroups(rs, gens, separate);
    var pieces := AllPieces(bs, pageBytes, types, c);
    if SomeOversized(pieces, types, c) {
      var i :| 0 <= i < |pieces| && Oversized(pieces[i], types, c);
      PieceIsAlone(bs, i, pageBytes, types, c);
    }
  }

  lemma {:induction false} PieceIsAlone(bs: seq<Bucket>, i: nat, pageBytes: nat, types: seq<Datatype>, c: Context)
    requires Proper(types) && AllRowsOk(bs, types, c) && pageBytes + 100 <= MAX_BLOCK_BYTES
    requires i < |AllPieces(bs, pageBytes, types, c)| && Oversized(AllPieces(bs, pageBytes, types, c)[i], types, c)
    ensures SomeAlone(bs, types, c)
  {
    hide Proper, RowsAreOk, Oversized, Pieces;
    var front, b := bs[..|bs| - 1], bs[|bs| - 1];
    var before := AllPieces(front, pageBytes, types, c);
    if i < |before| {
      PieceIsAlone(front, i, pageBytes, types, c);
      var k, j :| 0 <= k < |front| && j >= 0 && Alone(front[k], j, types, c);
      assert Alone(bs[k], j, types, c);
    } else {
      assert RowsAreOk(b, types, c);
      OversizedIsAlone(b, 0, i - |before|, pageBytes, types, c);
      var k :| k >= 0 && Lone(b, k, Pieces(b, 0, pageBytes, types, c)[i - |before|]);
      assert Alone(bs[|bs| - 1], k, types, c);
    }
  }

  /** Where a segment begins with a record that is too large on its own, the block is too large. */
  lemma {:induction false} AloneIsTooLarge(b: Bucket, first: nat, pageBytes: nat, types: seq<Datatype>, c: Context)
    requires Proper(types) && RowsAreOk(b, types, c) && first < |b.records| && pageBytes + 100 <= MAX_BLOCK_BYTES
    requires Oversized(Slice(b, first, first + 1), types, c)
    ensures SomeOversized(Pieces(b, first, pageBytes, types, c), types, c)
  {
    hide Proper, RowsAreOk, Pieces, CutEnd, Encodable, SizeOf, ColumnsFor, Flat;
    SizeBounds(Slice(b, first, first + 1), types, c);
    CutIsFull(b, first, first + 1, pageBytes, types, c);
    FirstOversized(b, first, first + 1, pageBytes, types, c);
  }

  // ---------------------------------------------------------------- rows of texts

  const NO_TEXT: Chars := []

  function TextBytes(t: Chars): seq<byte> {
    Limbs.Bytes(|t|, 4) + t
  }

  function RowOf(ts: seq<Chars>): seq<byte> {
    if ts == [] then [] else RowOf(ts[..|ts| - 1]) + TextBytes(ts[|ts| - 1])
  }

  function TokensFor(ts: seq<Chars>): seq<Token> {
    if ts == [] then [] else TokensFor(ts[..|ts| - 1]) + [Leaf(Datatypes.Text, TextBytes(ts[|ts| - 1]))]
  }

  ghost predicate Legible(ts: seq<Chars>, c: Context) {
    forall i :: 0 <= i < |ts| ==> |ts[i]| <= 1 && c.utf8(ts[i])
  }

  lemma {:induction false} TextMeans(types: seq<Datatype>, t: Chars, rest: seq<byte>, c: Context)
    requires Proper(types) && |t| < TWO_32 && c.utf8(t)
    ensures Meaning(types, 13, TextBytes(t) + rest, c) == Some(Walked([Leaf(Datatypes.Text, TextBytes(t))], rest))
  {
    hide Limbs.Bytes, Le, Pow;
    var row := TextBytes(t) + rest;
    LeOfBytes(|t|, 4);
    PowFour();
    DivModIs(|t|, Pow(4), 0, |t|);
    assert row[..4] == Limbs.Bytes(|t|, 4);
    assert row[..4 + |t|] == TextBytes(t) && row[4 + |t|..] == rest && TextBytes(t)[4..] == t;
    assert types[13] == PrimitiveType(PRIMITIVES[13]);
  }

  lemma {:induction false} TextsMean(types: seq<Datatype>, ts: seq<Chars>, rest: seq<byte>, c: Context)
    requires Proper(types) && Legible(ts, c)
    ensures MeaningMany(types, 13, |ts|, RowOf(ts) + rest, c) == Some(Walked(TokensFor(ts), rest))
  {
    hide Proper, Meaning, TextBytes;
    if ts == [] {
      assert [] + rest == rest;
    } else {
      var front, t := ts[..|ts| - 1], ts[|ts| - 1];
      assert RowOf(front) + TextBytes(t) + rest == RowOf(front) + (TextBytes(t) + rest);
      TextsMean(types, front, TextBytes(t) + rest, c);
      TextMeans(types, t, rest, c);
    }
  }

  lemma {:induction false} RowSize(ts: seq<Chars>)
    requires forall i :: 0 <= i < |ts| ==> |ts[i]| <= 1
    ensures |RowOf(ts)| <= 5 * |ts|
  {
    if ts != [] {
      RowSize(ts[..|ts| - 1]);
    }
  }

  function PayloadOf(ts: seq<Chars>): seq<byte> {
    Limbs.Bytes(|ts|, 4) + RowOf(ts)
  }

  /** The table has a datatype for sequences of texts. */
  ghost predicate HasTexts(types: seq<Datatype>, id: nat) {
    Proper(types) && Known(types, id) && types[id].kind == Sequence(13)
  }

  lemma {:induction false} PayloadMeans(types: seq<Datatype>, id: nat, ts: seq<Chars>, c: Context)
    requires HasTexts(types, id) && Legible(ts, c) && |ts| <= 0x3000_0000
    ensures Meaning(types, id, PayloadOf(ts), c) == Some(Walked([Count(|ts|)] + TokensFor(ts), []))
    ensures Validate(types, id, PayloadOf(ts), c) && |PayloadOf(ts)| <= NO_LIMIT
  {
    hide Proper, MeaningMany, Validate, Limbs.Bytes, Le, Pow, RowOf;
    var row := PayloadOf(ts);
    LeOfBytes(|ts|, 4);
    PowFour();
    DivModIs(|ts|, Pow(4), 0, |ts|);
    assert row[..4] == Limbs.Bytes(|ts|, 4) && row[4..] == RowOf(ts);
    assert RowOf(ts) + [] == RowOf(ts);
    TextsMean(types, ts, [], c);
    RowSize(ts);
    ValidateIff(types, id, row, c);
  }

  /** Such a datatype can be added to any table. */
  lemma {:induction false} TextsDeclarable(types: seq<Datatype>)
    requires Proper(types) && |types| < TWO_32 - 1
    ensures Declarable(types, Sequence(13)) && HasTexts(types + [Laid(types, Sequence(13))], |types|)
  {
    hide Proper, Repeat, Minimum, FixedSize, Depth, Program, Laid;
    PrimitiveAt(types);
    NoChildren(types);
    assert [] + [Child(13, 0)] == [Child(13, 0)];
    SnocLaid(types, [], Child(13, 0));
    GrowsProper(types, Sequence(13));
    LaidKind(types, Sequence(13));
  }

  // ---------------------------------------------------------------- what they put down

  /** The first texts of one character. */
  function Alphabet(k: nat): (ts: seq<Chars>)
    requires k <= 128
    ensures |ts| == k && forall i :: 0 <= i < k ==> ts[i] == [i as byte]
  {
    seq(k, i requires 0 <= i < k => [i as byte])
  }

  function Copies(n: nat): (ts: seq<Chars>)
    ensures |ts| == n && forall i :: 0 <= i < n ==> ts[i] == NO_TEXT
  {
    seq(n, i => NO_TEXT)
  }

  function TextsOf(k: nat, n: nat): seq<Chars>
    requires k <= 128
  {
    Alphabet(k) + Copies(n)
  }

  lemma {:induction false} TokensAdd(a: seq<Chars>, b: seq<Chars>)
    ensures TokensFor(a + b) == TokensFor(a) + TokensFor(b)
    decreases |b|
  {
    hide TextBytes;
    if b == [] {
      assert a + b == a;
    } else {
      var n := |b| - 1;
      assert (a + b)[..|a + b| - 1] == a + b[..n] && (a + b)[|a + b| - 1] == b[n];
      TokensAdd(a, b[..n]);
    }
  }

  function TextsPut(s: seq<byte>, dictionary: seq<Chars>): Puts {
    Puts(Texts(s), dictionary, true)
  }

  lemma {:induction false} TextPuts(d: seq<Chars>, t: Chars, g: Config)
    requires g.shared.None? && |t| < TWO_32 && g.c.utf8(t) && |d| < 0x1_0000
    ensures var i := IndexOf(d, t);
      PutToken(d, Leaf(Datatypes.Text, TextBytes(t)), g)
      == Some(Put(Texts(Leb(if i.Some? then i.value else |d|)), if i.Some? then d else d + [t]))
  {
    hide Leb, IndexOf, Limbs.Bytes, SignedWord, Word;
    assert TextBytes(t)[4..] == t;
  }

  /** One text more: its place in the dictionary, where it is put when it is not there. */
  lemma {:induction false} OneMoreText(d: seq<Chars>, ts: seq<Token>, s: seq<byte>, now: seq<Chars>, t: Chars, g: Config)
    requires PutAll(d, ts, g) == TextsPut(s, now) && g.shared.None? && |t| < TWO_32 && g.c.utf8(t) && |now| < 0x1_0000
    ensures var i := IndexOf(now, t);
      PutAll(d, ts + [Leaf(Datatypes.Text, TextBytes(t))], g)
      == TextsPut(s + Leb(if i.Some? then i.value else |now|), if i.Some? then now else now + [t])
  {
    hide Leb, IndexOf, TextBytes, PutToken;
    assert (ts + [Leaf(Datatypes.Text, TextBytes(t))])[..|ts|] == ts;
    TextPuts(now, t, g);
    var none: seq<byte> := [];
    assert none + none == none;
  }

  lemma {:induction false} LegibleLess(k: nat, m: nat, c: Context)
    requires k <= m <= 128 && Legible(Alphabet(m), c)
    ensures Legible(Alphabet(k), c)
  {
    assert Alphabet(k) == Alphabet(m)[..k];
  }

  /** New texts are entered one after the other. */
  lemma {:induction false} AlphabetPuts(d: seq<Chars>, k: nat, g: Config) returns (s: seq<byte>)
    requires k <= 128 && (d == [] || d == [NO_TEXT]) && g.shared.None? && Legible(Alphabet(k), g.c)
    ensures PutAll(d, TokensFor(Alphabet(k)), g) == TextsPut(s, d + Alphabet(k)) && |s| <= 2 * k
  {
    hide PutAll, TextBytes, TokensFor;
    if k == 0 {
      s := [];
      NothingPuts(d, g);
      assert Alphabet(0) == [] && d + [] == d;
    } else {
      assert Alphabet(k) == Alphabet(k - 1) + [[(k - 1) as byte]];
      assert Alphabet(k)[k - 1] == [(k - 1) as byte];
      LegibleLess(k - 1, k, g.c);
      var before := AlphabetPuts(d, k - 1, g);
      var now, t := d + Alphabet(k - 1), [(k - 1) as byte];
      TokensAdd(Alphabet(k - 1), [t]);
      TokensOfOne(t);
      OneMoreText(d, TokensFor(Alphabet(k - 1)), before, now, t, g);
      assert t !in now;
      s := before + Leb(|now|);
      TwoBytes(|now|);
      assert now + [t] == d + Alphabet(k);
    }
  }

  lemma {:induction false} NothingPuts(d: seq<Chars>, g: Config)
    ensures PutAll(d, TokensFor([]), g) == TextsPut([], d)
  {
  }

  lemma {:induction false} TokensOfOne(t: Chars)
    ensures TokensFor([t]) == [Leaf(Datatypes.Text, TextBytes(t))]
  {
    hide TextBytes;
    assert [t][..0] == [] && TokensFor([t][..0]) == [];
  }

  lemma {:induction false} TwoBytes(v: nat)
    requires v < 16384
    ensures |Leb(v)| == if v < 128 then 1 else 2
  {
    if v >= 128 {
      assert v / 128 < 128;
      assert |Leb(v / 128)| == 1;
    }
  }

  /** The same text again and again is the same number again and again. */
  lemma {:induction false} CopiesPut(d: seq<Chars>, n: nat, g: Config) returns (s: seq<byte>)
    requires n >= 1 && g.shared.None? && g.c.utf8(NO_TEXT) && |d| < 16384
    ensures var i := IndexOf(d, NO_TEXT);
      && PutAll(d, TokensFor(Copies(n)), g) == TextsPut(s, if i.Some? then d else d + [NO_TEXT])
      && |s| == n * |Leb(if i.Some? then i.value else |d|)|
  {
    hide PutAll, TextBytes, TokensFor, Leb;
    var i := IndexOf(d, NO_TEXT);
    TokensOfOne(NO_TEXT);
    TokensAdd(Copies(n - 1), [NO_TEXT]);
    assert Copies(n) == Copies(n - 1) + [NO_TEXT];
    if n == 1 {
      NothingPuts(d, g);
      assert Copies(0) == [];
      OneMoreText(d, TokensFor([]), [], d, NO_TEXT, g);
      s := [] + Leb(if i.Some? then i.value else |d|);
    } else {
      var before := CopiesPut(d, n - 1, g);
      var now := if i.Some? then d else d + [NO_TEXT];
      assert IndexOf(now, NO_TEXT) == Some(if i.Some? then i.value else |d|);
      OneMoreText(d, TokensFor(Copies(n - 1)), before, now, NO_TEXT, g);
      s := before + Leb(if i.Some? then i.value else |d|);
    }
  }

  /** One row of `k` new texts and `n` times the empty one. */
  lemma {:induction false} RowPuts(d: seq<Chars>, k: nat, n: nat, g: Config) returns (s: seq<byte>)
    requires k <= 128 && 1 <= n < 0xFFFF_0000 && (d == [] || d == [NO_TEXT]) && g.shared.None? && Legible(Alphabet(128), g.c) && g.c.utf8(NO_TEXT)
    ensures var puts := PutAll(d, [Count(k + n)] + TokensFor(TextsOf(k, n)), g); var code := |Leb(if d == [] then k else 0)|;
      && puts.ok && puts.columns == Columns(Leb(k + n), [], s, [], [])
      && |puts.dictionary| == k + 1 && Short(puts.dictionary)
      && n * code <= |s| <= 2 * k + n * code
    ensures d == [] && k == 0 ==> PutAll(d, [Count(k + n)] + TokensFor(TextsOf(k, n)), g).dictionary == [NO_TEXT]
  {
    hide PutAll, TextBytes, TokensFor, Leb, Short, TextsOf;
    s := TextsOfPuts(d, k, n, g);
    CountThenTexts(d, k + n, TokensFor(TextsOf(k, n)), s, if d == [] then Alphabet(k) + [NO_TEXT] else d + Alphabet(k), g);
  }

  lemma {:induction false} CountThenTexts(d: seq<Chars>, m: u32, ts: seq<Token>, s: seq<byte>, now: seq<Chars>, g: Config)
    requires PutAll(d, ts, g) == TextsPut(s, now)
    ensures PutAll(d, [Count(m)] + ts, g) == Puts(Columns(Leb(m), [], s, [], []), now, true)
  {
    hide PutAll, Leb;
    PutsOne(d, Count(m), g);
    PutsAdd(d, [Count(m)], ts, g);
    var none: seq<byte> := [];
    assert none + none == none && none + s == s && Leb(m) + none == Leb(m);
  }

  lemma {:induction false} TextsOfPuts(d: seq<Chars>, k: nat, n: nat, g: Config) returns (s: seq<byte>)
    requires k <= 128 && n >= 1 && (d == [] || d == [NO_TEXT]) && g.shared.None? && Legible(Alphabet(128), g.c) && g.c.utf8(NO_TEXT)
    ensures var now := if d == [] then Alphabet(k) + [NO_TEXT] else d + Alphabet(k); var code := |Leb(if d == [] then k else 0)|;
      && PutAll(d, TokensFor(TextsOf(k, n)), g) == TextsPut(s, now) && |now| == k + 1 && Short(now)
      && n * code <= |s| <= 2 * k + n * code
  {
    hide PutAll, TextBytes, TokensFor, Leb, IndexOf;
    LegibleLess(k, 128, g.c);
    TokensAdd(Alphabet(k), Copies(n));
    PutsAdd(d, TokensFor(Alphabet(k)), TokensFor(Copies(n)), g);
    var a := AlphabetPuts(d, k, g);
    var b := CopiesPut(d + Alphabet(k), n, g);
    FirstIndex(d, k);
    s := a + b;
    var c := if d == [] then k else 0;
    var i := IndexOf(d + Alphabet(k), NO_TEXT);
    assert (if i.Some? then i.value else |d + Alphabet(k)|) == c && |b| == n * |Leb(c)|;
    assert d == [] ==> d + Alphabet(k) == Alphabet(k);
  }

  ghost predicate Short(d: seq<Chars>) {
    forall i :: 0 <= i < |d| ==> |d[i]| <= 1
  }

  lemma {:induction false} FirstIndex(d: seq<Chars>, k: nat)
    requires k <= 128 && (d == [] || d == [NO_TEXT])
    ensures IndexOf(d + Alphabet(k), NO_TEXT) == if d == [] then None else Some(0)
  {
    var all := d + Alphabet(k);
    forall j | |d| <= j < |all|
      ensures all[j] != NO_TEXT
    {
      assert all[j] == Alphabet(k)[j - |d|];
    }
    if d != [] {
      assert all[0] == NO_TEXT;
    }
  }

  lemma {:induction false} ShortBlobs(d: seq<Chars>)
    requires Short(d)
    ensures |Blobs(d)| <= 2 * |d|
  {
    if d != [] {
      ShortBlobs(d[..|d| - 1]);
      assert |Leb(|d[|d| - 1]|)| == 1;
    }
  }

  lemma {:induction false} NineFlat(meta: Meta, a: Columns)
    ensures |Flat(NineOf(meta, a))| == |meta.begins| + |meta.ids| + |meta.parents| + |meta.durations| + Size(a)
  {
    var e := NineOf(meta, a);
    assert e[..1] == [e[0]] && e[..2] == e[..1] + [e[1]] && e[..3] == e[..2] + [e[2]] && e[..4] == e[..3] + [e[3]];
    assert e[..5] == e[..4] + [e[4]] && e[..6] == e[..5] + [e[5]] && e[..7] == e[..6] + [e[6]] && e[..8] == e[..7] + [e[7]];
    assert e == e[..8] + [e[8]];
    FlatOfNone();
    assert [] + [e[0]] == e[..1];
    FlatGrows([], e[0]);
    FlatGrows(e[..1], e[1]);
    FlatGrows(e[..2], e[2]);
    FlatGrows(e[..3], e[3]);
    FlatGrows(e[..4], e[4]);
    FlatGrows(e[..5], e[5]);
    FlatGrows(e[..6], e[6]);
    FlatGrows(e[..7], e[7]);
    FlatGrows(e[..8], e[8]);
  }

  // ---------------------------------------------------------------- a record that is too large on its own, and not behind another

  const MANY: nat := 0x2000_0000

  function RowRecord(g: Generator, id: u64, k: nat, n: nat): Record
    requires k <= 128
  {
    Record(None, id, g.id, 0, 0, 1, PayloadOf(TextsOf(k, n)))
  }

  /** The first record uses the empty text once; the second uses 128 others, and the empty one very often. */
  function TwoRecords(g: Generator): seq<Record> {
    [RowRecord(g, 2, 0, 1), RowRecord(g, 3, 128, MANY)]
  }

  function TwoBucket(g: Generator): Bucket {
    Bucket(g, None, g.payloadType, TwoRecords(g))
  }

  lemma {:induction false} RowsLegible(k: nat, n: nat, c: Context)
    requires k <= 128 && Legible(Alphabet(128), c) && c.utf8(NO_TEXT)
    ensures Legible(TextsOf(k, n), c)
  {
    LegibleLess(k, 128, c);
  }

  lemma {:induction false} RecordRows(types: seq<Datatype>, g: Generator, id: u64, k: nat, n: nat, c: Context)
    requires HasTexts(types, g.payloadType) && g.kind.Event? && Legible(Alphabet(128), c) && c.utf8(NO_TEXT)
    requires id >= 2 && k <= 128 && 1 <= n <= MANY
    ensures RowOk(SourceOf(types, TwoBucket(g)), RowRecord(g, id, k, n), c)
    ensures Meaning(types, g.payloadType, PayloadOf(TextsOf(k, n)), c) == Some(Walked([Count(k + n)] + TokensFor(TextsOf(k, n)), []))
  {
    hide Proper, Validate, Meaning, PayloadOf, TokensFor, TwoRecords;
    RowsLegible(k, n, c);
    PayloadMeans(types, g.payloadType, TextsOf(k, n), c);
  }

  /** The columns of one such record on its own. */
  lemma {:induction false} OneSize(types: seq<Datatype>, g: Generator, id: u64, k: nat, n: nat, c: Context)
    requires HasTexts(types, g.payloadType) && g.kind.Event? && Legible(Alphabet(128), c) && c.utf8(NO_TEXT)
    requires 2 <= id < 64 && k <= 128 && 1 <= n <= MANY
    ensures var b := Bucket(g, None, g.payloadType, [RowRecord(g, id, k, n)]); var code := |Leb(k)|;
      Encodable(b, types, c) && n * code <= |Flat(ColumnsFor(b, types, c))| <= n * code + 2 * k + 2 * (k + 1) + 13
  {
    hide Proper, Validate, Meaning, PayloadOf, TokensFor, PutAll, Leb, Flat, TwoRecords, Blobs, MetaAll, TokensOf, ValidRecord;
    var b := Bucket(g, None, g.payloadType, [RowRecord(g, id, k, n)]);
    var s := SourceOf(types, b);
    RecordRows(types, g, id, k, n, c);
    assert RowOk(s, b.records[0], c);
    OneRow(s, b.records[0], c);
    var puts := PutsOf(types, g.payloadType, b.records, c);
    var texts := RowPuts([], k, n, Unshared(c));
    var meta := MetaAll(g.kind, b.records);
    OneMeta(g, id, k, n);
    ShortBlobs(puts.dictionary);
    NineFlat(meta, Finished(Store(puts.columns, puts.dictionary), Unshared(c)));
    LebIsShort(k + n);
    LebIsShort(Descriptor(puts.dictionary, Unshared(c)));
  }

  lemma {:induction false} SmallDelta(now: u64, before: u64)
    requires before <= now < before + 64
    ensures |DeltaBytes(now, before)| == 1
  {
    hide Leb;
    assert Wrap64(now - before) == now - before;
    TwoBytes(2 * (now - before));
  }

  lemma {:induction false} OneMeta(g: Generator, id: u64, k: nat, n: nat)
    requires g.kind.Event? && 2 <= id < 64 && k <= 128
    ensures var r := RowRecord(g, id, k, n);
      && ValidRecord(r, g.kind) && AllValid([r], g.kind)
      && var meta := MetaAll(g.kind, [r]); |meta.begins| == 1 && |meta.ids| == 1 && |meta.parents| == 1 && |meta.durations| == 0
  {
    hide PayloadOf, DeltaBytes, Leb;
    var r := RowRecord(g, id, k, n);
    SmallDelta(0, 0);
    SmallDelta(id, 0);
    SmallDelta(1, 0);
    assert [r][..0] == [] && MetaAll(g.kind, [r][..0]) == NO_META;
  }

  lemma {:induction false} TwoMeta(g: Generator)
    requires g.kind.Event?
    ensures var rs := TwoRecords(g);
      && AllValid(rs, g.kind)
      && var meta := MetaAll(g.kind, rs); |meta.begins| == 2 && |meta.ids| == 2 && |meta.parents| == 2 && |meta.durations| == 0
  {
    hide PayloadOf, DeltaBytes, Leb;
    var rs := TwoRecords(g);
    SmallDelta(0, 0);
    SmallDelta(3, 2);
    SmallDelta(1, 1);
    OneMeta(g, 2, 0, 1);
    OneMeta(g, 3, 128, MANY);
    assert rs[..1] == [rs[0]];
  }

  /** Together they are little more than half as large as the second alone. */
  lemma {:induction false} TwoSize(types: seq<Datatype>, g: Generator, c: Context)
    requires HasTexts(types, g.payloadType) && g.kind.Event? && Legible(Alphabet(128), c) && c.utf8(NO_TEXT)
    ensures Encodable(TwoBucket(g), types, c) && |Flat(ColumnsFor(TwoBucket(g), types, c))| <= MANY + 600
  {
    hide Proper, Validate, Meaning, PayloadOf, TokensFor, PutAll, Leb, Flat, Blobs, MetaAll, TokensOf, ValidRecord, RowOk, SegmentOk;
    var b, s := TwoBucket(g), SourceOf(types, TwoBucket(g));
    var r1, r2 := b.records[0], b.records[1];
    assert b.records == [r1] + [r2];
    RecordRows(types, g, 2, 0, 1, c);
    RecordRows(types, g, 3, 128, MANY, c);
    OneRow(s, r1, c);
    MoreRows(s, [r1], r2, c);
    SegmentIsOk(s, b.records, c);
    var first, second := [Count(1)] + TokensFor(TextsOf(0, 1)), [Count(128 + MANY)] + TokensFor(TextsOf(128, MANY));
    assert TokensOf(types, RowsFor(b.records, g.payloadType), c) == first + second;
    PutsAdd([], first, second, Unshared(c));
    var s1 := RowPuts([], 0, 1, Unshared(c));
    var s2 := RowPuts([NO_TEXT], 128, MANY, Unshared(c));
    var puts := PutsOf(types, g.payloadType, b.records, c);
    var meta := MetaAll(g.kind, b.records);
    TwoMeta(g);
    ShortBlobs(puts.dictionary);
    NineFlat(meta, Finished(Store(puts.columns, puts.dictionary), Unshared(c)));
    SizeAdds(Columns(Leb(1), [], s1, [], []), Columns(Leb(128 + MANY), [], s2, [], []));
    LebIsShort(128 + MANY);
    LebIsShort(1);
    TwoBytes(0);
    LebIsShort(Descriptor(puts.dictionary, Unshared(c)));
  }

  const ROOMY: nat := MANY + 1000

  /**
   * A record that is too large on its own need not make the block too large: behind another, its texts can have shorter numbers. The
   * block of these two records is one segment, which is not too large, although the second alone is.
   */
  lemma {:induction false} LaterRecordFits(types: seq<Datatype>, g: Generator, c: Context)
    requires HasTexts(types, g.payloadType) && g.kind.Event? && Legible(Alphabet(128), c) && c.utf8(NO_TEXT)
    ensures var rs, b, gens := TwoRecords(g), TwoBucket(g), map[g.id := g];
      && ROOMY + 100 <= MAX_BLOCK_BYTES
      && AllSourced(rs, gens) && BucketsOf(rs, gens) == [b] && AllRowsOk([b], types, c)
      && Oversized(Slice(b, 1, 2), types, c)
      && AllPieces([b], ROOMY, types, c) == [b] && !SomeOversized([b], types, c)
  {
    hide Proper, PayloadOf, RowOk, Encodable, ColumnsFor, Flat, CutEnd, BucketsOf, ValidRecord, Leb;
    var b := TwoBucket(g);
    RecordRows(types, g, 2, 0, 1, c);
    RecordRows(types, g, 3, 128, MANY, c);
    assert RowsAreOk(b, types, c);
    assert b.records[1..2] == [b.records[1]] && b.records[0..1] == [b.records[0]] && b.records[0..2] == b.records;
    TwoBytes(128);
    TwoBytes(0);
    OneSize(types, g, 3, 128, MANY, c);
    OneSize(types, g, 2, 0, 1, c);
    TwoSize(types, g, c);
    SizeBounds(Slice(b, 0, 1), types, c);
    SizeBounds(b, types, c);
    CutGoesOn(b, 0, 1, ROOMY, types, c);
    CutIsFull(b, 0, 2, ROOMY, types, c);
    FirstPiece(b, 0, ROOMY, types, c);
    OneBucket(g);
    assert Slice(b, 0, 2) == b;
    OnePiece(b, ROOMY, types, c);
  }

  lemma {:induction false} OnePiece(b: Bucket, pageBytes: nat, types: seq<Datatype>, c: Context)
    requires Proper(types) && RowsAreOk(b, types, c)
    ensures AllRowsOk([b], types, c) && AllPieces([b], pageBytes, types, c) == Pieces(b, 0, pageBytes, types, c)
    ensures Pieces(b, |b.records|, pageBytes, types, c) == []
  {
    hide Proper, RowsAreOk, CutEnd;
    assert [b][..0] == [] && AllPieces([b][..0], pageBytes, types, c) == [];
  }

  lemma {:induction false} OneBucket(g: Generator)
    requires g.kind.Event?
    ensures AllSourced(TwoRecords(g), map[g.id := g]) && BucketsOf(TwoRecords(g), map[g.id := g]) == [TwoBucket(g)]
  {
    hide PayloadOf;
    var rs, gens := TwoRecords(g), map[g.id := g];
    assert rs[..1][..0] == [] && rs[..1] == [rs[0]];
    assert BucketsOf([], gens) == [];
    assert BucketsOf(rs[..1], gens) == [Bucket(g, None, g.payloadType, [rs[0]])];
    assert [rs[0]] + [rs[1]] == rs;
  }
}
