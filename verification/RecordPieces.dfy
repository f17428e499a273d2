/** Into which segments the records of one source are cut, and which segments are too large for the format. */
module RecordPieces {
  import opened Limbs
  import opened Varint
  import opened Slices
  import opened ColumnPacking
  import opened Datatypes
  import opened DatatypeWalks
  import opened ArgumentColumns
  import opened ArgumentRoundTrip
  import opened ArgumentRows
  import opened ArgumentReaders
  import opened Records
  import opened RecordSegments
  import opened RecordGroups

  const NO_LIMIT: nat := 0xFFFF_FFFF

  function SourceOf(types: seq<Datatype>, b: Bucket): Source {
    Source(types, b.generator, b.selection, b.datatype_)
  }

  ghost predicate RowOk(s: Source, r: Record, c: Context)
    requires Proper(s.types)
  {
    && ValidRecord(r, s.generator.kind) && OfSource(r, s) && Validate(s.types, s.datatype_, r.payload, c)
    && Meaning(s.types, s.datatype_, r.payload, c).Some? && |r.payload| <= NO_LIMIT
  }

  ghost predicate RowsAreOk(b: Bucket, types: seq<Datatype>, c: Context)
    requires Proper(types)
  {
    forall k :: 0 <= k < |b.records| ==> RowOk(SourceOf(types, b), b.records[k], c)
  }

  function Slice(b: Bucket, first: nat, index: nat): Bucket
    requires first <= index <= |b.records|
  {
    b.(records := b.records[first..index])
  }

  // ---------------------------------------------------------------- how large

  ghost predicate Encodable(b: Bucket, types: seq<Datatype>, c: Context)
    requires Proper(types)
  {
    AllValid(b.records, b.generator.kind) && RowsOk(types, RowsFor(b.records, b.datatype_), c)
  }

  ghost function ColumnsFor(b: Bucket, types: seq<Datatype>, c: Context): (columns: seq<Entry>)
    requires Proper(types) && Encodable(b, types, c)
    ensures |columns| == 9
  {
    SegmentColumns(types, b.generator.kind, b.datatype_, b.records, c)
  }

  /** How long the segment of these records is. */
  ghost function SizeOf(b: Bucket, types: seq<Datatype>, c: Context): nat
    requires Proper(types) && Encodable(b, types, c)
  {
    |PackedColumns(ColumnsFor(b, types, c))|
  }

  /** Records whose columns exceed what the format packs. */
  ghost predicate Oversized(b: Bucket, types: seq<Datatype>, c: Context)
    requires Proper(types)
  {
    Encodable(b, types, c) && |Flat(ColumnsFor(b, types, c))| + 100 >= MAX_BLOCK_BYTES
  }

  /** Larger than any page. */
  ghost predicate Huge(b: Bucket, types: seq<Datatype>, c: Context)
    requires Proper(types)
  {
    Encodable(b, types, c) && |Flat(ColumnsFor(b, types, c))| >= MAX_BLOCK_BYTES
  }

  lemma {:induction false} SliceOk(b: Bucket, first: nat, index: nat, types: seq<Datatype>, c: Context)
    requires Proper(types) && RowsAreOk(b, types, c) && first <= index <= |b.records|
    ensures RowsAreOk(Slice(b, first, index), types, c) && Encodable(Slice(b, first, index), types, c)
  {
    hide Proper, Validate, Meaning, ValidRecord, OfSource;
    var piece := Slice(b, first, index);
    forall k | 0 <= k < |piece.records|
      ensures RowOk(SourceOf(types, piece), piece.records[k], c)
    {
      assert piece.records[k] == b.records[first + k];
    }
  }

  /** A segment is longer than its columns, but not by much. */
  lemma {:induction false} SizeBounds(b: Bucket, types: seq<Datatype>, c: Context)
    requires Proper(types) && Encodable(b, types, c)
    ensures SizeOf(b, types, c) >= |Flat(ColumnsFor(b, types, c))| + 10
    ensures |Flat(ColumnsFor(b, types, c))| < MAX_BLOCK_BYTES ==> SizeOf(b, types, c) <= |Flat(ColumnsFor(b, types, c))| + 46
  {
    hide Proper, Encodable, ColumnsFor, Flat, PackedColumns, PackedSize;
    var columns := ColumnsFor(b, types, c);
    NinePacked(columns);
    PackedIsLong(columns);
    if |Flat(columns)| < MAX_BLOCK_BYTES {
      PackedIsShort(columns);
    }
  }

  lemma {:induction false} LebIsShort(v: nat)
    requires v < 0x4000_0000
    ensures |Leb(v)| <= 5
  {
    assert v / 128 < 0x80_0000 && v / 128 / 128 < 0x1_0000 && v / 128 / 128 / 128 < 0x200 && v / 128 / 128 / 128 / 128 < 4;
    assert |Leb(v / 128 / 128 / 128 / 128)| == 1;
    assert |Leb(v / 128 / 128 / 128)| <= 2;
    assert |Leb(v / 128 / 128)| <= 3;
    assert |Leb(v / 128)| <= 4;
  }

  lemma {:induction false} LebHasByte(v: nat)
    ensures |Leb(v)| >= 1
  {
  }

  lemma {:induction false} PackedIsShort(columns: seq<Entry>)
    requires |Flat(columns)| < MAX_BLOCK_BYTES
    ensures PackedSize(columns) <= 5 * |columns| + |Flat(columns)|
  {
    hide Leb;
    if columns != [] {
      PackedIsShort(columns[..|columns| - 1]);
      LebIsShort(|columns[|columns| - 1]|);
    }
  }

  lemma {:induction false} PackedIsLong(columns: seq<Entry>)
    ensures PackedSize(columns) >= |columns| + |Flat(columns)|
  {
    hide Leb;
    if columns != [] {
      PackedIsLong(columns[..|columns| - 1]);
      LebHasByte(|columns[|columns| - 1]|);
    }
  }

  // ---------------------------------------------------------------- where segments end

  /**
   * Where the segment ends that has taken the records up to `index`: with the first record that makes it as long as a page, or
   * before the first that would make it longer.
   */
  ghost function CutEnd(b: Bucket, first: nat, index: nat, pageBytes: nat, types: seq<Datatype>, c: Context): (end: nat)
    requires Proper(types) && RowsAreOk(b, types, c) && first < index <= |b.records|
    ensures index <= end <= |b.records|
    decreases |b.records| - index
  {
    SliceOk(b, first, index, types, c);
    if index == |b.records| || SizeOf(Slice(b, first, index), types, c) >= pageBytes then index else
      SliceOk(b, first, index + 1, types, c);
      if SizeOf(Slice(b, first, index + 1), types, c) > pageBytes then index else CutEnd(b, first, index + 1, pageBytes, types, c)
  }

  /** The segments of one source, from this record on. */
  ghost function Pieces(b: Bucket, first: nat, pageBytes: nat, types: seq<Datatype>, c: Context): (pieces: seq<Bucket>)
    requires Proper(types) && RowsAreOk(b, types, c) && first <= |b.records|
    ensures |pieces| <= |b.records| - first
    decreases |b.records| - first
  {
    if first == |b.records| then [] else
      var end := CutEnd(b, first, first + 1, pageBytes, types, c);
      [Slice(b, first, end)] + Pieces(b, end, pageBytes, types, c)
  }

  ghost predicate AllRowsOk(bs: seq<Bucket>, types: seq<Datatype>, c: Context)
    requires Proper(types)
  {
    forall i :: 0 <= i < |bs| ==> RowsAreOk(bs[i], types, c)
  }

  /** The segments of all sources. */
  ghost function AllPieces(bs: seq<Bucket>, pageBytes: nat, types: seq<Datatype>, c: Context): (pieces: seq<Bucket>)
    requires Proper(types) && AllRowsOk(bs, types, c)
    ensures |pieces| <= RecordCount(bs)
  {
    if bs == [] then [] else
      AllPieces(bs[..|bs| - 1], pageBytes, types, c) + Pieces(bs[|bs| - 1], 0, pageBytes, types, c)
  }

  ghost predicate SomeOversized(pieces: seq<Bucket>, types: seq<Datatype>, c: Context)
    requires Proper(types)
  {
    exists i :: 0 <= i < |pieces| && Oversized(pieces[i], types, c)
  }

  /** A segment of more than one record fits a page, and takes as many records as do. */
  lemma {:induction false} CutsAreGreedy(b: Bucket, first: nat, index: nat, pageBytes: nat, types: seq<Datatype>, c: Context)
    requires Proper(types) && RowsAreOk(b, types, c) && first < index <= |b.records|
    ensures forall j :: first <= j <= |b.records| ==> Encodable(Slice(b, first, j), types, c)
    ensures var end := CutEnd(b, first, index, pageBytes, types, c);
      && (end > index ==> SizeOf(Slice(b, first, end), types, c) <= pageBytes)
      && (forall j :: index <= j < end ==> SizeOf(Slice(b, first, j), types, c) < pageBytes)
      && (|| end == |b.records| || SizeOf(Slice(b, first, end), types, c) >= pageBytes
          || SizeOf(Slice(b, first, end + 1), types, c) > pageBytes)
    decreases |b.records| - index
  {
    hide Proper, RowsAreOk, Encodable, SizeOf;
    forall j | first <= j <= |b.records|
      ensures Encodable(Slice(b, first, j), types, c)
    {
      SliceOk(b, first, j, types, c);
    }
    if index < |b.records| {
      CutsAreGreedy(b, first, index + 1, pageBytes, types, c);
    }
  }

  predicate Lone(b: Bucket, k: nat, piece: Bucket) {
    k < |b.records| && piece == Slice(b, k, k + 1)
  }

  lemma {:induction false} FirstIsAlone(b: Bucket, first: nat, end: nat, pageBytes: nat, types: seq<Datatype>, c: Context)
    requires Proper(types) && RowsAreOk(b, types, c) && first < |b.records| && pageBytes + 100 <= MAX_BLOCK_BYTES
    requires end == CutEnd(b, first, first + 1, pageBytes, types, c) && Oversized(Slice(b, first, end), types, c)
    ensures Lone(b, first, Slice(b, first, end))
  {
    hide Proper, RowsAreOk, Encodable, SizeOf, CutEnd, Flat, Slice;
    CutsAreGreedy(b, first, first + 1, pageBytes, types, c);
    SizeBounds(Slice(b, first, end), types, c);
  }

  /** With room for the packing on a page, no segment of more than one record is too large. */
  lemma {:induction false} OversizedIsAlone(b: Bucket, first: nat, i: nat, pageBytes: nat, types: seq<Datatype>, c: Context)
    requires Proper(types) && RowsAreOk(b, types, c) && first <= |b.records| && pageBytes + 100 <= MAX_BLOCK_BYTES
    requires i < |Pieces(b, first, pageBytes, types, c)| && Oversized(Pieces(b, first, pageBytes, types, c)[i], types, c)
    ensures exists k :: k >= first && Lone(b, k, Pieces(b, first, pageBytes, types, c)[i])
    decreases |b.records| - first
  {
    hide Proper, RowsAreOk, Encodable, SizeOf, CutEnd, Flat, Oversized;
    var end := CutEnd(b, first, first + 1, pageBytes, types, c);
    if i == 0 {
      FirstIsAlone(b, first, end, pageBytes, types, c);
    } else {
      OversizedIsAlone(b, end, i - 1, pageBytes, types, c);
      var k :| k >= end && Lone(b, k, Pieces(b, end, pageBytes, types, c)[i - 1]);
      assert Lone(b, k, Pieces(b, first, pageBytes, types, c)[i]);
    }
  }

  // ---------------------------------------------------------------- too many texts

  function TextCount(ts: seq<Token>): nat {
    if ts == [] then 0 else
      TextCount(ts[..|ts| - 1]) + if ts[|ts| - 1].Leaf? && ts[|ts| - 1].primitive.Text? then 1 else 0
  }

  /** Every text puts down a byte, and at most one entry of the dictionary. */
  lemma {:induction false} TextsCounted(d: seq<Chars>, ts: seq<Token>, g: Config)
    ensures |PutAll(d, ts, g).dictionary| <= |d| + TextCount(ts)
    ensures PutAll(d, ts, g).ok ==> |PutAll(d, ts, g).columns.texts| >= TextCount(ts)
  {
    hide PutToken;
    if ts != [] {
      var front, t := ts[..|ts| - 1], ts[|ts| - 1];
      TextsCounted(d, front, g);
      if PutAll(d, front, g).ok && PutToken(PutAll(d, front, g).dictionary, t, g).Some? {
        TextCounted(PutAll(d, front, g).dictionary, t, g);
      }
    }
  }

  lemma {:induction false} TextCounted(d: seq<Chars>, t: Token, g: Config)
    requires PutToken(d, t, g).Some?
    ensures var p := PutToken(d, t, g).value; var n := if t.Leaf? && t.primitive.Text? then 1 else 0;
      |p.dictionary| <= |d| + n && |p.columns.texts| >= n
  {
    hide Leb, IndexOf, SignedWord, Word;
    forall v: nat
      ensures |Leb(v)| >= 1
    {
      LebHasByte(v);
    }
  }

  /** Without a shared table a row is refused only when the dictionary is full. */
  lemma {:induction false} FullDictionary(d: seq<Chars>, ts: seq<Token>, g: Config)
    requires TokensOk(ts, g.c) && g.shared.None? && !PutAll(d, ts, g).ok
    ensures |PutAll(d, ts, g).dictionary| >= 0x1_0000_0000
  {
    hide PutToken, Plus, TokenOk;
    var front, last := ts[..|ts| - 1], ts[|ts| - 1];
    if !PutAll(d, front, g).ok {
      FullDictionary(d, front, g);
    } else {
      RefusedIff(PutAll(d, front, g).dictionary, last, g);
    }
  }

  lemma {:induction false} BlobsAreMany(dictionary: seq<Chars>)
    ensures |Blobs(dictionary)| >= |dictionary|
  {
    if dictionary != [] {
      BlobsAreMany(dictionary[..|dictionary| - 1]);
    }
  }

  /** Texts and dictionary are part of what is packed. */
  lemma {:induction false} ColumnsAreParts(meta: Meta, s: Store, g: Config)
    ensures |Flat(NineOf(meta, Finished(s, g)))| >= |s.dictionary| && |Flat(NineOf(meta, Finished(s, g)))| >= |s.columns.texts|
  {
    hide Leb, Blobs, Flat;
    BlobsAreMany(s.dictionary);
    PieceAt(NineOf(meta, Finished(s, g)), 7);
    PieceAt(NineOf(meta, Finished(s, g)), 6);
  }

  /** Texts that overflow a dictionary with few entries are too many on their own. */
  lemma {:induction false} ManyTexts(meta: Meta, d: seq<Chars>, ts: seq<Token>, g: Config)
    requires TokensOk(ts, g.c) && g.shared.None? && !PutAll(d, ts, g).ok && |d| < MAX_BLOCK_BYTES
    ensures var puts := PutAll([], ts, g); |Flat(NineOf(meta, Finished(Store(puts.columns, puts.dictionary), g)))| >= MAX_BLOCK_BYTES
  {
    hide PutAll, Finished, Flat, TokensOk;
    FullDictionary(d, ts, g);
    TextsCounted(d, ts, g);
    TextsCounted([], ts, g);
    var puts := PutAll([], ts, g);
    if !puts.ok {
      FullDictionary([], ts, g);
    }
    ColumnsAreParts(meta, Store(puts.columns, puts.dictionary), g);
  }
}
