/** Blocks of records: buckets cut into segments, segments laid onto pages. */
module RecordBlocks {
  import opened Options
  import opened Words
  import opened Varint
  import opened Slices
  import opened ColumnPacking
  import opened Datatypes
  import opened DatatypeWalks
  import opened ArgumentColumns
  import opened ArgumentRoundTrip
  import opened ArgumentRows
  import opened Records
  import opened RecordSegments
  import opened RecordGroups
  import opened RecordPieces

  datatype Block = Block(number: u64, bounds: Bounds, segments: seq<SegmentHeader>, pages: seq<seq<byte>>)

  // ---------------------------------------------------------------- segments on pages

  /** A chunk of one bucket that can be a segment. */
  ghost predicate ChunkOk(b: Bucket, types: seq<Datatype>, gens: Generators, c: Context) {
    && Proper(types) && BucketOk(b, gens) && SegmentOk(SourceOf(types, b), b.records, c, NO_LIMIT)
    && PutsOf(types, b.datatype_, b.records, c).ok
    && |Flat(SegmentColumns(types, b.generator.kind, b.datatype_, b.records, c))| + 100 < MAX_BLOCK_BYTES
  }

  ghost function RawOf(b: Bucket, types: seq<Datatype>, gens: Generators, c: Context): seq<byte>
    requires ChunkOk(b, types, gens, c)
  {
    PackedColumns(SegmentColumns(types, b.generator.kind, b.datatype_, b.records, c))
  }

  predicate OnPage(h: SegmentHeader, pages: seq<seq<byte>>) {
    h.page < |pages| && h.rawOffset + h.rawLength <= |pages[h.page]|
  }

  /** The header describes the chunk, and its place on the page holds the chunk's columns. */
  ghost predicate SegmentIs(h: SegmentHeader, pages: seq<seq<byte>>, b: Bucket, types: seq<Datatype>, gens: Generators, c: Context) {
    && ChunkOk(b, types, gens, c)
    && h.generator == b.generator.id && h.selection == b.selection && h.count == |b.records| && BoundsMatch(BoundsOf(b.records), h)
    && OnPage(h, pages) && pages[h.page][h.rawOffset..h.rawOffset + h.rawLength] == RawOf(b, types, gens, c)
  }

  /** Segments lie one behind the other; a new page begins only where one is full. */
  predicate TilesAt(segments: seq<SegmentHeader>, pages: seq<seq<byte>>, i: nat)
    requires i < |segments|
  {
    var h := segments[i];
    && OnPage(h, pages) && h.rawLength > 0
    && if i == 0 then h.page == 0 && h.rawOffset == 0 else
         var before := segments[i - 1];
         || (h.page == before.page && h.rawOffset == before.rawOffset + before.rawLength)
         || (h.page == before.page + 1 && h.rawOffset == 0 && OnPage(before, pages)
             && before.rawOffset + before.rawLength == |pages[before.page]|)
  }

  predicate EndsFull(segments: seq<SegmentHeader>, pages: seq<seq<byte>>) {
    if segments == [] then pages == [] else
      var last := segments[|segments| - 1];
      last.page + 1 == |pages| && last.rawOffset + last.rawLength == |pages[last.page]|
  }

  ghost predicate LaidOut(segments: seq<SegmentHeader>, chunks: seq<Bucket>, pages: seq<seq<byte>>, types: seq<Datatype>, gens: Generators, c: Context) {
    && |segments| == |chunks| && EndsFull(segments, pages)
    && (forall i :: 0 <= i < |segments| ==> SegmentIs(segments[i], pages, chunks[i], types, gens, c))
    && forall i :: 0 <= i < |segments| ==> TilesAt(segments, pages, i)
  }

  /** The pages that are done, and the one being filled. */
  function WithRaw(pages: seq<seq<byte>>, raw: seq<byte>): seq<seq<byte>> {
    if raw == [] then pages else pages + [raw]
  }

  function HeaderFor(b: Bucket, page: nat, offset: nat, length: nat): SegmentHeader {
    var bounds := BoundsOf(b.records);
    SegmentHeader(b.selection, b.generator.id, page, |b.records|, offset, length, bounds.minId, bounds.maxId, ParentMin(bounds),
                  bounds.maxParent, bounds.begin, bounds.end)
  }

  /** The page being filled grows by one segment. */
  lemma {:induction false} LaysOneMore(segments: seq<SegmentHeader>, chunks: seq<Bucket>, pages: seq<seq<byte>>, raw: seq<byte>, b: Bucket,
                                       bytes: seq<byte>, types: seq<Datatype>, gens: Generators, c: Context)
    requires LaidOut(segments, chunks, WithRaw(pages, raw), types, gens, c) && ChunkOk(b, types, gens, c)
    requires bytes == RawOf(b, types, gens, c) && bytes != []
    ensures LaidOut(segments + [HeaderFor(b, |pages|, |raw|, |bytes|)], chunks + [b], WithRaw(pages, raw + bytes), types, gens, c)
  {
    hide ChunkOk, RawOf, HeaderFor, TilesAt, SegmentIs, WithRaw;
    var h := HeaderFor(b, |pages|, |raw|, |bytes|);
    var segments', chunks' := segments + [h], chunks + [b];
    forall i | 0 <= i < |segments'|
      ensures SegmentIs(segments'[i], WithRaw(pages, raw + bytes), chunks'[i], types, gens, c) && TilesAt(segments', WithRaw(pages, raw + bytes), i)
    {
      if i < |segments| {
        OldStays(segments, chunks, pages, raw, h, bytes, types, gens, c, i);
      } else {
        NewIs(pages, raw, b, bytes, types, gens, c);
        NewTiles(segments, chunks, pages, raw, b, bytes, types, gens, c);
      }
    }
    NewEnds(pages, raw, b, bytes);
  }

  lemma {:induction false} OldStays(segments: seq<SegmentHeader>, chunks: seq<Bucket>, pages: seq<seq<byte>>, raw: seq<byte>, h: SegmentHeader,
                                    bytes: seq<byte>, types: seq<Datatype>, gens: Generators, c: Context, i: nat)
    requires LaidOut(segments, chunks, WithRaw(pages, raw), types, gens, c) && bytes != [] && i < |segments|
    ensures SegmentIs(segments[i], WithRaw(pages, raw + bytes), chunks[i], types, gens, c)
    ensures TilesAt(segments + [h], WithRaw(pages, raw + bytes), i)
  {
    hide ChunkOk, RawOf, BoundsMatch, BoundsOf, EndsFull;
    var all := WithRaw(pages, raw);
    assert SegmentIs(segments[i], all, chunks[i], types, gens, c) && TilesAt(segments, all, i);
    GrowsPage(pages, raw, bytes, segments[i]);
    if i > 0 {
      assert TilesAt(segments, all, i - 1);
      GrowsPage(pages, raw, bytes, segments[i - 1]);
    }
  }

  lemma {:induction false} NewIs(pages: seq<seq<byte>>, raw: seq<byte>, b: Bucket, bytes: seq<byte>, types: seq<Datatype>, gens: Generators, c: Context)
    requires ChunkOk(b, types, gens, c) && bytes == RawOf(b, types, gens, c) && bytes != []
    ensures SegmentIs(HeaderFor(b, |pages|, |raw|, |bytes|), WithRaw(pages, raw + bytes), b, types, gens, c)
  {
    hide ChunkOk, RawOf, BoundsMatch, BoundsOf;
    assert (raw + bytes)[|raw|..|raw| + |bytes|] == bytes;
    BoundsOfChunk(b, |pages|, |raw|, |bytes|);
  }

  lemma {:induction false} NewTiles(segments: seq<SegmentHeader>, chunks: seq<Bucket>, pages: seq<seq<byte>>, raw: seq<byte>, b: Bucket,
                                    bytes: seq<byte>, types: seq<Datatype>, gens: Generators, c: Context)
    requires LaidOut(segments, chunks, WithRaw(pages, raw), types, gens, c) && bytes != []
    ensures TilesAt(segments + [HeaderFor(b, |pages|, |raw|, |bytes|)], WithRaw(pages, raw + bytes), |segments|)
  {
    hide ChunkOk, RawOf, BoundsOf, SegmentIs;
    var i := |segments|;
    if i > 0 {
      assert TilesAt(segments, WithRaw(pages, raw), i - 1);
      GrowsPage(pages, raw, bytes, segments[i - 1]);
    }
  }

  lemma {:induction false} NewEnds(pages: seq<seq<byte>>, raw: seq<byte>, b: Bucket, bytes: seq<byte>)
    requires bytes != []
    ensures |WithRaw(pages, raw + bytes)| == |pages| + 1 && HeaderFor(b, |pages|, |raw|, |bytes|).page == |pages|
    ensures |raw| + |bytes| == |WithRaw(pages, raw + bytes)[|pages|]|
    ensures HeaderFor(b, |pages|, |raw|, |bytes|).rawOffset == |raw| && HeaderFor(b, |pages|, |raw|, |bytes|).rawLength == |bytes|
  {
  }

  lemma {:induction false} BoundsOfChunk(b: Bucket, page: nat, offset: nat, length: nat)
    ensures BoundsOf(b.records).count == |b.records|
    ensures BoundsMatch(BoundsOf(b.records), HeaderFor(b, page, offset, length))
  {
    CountOfBounds(b.records);
  }

  lemma {:induction false} CountOfBounds(rs: seq<Record>)
    ensures BoundsOf(rs).count == |rs|
  {
    if rs != [] {
      CountOfBounds(rs[..|rs| - 1]);
    }
  }

  /** What is on a page stays where it is when the page being filled grows. */
  lemma {:induction false} GrowsPage(pages: seq<seq<byte>>, raw: seq<byte>, bytes: seq<byte>, h: SegmentHeader)
    requires OnPage(h, WithRaw(pages, raw)) && bytes != []
    ensures OnPage(h, WithRaw(pages, raw + bytes))
    ensures WithRaw(pages, raw + bytes)[h.page][h.rawOffset..h.rawOffset + h.rawLength]
            == WithRaw(pages, raw)[h.page][h.rawOffset..h.rawOffset + h.rawLength]
    ensures h.page < |pages| ==> WithRaw(pages, raw + bytes)[h.page] == WithRaw(pages, raw)[h.page]
    ensures h.page <= |pages| && (h.page == |pages| ==> raw != [])
  {
    if h.page == |pages| {
      assert (raw + bytes)[h.rawOffset..h.rawOffset + h.rawLength] == raw[h.rawOffset..h.rawOffset + h.rawLength];
    }
  }

  // ---------------------------------------------------------------- one segment

  lemma {:induction false} TruncatedMeta(a: Meta, b: Meta)
    ensures var m := PlusMeta(a, b);
      && |a.begins| <= |m.begins| && |a.ids| <= |m.ids| && |a.parents| <= |m.parents| && |a.durations| <= |m.durations|
      && Meta(m.begins[..|a.begins|], m.ids[..|a.ids|], m.parents[..|a.parents|], m.durations[..|a.durations|]) == a
  {
    Prefix(a.begins, b.begins);
    Prefix(a.ids, b.ids);
    Prefix(a.parents, b.parents);
    Prefix(a.durations, b.durations);
  }

  /** What the encoder holds after the rows so far. */
  ghost predicate Holding(s: Source, rs: seq<Record>, c: Context, meta: Meta, store: Store)
    requires Proper(s.types)
  {
    && SegmentOk(s, rs, c, NO_LIMIT) && PutsOf(s.types, s.datatype_, rs, c).ok
    && meta == MetaAll(s.generator.kind, rs)
    && store == Store(PutsOf(s.types, s.datatype_, rs, c).columns, PutsOf(s.types, s.datatype_, rs, c).dictionary)
  }

  lemma {:induction false} HoldingNothing(s: Source, c: Context)
    requires Proper(s.types)
    ensures Holding(s, [], c, NO_META, Store(NO_COLUMNS, []))
  {
    hide Proper;
    assert RowsFor([], s.datatype_) == [];
  }

  lemma {:induction false} MoreRows(s: Source, rs: seq<Record>, r: Record, c: Context)
    requires Proper(s.types) && SegmentOk(s, rs, c, NO_LIMIT) && RowOk(s, r, c)
    ensures SegmentOk(s, rs + [r], c, NO_LIMIT)
    ensures TokensOf(s.types, RowsFor(rs + [r], s.datatype_), c)
            == TokensOf(s.types, RowsFor(rs, s.datatype_), c) + Meaning(s.types, s.datatype_, r.payload, c).value.tokens
    ensures MetaAll(s.generator.kind, rs + [r]) == PlusMeta(MetaAll(s.generator.kind, rs), MetaOf(s.generator.kind, PrevOf(rs), r))
    ensures BoundsOf(rs + [r]) == AddBounds(BoundsOf(rs), r) && PrevOf(rs + [r]) == Prev(r.id, r.parent, r.end)
  {
    hide Proper, Validate, Meaning, ValidRecord, MetaOf, PlusMeta;
    var all := rs + [r];
    var rows := RowsFor(all, s.datatype_);
    assert all[..|rs|] == rs && rows[..|rs|] == RowsFor(rs, s.datatype_);
    forall i | 0 <= i < |all|
      ensures ValidRecord(all[i], s.generator.kind) && OfSource(all[i], s) && Validate(s.types, rows[i].id, rows[i].payload, c)
              && Meaning(s.types, rows[i].id, rows[i].payload, c).Some? && |rows[i].payload| <= NO_LIMIT
    {
      if i < |rs| {
        assert rows[i] == RowsFor(rs, s.datatype_)[i] && all[i] == rs[i];
      }
    }
  }

  lemma {:induction false} HoldingMore(s: Source, rs: seq<Record>, r: Record, c: Context, meta: Meta, before: Store, after: Store, ok: bool)
    requires Proper(s.types) && Holding(s, rs, c, meta, before) && RowOk(s, r, c)
    requires After(before, Meaning(s.types, s.datatype_, r.payload, c).value.tokens, Unshared(c), after, ok)
    ensures SegmentOk(s, rs + [r], c, NO_LIMIT)
    ensures ok ==> Holding(s, rs + [r], c, PlusMeta(meta, MetaOf(s.generator.kind, PrevOf(rs), r)), after)
    ensures BoundsOf(rs + [r]) == AddBounds(BoundsOf(rs), r) && PrevOf(rs + [r]) == Prev(r.id, r.parent, r.end)
  {
    hide Proper, Validate, Meaning, ValidRecord, MetaOf, PlusMeta, MetaAll, PutAll, TokensOf, SegmentOk, BoundsOf, Plus;
    MoreRows(s, rs, r, c);
    SegmentIsOk(s, rs, c);
    PutsAdd([], TokensOf(s.types, RowsFor(rs, s.datatype_), c), Meaning(s.types, s.datatype_, r.payload, c).value.tokens, Unshared(c));
  }

  datatype RowOutcome = Refused | Undone | Added(size: nat)

  /** One row more, taken back when it no longer fits the page. */
  method AddRow(encoder: SegmentEncoder, types: seq<Datatype>, b: Bucket, ghost rs: seq<Record>, r0: Record, first: bool, pageBytes: nat, c: Context)
    returns (outcome: RowOutcome)
    requires Proper(types) && encoder.Valid() && encoder.arguments.config == Unshared(c)
    requires Holding(SourceOf(types, b), rs, c, encoder.meta, encoder.arguments.State()) && RowOk(SourceOf(types, b), r0, c)
    requires encoder.prev == PrevOf(rs)
    modifies encoder, encoder.arguments
    ensures encoder.Valid()
    ensures outcome.Refused? ==> Huge(b.(records := rs + [r0]), types, c)
    ensures outcome.Refused? && |old(encoder.arguments.dictionary)| < MAX_BLOCK_BYTES ==> Huge(b.(records := [r0]), types, c)
    ensures !outcome.Refused? ==> Encodable(b.(records := rs + [r0]), types, c)
    ensures outcome.Undone? ==> !first && SizeOf(b.(records := rs + [r0]), types, c) > pageBytes
    ensures outcome.Undone? ==> Holding(SourceOf(types, b), rs, c, encoder.meta, encoder.arguments.State())
    ensures outcome.Added? ==> outcome.size == SizeOf(b.(records := rs + [r0]), types, c) && (first || outcome.size <= pageBytes)
    ensures outcome.Added? ==> Holding(SourceOf(types, b), rs + [r0], c, encoder.meta, encoder.arguments.State()) && encoder.prev == PrevOf(rs + [r0])
  {
    hide Proper, Validate, Meaning, ValidRecord, MetaOf, PlusMeta, MetaAll, PutAll, TokensOf, SegmentOk, BoundsOf, Plus, DictionaryOk, Indexes,
         Holding, RowOk, PackedColumns, Finished, After, AddBounds, Encodable, Huge, ColumnsFor;
    ghost var s, before, meta := SourceOf(types, b), encoder.arguments.State(), encoder.meta;
    RowFacts(s, r0, c);
    WriterDictionary(encoder.arguments);
    var lengths := (|encoder.meta.begins|, |encoder.meta.ids|, |encoder.meta.parents|, |encoder.meta.durations|);
    var checkpoint := encoder.arguments.Checkpoint();
    var ok := encoder.Append(types, b.generator.kind, r0, b.datatype_);
    HoldingMore(s, rs, r0, c, meta, before, encoder.arguments.State(), ok);
    if !ok {
      RefusedIsHuge(s, rs, r0, c, meta, before, encoder.arguments.State(), b);
      return Refused;
    }
    HeldSize(b.(records := rs + [r0]), types, c, encoder.meta, encoder.arguments.State());
    var size := encoder.Size();
    if !first && size > pageBytes {
      TruncatedMeta(meta, MetaOf(b.generator.kind, PrevOf(rs), r0));
      RestoreUndoes(before, Meaning(types, b.datatype_, r0.payload, c).value.tokens, Unshared(c), encoder.arguments.State(), ok);
      encoder.meta := Meta(encoder.meta.begins[..lengths.0], encoder.meta.ids[..lengths.1], encoder.meta.parents[..lengths.2],
                           encoder.meta.durations[..lengths.3]);
      encoder.arguments.Restore(checkpoint);
      return Undone;
    }
    outcome := Added(size);
  }

  /** Where the segment ends is decided by the records up to `index`: it ends there, or goes on. */
  lemma {:induction false} CutGoesOn(b: Bucket, first: nat, index: nat, pageBytes: nat, types: seq<Datatype>, c: Context)
    requires Proper(types) && RowsAreOk(b, types, c) && first < index < |b.records|
    ensures Encodable(Slice(b, first, index), types, c) && Encodable(Slice(b, first, index + 1), types, c)
    ensures SizeOf(Slice(b, first, index), types, c) < pageBytes ==>
              CutEnd(b, first, index, pageBytes, types, c) ==
              if SizeOf(Slice(b, first, index + 1), types, c) > pageBytes then index else CutEnd(b, first, index + 1, pageBytes, types, c)
    ensures SizeOf(Slice(b, first, index), types, c) >= pageBytes ==> CutEnd(b, first, index, pageBytes, types, c) == index
  {
    hide Proper, RowsAreOk, Encodable, SizeOf;
    SliceOk(b, first, index, types, c);
    SliceOk(b, first, index + 1, types, c);
  }

  /** A record that is larger than any page is a segment of its own, wherever it stands. */
  lemma {:induction false} HugeStandsAlone(b: Bucket, first: nat, index: nat, pageBytes: nat, types: seq<Datatype>, c: Context)
    requires Proper(types) && RowsAreOk(b, types, c) && first <= index < |b.records| && pageBytes < MAX_BLOCK_BYTES
    requires Huge(Slice(b, first, index + 1), types, c) && Huge(Slice(b, index, index + 1), types, c)
    requires first < index ==> CutEnd(b, first, first + 1, pageBytes, types, c) == CutEnd(b, first, index, pageBytes, types, c)
    ensures SomeOversized(Pieces(b, first, pageBytes, types, c), types, c)
  {
    hide Proper, RowsAreOk, Encodable, SizeOf, Flat, ColumnsFor, Pieces, CutEnd, SomeOversized;
    SizeBounds(Slice(b, first, index + 1), types, c);
    SizeBounds(Slice(b, index, index + 1), types, c);
    CutIsFull(b, index, index + 1, pageBytes, types, c);
    FirstOversized(b, index, index + 1, pageBytes, types, c);
    if first < index {
      CutGoesOn(b, first, index, pageBytes, types, c);
      FirstPiece(b, first, pageBytes, types, c);
      AlsoOversized(Slice(b, first, index), Pieces(b, index, pageBytes, types, c), types, c);
    }
  }

  lemma {:induction false} AlsoOversized(piece: Bucket, pieces: seq<Bucket>, types: seq<Datatype>, c: Context)
    requires Proper(types) && SomeOversized(pieces, types, c)
    ensures SomeOversized([piece] + pieces, types, c)
  {
    hide Proper, Oversized;
    var i :| 0 <= i < |pieces| && Oversized(pieces[i], types, c);
    assert ([piece] + pieces)[i + 1] == pieces[i];
  }

  lemma {:induction false} CutIsFull(b: Bucket, first: nat, index: nat, pageBytes: nat, types: seq<Datatype>, c: Context)
    requires Proper(types) && RowsAreOk(b, types, c) && first < index <= |b.records| && Encodable(Slice(b, first, index), types, c)
    requires index == |b.records| || SizeOf(Slice(b, first, index), types, c) >= pageBytes
    ensures CutEnd(b, first, index, pageBytes, types, c) == index
  {
    hide Proper, RowsAreOk, Encodable, SizeOf;
  }

  lemma {:induction false} RowIsOk(b: Bucket, i: nat, types: seq<Datatype>, c: Context)
    requires Proper(types) && RowsAreOk(b, types, c) && i < |b.records|
    ensures RowOk(SourceOf(types, b), b.records[i], c)
  {
    hide Proper, RowOk;
  }

  lemma {:induction false} FirstPiece(b: Bucket, first: nat, pageBytes: nat, types: seq<Datatype>, c: Context)
    requires Proper(types) && RowsAreOk(b, types, c) && first < |b.records|
    ensures var end := CutEnd(b, first, first + 1, pageBytes, types, c);
      Pieces(b, first, pageBytes, types, c) == [Slice(b, first, end)] + Pieces(b, end, pageBytes, types, c)
  {
    hide Proper, RowsAreOk, CutEnd;
  }

  lemma {:induction false} FirstOversized(b: Bucket, first: nat, index: nat, pageBytes: nat, types: seq<Datatype>, c: Context)
    requires Proper(types) && RowsAreOk(b, types, c) && first < |b.records| && index == CutEnd(b, first, first + 1, pageBytes, types, c)
    requires Oversized(Slice(b, first, index), types, c)
    ensures SomeOversized(Pieces(b, first, pageBytes, types, c), types, c)
  {
    hide Proper, RowsAreOk, CutEnd, Oversized;
    assert Pieces(b, first, pageBytes, types, c)[0] == Slice(b, first, index);
  }

  /** At least one row, and as many as fit a page: the inner loop of `encode_record_block`. */
  method EncodeSegment(types: seq<Datatype>, b: Bucket, first: nat, pageBytes: nat, c: Context, all0: Bounds, ghost gens: Generators)
    returns (r: Option<(nat, seq<byte>, Bounds, Bounds)>)
    requires Proper(types) && BucketOk(b, gens) && first < |b.records| && RowsAreOk(b, types, c) && pageBytes < MAX_BLOCK_BYTES
    ensures r.None? ==> SomeOversized(Pieces(b, first, pageBytes, types, c), types, c)
    ensures r.Some? ==>
      var (index, raw, bounds, all) := r.value;
      && first < index <= |b.records| && index == CutEnd(b, first, first + 1, pageBytes, types, c)
      && var chunk := Slice(b, first, index);
         && ChunkOk(chunk, types, gens, c) && raw == RawOf(chunk, types, gens, c) && bounds == BoundsOf(chunk.records)
         && all == AddAll(all0, chunk.records) && (|raw| <= pageBytes || index == first + 1)
  {
    hide Proper, SegmentOk, BoundsOf, DictionaryOk, Indexes, Holding, RowOk, PackedColumns, Finished, AddAll, BucketOk, AddBounds, ChunkOk, RawOf,
         Oversized, Encodable, SizeOf, ColumnsFor, Huge, CutEnd, Pieces, SomeOversized, RowsAreOk;
    var encoder := new SegmentEncoder(c);
    var bounds, all := NO_BOUNDS, all0;
    var index := first;
    HoldingNothing(SourceOf(types, b), c);
    EmptyBounds(all0);
    assert b.records[first..first] == [];
    while index < |b.records|
      invariant first <= index <= |b.records| && fresh(encoder) && fresh(encoder.arguments) && encoder.Valid()
      invariant Holding(SourceOf(types, b), b.records[first..index], c, encoder.meta, encoder.arguments.State())
      invariant encoder.prev == PrevOf(b.records[first..index])
      invariant bounds == BoundsOf(b.records[first..index]) && all == AddAll(all0, b.records[first..index])
      invariant first < index ==> CutEnd(b, first, first + 1, pageBytes, types, c) == CutEnd(b, first, index, pageBytes, types, c)
      invariant first < index ==> Encodable(Slice(b, first, index), types, c) && SizeOf(Slice(b, first, index), types, c) < pageBytes
      invariant |encoder.arguments.dictionary| < MAX_BLOCK_BYTES
    {
      ghost var rs := b.records[first..index];
      var r0 := b.records[index];
      RowIsOk(b, index, types, c);
      assert b.records[first..index + 1] == rs + [r0] && b.records[index..index + 1] == [r0];
      if first < index {
        CutGoesOn(b, first, index, pageBytes, types, c);
      }
      var outcome := AddRow(encoder, types, b, rs, r0, index == first, pageBytes, c);
      if outcome.Refused? {
        HugeStandsAlone(b, first, index, pageBytes, types, c);
        return None;
      }
      if outcome.Undone? {
        break;
      }
      AddsOne(all0, rs, r0);
      bounds := AddBounds(bounds, r0);
      all := AddBounds(all, r0);
      index := index + 1;
      HeldSize(Slice(b, first, index), types, c, encoder.meta, encoder.arguments.State());
      if outcome.size >= pageBytes {
        CutIsFull(b, first, index, pageBytes, types, c);
        break;
      }
    }
    if index == |b.records| {
      CutIsFull(b, first, index, pageBytes, types, c);
    }
    var raw := FinishSegment(encoder, types, b, first, index, pageBytes, c, gens);
    r := if raw.None? then None else Some((index, raw.value, bounds, all));
  }

  /** The segment packed, unless it is too large. */
  method FinishSegment(encoder: SegmentEncoder, types: seq<Datatype>, b: Bucket, first: nat, index: nat, ghost pageBytes: nat, c: Context,
                       ghost gens: Generators)
    returns (raw: Option<seq<byte>>)
    requires Proper(types) && BucketOk(b, gens) && RowsAreOk(b, types, c) && first < index <= |b.records|
    requires encoder.Valid() && encoder.arguments.config == Unshared(c)
    requires Holding(SourceOf(types, b), b.records[first..index], c, encoder.meta, encoder.arguments.State())
    requires index == CutEnd(b, first, first + 1, pageBytes, types, c)
    ensures raw.None? ==> SomeOversized(Pieces(b, first, pageBytes, types, c), types, c)
    ensures raw.Some? ==>
              && ChunkOk(Slice(b, first, index), types, gens, c) && raw.value == RawOf(Slice(b, first, index), types, gens, c)
              && (|raw.value| <= pageBytes || index == first + 1)
  {
    hide Proper, SegmentOk, BoundsOf, DictionaryOk, Indexes, Holding, RowOk, PackedColumns, Finished, BucketOk, ChunkOk, RawOf,
         Oversized, Encodable, SizeOf, ColumnsFor, CutEnd, Pieces, SomeOversized, RowsAreOk;
    HeldSize(Slice(b, first, index), types, c, encoder.meta, encoder.arguments.State());
    CutsAreGreedy(b, first, first + 1, pageBytes, types, c);
    var arguments := encoder.arguments.Finish();
    var columns := NineOf(encoder.meta, arguments);
    raw := Pack(columns);
    if raw.None? {
      IsOversized(Slice(b, first, index), types, c);
      FirstOversized(b, first, index, pageBytes, types, c);
    } else {
      ChunkHeld(b, first, index, types, gens, c, encoder.meta, encoder.arguments.State());
      RawIsShort(Slice(b, first, index), types, gens, c);
    }
  }

  lemma {:induction false} IsOversized(b: Bucket, types: seq<Datatype>, c: Context)
    requires Proper(types) && Encodable(b, types, c) && |Flat(ColumnsFor(b, types, c))| + 100 >= MAX_BLOCK_BYTES
    ensures Oversized(b, types, c)
  {
  }

  lemma {:induction false} WriterDictionary(w: Writer)
    requires w.Valid()
    ensures DictionaryOk(w.State().dictionary, w.config)
  {
  }

  lemma {:induction false} RowFacts(s: Source, r: Record, c: Context)
    requires Proper(s.types) && RowOk(s, r, c)
    ensures ValidRecord(r, s.generator.kind) && Validate(s.types, s.datatype_, r.payload, c) && Meaning(s.types, s.datatype_, r.payload, c).Some?
  {
  }

  /** `all` and `bounds` take up the records one by one. */
  function AddAll(all: Bounds, rs: seq<Record>): Bounds {
    if rs == [] then all else AddBounds(AddAll(all, rs[..|rs| - 1]), rs[|rs| - 1])
  }

  lemma {:induction false} EmptyBounds(all: Bounds)
    ensures AddAll(all, []) == all && BoundsOf([]) == NO_BOUNDS && PrevOf([]) == Prev(0, 0, 0)
  {
  }

  lemma {:induction false} AddsOne(all: Bounds, rs: seq<Record>, r: Record)
    ensures AddAll(all, rs + [r]) == AddBounds(AddAll(all, rs), r) && BoundsOf(rs + [r]) == AddBounds(BoundsOf(rs), r)
  {
    assert (rs + [r])[..|rs|] == rs;
  }

  lemma {:induction false} ChunkHeld(b: Bucket, first: nat, index: nat, types: seq<Datatype>, gens: Generators, c: Context, meta: Meta, store: Store)
    requires Proper(types) && BucketOk(b, gens) && first < index <= |b.records|
    requires Holding(SourceOf(types, b), b.records[first..index], c, meta, store)
    requires |Flat(NineOf(meta, Finished(store, Unshared(c))))| + 100 < MAX_BLOCK_BYTES
    ensures var chunk := b.(records := b.records[first..index]);
      ChunkOk(chunk, types, gens, c) && RawOf(chunk, types, gens, c) == PackedColumns(NineOf(meta, Finished(store, Unshared(c))))
  {
    hide Proper, Validate, Meaning, ValidRecord, MetaAll, PutAll, TokensOf, SegmentOk, Finished, PackedColumns, Flat, PayloadType;
    var chunk := b.(records := b.records[first..index]);
    assert forall k :: 0 <= k < |chunk.records| ==> chunk.records[k] == b.records[first + k];
    SegmentIsOk(SourceOf(types, b), chunk.records, c);
  }

  lemma {:induction false} SegmentIsOk(s: Source, rs: seq<Record>, c: Context)
    requires Proper(s.types) && SegmentOk(s, rs, c, NO_LIMIT)
    ensures AllValid(rs, s.generator.kind) && RowsOk(s.types, RowsFor(rs, s.datatype_), c)
  {
  }

  // ---------------------------------------------------------------- what is too large

  /** A row is refused when the dictionary is full; then it is too large on its own as well, unless there was too much before it. */
  lemma {:induction false} RefusedIsHuge(s: Source, rs: seq<Record>, r: Record, c: Context, meta: Meta, before: Store, after: Store, b: Bucket)
    requires Proper(s.types) && s == SourceOf(s.types, b) && Holding(s, rs, c, meta, before) && RowOk(s, r, c)
    requires After(before, Meaning(s.types, s.datatype_, r.payload, c).value.tokens, Unshared(c), after, false)
    ensures Huge(b.(records := rs + [r]), s.types, c)
    ensures |before.dictionary| < MAX_BLOCK_BYTES ==> Huge(b.(records := [r]), s.types, c)
  {
    hide Proper, Validate, Meaning, ValidRecord, MetaOf, PlusMeta, MetaAll, PutAll, TokensOf, SegmentOk, BoundsOf, Plus, Finished, Flat;
    MoreRows(s, rs, r, c);
    SegmentIsOk(s, rs, c);
    SegmentIsOk(s, rs + [r], c);
    var more := Meaning(s.types, s.datatype_, r.payload, c).value.tokens;
    MeaningTokens(s.types, s.datatype_, r.payload, c);
    PutsAdd([], TokensOf(s.types, RowsFor(rs, s.datatype_), c), more, Unshared(c));
    FullDictionary(before.dictionary, more, Unshared(c));
    var puts := PutsOf(s.types, s.datatype_, rs + [r], c);
    ColumnsAreParts(MetaAll(s.generator.kind, rs + [r]), Store(puts.columns, puts.dictionary), Unshared(c));
    if |before.dictionary| < MAX_BLOCK_BYTES {
      OneRow(s, r, c);
      ManyTexts(MetaAll(s.generator.kind, [r]), before.dictionary, more, Unshared(c));
    }
  }

  lemma {:induction false} OneRow(s: Source, r: Record, c: Context)
    requires Proper(s.types) && RowOk(s, r, c)
    ensures SegmentOk(s, [r], c, NO_LIMIT) && AllValid([r], s.generator.kind) && RowsOk(s.types, RowsFor([r], s.datatype_), c)
    ensures TokensOf(s.types, RowsFor([r], s.datatype_), c) == Meaning(s.types, s.datatype_, r.payload, c).value.tokens
  {
    hide Proper, Validate, Meaning, ValidRecord, MetaOf, PlusMeta;
    HoldingNothing(s, c);
    MoreRows(s, [], r, c);
    SegmentIsOk(s, [r], c);
    var none: seq<Token> := [];
    assert [] + [r] == [r];
    assert TokensOf(s.types, RowsFor([], s.datatype_), c) == none;
    assert none + Meaning(s.types, s.datatype_, r.payload, c).value.tokens == Meaning(s.types, s.datatype_, r.payload, c).value.tokens;
  }

  /** What the encoder holds is as large as the segment of its records. */
  lemma {:induction false} HeldSize(b: Bucket, types: seq<Datatype>, c: Context, meta: Meta, store: Store)
    requires Proper(types) && Holding(SourceOf(types, b), b.records, c, meta, store)
    ensures Encodable(b, types, c) && ColumnsFor(b, types, c) == NineOf(meta, Finished(store, Unshared(c)))
    ensures |store.dictionary| <= SizeOf(b, types, c)
  {
    hide Proper, Validate, Meaning, ValidRecord, MetaAll, PutAll, TokensOf, SegmentOk, Finished, Flat, PackedColumns;
    SegmentIsOk(SourceOf(types, b), b.records, c);
    ColumnsAreParts(meta, store, Unshared(c));
    SizeBounds(b, types, c);
  }

  /** A segment that is packed fits a page. */
  lemma {:induction false} RawIsShort(b: Bucket, types: seq<Datatype>, gens: Generators, c: Context)
    requires ChunkOk(b, types, gens, c)
    ensures 0 < |RawOf(b, types, gens, c)| < MAX_BLOCK_BYTES
    ensures Encodable(b, types, c) && |RawOf(b, types, gens, c)| == SizeOf(b, types, c)
  {
    hide Proper, BucketOk, SegmentColumns, Flat, PackedColumns, PutsOf, Validate, Meaning, ValidRecord;
    SizeBounds(b, types, c);
  }

  lemma {:induction false} MetaIsLong(kind: RecordKind, rs: seq<Record>)
    requires AllValid(rs, kind)
    ensures |MetaAll(kind, rs).ids| >= |rs|
  {
    hide ValidRecord, Leb;
    if rs != [] {
      MetaIsLong(kind, rs[..|rs| - 1]);
      LebHasByte(Zigzag(AsSigned(Wrap64(rs[|rs| - 1].id - PrevOf(rs[..|rs| - 1]).id))));
    }
  }

  /** A segment that is packed has few records. */
  lemma {:induction false} RecordsAreFew(b: Bucket, types: seq<Datatype>, gens: Generators, c: Context)
    requires ChunkOk(b, types, gens, c)
    ensures |b.records| < MAX_BLOCK_BYTES
  {
    hide Proper, BucketOk, Flat, PutsOf, Validate, Meaning, ValidRecord, MetaAll, Finished;
    MetaIsLong(b.generator.kind, b.records);
    PieceAt(SegmentColumns(types, b.generator.kind, b.datatype_, b.records, c), 1);
  }
}
