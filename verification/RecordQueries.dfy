/** Whole blocks of records: every block that is encoded is accepted, and answers queries as looking at every record would. */
module RecordQueries {
  import opened Options
  import opened Words
  import opened Varint
  import opened Slices
  import opened ColumnPacking
  import opened Datatypes
  import opened DatatypeWalks
  import opened ArgumentColumns
  import opened ArgumentReading
  import opened ArgumentRows
  import opened Records
  import opened RecordSegments
  import opened RecordGroups
  import opened RecordPieces
  import opened RecordBlocks
  import opened RecordEncoding

  // ---------------------------------------------------------------- encoding

  /** The block holds exactly these chunks. */
  ghost predicate Encodes(block: Block, chunks: seq<Bucket>, types: seq<Datatype>, gens: Generators, c: Context) {
    && block.number != 0 && chunks != [] && LaidOut(block.segments, chunks, block.pages, types, gens, c)
    && block.bounds == AllOf(chunks) && PagesOk(block.pages)
  }

  datatype Outcome = Refused | TooLarge | Encoded(block: Block)

  /** The stable sort that puts logs behind everything else. */
  method Order(bs: seq<Bucket>, separate: bool) returns (r: seq<Bucket>)
    ensures r == Ordered(bs, separate)
  {
    if !separate {
      return bs;
    }
    var others, logs := [], [];
    assert bs[..0] == [];
    for i := 0 to |bs|
      invariant others == NotLogs(bs[..i]) && logs == Logs(bs[..i])
    {
      assert bs[..i + 1][..i] == bs[..i];
      if bs[i].generator.kind.Log? {
        logs := logs + [bs[i]];
        assert others + [] == others;
      } else {
        others := others + [bs[i]];
        assert logs + [] == logs;
      }
    }
    assert bs[..|bs|] == bs;
    r := others + logs;
  }

  lemma {:induction false} OrderedFrom(bs: seq<Bucket>, separate: bool, b: Bucket)
    requires b in Ordered(bs, separate)
    ensures b in bs
  {
    PartsFrom(bs, b);
  }

  lemma {:induction false} PartsFrom(bs: seq<Bucket>, b: Bucket)
    ensures b in NotLogs(bs) || b in Logs(bs) ==> b in bs
  {
    if bs != [] {
      PartsFrom(bs[..|bs| - 1], b);
    }
  }

  lemma {:induction false} OrderedHas(bs: seq<Bucket>, separate: bool)
    requires bs != []
    ensures Ordered(bs, separate) != []
  {
    if separate {
      var last := bs[|bs| - 1];
      assert last in NotLogs(bs) || last in Logs(bs);
    }
  }

  lemma {:induction false} SomeBucket(rs: seq<Record>, gens: Generators)
    requires AllSourced(rs, gens) && rs != []
    ensures BucketsOf(rs, gens) != []
  {
    hide Sourced;
  }

  lemma {:induction false} NothingBuilt(types: seq<Datatype>, gens: Generators, c: Context)
    ensures Built(Building([], [], [], NO_BOUNDS), [], types, gens, c) && SameFound([], [])
    ensures forall pageBytes: nat :: PagesFit([], WithRaw([], []), pageBytes)
  {
  }

  lemma {:induction false} BucketFacts(bs: seq<Bucket>, i: nat, separate: bool, all: seq<Bucket>, types: seq<Datatype>, gens: Generators, c: Context)
    requires Proper(types) && BucketsOk(bs, gens) && AllRowsOk(bs, types, c)
    requires all == Ordered(bs, separate) && i < |all|
    ensures BucketOk(all[i], gens) && RowsAreOk(all[i], types, c)
  {
    hide BucketOk, RowsAreOk, Ordered;
    OrderedFrom(bs, separate, all[i]);
  }

  /** `encode_record_block`. */
  method EncodeBlock(number: u64, types: seq<Datatype>, gens: Generators, rs: seq<Record>, pageBytes: nat, separate: bool, c: Context)
    returns (r: Outcome, ghost chunks: seq<Bucket>)
    requires Proper(types) && GeneratorsOk(gens)
    ensures r.Refused? <==> number == 0 || rs == [] || pageBytes == 0 || pageBytes >= MAX_BLOCK_BYTES || !Acceptable(rs, types, gens, c)
    ensures !r.Refused? ==>
              AllSourced(rs, gens) && AllRowsOk(Ordered(BucketsOf(rs, gens), separate), types, c) &&
              var pieces := AllPieces(Ordered(BucketsOf(rs, gens), separate), pageBytes, types, c);
              && (r.TooLarge? <==> |pieces| >= TWO_32 || SomeOversized(pieces, types, c))
              && (r.Encoded? ==> chunks == pieces && PagesFit(r.block.segments, r.block.pages, pageBytes))
    ensures r.Encoded? ==> AllSourced(rs, gens) && Encodes(r.block, chunks, types, gens, c) && r.block.number == number
                           && SameFound(chunks, Ordered(BucketsOf(rs, gens), separate))
    ensures r.Encoded? ==> PagesFilled(r.block.segments, pageBytes, separate, gens) && (separate ==> LogsLast(r.block.segments, gens))
  {
    hide PagesFilled, LogsLast, IsLog, Paged, PagedSoFar, Encodes, Proper, Built, SameFound, BucketOk, Acceptable, BucketsOf, GeneratorsOk, RowsAreOk;
    hide AllSourced, Ordered, Pieces, SomeOversized, AllPieces, AllRowsOk, PagesFit, WithRaw;
    chunks := [];
    if number == 0 || rs == [] || pageBytes == 0 || pageBytes >= MAX_BLOCK_BYTES {
      return Outcome.Refused, chunks;
    }
    var gathered := Gather(rs, types, gens, c);
    if gathered.None? {
      return Outcome.Refused, chunks;
    }
    GatheredRows(rs, types, gens, c);
    var buckets := Order(gathered.value, separate);
    SomeBucket(rs, gens);
    OrderedHas(gathered.value, separate);
    NothingBuilt(types, gens, c);
    NoPiecesYet(pageBytes, types, c);
    var s := Building([], [], [], NO_BOUNDS);
    var hadActivity := false;
    OrderedRowsOk(gathered.value, separate, types, c);
    ghost var pieces := AllPieces(buckets, pageBytes, types, c);
    assert buckets[..0] == [];
    NothingPaged(buckets, pageBytes, separate, gens);
    for k := 0 to |buckets|
      invariant Built(s, chunks, types, gens, c) && SameFound(chunks, buckets[..k]) && (k > 0 ==> chunks != [])
      invariant PagesFit(s.segments, WithRaw(s.pages, s.raw), pageBytes)
      invariant AllRowsOk(buckets[..k], types, c) && chunks == AllPieces(buckets[..k], pageBytes, types, c)
      invariant PagedSoFar(s, buckets, k, hadActivity, pageBytes, separate, gens)
    {
      BucketFacts(gathered.value, k, separate, buckets, types, gens, c);
      ghost var s1, had := s, hadActivity;
      if separate && buckets[k].generator.kind.Log? && hadActivity {
        var flushed := Flush(s, pageBytes, chunks, types, gens, c);
        s := flushed.value;
        hadActivity := false;
      } else if !buckets[k].generator.kind.Log? {
        hadActivity := true;
      }
      NextBucket(gathered.value, s1, had, s, buckets, k, pageBytes, separate, gens);
      var laid; ghost var more;
      laid, more := EncodeBucket(s, chunks, buckets[..k], buckets[k], pageBytes, types, gens, c, separate);
      PiecesSoFar(buckets, k, pageBytes, types, c);
      if laid.None? {
        return TooLarge, chunks;
      }
      assert buckets[..k + 1] == buckets[..k] + [buckets[k]];
      s, chunks := laid.value, more;
      BucketPaged(s, buckets, k, hadActivity, pageBytes, separate, gens);
    }
    assert buckets[..|buckets|] == buckets;
    var flushed := Flush(s, pageBytes, chunks, types, gens, c);
    NothingRaw(flushed.value.pages);
    FilledSoFar(s, buckets, hadActivity, pageBytes, separate, gens);
    BuiltIsSmall(flushed.value, chunks, types, gens, c);
    assert chunks == pieces;
    if |flushed.value.segments| >= TWO_32 || |flushed.value.pages| >= TWO_32 {
      return TooLarge, chunks;
    }
    BuiltEncodes(flushed.value, chunks, number, types, gens, c);
    r := Encoded(Block(number, flushed.value.all, flushed.value.segments, flushed.value.pages));
  }

  // ---------------------------------------------------------------- pages

  /** Where the loop over the buckets leaves the pages. */
  ghost predicate PagedSoFar(s: Building, buckets: seq<Bucket>, k: nat, hadActivity: bool, pageBytes: nat, separate: bool, gens: Generators)
    requires k <= |buckets|
  {
    && (separate ==> LogsLast(s.segments, gens))
    && if k == 0 then s.segments == [] && s.raw == [] && s.pages == [] && !hadActivity else
         var logs := buckets[k - 1].generator.kind.Log?;
         && Paged(s, logs, pageBytes, separate, gens) && s.segments != [] && IsLog(s.segments[|s.segments| - 1], gens) == logs
         && (!logs ==> hadActivity) && (separate && logs ==> !hadActivity)
  }

  lemma {:induction false} NothingPaged(buckets: seq<Bucket>, pageBytes: nat, separate: bool, gens: Generators)
    ensures PagedSoFar(Building([], [], [], NO_BOUNDS), buckets, 0, false, pageBytes, separate, gens)
  {
  }

  /** Before the next bucket: the page was flushed if and only if logs come behind others and are kept apart. */
  lemma {:induction false} NextBucket(all: seq<Bucket>, s0: Building, had: bool, s: Building, buckets: seq<Bucket>, k: nat, pageBytes: nat,
                                      separate: bool, gens: Generators)
    requires k < |buckets| && buckets == Ordered(all, separate)
    requires PagedSoFar(s0, buckets, k, had, pageBytes, separate, gens)
    requires s.segments == s0.segments
    requires if separate && buckets[k].generator.kind.Log? && had then s.raw == [] && |s.pages| == |s0.pages| + (if s0.raw == [] then 0 else 1)
             else s == s0
    ensures Paged(s, buckets[k].generator.kind.Log?, pageBytes, separate, gens) && (separate ==> LogsLast(s.segments, gens))
    ensures separate && s.segments != [] && IsLog(s.segments[|s.segments| - 1], gens) ==> buckets[k].generator.kind.Log?
  {
    hide LogsLast, Ordered, IsLog;
    if k > 0 && separate && buckets[k - 1].generator.kind.Log? {
      OthersFirst(all, k - 1, k);
    }
  }

  lemma {:induction false} BucketPaged(s: Building, buckets: seq<Bucket>, k: nat, hadActivity: bool, pageBytes: nat, separate: bool, gens: Generators)
    requires k < |buckets| && Paged(s, buckets[k].generator.kind.Log?, pageBytes, separate, gens) && (separate ==> LogsLast(s.segments, gens))
    requires s.segments != [] && IsLog(s.segments[|s.segments| - 1], gens) == buckets[k].generator.kind.Log?
    requires if buckets[k].generator.kind.Log? then separate ==> !hadActivity else hadActivity
    ensures PagedSoFar(s, buckets, k + 1, hadActivity, pageBytes, separate, gens)
  {
  }

  lemma {:induction false} NothingRaw(pages: seq<seq<byte>>)
    ensures WithRaw(pages, []) == pages
  {
  }

  lemma {:induction false} OthersFirst(all: seq<Bucket>, i: nat, j: nat)
    requires i < j < |Ordered(all, true)| && Ordered(all, true)[i].generator.kind.Log?
    ensures Ordered(all, true)[j].generator.kind.Log?
  {
    hide NotLogs, Logs;
    SortsAre(all);
  }

  lemma {:induction false} SortsAre(all: seq<Bucket>)
    ensures forall i :: 0 <= i < |NotLogs(all)| ==> !NotLogs(all)[i].generator.kind.Log?
    ensures forall i :: 0 <= i < |Logs(all)| ==> Logs(all)[i].generator.kind.Log?
  {
    if all != [] {
      SortsAre(all[..|all| - 1]);
    }
  }

  lemma {:induction false} FilledSoFar(s: Building, buckets: seq<Bucket>, hadActivity: bool, pageBytes: nat, separate: bool, gens: Generators)
    requires PagedSoFar(s, buckets, |buckets|, hadActivity, pageBytes, separate, gens)
    ensures PagesFilled(s.segments, pageBytes, separate, gens) && (separate ==> LogsLast(s.segments, gens))
  {
    hide LogsLast, IsLog;
  }

  /** When logs are kept apart, no page holds logs and anything else. */
  lemma {:induction false} LogsApart(block: Block, chunks: seq<Bucket>, types: seq<Datatype>, gens: Generators, c: Context, pageBytes: nat,
                                     i: nat, j: nat)
    requires Encodes(block, chunks, types, gens, c) && PagesFilled(block.segments, pageBytes, true, gens) && LogsLast(block.segments, gens)
    requires i <= j < |block.segments| && block.segments[i].page == block.segments[j].page
    ensures IsLog(block.segments[i], gens) == IsLog(block.segments[j], gens)
  {
    hide IsLog, SegmentIs, PagesOk, EndsFull;
    if i < j {
      PagesAscend(block, chunks, types, gens, c, i, j - 1);
      PagesAscend(block, chunks, types, gens, c, j - 1, j);
      LogsApart(block, chunks, types, gens, c, pageBytes, i, j - 1);
      assert PageAfter(block.segments, j, pageBytes, true, gens);
      assert IsLog(block.segments[j - 1], gens) ==> IsLog(block.segments[j], gens);
    }
  }

  lemma {:induction false} PagesAscend(block: Block, chunks: seq<Bucket>, types: seq<Datatype>, gens: Generators, c: Context, i: nat, j: nat)
    requires Encodes(block, chunks, types, gens, c) && i <= j < |block.segments|
    ensures block.segments[i].page <= block.segments[j].page
  {
    hide SegmentIs, PagesOk, EndsFull;
    if i < j {
      PagesAscend(block, chunks, types, gens, c, i, j - 1);
      assert TilesAt(block.segments, block.pages, j);
    }
  }

  lemma {:induction false} NoPiecesYet(pageBytes: nat, types: seq<Datatype>, c: Context)
    requires Proper(types)
    ensures AllRowsOk([], types, c) && AllPieces([], pageBytes, types, c) == []
  {
    hide Proper;
  }

  lemma {:induction false} OrderedRowsOk(bs: seq<Bucket>, separate: bool, types: seq<Datatype>, c: Context)
    requires Proper(types) && AllRowsOk(bs, types, c)
    ensures AllRowsOk(Ordered(bs, separate), types, c)
  {
    hide Proper, RowsAreOk, Ordered;
    forall i | 0 <= i < |Ordered(bs, separate)|
      ensures RowsAreOk(Ordered(bs, separate)[i], types, c)
    {
      OrderedFrom(bs, separate, Ordered(bs, separate)[i]);
    }
  }

  lemma {:induction false} FirstPieces(bs: seq<Bucket>, n: nat, pageBytes: nat, types: seq<Datatype>, c: Context)
    requires Proper(types) && AllRowsOk(bs, types, c) && n <= |bs|
    ensures AllRowsOk(bs[..n], types, c) && AllPieces(bs[..n], pageBytes, types, c) <= AllPieces(bs, pageBytes, types, c)
  {
    hide Proper, RowsAreOk, Pieces;
    if n == |bs| {
      assert bs[..n] == bs;
    } else {
      assert bs[..|bs| - 1][..n] == bs[..n];
      FirstPieces(bs[..|bs| - 1], n, pageBytes, types, c);
    }
  }

  /** The pieces of the first buckets come first, and what is true of one of them is true of one of all. */
  lemma {:induction false} PiecesSoFar(bs: seq<Bucket>, k: nat, pageBytes: nat, types: seq<Datatype>, c: Context)
    requires Proper(types) && AllRowsOk(bs, types, c) && k < |bs|
    ensures AllRowsOk(bs[..k], types, c) && AllRowsOk(bs[..k + 1], types, c) && RowsAreOk(bs[k], types, c)
    ensures var all, pieces := AllPieces(bs, pageBytes, types, c), Pieces(bs[k], 0, pageBytes, types, c);
      var before := AllPieces(bs[..k], pageBytes, types, c);
      && AllPieces(bs[..k + 1], pageBytes, types, c) == before + pieces
      && |before| + |pieces| <= |all| && (SomeOversized(pieces, types, c) ==> SomeOversized(all, types, c))
  {
    hide Proper, RowsAreOk, Pieces, Oversized;
    var pieces := Pieces(bs[k], 0, pageBytes, types, c);
    FirstPieces(bs, k, pageBytes, types, c);
    FirstPieces(bs, k + 1, pageBytes, types, c);
    assert bs[..k + 1][..k] == bs[..k];
    var before, all := AllPieces(bs[..k], pageBytes, types, c), AllPieces(bs, pageBytes, types, c);
    assert before + pieces <= all;
    if SomeOversized(pieces, types, c) {
      var i :| 0 <= i < |pieces| && Oversized(pieces[i], types, c);
      assert all[|before| + i] == pieces[i];
    }
  }

  lemma {:induction false} BuiltIsSmall(s: Building, chunks: seq<Bucket>, types: seq<Datatype>, gens: Generators, c: Context)
    requires Built(s, chunks, types, gens, c)
    ensures |s.segments| == |chunks| && |s.pages| <= |chunks| && (chunks != [] ==> Proper(types) && !SomeOversized(chunks, types, c))
  {
    hide TilesAt, EndsFull, Proper, Encodable, PackedColumns, SegmentOk, BucketOk, Flat, BoundsMatch, BoundsOf, OnPage, RawOf, PutsOf;
    FewPages(s.segments, chunks, s.pages, s.raw, types, gens, c);
  }

  lemma {:induction false} BuiltEncodes(s: Building, chunks: seq<Bucket>, number: u64, types: seq<Datatype>, gens: Generators, c: Context)
    requires Built(s, chunks, types, gens, c) && s.raw == [] && chunks != [] && number != 0
    ensures Encodes(Block(number, s.all, s.segments, s.pages), chunks, types, gens, c)
  {
    hide LaidOut;
  }

  // ---------------------------------------------------------------- queries

  /** One segment of a query: passed over, or read from its page. */
  function QueryHeader(h: SegmentHeader, pages: seq<seq<byte>>, types: seq<Datatype>, gens: Generators, q: Query, c: Context, limit: nat): Option<seq<Record>>
    requires Proper(types)
  {
    if h.generator !in gens then None else
      match PayloadType(gens[h.generator], h.selection)
      case None => None
      case Some(datatype_) =>
        if PassedOver(h, gens[h.generator], datatype_, q) then Some([])
        else if !OnPage(h, pages) then None
        else QuerySegment(Source(types, gens[h.generator], h.selection, datatype_), h,
                          pages[h.page][h.rawOffset..h.rawOffset + h.rawLength], q, c, limit)
  }

  /** The first `n` segments of a query. */
  function QueryFirst(block: Block, n: nat, types: seq<Datatype>, gens: Generators, q: Query, c: Context, limit: nat): Option<seq<Record>>
    requires Proper(types) && n <= |block.segments|
  {
    if n == 0 then Some([]) else
      match QueryFirst(block, n - 1, types, gens, q, c, limit)
      case None => None
      case Some(found) =>
        match QueryHeader(block.segments[n - 1], block.pages, types, gens, q, c, limit)
        case None => None
        case Some(more) => Some(found + more)
  }

  /** What a visitor that always wants more is shown. */
  function QueryBlock(block: Block, types: seq<Datatype>, gens: Generators, q: Query, c: Context, limit: nat): Option<seq<Record>>
    requires Proper(types)
  {
    if q.begin > q.end then None else QueryFirst(block, |block.segments|, types, gens, q, c, limit)
  }

  // ---------------------------------------------------------------- what a query of a block finds

  ghost predicate Short(chunks: seq<Bucket>, limit: nat) {
    forall i :: 0 <= i < |chunks| ==> forall k :: 0 <= k < |chunks[i].records| ==> |chunks[i].records[k].payload| <= limit
  }

  /** What is asked for can be read back: no repeated elements without bytes in the datatypes of the sources that the query selects. */
  ghost predicate SolidFor(bs: seq<Bucket>, types: seq<Datatype>, q: Query)
    requires Proper(types)
  {
    forall i :: 0 <= i < |bs| && SourceSelected(bs[i].generator, bs[i].datatype_, q) ==> SolidFrom(types, bs[i].datatype_)
  }

  ghost predicate SolidRecords(rs: seq<Record>, gens: Generators, types: seq<Datatype>, q: Query)
    requires Proper(types) && AllSourced(rs, gens)
  {
    forall i :: 0 <= i < |rs| ==> SolidRecord(rs[i], gens, types, q)
  }

  ghost predicate SolidRecord(r: Record, gens: Generators, types: seq<Datatype>, q: Query)
    requires Proper(types) && Sourced(r, gens)
  {
    var datatype_ := PayloadType(gens[r.generator], r.datatype_).value;
    SourceSelected(gens[r.generator], datatype_, q) ==> SolidFrom(types, datatype_)
  }

  lemma {:induction false} ChunkQueried(h: SegmentHeader, pages: seq<seq<byte>>, b: Bucket, types: seq<Datatype>, gens: Generators, q: Query,
                                        c: Context, limit: nat)
    requires Proper(types) && SegmentIs(h, pages, b, types, gens, c)
    requires SourceSelected(b.generator, b.datatype_, q) ==> SolidFrom(types, b.datatype_)
    requires forall k :: 0 <= k < |b.records| ==> |b.records[k].payload| <= limit
    ensures QueryHeader(h, pages, types, gens, q, c, limit) == Some(FilterBucket(b, q))
  {
    hide Proper, SolidFrom, QuerySegment, Filter, BoundsOf, BoundsMatch, PutsOf, SegmentColumns, PackedColumns, Flat, ValidRecord, Validate, Meaning;
    var s := SourceOf(types, b);
    ChunkFacts(b, types, gens, c);
    if PassedOver(h, b.generator, b.datatype_, q) {
      PruningIsSafe(b.records, h, b.generator, b.datatype_, q);
    } else {
      ShortSegment(s, b.records, c, limit);
      SegmentQueried(s, b.records, h, q, c, limit);
    }
  }

  lemma {:induction false} ChunkFacts(b: Bucket, types: seq<Datatype>, gens: Generators, c: Context)
    requires ChunkOk(b, types, gens, c)
    ensures b.generator.id in gens && gens[b.generator.id] == b.generator && PayloadType(b.generator, b.selection) == Some(b.datatype_)
    ensures forall k :: 0 <= k < |b.records| ==> ValidRecord(b.records[k], b.generator.kind)
  {
    hide Proper, ValidRecord, SegmentOk, PutsOf, SegmentColumns, Flat;
  }

  lemma {:induction false} ShortSegment(s: Source, rs: seq<Record>, c: Context, limit: nat)
    requires Proper(s.types) && SegmentOk(s, rs, c, NO_LIMIT) && forall k :: 0 <= k < |rs| ==> |rs[k].payload| <= limit
    ensures SegmentOk(s, rs, c, limit)
  {
    hide Proper, ValidRecord, Validate, Meaning;
    var rows := RowsFor(rs, s.datatype_);
    forall i | 0 <= i < |rows|
      ensures |rows[i].payload| <= if limit < 0xFFFF_FFFF then limit else 0xFFFF_FFFF
    {
      assert rows[i].payload == rs[i].payload;
    }
  }

  lemma {:induction false} FirstQueried(block: Block, chunks: seq<Bucket>, n: nat, types: seq<Datatype>, gens: Generators, q: Query, c: Context, limit: nat)
    requires Proper(types) && SolidFor(chunks, types, q) && LaidOut(block.segments, chunks, block.pages, types, gens, c) && Short(chunks, limit)
    requires n <= |chunks|
    ensures QueryFirst(block, n, types, gens, q, c, limit) == Some(FilterAll(chunks[..n], q))
  {
    hide Proper, SolidFrom, QueryHeader, FilterBucket, SegmentIs, TilesAt, EndsFull;
    if n > 0 {
      FirstQueried(block, chunks, n - 1, types, gens, q, c, limit);
      assert chunks[..n][..n - 1] == chunks[..n - 1];
      ChunkQueried(block.segments[n - 1], block.pages, chunks[n - 1], types, gens, q, c, limit);
    }
  }

  /** A query of an encoded block finds what filtering its groups finds, segments passed over or not. */
  lemma {:induction false} BlockQueried(block: Block, chunks: seq<Bucket>, groups: seq<Bucket>, types: seq<Datatype>, gens: Generators, q: Query,
                                        c: Context, limit: nat)
    requires Proper(types) && SolidFor(chunks, types, q) && Encodes(block, chunks, types, gens, c) && SameFound(chunks, groups) && Short(chunks, limit)
    requires q.begin <= q.end
    ensures QueryBlock(block, types, gens, q, c, limit) == Some(FilterAll(groups, q))
  {
    hide Proper, SolidFor, QueryFirst, FilterAll, LaidOut, AllOf;
    SameCount(block, chunks, types, gens, c);
    FirstQueried(block, chunks, |chunks|, types, gens, q, c, limit);
    assert chunks[..|chunks|] == chunks;
  }

  lemma {:induction false} SameCount(block: Block, chunks: seq<Bucket>, types: seq<Datatype>, gens: Generators, c: Context)
    requires LaidOut(block.segments, chunks, block.pages, types, gens, c)
    ensures |block.segments| == |chunks|
  {
  }

  /** Every record of a list of buckets is found by the query for everything. */
  lemma {:induction false} EverythingFinds(chunks: seq<Bucket>, i: nat, k: nat)
    requires i < |chunks| && k < |chunks[i].records|
    requires forall j :: 0 <= j < |chunks[i].records| ==> ValidRecord(chunks[i].records[j], chunks[i].generator.kind)
    ensures chunks[i].records[k] in FilterAll(chunks, EVERYTHING)
    decreases |chunks|
  {
    hide ValidRecord;
    var n := |chunks| - 1;
    if i == n {
      EverythingSelected(chunks[n].records, chunks[n].generator, chunks[n].datatype_);
    } else {
      EverythingFinds(chunks[..n], i, k);
    }
  }

  lemma {:induction false} MatchingIsFrom(rs: seq<Record>, gens: Generators, q: Query, r: Record)
    requires AllSourced(rs, gens) && r in Matching(rs, gens, q)
    ensures r in rs
  {
    hide Sourced, Selected;
    if r != rs[|rs| - 1] {
      MatchingIsFrom(rs[..|rs| - 1], gens, q, r);
    }
  }

  /** A record of a segment is one of the records that were encoded. */
  lemma {:induction false} RecordOfChunk(block: Block, chunks: seq<Bucket>, rs: seq<Record>, separate: bool, types: seq<Datatype>, gens: Generators,
                                         c: Context, i: nat, k: nat)
    requires Encodes(block, chunks, types, gens, c) && GeneratorsOk(gens) && AllSourced(rs, gens)
    requires SameFound(chunks, Ordered(BucketsOf(rs, gens), separate))
    requires i < |chunks| && k < |chunks[i].records|
    ensures chunks[i].records[k] in rs
  {
    hide AllOf, BucketsOf, Ordered, FilterAll, Matching, Sourced, TilesAt, EndsFull, ChunkOk;
    GroupsFindMatching(rs, gens, separate, EVERYTHING);
    assert SegmentIs(block.segments[i], block.pages, chunks[i], types, gens, c);
    ChunkFacts(chunks[i], types, gens, c);
    EverythingFinds(chunks, i, k);
    var r := chunks[i].records[k];
    assert r in multiset(FilterAll(Ordered(BucketsOf(rs, gens), separate), EVERYTHING));
    assert r in multiset(Matching(rs, gens, EVERYTHING));
    MatchingIsFrom(rs, gens, EVERYTHING, r);
  }

  lemma {:induction false} ChunksAreShort(block: Block, chunks: seq<Bucket>, rs: seq<Record>, separate: bool, types: seq<Datatype>, gens: Generators,
                                          c: Context, limit: nat)
    requires Encodes(block, chunks, types, gens, c) && GeneratorsOk(gens) && AllSourced(rs, gens)
    requires SameFound(chunks, Ordered(BucketsOf(rs, gens), separate))
    requires forall i :: 0 <= i < |rs| ==> |rs[i].payload| <= limit
    ensures Short(chunks, limit)
  {
    hide Encodes, SameFound, BucketsOf, Ordered, Sourced;
    forall i, k | 0 <= i < |chunks| && 0 <= k < |chunks[i].records|
      ensures |chunks[i].records[k].payload| <= limit
    {
      RecordOfChunk(block, chunks, rs, separate, types, gens, c, i, k);
    }
  }

  lemma {:induction false} ChunksAreSolid(block: Block, chunks: seq<Bucket>, rs: seq<Record>, separate: bool, types: seq<Datatype>, gens: Generators,
                                          q: Query, c: Context)
    requires Proper(types) && Encodes(block, chunks, types, gens, c) && GeneratorsOk(gens) && AllSourced(rs, gens)
    requires SameFound(chunks, Ordered(BucketsOf(rs, gens), separate)) && SolidRecords(rs, gens, types, q)
    ensures SolidFor(chunks, types, q)
  {
    hide Proper, SameFound, BucketsOf, Ordered, ValidRecord, AllOf, TilesAt, EndsFull, SolidFrom, SourceSelected, PayloadType, ChunkOk;
    forall i | 0 <= i < |chunks| && SourceSelected(chunks[i].generator, chunks[i].datatype_, q)
      ensures SolidFrom(types, chunks[i].datatype_)
    {
      assert SegmentIs(block.segments[i], block.pages, chunks[i], types, gens, c);
      ChunkIsBucket(block.segments[i], block.pages, chunks[i], types, gens, c);
      var r := chunks[i].records[0];
      assert OfBucket(r, chunks[i]);
      RecordOfChunk(block, chunks, rs, separate, types, gens, c, i, 0);
      var k :| 0 <= k < |rs| && rs[k] == r;
      assert SolidRecord(rs[k], gens, types, q);
    }
  }

  /** Whatever was encoded answers every query with exactly the records that match: group by group, each group in its order. */
  lemma {:induction false} EncodedAnswers(block: Block, chunks: seq<Bucket>, rs: seq<Record>, separate: bool, types: seq<Datatype>, gens: Generators,
                                          q: Query, c: Context, limit: nat)
    requires Proper(types) && GeneratorsOk(gens) && AllSourced(rs, gens) && SolidRecords(rs, gens, types, q)
    requires Encodes(block, chunks, types, gens, c)
    requires SameFound(chunks, Ordered(BucketsOf(rs, gens), separate))
    requires forall i :: 0 <= i < |rs| ==> |rs[i].payload| <= limit
    requires q.begin <= q.end
    ensures var found := FilterAll(Ordered(BucketsOf(rs, gens), separate), q);
      && QueryBlock(block, types, gens, q, c, limit) == Some(found) && multiset(found) == multiset(Matching(rs, gens, q))
      && forall r: Record :: multiset(found)[r] == if r.generator in gens && AskedFor(r, gens[r.generator], q) then multiset(rs)[r] else 0
  {
    hide Proper, SolidFor, SolidRecords, Encodes, SameFound, BucketsOf, Ordered, FilterAll, Matching, Sourced, QueryBlock, Short, AskedFor;
    MatchingIsAsked(rs, gens, q);
    ChunksAreShort(block, chunks, rs, separate, types, gens, c, limit);
    ChunksAreSolid(block, chunks, rs, separate, types, gens, q, c);
    BlockQueried(block, chunks, Ordered(BucketsOf(rs, gens), separate), types, gens, q, c, limit);
    GroupsFindMatching(rs, gens, separate, q);
  }

  // ---------------------------------------------------------------- opening a block

  /** The walk over pages, of these lengths, and offsets of the first `n` segments. */
  function WalkPages(segments: seq<SegmentHeader>, lengths: seq<nat>, n: nat): Option<(nat, nat)>
    requires n <= |segments|
  {
    if n == 0 then Some((0, 0)) else
      match WalkPages(segments, lengths, n - 1)
      case None => None
      case Some((page, offset)) =>
        var h := segments[n - 1];
        if h.page != page && (h.page != page + 1 || page >= |lengths| || offset != lengths[page]) then None else
          var page', offset' := h.page, if h.page != page then 0 else offset;
          if page' >= |lengths| || h.rawOffset != offset' || offset' + h.rawLength > lengths[page'] then None
          else Some((page', offset' + h.rawLength))
  }

  function Rows(segments: seq<SegmentHeader>): nat {
    if segments == [] then 0 else Rows(segments[..|segments| - 1]) + segments[|segments| - 1].count
  }

  predicate HeaderAccepted(h: SegmentHeader, pages: nat, types: seq<Datatype>, gens: Generators) {
    && h.generator in gens && PayloadType(gens[h.generator], h.selection).Some?
    && Known(types, PayloadType(gens[h.generator], h.selection).value)
    && LocatedKind(gens[h.generator].kind) && h.page < pages && h.count != 0 && h.rawLength != 0
    && h.minId != 0 && h.minId <= h.maxId && h.minParent <= h.maxParent && (h.minParent == 0 ==> h.maxParent == 0)
    && h.begin <= h.end && (!gens[h.generator].kind.Log? ==> h.minParent != 0)
  }

  /** The bounds of the block are those of its segments together. */
  predicate BoundsAreOf(b: Bounds, segments: seq<SegmentHeader>) {
    && (forall i :: 0 <= i < |segments| ==> Encloses(b, segments[i]))
    && (exists i :: 0 <= i < |segments| && segments[i].minId == b.minId) && (exists i :: 0 <= i < |segments| && segments[i].maxId == b.maxId)
    && (exists i :: 0 <= i < |segments| && segments[i].begin == b.begin) && (exists i :: 0 <= i < |segments| && segments[i].end == b.end)
  }

  predicate Encloses(b: Bounds, h: SegmentHeader) {
    b.minId <= h.minId && h.maxId <= b.maxId && b.begin <= h.begin && h.end <= b.end
  }

  /** The segments partition pages of these lengths. */
  predicate Partitions(segments: seq<SegmentHeader>, lengths: seq<nat>) {
    && WalkPages(segments, lengths, |segments|).Some?
    && var (page, offset) := WalkPages(segments, lengths, |segments|).value;
       page + 1 == |lengths| && offset == lengths[page]
  }

  /** What is checked of the numbers of a block when it is opened. */
  predicate Opens(number: u64, bounds: Bounds, segments: seq<SegmentHeader>, lengths: seq<nat>, types: seq<Datatype>, gens: Generators) {
    && number != 0 && bounds.count != 0 && bounds.minId != 0 && bounds.minId <= bounds.maxId && bounds.begin <= bounds.end
    && segments != [] && lengths != []
    && (forall i :: 0 <= i < |segments| ==> HeaderAccepted(segments[i], |lengths|, types, gens))
    && (forall i :: 0 <= i < |lengths| ==> 0 < lengths[i] < MAX_BLOCK_BYTES)
    && Partitions(segments, lengths) && Rows(segments) == bounds.count && BoundsAreOf(bounds, segments)
  }

  predicate Accepted(block: Block, types: seq<Datatype>, gens: Generators) {
    Opens(block.number, block.bounds, block.segments, LengthsOf(block.pages), types, gens)
  }

  lemma {:induction false} TilesWalk(block: Block, n: nat)
    requires n <= |block.segments| && forall i :: 0 <= i < |block.segments| ==> TilesAt(block.segments, block.pages, i)
    ensures WalkPages(block.segments, LengthsOf(block.pages), n) == if n == 0 then Some((0, 0)) else
              Some((block.segments[n - 1].page, block.segments[n - 1].rawOffset + block.segments[n - 1].rawLength))
  {
    if n > 0 {
      TilesWalk(block, n - 1);
      assert TilesAt(block.segments, block.pages, n - 1);
    }
  }

  lemma {:induction false} AddAllIs(all: Bounds, rs: seq<Record>)
    ensures var b, s := AddAll(all, rs), BoundsOf(rs);
      && b.count == all.count + |rs| && b.minId == Min(all.minId, s.minId) && b.maxId == Max(all.maxId, s.maxId)
      && b.begin == Min(all.begin, s.begin) && b.end == Max(all.end, s.end)
  {
    if rs != [] {
      AddAllIs(all, rs[..|rs| - 1]);
    }
  }

  ghost predicate Described(segments: seq<SegmentHeader>, chunks: seq<Bucket>) {
    && |segments| == |chunks|
    && forall i :: 0 <= i < |segments| ==> segments[i].count == |chunks[i].records| && BoundsMatch(BoundsOf(chunks[i].records), segments[i])
  }

  lemma {:induction false} AllIsTogether(segments: seq<SegmentHeader>, chunks: seq<Bucket>)
    requires Described(segments, chunks) && chunks != []
    ensures BoundsAreOf(AllOf(chunks), segments) && AllOf(chunks).count == Rows(segments)
  {
    hide BoundsOf, AddAll;
    var n := |chunks| - 1;
    var h, rs, all := segments[n], chunks[n].records, AllOf(chunks);
    AddAllIs(AllOf(chunks[..n]), rs);
    if n == 0 {
      assert AllOf(chunks[..0]) == NO_BOUNDS;
      assert Rows(segments[..0]) == 0;
      assert segments[0] == h;
    } else {
      var front := segments[..n];
      AllIsTogether(front, chunks[..n]);
      TogetherWithOne(AllOf(chunks[..n]), front, all, segments, h);
    }
  }

  lemma {:induction false} TogetherWithOne(before: Bounds, front: seq<SegmentHeader>, all: Bounds, segments: seq<SegmentHeader>, h: SegmentHeader)
    requires BoundsAreOf(before, front) && segments == front + [h]
    requires all.minId == Min(before.minId, h.minId) && all.maxId == Max(before.maxId, h.maxId)
    requires all.begin == Min(before.begin, h.begin) && all.end == Max(before.end, h.end)
    ensures BoundsAreOf(all, segments)
  {
    var n := |front|;
    assert segments[n] == h;
    forall i | 0 <= i < |segments|
      ensures Encloses(all, segments[i])
    {
      assert i < n ==> Encloses(before, front[i]);
    }
    var a :| 0 <= a < n && front[a].minId == before.minId;
    var b :| 0 <= b < n && front[b].maxId == before.maxId;
    var d :| 0 <= d < n && front[d].begin == before.begin;
    var e :| 0 <= e < n && front[e].end == before.end;
    assert segments[a].minId == all.minId || segments[n].minId == all.minId;
    assert segments[b].maxId == all.maxId || segments[n].maxId == all.maxId;
    assert segments[d].begin == all.begin || segments[n].begin == all.begin;
    assert segments[e].end == all.end || segments[n].end == all.end;
  }

  lemma {:induction false} SegmentAccepted(h: SegmentHeader, pages: seq<seq<byte>>, b: Bucket, types: seq<Datatype>, gens: Generators, c: Context)
    requires SegmentIs(h, pages, b, types, gens, c) && h.rawLength > 0
    ensures HeaderAccepted(h, |pages|, types, gens)
    ensures h.count == |b.records| && BoundsMatch(BoundsOf(b.records), h)
  {
    hide Proper, BoundsOf, PutsOf, SegmentColumns, PackedColumns, Flat, ValidRecord, Validate, Meaning;
    ChunkFacts(b, types, gens, c);
    BoundsInOrder(b.records, b.generator.kind);
    KindOfRecord(b.records[0], b.generator.kind);
    ChunkDatatype(b, types, gens, c);
  }

  lemma {:induction false} KindOfRecord(r: Record, kind: RecordKind)
    requires ValidRecord(r, kind)
    ensures LocatedKind(kind)
  {
  }

  lemma {:induction false} ChunkDatatype(b: Bucket, types: seq<Datatype>, gens: Generators, c: Context)
    requires ChunkOk(b, types, gens, c)
    ensures Known(types, b.datatype_)
  {
    hide Proper, ValidRecord, Meaning, Walk, PutsOf, SegmentColumns, Flat;
    assert RowsFor(b.records, b.datatype_)[0].id == b.datatype_;
  }

  /** Every block that is encoded opens. */
  lemma {:induction false} EncodedIsAccepted(block: Block, chunks: seq<Bucket>, types: seq<Datatype>, gens: Generators, c: Context)
    requires Encodes(block, chunks, types, gens, c)
    ensures Accepted(block, types, gens)
  {
    hide SegmentIs, TilesAt, HeaderAccepted, AllOf, BoundsOf, BoundsMatch, BoundsAreOf, Rows, WalkPages;
    forall i | 0 <= i < |block.segments|
      ensures HeaderAccepted(block.segments[i], |block.pages|, types, gens)
      ensures block.segments[i].count == |chunks[i].records| && BoundsMatch(BoundsOf(chunks[i].records), block.segments[i])
    {
      assert SegmentIs(block.segments[i], block.pages, chunks[i], types, gens, c) && TilesAt(block.segments, block.pages, i);
      TileHasBytes(block.segments, block.pages, i);
      SegmentAccepted(block.segments[i], block.pages, chunks[i], types, gens, c);
    }
    TilesWalk(block, |block.segments|);
    AllIsTogether(block.segments, chunks);
    BoundsAccepted(block, types, gens);
  }

  lemma {:induction false} TileHasBytes(segments: seq<SegmentHeader>, pages: seq<seq<byte>>, i: nat)
    requires i < |segments| && TilesAt(segments, pages, i)
    ensures segments[i].rawLength > 0
  {
  }

  lemma {:induction false} BoundsAccepted(block: Block, types: seq<Datatype>, gens: Generators)
    requires BoundsAreOf(block.bounds, block.segments) && block.bounds.count == Rows(block.segments) && block.segments != []
    requires forall i :: 0 <= i < |block.segments| ==> HeaderAccepted(block.segments[i], |block.pages|, types, gens)
    ensures block.bounds.count != 0 && block.bounds.minId != 0 && block.bounds.minId <= block.bounds.maxId && block.bounds.begin <= block.bounds.end
  {
    assert HeaderAccepted(block.segments[0], |block.pages|, types, gens) && Encloses(block.bounds, block.segments[0]);
    var i :| 0 <= i < |block.segments| && block.segments[i].minId == block.bounds.minId;
    assert HeaderAccepted(block.segments[i], |block.pages|, types, gens);
    assert HeaderAccepted(block.segments[|block.segments| - 1], |block.pages|, types, gens);
  }

  // ---------------------------------------------------------------- activity

  datatype Interval = Interval(generator: u32, begin: u64, end: u64)

  /** A stage of some length ends before its end; everything else covers its instant. */
  function IntervalOf(r: Record, kind: RecordKind): Interval {
    Interval(r.generator, r.begin, if kind.Stage? && r.end > r.begin then r.end - 1 else r.end)
  }

  /** The interval covers exactly the times at which the record is active. */
  lemma {:induction false} IntervalIsActivity(r: Record, kind: RecordKind, t: nat)
    requires ValidRecord(r, kind)
    ensures IntervalOf(r, kind).begin <= t <= IntervalOf(r, kind).end <==> ActiveAt(r, t)
    ensures IntervalOf(r, kind).generator == r.generator
  {
  }

  datatype Pace = Pace(begins: seq<byte>, lengths: seq<byte>, end: u64, shown: seq<Interval>)

  /** The rows of one segment of `activity`: only begins and lengths are read. */
  function PaceFirst(generator: u32, stage: bool, start: Pace, n: nat): Option<Pace> {
    if n == 0 then Some(start) else
      match PaceFirst(generator, stage, start, n - 1)
      case None => None
      case Some(p) =>
        match ReadDelta(p.begins, p.end)
        case None => None
        case Some((begin, begins)) =>
          match if stage then ReadVar(p.lengths) else Some((0, p.lengths))
          case None => None
          case Some((length, lengths)) =>
            var end := begin + length;
            if end >= 0x1_0000_0000_0000_0000 then None
            else Some(Pace(begins, lengths, end, p.shown + [Interval(generator, begin, if stage && end > begin then end - 1 else end)]))
  }

  function SegmentActivity(h: SegmentHeader, stage: bool, raw: seq<byte>): Option<seq<Interval>> {
    match Unpacked(raw, 9)
    case None => None
    case Some(columns) =>
      match PaceFirst(h.generator, stage, Pace(columns[0], columns[3], 0, []), h.count)
      case None => None
      case Some(p) => if p.begins != [] || p.lengths != [] then None else Some(p.shown)
  }

  /** `activity`, over the first `n` segments. */
  function Activity(block: Block, n: nat, gens: Generators): Option<seq<Interval>>
    requires n <= |block.segments|
  {
    if n == 0 then Some([]) else
      match Activity(block, n - 1, gens)
      case None => None
      case Some(shown) =>
        var h := block.segments[n - 1];
        if !OnPage(h, block.pages) || h.generator !in gens then None else
          match SegmentActivity(h, gens[h.generator].kind.Stage?, block.pages[h.page][h.rawOffset..h.rawOffset + h.rawLength])
          case None => None
          case Some(more) => Some(shown + more)
  }

  function IntervalsOf(rs: seq<Record>, kind: RecordKind): seq<Interval> {
    if rs == [] then [] else IntervalsOf(rs[..|rs| - 1], kind) + [IntervalOf(rs[|rs| - 1], kind)]
  }

  function IntervalsOfAll(bs: seq<Bucket>): seq<Interval> {
    if bs == [] then [] else IntervalsOfAll(bs[..|bs| - 1]) + IntervalsOf(bs[|bs| - 1].records, bs[|bs| - 1].generator.kind)
  }

  lemma {:induction false} PaceReads(rs: seq<Record>, g: Generator, begins: seq<byte>, lengths: seq<byte>)
    requires AllValid(rs, g.kind) && forall i :: 0 <= i < |rs| ==> rs[i].generator == g.id
    ensures var m := MetaAll(g.kind, rs);
      PaceFirst(g.id, g.kind.Stage?, Pace(m.begins + begins, m.durations + lengths, 0, []), |rs|)
      == Some(Pace(begins, lengths, PrevOf(rs).end, IntervalsOf(rs, g.kind)))
  {
    hide Leb, Unleb, ReadVar, ReadDelta, DeltaBytes;
    if rs == [] {
      assert [] + begins == begins && [] + lengths == lengths;
    } else {
      var front, r := rs[..|rs| - 1], rs[|rs| - 1];
      var delta, duration := DeltaBytes(r.begin, PrevOf(front).end), if g.kind.Stage? then Leb(r.end - r.begin) else [];
      PaceReads(front, g, delta + begins, duration + lengths);
      var m := MetaAll(g.kind, front);
      assert m.begins + delta + begins == m.begins + (delta + begins) && m.durations + duration + lengths == m.durations + (duration + lengths);
      assert ValidRecord(r, g.kind);
      DeltaReads(r.begin, PrevOf(front).end, begins);
      if g.kind.Stage? {
        ReadVarIff(Leb(r.end - r.begin) + lengths, r.end - r.begin, lengths);
      } else {
        assert [] + lengths == lengths;
      }
    }
  }

  lemma {:induction false} ChunkActivity(h: SegmentHeader, pages: seq<seq<byte>>, b: Bucket, types: seq<Datatype>, gens: Generators, c: Context)
    requires SegmentIs(h, pages, b, types, gens, c)
    ensures h.generator in gens && gens[h.generator] == b.generator
    ensures SegmentActivity(h, b.generator.kind.Stage?, pages[h.page][h.rawOffset..h.rawOffset + h.rawLength])
            == Some(IntervalsOf(b.records, b.generator.kind))
  {
    hide Proper, BoundsOf, BoundsMatch, PutsOf, Finished, PackedColumns, Unpacked, Flat, ValidRecord, Validate, Meaning, PaceFirst, MetaAll,
         IntervalsOf;
    ChunkFacts(b, types, gens, c);
    var columns := SegmentColumns(types, b.generator.kind, b.datatype_, b.records, c);
    ColumnPacking.ColumnsFit(columns);
    UnpacksBack(columns);
    var m := MetaAll(b.generator.kind, b.records);
    PaceReads(b.records, b.generator, [], []);
    assert m.begins + [] == m.begins && m.durations + [] == m.durations;
  }

  lemma {:induction false} FirstActivity(block: Block, chunks: seq<Bucket>, n: nat, types: seq<Datatype>, gens: Generators, c: Context)
    requires LaidOut(block.segments, chunks, block.pages, types, gens, c) && n <= |chunks|
    ensures Activity(block, n, gens) == Some(IntervalsOfAll(chunks[..n]))
  {
    hide SegmentActivity, IntervalsOf, TilesAt, EndsFull, ChunkOk, RawOf, BoundsMatch, BoundsOf;
    if n > 0 {
      FirstActivity(block, chunks, n - 1, types, gens, c);
      assert chunks[..n][..n - 1] == chunks[..n - 1];
      assert SegmentIs(block.segments[n - 1], block.pages, chunks[n - 1], types, gens, c);
      ChunkActivity(block.segments[n - 1], block.pages, chunks[n - 1], types, gens, c);
    }
  }

  /** The intervals of the records that a list shows, whatever generators they are of. */
  function IntervalsFound(rs: seq<Record>, gens: Generators): seq<Interval> {
    if rs == [] then [] else
      var r := rs[|rs| - 1];
      IntervalsFound(rs[..|rs| - 1], gens) + [IntervalOf(r, if r.generator in gens then gens[r.generator].kind else Transaction)]
  }

  lemma {:induction false} FoundAdds(a: seq<Record>, b: seq<Record>, gens: Generators)
    ensures IntervalsFound(a + b, gens) == IntervalsFound(a, gens) + IntervalsFound(b, gens)
    decreases |b|
  {
    if b == [] {
      assert a + b == a;
    } else {
      var n := |b| - 1;
      assert (a + b)[..|a + b| - 1] == a + b[..n] && (a + b)[|a + b| - 1] == b[n];
      FoundAdds(a, b[..n], gens);
    }
  }

  lemma {:induction false} OneKind(rs: seq<Record>, g: Generator, gens: Generators)
    requires g.id in gens && gens[g.id] == g && forall i :: 0 <= i < |rs| ==> rs[i].generator == g.id
    ensures IntervalsFound(rs, gens) == IntervalsOf(rs, g.kind)
  {
    if rs != [] {
      OneKind(rs[..|rs| - 1], g, gens);
    }
  }

  ghost predicate BucketsFine(bs: seq<Bucket>, gens: Generators) {
    forall i :: 0 <= i < |bs| ==> BucketOk(bs[i], gens)
  }

  lemma {:induction false} ActivityOfEverything(bs: seq<Bucket>, gens: Generators)
    requires BucketsFine(bs, gens)
    ensures IntervalsOfAll(bs) == IntervalsFound(FilterAll(bs, EVERYTHING), gens)
  {
    hide IntervalsOf, IntervalsFound, ValidRecord, PayloadType;
    if bs == [] {
      NothingFound(gens);
    } else {
      var front, b := bs[..|bs| - 1], bs[|bs| - 1];
      assert BucketOk(b, gens);
      ActivityOfEverything(front, gens);
      EverythingSelected(b.records, b.generator, b.datatype_);
      FoundAdds(FilterAll(front, EVERYTHING), b.records, gens);
      OneKind(b.records, b.generator, gens);
    }
  }

  lemma {:induction false} NothingFound(gens: Generators)
    ensures IntervalsFound([], gens) == []
  {
  }

  /** `activity` shows the same intervals as a query for everything. */
  lemma {:induction false} ActivityIsQuery(block: Block, chunks: seq<Bucket>, types: seq<Datatype>, gens: Generators, c: Context, limit: nat)
    requires Proper(types) && SolidFor(chunks, types, EVERYTHING) && Encodes(block, chunks, types, gens, c) && Short(chunks, limit)
    ensures QueryBlock(block, types, gens, EVERYTHING, c, limit).Some?
    ensures Activity(block, |block.segments|, gens)
            == Some(IntervalsFound(QueryBlock(block, types, gens, EVERYTHING, c, limit).value, gens))
  {
    hide Proper, SolidFor, QueryBlock, Activity, SegmentIs, TilesAt, FilterAll, IntervalsOfAll, IntervalsFound, AllOf, BucketOk;
    FirstActivity(block, chunks, |chunks|, types, gens, c);
    assert chunks[..|chunks|] == chunks;
    SameAsThemselves(chunks);
    BlockQueried(block, chunks, chunks, types, gens, EVERYTHING, c, limit);
    forall i | 0 <= i < |chunks|
      ensures BucketOk(chunks[i], gens)
    {
      assert SegmentIs(block.segments[i], block.pages, chunks[i], types, gens, c);
      ChunkIsBucket(block.segments[i], block.pages, chunks[i], types, gens, c);
    }
    ActivityOfEverything(chunks, gens);
  }

  lemma {:induction false} SameAsThemselves(chunks: seq<Bucket>)
    ensures SameFound(chunks, chunks)
  {
  }

  lemma {:induction false} ChunkIsBucket(h: SegmentHeader, pages: seq<seq<byte>>, b: Bucket, types: seq<Datatype>, gens: Generators, c: Context)
    requires SegmentIs(h, pages, b, types, gens, c)
    ensures BucketOk(b, gens)
  {
    hide BucketOk, Proper, SegmentOk, PutsOf, SegmentColumns, Flat;
  }
}
