/** Encoding a block of records: gathering, cutting and laying out, and what the block then answers. */
module RecordEncoding {
  import opened Options
  import opened Words
  import opened ColumnPacking
  import opened Datatypes
  import opened DatatypeWalks
  import opened Records
  import opened RecordGroups
  import opened RecordPieces
  import opened RecordBlocks

  // ---------------------------------------------------------------- gathering

  /** Records a block accepts: of known sources, valid, with valid payloads, and each number once. */
  ghost predicate RecordOk(r: Record, types: seq<Datatype>, gens: Generators, c: Context)
    requires Proper(types)
  {
    Sourced(r, gens) && Validate(types, PayloadType(gens[r.generator], r.datatype_).value, r.payload, c)
  }

  ghost predicate Acceptable(rs: seq<Record>, types: seq<Datatype>, gens: Generators, c: Context)
    requires Proper(types)
  {
    && (forall i :: 0 <= i < |rs| ==> RecordOk(rs[i], types, gens, c))
    && forall i, j :: 0 <= i < j < |rs| ==> rs[i].id != rs[j].id
  }

  /** The index of buckets by source is as finding them one by one. */
  ghost predicate IndexOk(indices: map<(u32, Option<nat>), nat>, bs: seq<Bucket>) {
    && (forall k :: k in indices ==> indices[k] < |bs| && bs[indices[k]].generator.id == k.0 && bs[indices[k]].selection == k.1)
    && forall i :: 0 <= i < |bs| ==> (bs[i].generator.id, bs[i].selection) in indices && indices[(bs[i].generator.id, bs[i].selection)] == i
  }

  lemma {:induction false} IndexFinds(indices: map<(u32, Option<nat>), nat>, bs: seq<Bucket>, r: Record)
    requires IndexOk(indices, bs)
    ensures Find(bs, r) == if (r.generator, r.datatype_) in indices then Some(indices[(r.generator, r.datatype_)]) else None
  {
    var key := (r.generator, r.datatype_);
    match Find(bs, r)
    case Some(i) => assert (bs[i].generator.id, bs[i].selection) == key;
    case None => assert key in indices ==> OfBucket(r, bs[indices[key]]);
  }

  lemma {:induction false} IndexGrows(indices: map<(u32, Option<nat>), nat>, bs: seq<Bucket>, r: Record, gens: Generators)
    requires IndexOk(indices, bs) && Sourced(r, gens) && GeneratorsOk(gens)
    ensures var key := (r.generator, r.datatype_);
      IndexOk(if key in indices then indices else indices[key := |bs|], Add(bs, r, gens))
  {
    hide ValidRecord, PayloadType;
    IndexFinds(indices, bs, r);
  }

  /** The numbers of the first records. */
  ghost predicate IdsOf(ids: set<nat>, rs: seq<Record>, n: nat)
    requires n <= |rs|
  {
    (forall k :: 0 <= k < n ==> rs[k].id in ids) && forall v :: v in ids ==> exists k :: 0 <= k < n && rs[k].id == v
  }

  lemma {:induction false} OneMoreAccepted(rs: seq<Record>, i: nat, ids: set<nat>, types: seq<Datatype>, gens: Generators, c: Context)
    requires Proper(types) && i < |rs| && Acceptable(rs[..i], types, gens, c) && IdsOf(ids, rs, i)
    ensures !RecordOk(rs[i], types, gens, c) || rs[i].id in ids ==> !Acceptable(rs, types, gens, c)
    ensures RecordOk(rs[i], types, gens, c) && rs[i].id !in ids ==>
              Acceptable(rs[..i + 1], types, gens, c) && IdsOf(ids + {rs[i].id as nat}, rs, i + 1)
  {
    hide Proper, RecordOk;
    if rs[i].id in ids {
      var k :| 0 <= k < i && rs[k].id == rs[i].id;
    }
    if RecordOk(rs[i], types, gens, c) && rs[i].id !in ids {
      var more := rs[..i + 1];
      forall k | 0 <= k < |more|
        ensures RecordOk(more[k], types, gens, c)
      {
        assert k < i ==> rs[..i][k] == more[k];
      }
      forall k, j | 0 <= k < j < |more|
        ensures more[k].id != more[j].id
      {
        assert j < i ==> rs[..i][k].id != rs[..i][j].id;
      }
    }
  }

  lemma {:induction false} SourcedStep(rs: seq<Record>, i: nat, gens: Generators)
    requires i < |rs| && AllSourced(rs[..i], gens) && Sourced(rs[i], gens)
    ensures AllSourced(rs[..i + 1], gens) && BucketsOf(rs[..i + 1], gens) == Add(BucketsOf(rs[..i], gens), rs[i], gens)
  {
    hide Sourced, Add;
    assert rs[..i + 1][..i] == rs[..i] && rs[..i + 1][i] == rs[i];
  }

  method Gather(rs: seq<Record>, types: seq<Datatype>, gens: Generators, c: Context) returns (bs: Option<seq<Bucket>>)
    requires Proper(types) && GeneratorsOk(gens)
    ensures bs.Some? <==> Acceptable(rs, types, gens, c)
    ensures bs.Some? ==> AllSourced(rs, gens) && bs.value == BucketsOf(rs, gens)
  {
    hide Proper, Validate, ValidRecord, PayloadType, Acceptable, BucketsOf, IndexOk, IdsOf, GeneratorsOk, AllSourced;
    var buckets: seq<Bucket>, indices: map<(u32, Option<nat>), nat>, ids: set<nat> := [], map[], {};
    NothingGathered(rs, types, gens, c);
    for i := 0 to |rs|
      invariant Acceptable(rs[..i], types, gens, c) && AllSourced(rs[..i], gens) && buckets == BucketsOf(rs[..i], gens)
      invariant IndexOk(indices, buckets) && IdsOf(ids, rs, i)
    {
      var r := rs[i];
      OneMoreAccepted(rs, i, ids, types, gens, c);
      if r.generator !in gens || !ValidRecord(r, gens[r.generator].kind) {
        return None;
      }
      var datatype_ := PayloadType(gens[r.generator], r.datatype_);
      if datatype_.None? || !Validate(types, datatype_.value, r.payload, c) {
        return None;
      }
      if r.id in ids {
        return None;
      }
      ids := ids + {r.id as nat};
      IndexFinds(indices, buckets, r);
      IndexGrows(indices, buckets, r, gens);
      SourcedStep(rs, i, gens);
      var key := (r.generator, r.datatype_);
      if key in indices {
        var k := indices[key];
        buckets := buckets[k := buckets[k].(records := buckets[k].records + [r])];
      } else {
        indices := indices[key := |buckets|];
        buckets := buckets + [Bucket(gens[r.generator], r.datatype_, datatype_.value, [r])];
      }
    }
    assert rs[..|rs|] == rs;
    bs := Some(buckets);
  }

  lemma {:induction false} NothingGathered(rs: seq<Record>, types: seq<Datatype>, gens: Generators, c: Context)
    requires Proper(types)
    ensures Acceptable(rs[..0], types, gens, c) && AllSourced(rs[..0], gens) && BucketsOf(rs[..0], gens) == []
    ensures IndexOk(map[], []) && IdsOf({}, rs, 0)
  {
    hide Proper;
    assert rs[..0] == [];
  }

  /** Every bucket's records can be encoded. */
  lemma {:induction false} GatheredRows(rs: seq<Record>, types: seq<Datatype>, gens: Generators, c: Context)
    requires Proper(types) && GeneratorsOk(gens) && Acceptable(rs, types, gens, c)
    ensures AllSourced(rs, gens) && BucketsOk(BucketsOf(rs, gens), gens)
    ensures AllRowsOk(BucketsOf(rs, gens), types, c)
  {
    hide Proper, Acceptable, RecordOk, RowsAreOk, Add, AllSourced, BucketsOk, GeneratorsOk;
    if rs == [] {
      NothingGathered(rs, types, gens, c);
      NoBuckets(gens);
    } else {
      var front, r := rs[..|rs| - 1], rs[|rs| - 1];
      FrontAccepted(rs, types, gens, c);
      GatheredRows(front, types, gens, c);
      SourcedStep(rs, |rs| - 1, gens);
      assert rs[..|rs|] == rs;
      AddKeepsOk(BucketsOf(front, gens), r, gens);
      AddedRows(BucketsOf(front, gens), r, types, gens, c);
    }
  }

  lemma {:induction false} NoBuckets(gens: Generators)
    ensures AllSourced([], gens) && BucketsOk([], gens)
  {
  }

  lemma {:induction false} FrontAccepted(rs: seq<Record>, types: seq<Datatype>, gens: Generators, c: Context)
    requires Proper(types) && rs != [] && Acceptable(rs, types, gens, c)
    ensures Acceptable(rs[..|rs| - 1], types, gens, c) && RecordOk(rs[|rs| - 1], types, gens, c) && Sourced(rs[|rs| - 1], gens)
  {
    hide Proper, Validate, ValidRecord, PayloadType;
    assert RecordOk(rs[|rs| - 1], types, gens, c);
  }

  lemma {:induction false} AddedRows(bs: seq<Bucket>, r: Record, types: seq<Datatype>, gens: Generators, c: Context)
    requires Proper(types) && GeneratorsOk(gens) && BucketsOk(bs, gens) && RecordOk(r, types, gens, c)
    requires forall i :: 0 <= i < |bs| ==> RowsAreOk(bs[i], types, c)
    ensures forall i :: 0 <= i < |Add(bs, r, gens)| ==> RowsAreOk(Add(bs, r, gens)[i], types, c)
  {
    hide Proper, Validate, ValidRecord, PayloadType, Meaning;
    ValidateIff(types, PayloadType(gens[r.generator], r.datatype_).value, r.payload, c);
    var all := Add(bs, r, gens);
    forall i | 0 <= i < |all|
      ensures RowsAreOk(all[i], types, c)
    {
      if i < |bs| {
        assert RowsAreOk(bs[i], types, c) && BucketOk(bs[i], gens);
      }
    }
  }

  // ---------------------------------------------------------------- laying out

  datatype Building = Building(segments: seq<SegmentHeader>, pages: seq<seq<byte>>, raw: seq<byte>, all: Bounds)

  function AllOf(chunks: seq<Bucket>): Bounds {
    if chunks == [] then NO_BOUNDS else AddAll(AllOf(chunks[..|chunks| - 1]), chunks[|chunks| - 1].records)
  }

  ghost predicate PagesOk(pages: seq<seq<byte>>) {
    forall i :: 0 <= i < |pages| ==> 0 < |pages[i]| < MAX_BLOCK_BYTES
  }

  ghost predicate Built(s: Building, chunks: seq<Bucket>, types: seq<Datatype>, gens: Generators, c: Context) {
    LaidOut(s.segments, chunks, WithRaw(s.pages, s.raw), types, gens, c) && s.all == AllOf(chunks) && PagesOk(s.pages) && |s.raw| < MAX_BLOCK_BYTES
  }

  /** A page is no longer than it should be, or holds a single record. */
  predicate PageFits(segments: seq<SegmentHeader>, p: nat, page: seq<byte>, pageBytes: nat) {
    |page| <= pageBytes || exists i :: 0 <= i < |segments| && segments[i].page == p && segments[i].rawLength == |page| && segments[i].count == 1
  }

  ghost predicate PagesFit(segments: seq<SegmentHeader>, pages: seq<seq<byte>>, pageBytes: nat) {
    forall p :: 0 <= p < |pages| ==> PageFits(segments, p, pages[p], pageBytes)
  }

  predicate IsLog(h: SegmentHeader, gens: Generators) {
    h.generator in gens && gens[h.generator].kind.Log?
  }

  /** Why a segment begins a new page: the page before is full, has no room for it, or holds no logs while logs are kept apart. */
  predicate NeedsPage(before: SegmentHeader, h: SegmentHeader, pageBytes: nat, separate: bool, gens: Generators) {
    || before.rawOffset + before.rawLength >= pageBytes
    || before.rawOffset + before.rawLength + h.rawLength > pageBytes
    || (separate && !IsLog(before, gens) && IsLog(h, gens))
  }

  /** Pages are filled: a segment begins a new one only when it has to, and shares no page that it should not share. */
  ghost predicate PagesFilled(segments: seq<SegmentHeader>, pageBytes: nat, separate: bool, gens: Generators) {
    forall i :: 0 < i < |segments| ==> PageAfter(segments, i, pageBytes, separate, gens)
  }

  predicate PageAfter(segments: seq<SegmentHeader>, i: nat, pageBytes: nat, separate: bool, gens: Generators)
    requires 0 < i < |segments|
  {
    segments[i].page != segments[i - 1].page <==> NeedsPage(segments[i - 1], segments[i], pageBytes, separate, gens)
  }

  /** Where the last segment leaves the page, for a segment to come that is of logs or not. */
  ghost predicate Paged(s: Building, logs: bool, pageBytes: nat, separate: bool, gens: Generators) {
    && PagesFilled(s.segments, pageBytes, separate, gens)
    && if s.segments == [] then s.raw == [] && s.pages == [] else
         var last := s.segments[|s.segments| - 1];
         var apart := separate && !IsLog(last, gens) && logs;
         if s.raw == [] then last.page + 1 == |s.pages| && (last.rawOffset + last.rawLength >= pageBytes || apart)
         else last.page == |s.pages| && last.rawOffset + last.rawLength == |s.raw| < pageBytes && !apart
  }

  /** One segment was put behind what was there, on the page being filled if it has room. */
  ghost predicate Joined(s0: Building, s: Building, generator: u32, raw: seq<byte>, pageBytes: nat) {
    && |s.segments| == |s0.segments| + 1 && s.segments[..|s0.segments|] == s0.segments
    && var h := s.segments[|s0.segments|];
       var fits := s0.raw != [] && |s0.raw| + |raw| <= pageBytes;
       && h.generator == generator && h.rawLength == |raw| > 0
       && h.rawOffset == (if fits then |s0.raw| else 0) && h.page == |s0.pages| + (if s0.raw == [] || fits then 0 else 1)
       && if h.rawOffset + |raw| >= pageBytes then s.raw == [] && |s.pages| == h.page + 1
          else |s.raw| == h.rawOffset + |raw| && |s.pages| == h.page
  }

  lemma {:induction false} JoinedIsPaged(s0: Building, s: Building, generator: u32, raw: seq<byte>, logs: bool, pageBytes: nat, separate: bool,
                                         gens: Generators)
    requires Paged(s0, logs, pageBytes, separate, gens) && Joined(s0, s, generator, raw, pageBytes)
    requires generator in gens && gens[generator].kind.Log? == logs
    ensures Paged(s, logs, pageBytes, separate, gens) && s.segments != [] && IsLog(s.segments[|s.segments| - 1], gens) == logs
  {
    var n := |s0.segments|;
    forall i | 0 < i < |s.segments|
      ensures PageAfter(s.segments, i, pageBytes, separate, gens)
    {
      assert s.segments[i - 1] == s0.segments[i - 1];
      if i < n {
        assert s.segments[i] == s0.segments[i];
        assert PageAfter(s0.segments, i, pageBytes, separate, gens);
      }
    }
  }

  /** Logs come behind everything else. */
  ghost predicate LogsLast(segments: seq<SegmentHeader>, gens: Generators) {
    forall i, j :: 0 <= i < j < |segments| && IsLog(segments[i], gens) ==> IsLog(segments[j], gens)
  }

  lemma {:induction false} LogsLastGrows(segments: seq<SegmentHeader>, h: SegmentHeader, gens: Generators)
    requires LogsLast(segments, gens) && (segments != [] && IsLog(segments[|segments| - 1], gens) ==> IsLog(h, gens))
    ensures LogsLast(segments + [h], gens)
  {
    var more := segments + [h];
    forall i, j | 0 <= i < j < |more| && IsLog(more[i], gens)
      ensures IsLog(more[j], gens)
    {
      if j == |segments| && i < |segments| - 1 {
        assert IsLog(segments[i], gens) && IsLog(segments[|segments| - 1], gens);
      }
    }
  }

  /** Two lists of buckets that answer every query alike. */
  ghost predicate SameFound(a: seq<Bucket>, b: seq<Bucket>) {
    forall q :: FilterAll(a, q) == FilterAll(b, q)
  }

  /** `flush_page`. */
  method Flush(s: Building, ghost pageBytes: nat, ghost chunks: seq<Bucket>, ghost types: seq<Datatype>, ghost gens: Generators, ghost c: Context)
    returns (r: Option<Building>)
    requires Built(s, chunks, types, gens, c) && PagesFit(s.segments, WithRaw(s.pages, s.raw), pageBytes)
    ensures r.Some? && Built(r.value, chunks, types, gens, c) && PagesFit(r.value.segments, WithRaw(r.value.pages, r.value.raw), pageBytes)
    ensures r.value.raw == [] && r.value.segments == s.segments && r.value.all == s.all
    ensures |r.value.pages| == |s.pages| + if s.raw == [] then 0 else 1
  {
    hide LaidOut, PageFits;
    if s.raw == [] {
      return Some(s);
    }
    if |s.raw| >= MAX_BLOCK_BYTES {
      return None;
    }
    r := Some(s.(pages := s.pages + [s.raw], raw := []));
  }

  /** One segment more on the page being filled, or on a new one. */
  method Place(s0: Building, ghost chunks: seq<Bucket>, ghost chunk: Bucket, selection: Option<nat>, generator: u32, raw: seq<byte>,
               bounds: Bounds, all: Bounds, pageBytes: nat, ghost types: seq<Datatype>, ghost gens: Generators, ghost c: Context)
    returns (r: Option<Building>)
    requires Built(s0, chunks, types, gens, c) && ChunkOk(chunk, types, gens, c) && raw == RawOf(chunk, types, gens, c)
    requires bounds == BoundsOf(chunk.records) && all == AddAll(s0.all, chunk.records)
    requires selection == chunk.selection && generator == chunk.generator.id && pageBytes < MAX_BLOCK_BYTES
    requires PagesFit(s0.segments, WithRaw(s0.pages, s0.raw), pageBytes) && (|raw| <= pageBytes || |chunk.records| == 1)
    ensures r.None? ==> |chunks| >= TWO_32
    ensures r.Some? ==> Built(r.value, chunks + [chunk], types, gens, c) && PagesFit(r.value.segments, WithRaw(r.value.pages, r.value.raw), pageBytes)
    ensures r.Some? ==> Joined(s0, r.value, generator, raw, pageBytes)
  {
    hide LaidOut, ChunkOk, RawOf, BoundsOf, AddAll, AllOf, WithRaw, PagesFit, Joined;
    var s := s0;
    RawIsShort(chunk, types, gens, c);
    FewPages(s.segments, chunks, s.pages, s.raw, types, gens, c);
    CountOfBounds(chunk.records);
    RecordsAreFew(chunk, types, gens, c);
    if s.raw != [] && |raw| > (if pageBytes < |s.raw| then 0 else pageBytes - |s.raw|) {
      var flushed := Flush(s, pageBytes, chunks, types, gens, c);
      if flushed.None? {
        return None;
      }
      s := flushed.value;
      FewPages(s.segments, chunks, s.pages, s.raw, types, gens, c);
    }
    if |s.pages| >= TWO_32 || bounds.count >= TWO_32 || |s.raw| >= TWO_32 || |raw| >= TWO_32 {
      return None;
    }
    var header := SegmentHeader(selection, generator, |s.pages|, bounds.count, |s.raw|, |raw|, bounds.minId, bounds.maxId, ParentMin(bounds),
                                bounds.maxParent, bounds.begin, bounds.end);
    LaysOneMore(s.segments, chunks, s.pages, s.raw, chunk, raw, types, gens, c);
    AllOfMore(chunks, chunk);
    FitsOneMore(s.segments, s.pages, s.raw, header, raw, pageBytes);
    ghost var before := s;
    s := Building(s.segments + [header], s.pages, s.raw + raw, all);
    if |s.raw| >= pageBytes {
      r := Flush(s, pageBytes, chunks + [chunk], types, gens, c);
    } else {
      r := Some(s);
    }
    PlacedIsJoined(s0, before, header, r.value, raw, pageBytes);
  }

  lemma {:induction false} AllOfMore(chunks: seq<Bucket>, chunk: Bucket)
    ensures AllOf(chunks + [chunk]) == AddAll(AllOf(chunks), chunk.records)
  {
    hide AddAll;
    assert (chunks + [chunk])[..|chunks|] == chunks;
  }

  /** Two flushes that were made or not, and a segment between them. */
  lemma {:induction false} PlacedIsJoined(s0: Building, before: Building, h: SegmentHeader, s: Building, raw: seq<byte>, pageBytes: nat)
    requires before.segments == s0.segments && raw != [] && h.page == |before.pages| && h.rawOffset == |before.raw| && h.rawLength == |raw|
    requires if s0.raw != [] && |s0.raw| + |raw| > pageBytes then before.raw == [] && |before.pages| == |s0.pages| + 1 else before == s0
    requires s.segments == s0.segments + [h]
    requires if |before.raw| + |raw| >= pageBytes then s.raw == [] && |s.pages| == |before.pages| + 1
             else s.pages == before.pages && s.raw == before.raw + raw
    ensures Joined(s0, s, h.generator, raw, pageBytes)
  {
  }

  lemma {:induction false} FitsOneMore(segments: seq<SegmentHeader>, pages: seq<seq<byte>>, raw: seq<byte>, header: SegmentHeader, bytes: seq<byte>,
                                       pageBytes: nat)
    requires PagesFit(segments, WithRaw(pages, raw), pageBytes) && header.page == |pages| && header.rawLength == |bytes| > 0
    requires |bytes| <= pageBytes || header.count == 1
    requires raw != [] ==> |raw| + |bytes| <= pageBytes
    ensures PagesFit(segments + [header], WithRaw(pages, raw + bytes), pageBytes)
  {
    var more, after := segments + [header], WithRaw(pages, raw + bytes);
    forall p | 0 <= p < |after|
      ensures PageFits(more, p, after[p], pageBytes)
    {
      if p < |pages| {
        assert PageFits(segments, p, WithRaw(pages, raw)[p], pageBytes);
        if |pages[p]| > pageBytes {
          var i :| 0 <= i < |segments| && segments[i].page == p && segments[i].rawLength == |pages[p]| && segments[i].count == 1;
          assert more[i] == segments[i];
        }
      } else {
        assert more[|segments|] == header;
      }
    }
  }

  /** There are no more pages than segments. */
  lemma {:induction false} FewPages(segments: seq<SegmentHeader>, chunks: seq<Bucket>, pages: seq<seq<byte>>, raw: seq<byte>, types: seq<Datatype>,
                                    gens: Generators, c: Context)
    requires LaidOut(segments, chunks, WithRaw(pages, raw), types, gens, c)
    ensures |pages| <= |chunks|
  {
    hide SegmentIs;
    if segments != [] {
      PageOfTile(segments, WithRaw(pages, raw), |segments| - 1);
    }
  }

  lemma {:induction false} PageOfTile(segments: seq<SegmentHeader>, pages: seq<seq<byte>>, i: nat)
    requires i < |segments| && forall k :: 0 <= k < |segments| ==> TilesAt(segments, pages, k)
    ensures segments[i].page <= i
  {
    hide OnPage;
    assert TilesAt(segments, pages, i);
    if i > 0 {
      PageOfTile(segments, pages, i - 1);
    }
  }

  lemma {:induction false} CutFinds(chunks: seq<Bucket>, done: seq<Bucket>, b: Bucket, first: nat, index: nat)
    requires first <= index <= |b.records| && SameFound(chunks, done + [b.(records := b.records[..first])])
    ensures SameFound(chunks + [b.(records := b.records[first..index])], done + [b.(records := b.records[..index])])
  {
    hide FilterAll;
    forall q: Query
      ensures FilterAll(chunks + [b.(records := b.records[first..index])], q) == FilterAll(done + [b.(records := b.records[..index])], q)
    {
      CutFindsFor(chunks, done, b, first, index, q);
    }
  }

  lemma {:induction false} CutFindsFor(chunks: seq<Bucket>, done: seq<Bucket>, b: Bucket, first: nat, index: nat, q: Query)
    requires first <= index <= |b.records| && FilterAll(chunks, q) == FilterAll(done + [b.(records := b.records[..first])], q)
    ensures FilterAll(chunks + [b.(records := b.records[first..index])], q) == FilterAll(done + [b.(records := b.records[..index])], q)
  {
    hide FilterAll, FilterBucket;
    var chunk, before, after := b.(records := b.records[first..index]), b.(records := b.records[..first]), b.(records := b.records[..index]);
    FilterAllAdds(chunks, [chunk], q);
    FilterAllAdds(done, [before], q);
    FilterAllAdds(done, [after], q);
    OneFiltered(chunk, q);
    OneFiltered(before, q);
    OneFiltered(after, q);
    JoinedFiltered(b, first, index, q);
    assert FilterAll(done, q) + (FilterBucket(before, q) + FilterBucket(chunk, q)) == FilterAll(done, q) + FilterBucket(before, q) + FilterBucket(chunk, q);
  }

  lemma {:induction false} JoinedFiltered(b: Bucket, first: nat, index: nat, q: Query)
    requires first <= index <= |b.records|
    ensures FilterBucket(b.(records := b.records[..index]), q) ==
            FilterBucket(b.(records := b.records[..first]), q) + FilterBucket(b.(records := b.records[first..index]), q)
  {
    assert b.records[..index] == b.records[..first] + b.records[first..index];
    FilterAdds(b.records[..first], b.records[first..index], b.generator, b.datatype_, q);
  }

  lemma {:induction false} EmptyBucketFinds(chunks: seq<Bucket>, done: seq<Bucket>, b: Bucket)
    requires SameFound(chunks, done)
    ensures SameFound(chunks, done + [b.(records := b.records[..0])])
  {
    var none := b.(records := b.records[..0]);
    assert none.records == [];
    forall q: Query
      ensures FilterAll(chunks, q) == FilterAll(done + [none], q)
    {
      FilterAllAdds(done, [none], q);
      OneFiltered(none, q);
      assert FilterAll(done, q) + [] == FilterAll(done, q);
    }
  }

  /** All segments of one bucket. */
  method EncodeBucket(s0: Building, ghost chunks0: seq<Bucket>, ghost done: seq<Bucket>, b: Bucket, pageBytes: nat, types: seq<Datatype>,
                      ghost gens: Generators, c: Context, ghost separate: bool)
    returns (r: Option<Building>, ghost chunks: seq<Bucket>)
    requires Paged(s0, b.generator.kind.Log?, pageBytes, separate, gens)
    requires separate ==> LogsLast(s0.segments, gens)
    requires separate && s0.segments != [] && IsLog(s0.segments[|s0.segments| - 1], gens) ==> b.generator.kind.Log?
    requires Proper(types) && Built(s0, chunks0, types, gens, c) && SameFound(chunks0, done) && BucketOk(b, gens) && RowsAreOk(b, types, c)
    requires pageBytes < MAX_BLOCK_BYTES && PagesFit(s0.segments, WithRaw(s0.pages, s0.raw), pageBytes)
    ensures var pieces := Pieces(b, 0, pageBytes, types, c);
      && (r.None? ==> SomeOversized(pieces, types, c) || |chunks0| + |pieces| >= TWO_32)
      && (r.Some? ==> chunks == chunks0 + pieces)
    ensures r.Some? ==> Built(r.value, chunks, types, gens, c) && SameFound(chunks, done + [b]) && chunks != []
    ensures r.Some? ==> PagesFit(r.value.segments, WithRaw(r.value.pages, r.value.raw), pageBytes)
    ensures r.Some? ==> Paged(r.value, b.generator.kind.Log?, pageBytes, separate, gens) && r.value.segments != []
                        && IsLog(r.value.segments[|r.value.segments| - 1], gens) == b.generator.kind.Log?
                        && (separate ==> LogsLast(r.value.segments, gens))
  {
    hide Paged, LogsLast, IsLog, Joined, Proper, Built, SameFound, BucketOk, ChunkOk, RawOf, BoundsOf, AddAll, RowOk, RowsAreOk;
    hide Pieces, CutEnd, SomeOversized, ColumnsFor, PagesFit;
    var s := s0;
    chunks := chunks0;
    var first := 0;
    EmptyBucketFinds(chunks, done, b);
    BucketHasRecords(b, gens);
    while first < |b.records|
      invariant first <= |b.records| && (first > 0 ==> chunks != []) && |chunks| >= |chunks0|
      invariant chunks + Pieces(b, first, pageBytes, types, c) == chunks0 + Pieces(b, 0, pageBytes, types, c)
      invariant Built(s, chunks, types, gens, c) && SameFound(chunks, done + [b.(records := b.records[..first])])
      invariant PagesFit(s.segments, WithRaw(s.pages, s.raw), pageBytes)
      invariant Paged(s, b.generator.kind.Log?, pageBytes, separate, gens) && (separate ==> LogsLast(s.segments, gens))
      invariant separate && s.segments != [] && IsLog(s.segments[|s.segments| - 1], gens) ==> b.generator.kind.Log?
      invariant first > 0 ==> s.segments != [] && IsLog(s.segments[|s.segments| - 1], gens) == b.generator.kind.Log?
    {
      var segment := EncodeSegment(types, b, first, pageBytes, c, s.all, gens);
      if segment.None? {
        LaterOversized(chunks, Pieces(b, first, pageBytes, types, c), chunks0, Pieces(b, 0, pageBytes, types, c), types, c);
        return None, chunks;
      }
      var (index, raw, bounds, all) := segment.value;
      ghost var chunk := Slice(b, first, index);
      FirstPiece(b, first, pageBytes, types, c);
      var placed := Place(s, chunks, chunk, b.selection, b.generator.id, raw, bounds, all, pageBytes, types, gens, c);
      if placed.None? {
        return None, chunks;
      }
      assert chunks + ([chunk] + Pieces(b, index, pageBytes, types, c)) == chunks + [chunk] + Pieces(b, index, pageBytes, types, c);
      CutFinds(chunks, done, b, first, index);
      SegmentJoined(s, placed.value, b, raw, pageBytes, separate, gens);
      s := placed.value;
      chunks := chunks + [chunk];
      first := index;
    }
    assert b.(records := b.records[..|b.records|]) == b;
    NoPieces(b, pageBytes, types, c);
    r := Some(s);
  }

  lemma {:induction false} SegmentJoined(s0: Building, s: Building, b: Bucket, raw: seq<byte>, pageBytes: nat, separate: bool, gens: Generators)
    requires Joined(s0, s, b.generator.id, raw, pageBytes) && BucketOk(b, gens) && Paged(s0, b.generator.kind.Log?, pageBytes, separate, gens)
    requires separate ==> LogsLast(s0.segments, gens)
    requires separate && s0.segments != [] && IsLog(s0.segments[|s0.segments| - 1], gens) ==> b.generator.kind.Log?
    ensures Paged(s, b.generator.kind.Log?, pageBytes, separate, gens) && s.segments != []
    ensures IsLog(s.segments[|s.segments| - 1], gens) == b.generator.kind.Log? && (separate ==> LogsLast(s.segments, gens))
  {
    hide LogsLast, Paged;
    JoinedIsPaged(s0, s, b.generator.id, raw, b.generator.kind.Log?, pageBytes, separate, gens);
    var h := s.segments[|s0.segments|];
    assert s.segments == s0.segments + [h];
    if separate {
      LogsLastGrows(s0.segments, h, gens);
    }
  }

  lemma {:induction false} BucketHasRecords(b: Bucket, gens: Generators)
    requires BucketOk(b, gens)
    ensures b.records != []
  {
  }

  lemma {:induction false} NoPieces(b: Bucket, pageBytes: nat, types: seq<Datatype>, c: Context)
    requires Proper(types) && RowsAreOk(b, types, c)
    ensures Pieces(b, |b.records|, pageBytes, types, c) == []
  {
    hide Proper, RowsAreOk;
  }

  lemma {:induction false} LaterOversized(before: seq<Bucket>, rest: seq<Bucket>, chunks0: seq<Bucket>, all: seq<Bucket>, types: seq<Datatype>, c: Context)
    requires Proper(types) && before + rest == chunks0 + all && |before| >= |chunks0| && SomeOversized(rest, types, c)
    ensures SomeOversized(all, types, c)
  {
    hide Proper, Oversized;
    var i :| 0 <= i < |rest| && Oversized(rest[i], types, c);
    assert (before + rest)[|before| + i] == rest[i];
    assert all[|before| + i - |chunks0|] == rest[i];
  }
}
