/** A query of any block shows, of what a query for everything shows, exactly what is asked for. */
module RecordFilters {
  import opened Options
  import opened Words
  import opened ColumnPacking
  import opened Datatypes
  import opened ArgumentReading
  import opened ArgumentRows
  import opened Records
  import opened RecordSegments
  import opened RecordGroups
  import opened RecordBlocks
  import opened RecordQueries

  /** Those that are asked for, in the same order. */
  ghost function Asked(rs: seq<Record>, gens: Generators, q: Query): seq<Record> {
    if rs == [] then [] else
      var r := rs[|rs| - 1];
      Asked(rs[..|rs| - 1], gens, q) + if r.generator in gens && AskedFor(r, gens[r.generator], q) then [r] else []
  }

  function Kept(rs: seq<Record>, q: Query): seq<Record> {
    if rs == [] then [] else Kept(rs[..|rs| - 1], q) + if RowSelected(rs[|rs| - 1], q) then [rs[|rs| - 1]] else []
  }

  lemma {:induction false} AskedAdds(a: seq<Record>, b: seq<Record>, gens: Generators, q: Query)
    ensures Asked(a + b, gens, q) == Asked(a, gens, q) + Asked(b, gens, q)
    decreases |b|
  {
    hide AskedFor;
    if b == [] {
      assert a + b == a;
    } else {
      var n := |b| - 1;
      assert (a + b)[..|a + b| - 1] == a + b[..n] && (a + b)[|a + b| - 1] == b[n];
      AskedAdds(a, b[..n], gens, q);
      var last := if b[n].generator in gens && AskedFor(b[n], gens[b[n].generator], q) then [b[n]] else [];
      assert Asked(a, gens, q) + (Asked(b[..n], gens, q) + last) == Asked(a, gens, q) + Asked(b[..n], gens, q) + last;
    }
  }

  // ---------------------------------------------------------------- the rows of a segment

  lemma {:induction false} AllSelected(r: Record)
    requires r.begin <= r.end
    ensures RowSelected(r, EVERYTHING)
  {
  }

  /** Reading a row or skipping it leaves the loop at the same place. */
  lemma {:induction false} OneIsKept(s: Source, q: Query, setting: Setting, cur: Cursor, shown: seq<Record>) returns (r: Record)
    requires Proper(s.types) && ReadOne(s, EVERYTHING, setting, cur).Some?
    ensures var next := ReadOne(s, EVERYTHING, setting, cur).value;
      && next.visited == cur.visited + [r] && next.bounds == AddBounds(cur.bounds, r)
      && ValidRecord(r, s.generator.kind) && OfSource(r, s)
      && ReadOne(s, q, setting, cur.(visited := shown)) == Some(next.(visited := if RowSelected(r, q) then shown + [r] else shown))
  {
    hide Proper, ReadType, ReadMeta, ValidRecord, MeetsWindow;
    var (t, meta) := ReadMeta(s.generator.kind, cur.prev, cur.meta).value;
    var bare := Record(s.selection, t.id, s.generator.id, t.begin, t.end, t.parent, []);
    MetaInOrder(s.generator.kind, cur.prev, cur.meta);
    AllSelected(bare);
    TypeSkips(s.types, s.datatype_, cur.place, 0, setting);
    var o := ReadType(true, s.types, s.datatype_, cur.place, 0, setting).value;
    r := bare.(payload := o.bytes);
    SameButPayload(bare, r, s.generator.kind, q, cur.bounds);
  }

  lemma {:induction false} MetaInOrder(kind: RecordKind, prev: Prev, m: Meta)
    requires ReadMeta(kind, prev, m).Some?
    ensures ReadMeta(kind, prev, m).value.0.begin <= ReadMeta(kind, prev, m).value.0.end
  {
    hide ReadDelta, ReadParent, ReadDuration;
  }

  lemma {:induction false} SameButPayload(a: Record, b: Record, kind: RecordKind, q: Query, bounds: Bounds)
    requires b == a.(payload := b.payload)
    ensures ValidRecord(a, kind) == ValidRecord(b, kind) && RowSelected(a, q) == RowSelected(b, q) && AddBounds(bounds, a) == AddBounds(bounds, b)
  {
  }

  lemma {:induction false} RowsAreKept(s: Source, q: Query, setting: Setting, start: Cursor, n: nat)
    requires Proper(s.types) && start.visited == [] && start.bounds == NO_BOUNDS && ReadFirst(s, EVERYTHING, setting, start, n).Some?
    ensures var end := ReadFirst(s, EVERYTHING, setting, start, n).value;
      && ReadFirst(s, q, setting, start, n) == Some(end.(visited := Kept(end.visited, q)))
      && end.bounds == BoundsOf(end.visited) && AllValid(end.visited, s.generator.kind)
      && forall i :: 0 <= i < |end.visited| ==> OfSource(end.visited[i], s)
  {
    hide Proper, ReadOne, RowSelected, ValidRecord, AddBounds, Kept, BoundsOf, OfSource, AllValid;
    if n == 0 {
      NothingKept(q, s.generator.kind);
    } else {
      RowsAreKept(s, q, setting, start, n - 1);
      var cur := ReadFirst(s, EVERYTHING, setting, start, n - 1).value;
      var r := OneIsKept(s, q, setting, cur, Kept(cur.visited, q));
      OneMoreKept(cur.visited, r, q, s.generator.kind);
    }
  }

  lemma {:induction false} NothingKept(q: Query, kind: RecordKind)
    ensures Kept([], q) == [] && BoundsOf([]) == NO_BOUNDS && AllValid([], kind)
  {
  }

  lemma {:induction false} OneMoreKept(rs: seq<Record>, r: Record, q: Query, kind: RecordKind)
    ensures Kept(rs + [r], q) == if RowSelected(r, q) then Kept(rs, q) + [r] else Kept(rs, q)
    ensures BoundsOf(rs + [r]) == AddBounds(BoundsOf(rs), r)
    ensures AllValid(rs, kind) && ValidRecord(r, kind) ==> AllValid(rs + [r], kind)
  {
    hide RowSelected, AddBounds, ValidRecord;
    assert (rs + [r])[..|rs|] == rs;
  }

  lemma {:induction false} SegmentIsKept(s: Source, h: SegmentHeader, raw: seq<byte>, q: Query, c: Context, limit: nat)
    requires Proper(s.types) && QuerySegment(s, h, raw, EVERYTHING, c, limit).Some?
    ensures var all := QuerySegment(s, h, raw, EVERYTHING, c, limit).value;
      && QuerySegment(s, h, raw, q, c, limit) == Some(Kept(all, q))
      && BoundsMatch(BoundsOf(all), h) && AllValid(all, s.generator.kind)
      && forall i :: 0 <= i < |all| ==> OfSource(all[i], s)
  {
    hide Proper, ReadFirst, Unpacked, Opened, BoundsMatch, ValidRecord;
    var columns := Unpacked(raw, 9).value;
    var (setting, place) := Opened(ArgumentsFrom(columns), c, limit, []).value;
    RowsAreKept(s, q, setting, Cursor(MetaFrom(columns), place, Prev(0, 0, 0), NO_BOUNDS, []), h.count);
  }

  // ---------------------------------------------------------------- segments and blocks

  lemma {:induction false} KeptIsFilter(rs: seq<Record>, g: Generator, datatype_: nat, q: Query)
    requires SourceSelected(g, datatype_, q)
    ensures Kept(rs, q) == Filter(rs, g, datatype_, q)
  {
    hide RowSelected;
    if rs != [] {
      KeptIsFilter(rs[..|rs| - 1], g, datatype_, q);
    }
  }

  lemma {:induction false} FilterIsAsked(rs: seq<Record>, s: Source, gens: Generators, q: Query)
    requires s.generator.id in gens && gens[s.generator.id] == s.generator && PayloadType(s.generator, s.selection) == Some(s.datatype_)
    requires AllValid(rs, s.generator.kind) && (forall i :: 0 <= i < |rs| ==> OfSource(rs[i], s)) && q.begin <= q.end
    ensures Filter(rs, s.generator, s.datatype_, q) == Asked(rs, gens, q)
  {
    hide Selected, AskedFor, PayloadType;
    if rs != [] {
      var r := rs[|rs| - 1];
      FilterIsAsked(rs[..|rs| - 1], s, gens, q);
      assert OfSource(r, s) && ValidRecord(r, s.generator.kind);
      SelectedIsAsked(r, s.generator, s.datatype_, q);
    }
  }

  lemma {:induction false} HeaderIsFilter(h: SegmentHeader, pages: seq<seq<byte>>, types: seq<Datatype>, gens: Generators, q: Query, c: Context,
                                          limit: nat)
    requires Proper(types) && GeneratorsOk(gens) && q.begin <= q.end && QueryHeader(h, pages, types, gens, EVERYTHING, c, limit).Some?
    ensures QueryHeader(h, pages, types, gens, q, c, limit)
            == Some(Asked(QueryHeader(h, pages, types, gens, EVERYTHING, c, limit).value, gens, q))
  {
    hide Proper, QuerySegment, Filter, Asked, BoundsOf, BoundsMatch, PayloadType, ValidRecord;
    var g := gens[h.generator];
    var datatype_ := PayloadType(g, h.selection).value;
    NothingPassedOver(h, g, datatype_);
    var s, raw := Source(types, g, h.selection, datatype_), pages[h.page][h.rawOffset..h.rawOffset + h.rawLength];
    SegmentIsKept(s, h, raw, q, c, limit);
    var all := QuerySegment(s, h, raw, EVERYTHING, c, limit).value;
    FilterIsAsked(all, s, gens, q);
    if PassedOver(h, g, datatype_, q) {
      PruningIsSafe(all, h, g, datatype_, q);
    } else {
      KeptIsFilter(all, g, datatype_, q);
    }
  }

  lemma {:induction false} NothingPassedOver(h: SegmentHeader, g: Generator, datatype_: nat)
    ensures !PassedOver(h, g, datatype_, EVERYTHING)
  {
  }

  lemma {:induction false} FirstIsFilter(block: Block, n: nat, types: seq<Datatype>, gens: Generators, q: Query, c: Context, limit: nat)
    requires Proper(types) && GeneratorsOk(gens) && q.begin <= q.end && n <= |block.segments|
    requires QueryFirst(block, n, types, gens, EVERYTHING, c, limit).Some?
    ensures QueryFirst(block, n, types, gens, q, c, limit)
            == Some(Asked(QueryFirst(block, n, types, gens, EVERYTHING, c, limit).value, gens, q))
  {
    hide Proper, QueryHeader, GeneratorsOk, AskedFor;
    if n > 0 {
      FirstIsFilter(block, n - 1, types, gens, q, c, limit);
      HeaderIsFilter(block.segments[n - 1], block.pages, types, gens, q, c, limit);
      AskedAdds(QueryFirst(block, n - 1, types, gens, EVERYTHING, c, limit).value,
                QueryHeader(block.segments[n - 1], block.pages, types, gens, EVERYTHING, c, limit).value, gens, q);
    }
  }

  /**
   * Whatever bytes a block was opened from: when a query for everything gets through it, every query does, and shows of these records
   * exactly those asked for, in their order.
   */
  lemma {:induction false} QueryIsFilter(block: Block, types: seq<Datatype>, gens: Generators, q: Query, c: Context, limit: nat)
    requires Proper(types) && GeneratorsOk(gens) && q.begin <= q.end && QueryBlock(block, types, gens, EVERYTHING, c, limit).Some?
    ensures QueryBlock(block, types, gens, q, c, limit)
            == Some(Asked(QueryBlock(block, types, gens, EVERYTHING, c, limit).value, gens, q))
  {
    hide Proper, QueryFirst, GeneratorsOk, Asked;
    FirstIsFilter(block, |block.segments|, types, gens, q, c, limit);
  }
}
