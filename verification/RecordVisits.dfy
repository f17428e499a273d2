/** Queries with a visitor, which may have enough before the end. */
module RecordVisits {
  import opened Options
  import opened Words
  import opened ColumnPacking
  import opened Datatypes
  import opened ArgumentColumns
  import opened ArgumentReading
  import opened ArgumentRows
  import opened Records
  import opened RecordSegments
  import opened RecordGroups
  import opened RecordBlocks
  import opened RecordQueries
  import opened RecordFilters

  // ---------------------------------------------------------------- visitors

  /** A visitor: whether it wants more after the records it was shown. */
  type Visitor = seq<Record> -> bool

  /** How a query ends: with an error, because the visitor had enough, or at its end. */
  datatype Ending = Failed | Stopped | Through

  /** The visitor wanted more after every record. */
  ghost predicate Wanted(visit: Visitor, shown: seq<Record>) {
    forall i :: 0 < i <= |shown| ==> visit(shown[..i])
  }

  /** The visitor had enough with the last record, and not before. */
  ghost predicate Enough(visit: Visitor, shown: seq<Record>) {
    shown != [] && !visit(shown) && Wanted(visit, shown[..|shown| - 1])
  }

  /** Those of the records, from the first on, that a visitor is shown until it has enough. */
  function UpTo(visit: Visitor, rs: seq<Record>): seq<Record> {
    if rs == [] then [] else
      var front := UpTo(visit, rs[..|rs| - 1]);
      if front == rs[..|rs| - 1] && (front == [] || visit(front)) then rs else front
  }

  lemma {:induction false} WantedMore(visit: Visitor, shown: seq<Record>, r: Record)
    requires Wanted(visit, shown)
    ensures if visit(shown + [r]) then Wanted(visit, shown + [r]) else Enough(visit, shown + [r])
  {
    var now := shown + [r];
    assert now[..|shown|] == shown && now[..|now|] == now;
    if visit(now) {
      forall i | 0 < i <= |now|
        ensures visit(now[..i])
      {
        assert i <= |shown| ==> now[..i] == shown[..i];
      }
    }
  }

  lemma {:induction false} UpToWanted(visit: Visitor, rs: seq<Record>)
    requires Wanted(visit, rs)
    ensures UpTo(visit, rs) == rs
  {
    if rs != [] {
      var front := rs[..|rs| - 1];
      forall i | 0 < i <= |front|
        ensures visit(front[..i])
      {
        assert front[..i] == rs[..i];
      }
      UpToWanted(visit, front);
      assert front == rs[..|front|];
    }
  }

  lemma {:induction false} UpToEnough(visit: Visitor, shown: seq<Record>, rs: seq<Record>)
    requires Enough(visit, shown) && shown <= rs
    ensures UpTo(visit, rs) == shown
  {
    if shown == rs {
      UpToWanted(visit, rs[..|rs| - 1]);
      var front := rs[..|rs| - 1];
      assert front != [] ==> front[..|front|] == front;
    } else {
      UpToEnough(visit, shown, rs[..|rs| - 1]);
    }
  }

  /** What the first `k` rows of a segment show. */
  function Seen(s: Source, raw: seq<byte>, q: Query, c: Context, limit: nat, k: nat): seq<Record>
    requires Proper(s.types)
  {
    match Unpacked(raw, 9)
    case None => []
    case Some(columns) =>
      match Opened(ArgumentsFrom(columns), c, limit, [])
      case None => []
      case Some((setting, place)) =>
        match ReadFirst(s, q, setting, Cursor(MetaFrom(columns), place, Prev(0, 0, 0), NO_BOUNDS, []), k)
        case None => []
        case Some(cur) => cur.visited
  }

  /** What `n` segments and the first `k` rows of the next show. */
  ghost predicate ShownAt(block: Block, n: nat, k: nat, types: seq<Datatype>, gens: Generators, q: Query, c: Context, limit: nat, shown: seq<Record>)
    requires Proper(types)
  {
    && n <= |block.segments| && QueryFirst(block, n, types, gens, q, c, limit).Some?
    && var found := QueryFirst(block, n, types, gens, q, c, limit).value;
       (shown == found || (n < |block.segments| && k <= block.segments[n].count
                           && shown == found + SeenOf(block.segments[n], block.pages, types, gens, q, c, limit, k)))
  }

  /** The same of one segment, which shows nothing when it is passed over or in disorder. */
  function SeenOf(h: SegmentHeader, pages: seq<seq<byte>>, types: seq<Datatype>, gens: Generators, q: Query, c: Context, limit: nat, k: nat): seq<Record>
    requires Proper(types)
  {
    if h.generator !in gens then [] else
      match PayloadType(gens[h.generator], h.selection)
      case None => []
      case Some(datatype_) =>
        if PassedOver(h, gens[h.generator], datatype_, q) || !OnPage(h, pages) then []
        else Seen(Source(types, gens[h.generator], h.selection, datatype_), pages[h.page][h.rawOffset..h.rawOffset + h.rawLength], q, c, limit, k)
  }

  lemma {:induction false} OneShows(s: Source, q: Query, setting: Setting, cur: Cursor)
    requires Proper(s.types) && ReadOne(s, q, setting, cur).Some?
    ensures var next := ReadOne(s, q, setting, cur).value;
      || next.visited == cur.visited
      || (|next.visited| == |cur.visited| + 1 && next.visited == cur.visited + [next.visited[|cur.visited|]])
  {
    hide Proper, ReadType, ReadMeta, ValidRecord, AddBounds;
  }

  lemma {:induction false} SeenGrows(s: Source, q: Query, setting: Setting, cur: Cursor, k: nat, n: nat)
    requires Proper(s.types) && k <= n && ReadFirst(s, q, setting, cur, n).Some?
    ensures ReadFirst(s, q, setting, cur, k).Some?
    ensures ReadFirst(s, q, setting, cur, k).value.visited <= ReadFirst(s, q, setting, cur, n).value.visited
  {
    hide Proper, ReadOne;
    if k < n {
      SeenGrows(s, q, setting, cur, k, n - 1);
      OneShows(s, q, setting, ReadFirst(s, q, setting, cur, n - 1).value);
    }
  }

  /** What part of a block showed is the beginning of what all of it shows. */
  lemma {:induction false} ShownFirst(block: Block, n: nat, k: nat, types: seq<Datatype>, gens: Generators, q: Query, c: Context, limit: nat, shown: seq<Record>)
    requires Proper(types) && ShownAt(block, n, k, types, gens, q, c, limit, shown)
    requires QueryFirst(block, |block.segments|, types, gens, q, c, limit).Some?
    ensures shown <= QueryFirst(block, |block.segments|, types, gens, q, c, limit).value
  {
    hide Proper, QueryHeader, SeenOf;
    FirstGrows(block, n, |block.segments|, types, gens, q, c, limit);
    if n < |block.segments| {
      FirstGrows(block, n + 1, |block.segments|, types, gens, q, c, limit);
      if k <= block.segments[n].count {
        SeenInHeader(block.segments[n], block.pages, types, gens, q, c, limit, k);
      }
    }
  }

  lemma {:induction false} FirstGrows(block: Block, k: nat, n: nat, types: seq<Datatype>, gens: Generators, q: Query, c: Context, limit: nat)
    requires Proper(types) && k <= n <= |block.segments| && QueryFirst(block, n, types, gens, q, c, limit).Some?
    ensures QueryFirst(block, k, types, gens, q, c, limit).Some?
    ensures QueryFirst(block, k, types, gens, q, c, limit).value <= QueryFirst(block, n, types, gens, q, c, limit).value
  {
    hide Proper, QueryHeader;
    if k < n {
      FirstGrows(block, k, n - 1, types, gens, q, c, limit);
    }
  }

  lemma {:induction false} SeenInHeader(h: SegmentHeader, pages: seq<seq<byte>>, types: seq<Datatype>, gens: Generators, q: Query, c: Context, limit: nat, k: nat)
    requires Proper(types) && k <= h.count && QueryHeader(h, pages, types, gens, q, c, limit).Some?
    ensures SeenOf(h, pages, types, gens, q, c, limit, k) <= QueryHeader(h, pages, types, gens, q, c, limit).value
  {
    hide Proper, PassedOver, ReadFirst, Unpacked, Opened;
    var datatype_ := PayloadType(gens[h.generator], h.selection).value;
    if !PassedOver(h, gens[h.generator], datatype_, q) {
      var s, raw := Source(types, gens[h.generator], h.selection, datatype_), pages[h.page][h.rawOffset..h.rawOffset + h.rawLength];
      var columns := Unpacked(raw, 9).value;
      var (setting, place) := Opened(ArgumentsFrom(columns), c, limit, []).value;
      SeenGrows(s, q, setting, Cursor(MetaFrom(columns), place, Prev(0, 0, 0), NO_BOUNDS, []), k, h.count);
    }
  }

  // ---------------------------------------------------------------- only what is asked for

  ghost predicate AllAsked(rs: seq<Record>, gens: Generators, q: Query) {
    forall i :: 0 <= i < |rs| ==> rs[i].generator in gens && AskedFor(rs[i], gens[rs[i].generator], q)
  }

  lemma {:induction false} RunsAsAsked(block: Block, types: seq<Datatype>, gens: Generators, q: Query, c: Context, limit: nat)
    requires Proper(types)
    ensures GeneratorsOk(gens) && q.begin <= q.end && QueryBlock(block, types, gens, EVERYTHING, c, limit).Some? ==>
              QueryBlock(block, types, gens, q, c, limit)
              == Some(Asked(QueryBlock(block, types, gens, EVERYTHING, c, limit).value, gens, q))
  {
    hide Proper, QueryBlock, GeneratorsOk, Asked;
    if GeneratorsOk(gens) && q.begin <= q.end && QueryBlock(block, types, gens, EVERYTHING, c, limit).Some? {
      QueryIsFilter(block, types, gens, q, c, limit);
    }
  }

  /** What rows show is valid, of their source, and selected. */
  lemma {:induction false} RowsAreSelected(s: Source, q: Query, setting: Setting, start: Cursor, n: nat)
    requires Proper(s.types) && start.visited == [] && ReadFirst(s, q, setting, start, n).Some?
    ensures forall i :: 0 <= i < |ReadFirst(s, q, setting, start, n).value.visited| ==>
              IsSelected(ReadFirst(s, q, setting, start, n).value.visited[i], s, q)
  {
    hide Proper, ReadOne, IsSelected;
    if n > 0 {
      RowsAreSelected(s, q, setting, start, n - 1);
      OneIsSelected(s, q, setting, ReadFirst(s, q, setting, start, n - 1).value);
    }
  }

  predicate IsSelected(r: Record, s: Source, q: Query) {
    RowSelected(r, q) && ValidRecord(r, s.generator.kind) && OfSource(r, s)
  }

  lemma {:induction false} OneIsSelected(s: Source, q: Query, setting: Setting, cur: Cursor)
    requires Proper(s.types) && ReadOne(s, q, setting, cur).Some?
    ensures var next := ReadOne(s, q, setting, cur).value;
      || next.visited == cur.visited
      || (|next.visited| == |cur.visited| + 1 && next.visited[..|cur.visited|] == cur.visited && IsSelected(next.visited[|cur.visited|], s, q))
  {
    hide Proper, ReadType, ReadMeta, ValidRecord, AddBounds, MeetsWindow;
  }

  lemma {:induction false} SelectedAreAsked(rs: seq<Record>, s: Source, gens: Generators, q: Query)
    requires s.generator.id in gens && gens[s.generator.id] == s.generator && PayloadType(s.generator, s.selection) == Some(s.datatype_)
    requires SourceSelected(s.generator, s.datatype_, q) && q.begin <= q.end && forall i :: 0 <= i < |rs| ==> IsSelected(rs[i], s, q)
    ensures AllAsked(rs, gens, q)
  {
    hide AskedFor, PayloadType, SourceSelected, RowSelected;
    forall i | 0 <= i < |rs|
      ensures rs[i].generator in gens && AskedFor(rs[i], gens[rs[i].generator], q)
    {
      assert IsSelected(rs[i], s, q);
      assert Selected(rs[i], s.generator, s.datatype_, q);
      SelectedIsAsked(rs[i], s.generator, s.datatype_, q);
    }
  }

  lemma {:induction false} SeenAreAsked(s: Source, raw: seq<byte>, gens: Generators, q: Query, c: Context, limit: nat, k: nat)
    requires Proper(s.types) && s.generator.id in gens && gens[s.generator.id] == s.generator
    requires PayloadType(s.generator, s.selection) == Some(s.datatype_) && SourceSelected(s.generator, s.datatype_, q) && q.begin <= q.end
    ensures AllAsked(Seen(s, raw, q, c, limit, k), gens, q)
  {
    hide Proper, ReadFirst, Unpacked, Opened, AskedFor, IsSelected, SourceSelected, PayloadType;
    SelectedAreAsked([], s, gens, q);
    if Unpacked(raw, 9).Some? && Opened(ArgumentsFrom(Unpacked(raw, 9).value), c, limit, []).Some? {
      var columns := Unpacked(raw, 9).value;
      var (setting, place) := Opened(ArgumentsFrom(columns), c, limit, []).value;
      var start := Cursor(MetaFrom(columns), place, Prev(0, 0, 0), NO_BOUNDS, []);
      if ReadFirst(s, q, setting, start, k).Some? {
        RowsAreSelected(s, q, setting, start, k);
        SelectedAreAsked(ReadFirst(s, q, setting, start, k).value.visited, s, gens, q);
      }
    }
  }

  lemma {:induction false} NotPassedOver(h: SegmentHeader, g: Generator, datatype_: nat, q: Query)
    requires !PassedOver(h, g, datatype_, q) && h.generator == g.id
    ensures SourceSelected(g, datatype_, q)
  {
  }

  lemma {:induction false} SeenOfAsked(h: SegmentHeader, pages: seq<seq<byte>>, types: seq<Datatype>, gens: Generators, q: Query, c: Context,
                                       limit: nat, k: nat)
    requires Proper(types) && GeneratorsOk(gens) && q.begin <= q.end
    ensures AllAsked(SeenOf(h, pages, types, gens, q, c, limit, k), gens, q)
    ensures QueryHeader(h, pages, types, gens, q, c, limit).Some? ==> AllAsked(QueryHeader(h, pages, types, gens, q, c, limit).value, gens, q)
  {
    hide Proper, PassedOver, Seen, PayloadType, ReadFirst, Unpacked, Opened, AskedFor, SourceSelected, BoundsMatch;
    assert AllAsked([], gens, q);
    if h.generator in gens && PayloadType(gens[h.generator], h.selection).Some? {
      var g := gens[h.generator];
      var datatype_ := PayloadType(g, h.selection).value;
      if !PassedOver(h, g, datatype_, q) && OnPage(h, pages) {
        NotPassedOver(h, g, datatype_, q);
        var s, raw := Source(types, g, h.selection, datatype_), pages[h.page][h.rawOffset..h.rawOffset + h.rawLength];
        SeenAreAsked(s, raw, gens, q, c, limit, k);
        SeenAreAsked(s, raw, gens, q, c, limit, h.count);
        if QuerySegment(s, h, raw, q, c, limit).Some? {
          SegmentIsSeen(s, h, raw, q, c, limit);
        }
      }
    }
  }

  lemma {:induction false} SegmentIsSeen(s: Source, h: SegmentHeader, raw: seq<byte>, q: Query, c: Context, limit: nat)
    requires Proper(s.types) && QuerySegment(s, h, raw, q, c, limit).Some?
    ensures QuerySegment(s, h, raw, q, c, limit).value == Seen(s, raw, q, c, limit, h.count)
  {
    hide Proper, ReadFirst, Unpacked, Opened, BoundsMatch;
  }

  lemma {:induction false} FirstAsked(block: Block, n: nat, types: seq<Datatype>, gens: Generators, q: Query, c: Context, limit: nat)
    requires Proper(types) && GeneratorsOk(gens) && q.begin <= q.end && n <= |block.segments|
    requires QueryFirst(block, n, types, gens, q, c, limit).Some?
    ensures AllAsked(QueryFirst(block, n, types, gens, q, c, limit).value, gens, q)
  {
    hide Proper, QueryHeader, GeneratorsOk, AskedFor;
    if n > 0 {
      FirstAsked(block, n - 1, types, gens, q, c, limit);
      SeenOfAsked(block.segments[n - 1], block.pages, types, gens, q, c, limit, 0);
    }
  }

  /** Whatever the bytes are, nothing is shown that is not asked for. */
  lemma {:induction false} ShownAsked(block: Block, n: nat, k: nat, types: seq<Datatype>, gens: Generators, q: Query, c: Context, limit: nat,
                                      shown: seq<Record>)
    requires Proper(types) && GeneratorsOk(gens) && q.begin <= q.end && ShownAt(block, n, k, types, gens, q, c, limit, shown)
    ensures AllAsked(shown, gens, q)
  {
    hide Proper, QueryFirst, SeenOf, GeneratorsOk, AskedFor;
    FirstAsked(block, n, types, gens, q, c, limit);
    if n < |block.segments| {
      SeenOfAsked(block.segments[n], block.pages, types, gens, q, c, limit, k);
    }
  }

  lemma {:induction false} IfShownAsked(block: Block, n: nat, k: nat, types: seq<Datatype>, gens: Generators, q: Query, c: Context, limit: nat,
                                        shown: seq<Record>)
    requires Proper(types) && q.begin <= q.end
    ensures GeneratorsOk(gens) && ShownAt(block, n, k, types, gens, q, c, limit, shown) ==> AllAsked(shown, gens, q)
  {
    hide Proper, ShownAt, GeneratorsOk, AllAsked;
    if GeneratorsOk(gens) && ShownAt(block, n, k, types, gens, q, c, limit, shown) {
      ShownAsked(block, n, k, types, gens, q, c, limit, shown);
    }
  }

  // ---------------------------------------------------------------- the loops

  /**
   * `query_with_pages`. The visitor is shown the records in order until it has enough; what is behind is not even looked at, so a query
   * fails only if the query of the whole block does.
   */
  method RunQuery(block: Block, types: seq<Datatype>, gens: Generators, q: Query, c: Context, limit: nat, visit: Visitor)
    returns (how: Ending, shown: seq<Record>)
    requires Proper(types)
    ensures match how
            case Failed => QueryBlock(block, types, gens, q, c, limit).None? && Wanted(visit, shown)
            case Stopped => q.begin <= q.end && Enough(visit, shown)
            case Through => QueryBlock(block, types, gens, q, c, limit) == Some(shown) && Wanted(visit, shown)
    ensures exists n: nat, k: nat :: ShownAt(block, n, k, types, gens, q, c, limit, shown)
    ensures QueryBlock(block, types, gens, q, c, limit).Some? ==>
              how != Failed && shown == UpTo(visit, QueryBlock(block, types, gens, q, c, limit).value)
    ensures GeneratorsOk(gens) ==> AllAsked(shown, gens, q)
    ensures GeneratorsOk(gens) && q.begin <= q.end && QueryBlock(block, types, gens, EVERYTHING, c, limit).Some? ==>
              how != Failed && shown == UpTo(visit, Asked(QueryBlock(block, types, gens, EVERYTHING, c, limit).value, gens, q))
  {
    hide Proper, QueryHeader, SeenOf, Wanted, Enough, UpTo, ShownAt, PassedOver, Asked, GeneratorsOk;
    RunsAsAsked(block, types, gens, q, c, limit);
    assert AllAsked([], gens, q);
    hide AllAsked;
    shown := [];
    NothingShown(block, types, gens, q, c, limit, visit);
    if q.begin > q.end {
      return Failed, [];
    }
    for i := 0 to |block.segments|
      invariant QueryFirst(block, i, types, gens, q, c, limit) == Some(shown) && Wanted(visit, shown)
    {
      ghost var k;
      ghost var before := shown;
      how, shown, k := RunHeader(block.segments[i], block.pages, types, gens, q, c, limit, visit, shown);
      SegmentShown(block, i, k, types, gens, q, c, limit, before, shown, how);
      IfShownAsked(block, i, k, types, gens, q, c, limit, shown);
      if how.Failed? {
        QueryFails(block, i + 1, |block.segments|, types, gens, q, c, limit);
        return;
      }
      if how.Stopped? {
        if QueryFirst(block, |block.segments|, types, gens, q, c, limit).Some? {
          ShownFirst(block, i, k, types, gens, q, c, limit, shown);
          UpToEnough(visit, shown, QueryFirst(block, |block.segments|, types, gens, q, c, limit).value);
        }
        return;
      }
    }
    how := Through;
    AllShown(block, types, gens, q, c, limit, shown);
    IfShownAsked(block, |block.segments|, 0, types, gens, q, c, limit, shown);
    UpToWanted(visit, shown);
  }

  lemma {:induction false} NothingShown(block: Block, types: seq<Datatype>, gens: Generators, q: Query, c: Context, limit: nat, visit: Visitor)
    requires Proper(types)
    ensures Wanted(visit, []) && ShownAt(block, 0, 0, types, gens, q, c, limit, [])
  {
  }

  lemma {:induction false} AllShown(block: Block, types: seq<Datatype>, gens: Generators, q: Query, c: Context, limit: nat, shown: seq<Record>)
    requires Proper(types) && QueryFirst(block, |block.segments|, types, gens, q, c, limit) == Some(shown)
    ensures ShownAt(block, |block.segments|, 0, types, gens, q, c, limit, shown)
  {
  }

  lemma {:induction false} SegmentShown(block: Block, i: nat, k: nat, types: seq<Datatype>, gens: Generators, q: Query, c: Context, limit: nat,
                                        before: seq<Record>, shown: seq<Record>, how: Ending)
    requires Proper(types) && i < |block.segments| && QueryFirst(block, i, types, gens, q, c, limit) == Some(before)
    requires k <= block.segments[i].count && HeaderRun(block.segments[i], block.pages, types, gens, q, c, limit, before, how, shown, k)
    ensures how.Failed? ==> QueryFirst(block, i + 1, types, gens, q, c, limit).None?
    ensures how.Through? ==> QueryFirst(block, i + 1, types, gens, q, c, limit) == Some(shown)
    ensures !how.Through? ==> ShownAt(block, i, k, types, gens, q, c, limit, shown)
  {
    hide Proper, QueryHeader, SeenOf;
  }

  /** What one segment did. */
  ghost predicate HeaderRun(h: SegmentHeader, pages: seq<seq<byte>>, types: seq<Datatype>, gens: Generators, q: Query, c: Context, limit: nat,
                            before: seq<Record>, how: Ending, shown: seq<Record>, k: nat)
    requires Proper(types)
  {
    match how
    case Failed => QueryHeader(h, pages, types, gens, q, c, limit).None? && shown == before + SeenOf(h, pages, types, gens, q, c, limit, k)
    case Stopped => shown == before + SeenOf(h, pages, types, gens, q, c, limit, k)
    case Through =>
      var r := QueryHeader(h, pages, types, gens, q, c, limit); r.Some? && shown == before + r.value
  }

  /** One segment: passed over, or read from its page. */
  method RunHeader(h: SegmentHeader, pages: seq<seq<byte>>, types: seq<Datatype>, gens: Generators, q: Query, c: Context, limit: nat,
                   visit: Visitor, before: seq<Record>)
    returns (how: Ending, shown: seq<Record>, ghost k: nat)
    requires Proper(types) && Wanted(visit, before)
    ensures k <= h.count && HeaderRun(h, pages, types, gens, q, c, limit, before, how, shown, k)
    ensures if how.Stopped? then Enough(visit, shown) else Wanted(visit, shown)
  {
    hide Proper, QuerySegment, PassedOver, Seen, Wanted, Enough;
    shown, k := before, 0;
    assert before + [] == before;
    if h.generator !in gens {
      return Failed, shown, k;
    }
    var datatype_ := PayloadType(gens[h.generator], h.selection);
    if datatype_.None? {
      return Failed, shown, k;
    }
    if PassedOver(h, gens[h.generator], datatype_.value, q) {
      return Through, shown, k;
    }
    if !OnPage(h, pages) {
      return Failed, shown, k;
    }
    var s, raw := Source(types, gens[h.generator], h.selection, datatype_.value), pages[h.page][h.rawOffset..h.rawOffset + h.rawLength];
    how, shown := RunSegment(s, h, raw, q, c, limit, visit, before);
    if !how.Through? {
      k :| k <= h.count && shown == before + Seen(s, raw, q, c, limit, k);
    }
  }

  /** The row loop of one segment. */
  method RunSegment(s: Source, h: SegmentHeader, raw: seq<byte>, q: Query, c: Context, limit: nat, visit: Visitor, before: seq<Record>)
    returns (how: Ending, shown: seq<Record>)
    requires Proper(s.types) && Wanted(visit, before)
    ensures how.Failed? ==> QuerySegment(s, h, raw, q, c, limit).None?
    ensures how.Through? ==> QuerySegment(s, h, raw, q, c, limit).Some? && shown == before + QuerySegment(s, h, raw, q, c, limit).value
    ensures !how.Through? ==> exists k: nat :: k <= h.count && shown == before + Seen(s, raw, q, c, limit, k)
    ensures if how.Stopped? then Enough(visit, shown) else Wanted(visit, shown)
  {
    hide Proper, ReadOne, Unpacked, Opened, Wanted, Enough;
    shown := before;
    assert before + [] == before;
    var columns := Unpacked(raw, 9);
    if columns.None? {
      assert Seen(s, raw, q, c, limit, 0) == [];
      return Failed, shown;
    }
    var reader := Opened(ArgumentsFrom(columns.value), c, limit, []);
    if reader.None? {
      assert Seen(s, raw, q, c, limit, 0) == [];
      return Failed, shown;
    }
    var (setting, place) := reader.value;
    var cur := Cursor(MetaFrom(columns.value), place, Prev(0, 0, 0), NO_BOUNDS, []);
    ghost var start := cur;
    for i := 0 to h.count
      invariant ReadFirst(s, q, setting, start, i) == Some(cur)
      invariant shown == before + cur.visited && Wanted(visit, shown)
    {
      var next := ReadOne(s, q, setting, cur);
      if next.None? {
        RowsFail(s, q, setting, start, i + 1, h.count);
        assert Seen(s, raw, q, c, limit, i) == cur.visited;
        return Failed, shown;
      }
      OneShows(s, q, setting, cur);
      if next.value.visited != cur.visited {
        var r := next.value.visited[|cur.visited|];
        WantedMore(visit, shown, r);
        shown := shown + [r];
        assert shown == before + next.value.visited;
        if !visit(shown) {
          assert Seen(s, raw, q, c, limit, i + 1) == next.value.visited;
          return Stopped, shown;
        }
      }
      cur := next.value;
    }
    if cur.meta != NO_META || cur.place != Place(NO_COLUMNS, |setting.dictionary|) || !BoundsMatch(cur.bounds, h) {
      assert Seen(s, raw, q, c, limit, h.count) == cur.visited;
      return Failed, shown;
    }
    how := Through;
  }

  lemma {:induction false} QueryFails(block: Block, k: nat, n: nat, types: seq<Datatype>, gens: Generators, q: Query, c: Context, limit: nat)
    requires Proper(types) && k <= n <= |block.segments| && QueryFirst(block, k, types, gens, q, c, limit).None?
    ensures QueryFirst(block, n, types, gens, q, c, limit).None?
  {
    hide Proper, QueryHeader;
    if k < n {
      QueryFails(block, k, n - 1, types, gens, q, c, limit);
    }
  }

  lemma {:induction false} RowsFail(s: Source, q: Query, setting: Setting, cur: Cursor, k: nat, n: nat)
    requires Proper(s.types) && k <= n && ReadFirst(s, q, setting, cur, k).None?
    ensures ReadFirst(s, q, setting, cur, n).None?
  {
    hide Proper, ReadOne;
    if k < n {
      RowsFail(s, q, setting, cur, k, n - 1);
    }
  }
}
