/** Segments of records: differences of neighbours and argument columns, queried row by row. */
module RecordSegments {
  import opened Options
  import opened Words
  import opened Varint
  import opened Slices
  import opened ColumnPacking
  import opened Datatypes
  import opened DatatypeWalks
  import opened ArgumentColumns
  import opened ArgumentReading
  import opened ArgumentRoundTrip
  import opened ArgumentRows
  import opened Records

  // ---------------------------------------------------------------- differences modulo 2^64

  function Wrap64(x: int): u64 {
    x % 0x1_0000_0000_0000_0000
  }

  function AsSigned(v: u64): i64 {
    if v >= 0x8000_0000_0000_0000 then v - 0x1_0000_0000_0000_0000 else v
  }

  function DeltaBytes(now: u64, before: u64): seq<byte> {
    Leb(Zigzag(AsSigned(Wrap64(now - before))))
  }

  function ReadDelta(s: seq<byte>, before: u64): Option<(u64, seq<byte>)> {
    match ReadVar(s)
    case None => None
    case Some((v, rest)) => Some((Wrap64(before + Wrap64(Unzigzag(v))), rest))
  }

  lemma {:induction false} DeltaReads(now: u64, before: u64, rest: seq<byte>)
    ensures ReadDelta(DeltaBytes(now, before) + rest, before) == Some((now, rest))
  {
    hide Leb, Unleb, ReadVar;
    var d := Wrap64(now - before);
    ZigzagInverse(AsSigned(d), 0);
    VarReads(Zigzag(AsSigned(d)), rest);
  }

  // ---------------------------------------------------------------- the columns of a segment

  datatype Meta = Meta(begins: seq<byte>, ids: seq<byte>, parents: seq<byte>, durations: seq<byte>)

  const NO_META: Meta := Meta([], [], [], [])

  function PlusMeta(a: Meta, b: Meta): Meta {
    Meta(a.begins + b.begins, a.ids + b.ids, a.parents + b.parents, a.durations + b.durations)
  }

  lemma {:induction false} MetaFacts(a: Meta, b: Meta, d: Meta)
    ensures PlusMeta(PlusMeta(a, b), d) == PlusMeta(a, PlusMeta(b, d)) && PlusMeta(NO_META, a) == a && PlusMeta(a, NO_META) == a
  {
    var n: seq<byte> := [];
    assert a.begins + b.begins + d.begins == a.begins + (b.begins + d.begins) && a.ids + b.ids + d.ids == a.ids + (b.ids + d.ids);
    assert a.parents + b.parents + d.parents == a.parents + (b.parents + d.parents);
    assert a.durations + b.durations + d.durations == a.durations + (b.durations + d.durations);
    assert n + a.begins == a.begins && n + a.ids == a.ids && n + a.parents == a.parents && n + a.durations == a.durations;
    assert a.begins + n == a.begins && a.ids + n == a.ids && a.parents + n == a.parents && a.durations + n == a.durations;
  }

  /** The fields of the record before. */
  datatype Prev = Prev(id: u64, parent: u64, end: u64)

  function PrevOf(rs: seq<Record>): Prev {
    if rs == [] then Prev(0, 0, 0) else Prev(rs[|rs| - 1].id, rs[|rs| - 1].parent, rs[|rs| - 1].end)
  }

  function MetaOf(kind: RecordKind, prev: Prev, r: Record): Meta
    requires ValidRecord(r, kind)
  {
    Meta(DeltaBytes(r.begin, prev.end), DeltaBytes(r.id, prev.id),
         if kind.Log? then Leb(if r.parent == 0 then 0 else r.id - r.parent) else DeltaBytes(r.parent, prev.parent),
         if kind.Stage? then Leb(r.end - r.begin) else [])
  }

  predicate AllValid(rs: seq<Record>, kind: RecordKind) {
    forall i :: 0 <= i < |rs| ==> ValidRecord(rs[i], kind)
  }

  function MetaAll(kind: RecordKind, rs: seq<Record>): Meta
    requires AllValid(rs, kind)
  {
    if rs == [] then NO_META else
      var front := rs[..|rs| - 1];
      PlusMeta(MetaAll(kind, front), MetaOf(kind, PrevOf(front), rs[|rs| - 1]))
  }

  function RowsFor(rs: seq<Record>, datatype_: nat): (rows: seq<Row>)
    ensures |rows| == |rs| && forall i :: 0 <= i < |rs| ==> rows[i] == Row(datatype_, rs[i].payload)
  {
    seq(|rs|, i requires 0 <= i < |rs| => Row(datatype_, rs[i].payload))
  }

  /** Records have no shared table of texts. */
  function Unshared(c: Context): Config {
    Config(c, None)
  }

  /** The nine columns. */
  function NineOf(meta: Meta, a: Columns): (columns: seq<Entry>)
    ensures |columns| == 9
  {
    [meta.begins, meta.ids, meta.parents, meta.durations, a.numbers, a.floats, a.texts, a.dictionary, a.others]
  }

  ghost function PutsOf(types: seq<Datatype>, datatype_: nat, rs: seq<Record>, c: Context): Puts
    requires Proper(types) && RowsOk(types, RowsFor(rs, datatype_), c)
  {
    PutAll([], TokensOf(types, RowsFor(rs, datatype_), c), Unshared(c))
  }

  ghost function SegmentColumns(types: seq<Datatype>, kind: RecordKind, datatype_: nat, rs: seq<Record>, c: Context): (columns: seq<Entry>)
    requires Proper(types) && RowsOk(types, RowsFor(rs, datatype_), c) && AllValid(rs, kind)
    ensures |columns| == 9
  {
    var puts := PutsOf(types, datatype_, rs, c);
    NineOf(MetaAll(kind, rs), Finished(Store(puts.columns, puts.dictionary), Unshared(c)))
  }

  // ---------------------------------------------------------------- reading rows

  datatype Times = Times(begin: u64, id: u64, parent: u64, end: u64)

  function ReadParent(kind: RecordKind, prev: Prev, id: u64, s: seq<byte>): Option<(u64, seq<byte>)> {
    if kind.Log? then
      match ReadVar(s)
      case None => None
      case Some((distance, rest)) =>
        if distance >= id && distance != 0 then None else Some((if distance == 0 then 0 else id - distance, rest))
    else ReadDelta(s, prev.parent)
  }

  function ReadDuration(kind: RecordKind, s: seq<byte>): Option<(u64, seq<byte>)> {
    if kind.Stage? then ReadVar(s) else Some((0, s))
  }

  function ReadMeta(kind: RecordKind, prev: Prev, m: Meta): Option<(Times, Meta)> {
    match ReadDelta(m.begins, prev.end)
    case None => None
    case Some((begin, begins)) =>
      match ReadDelta(m.ids, prev.id)
      case None => None
      case Some((id, ids)) =>
        match ReadParent(kind, prev, id, m.parents)
        case None => None
        case Some((parent, parents)) =>
          match ReadDuration(kind, m.durations)
          case None => None
          case Some((duration, durations)) =>
            if begin + duration >= 0x1_0000_0000_0000_0000 then None
            else Some((Times(begin, id, parent, begin + duration), Meta(begins, ids, parents, durations)))
  }

  lemma {:induction false} MetaReads(kind: RecordKind, prev: Prev, r: Record, more: Meta)
    requires ValidRecord(r, kind)
    ensures ReadMeta(kind, prev, PlusMeta(MetaOf(kind, prev, r), more)) == Some((Times(r.begin, r.id, r.parent, r.end), more))
  {
    hide Leb, Unleb, ReadVar, ReadDelta, DeltaBytes;
    DeltaReads(r.begin, prev.end, more.begins);
    DeltaReads(r.id, prev.id, more.ids);
    if kind.Log? {
      VarReads(if r.parent == 0 then 0 else r.id - r.parent, more.parents);
    } else {
      DeltaReads(r.parent, prev.parent, more.parents);
    }
    if kind.Stage? {
      VarReads(r.end - r.begin, more.durations);
    } else {
      assert [] + more.durations == more.durations;
    }
  }

  /** Where the loop over the rows of a segment stands, and what it has shown. */
  datatype Cursor = Cursor(meta: Meta, place: Place, prev: Prev, bounds: Bounds, visited: seq<Record>)

  /** What does not change within a segment. */
  datatype Source = Source(types: seq<Datatype>, generator: Generator, selection: Option<nat>, datatype_: nat)

  function ReadOne(s: Source, q: Query, setting: Setting, cur: Cursor): Option<Cursor>
    requires Proper(s.types)
  {
    match ReadMeta(s.generator.kind, cur.prev, cur.meta)
    case None => None
    case Some((t, meta)) =>
      var bare := Record(s.selection, t.id, s.generator.id, t.begin, t.end, t.parent, []);
      var selected := RowSelected(bare, q);
      match ReadType(selected, s.types, s.datatype_, cur.place, 0, setting)
      case None => None
      case Some(o) =>
        var r := bare.(payload := if selected then o.bytes else []);
        if !ValidRecord(r, s.generator.kind) then None
        else Some(Cursor(meta, o.place, Prev(t.id, t.parent, t.end), AddBounds(cur.bounds, r), if selected then cur.visited + [r] else cur.visited))
  }

  function ReadFirst(s: Source, q: Query, setting: Setting, cur: Cursor, n: nat): Option<Cursor>
    requires Proper(s.types)
  {
    if n == 0 then Some(cur) else
      match ReadFirst(s, q, setting, cur, n - 1)
      case None => None
      case Some(next) => ReadOne(s, q, setting, next)
  }

  function MetaFrom(columns: seq<Entry>): Meta
    requires |columns| == 9
  {
    Meta(columns[0], columns[1], columns[2], columns[3])
  }

  function ArgumentsFrom(columns: seq<Entry>): Columns
    requires |columns| == 9
  {
    Columns(columns[4], columns[5], columns[6], columns[7], columns[8])
  }

  /** One segment of a query: the records it shows, when all its rows and columns are in order. */
  function QuerySegment(s: Source, h: SegmentHeader, raw: seq<byte>, q: Query, c: Context, limit: nat): Option<seq<Record>>
    requires Proper(s.types)
  {
    match Unpacked(raw, 9)
    case None => None
    case Some(columns) =>
      match Opened(ArgumentsFrom(columns), c, limit, [])
      case None => None
      case Some((setting, place)) =>
        match ReadFirst(s, q, setting, Cursor(MetaFrom(columns), place, Prev(0, 0, 0), NO_BOUNDS, []), h.count)
        case None => None
        case Some(cur) =>
          if cur.meta != NO_META || cur.place != Place(NO_COLUMNS, |setting.dictionary|) || !BoundsMatch(cur.bounds, h) then None
          else Some(cur.visited)
  }

  // ---------------------------------------------------------------- rows come back

  /** The records of one segment: valid, with valid payloads, and of this source. */
  ghost predicate SegmentOk(s: Source, rs: seq<Record>, c: Context, limit: nat)
    requires Proper(s.types)
  {
    && AllValid(rs, s.generator.kind) && RowsOk(s.types, RowsFor(rs, s.datatype_), c)
    && Within(RowsFor(rs, s.datatype_), if limit < 0xFFFF_FFFF then limit else 0xFFFF_FFFF)
    && forall i :: 0 <= i < |rs| ==> OfSource(rs[i], s)
  }

  predicate OfSource(r: Record, s: Source) {
    r.datatype_ == s.selection && r.generator == s.generator.id
  }

  lemma {:induction false} FrontOk(s: Source, rs: seq<Record>, c: Context, limit: nat)
    requires Proper(s.types) && rs != [] && SegmentOk(s, rs, c, limit)
    ensures var front, last := rs[..|rs| - 1], rs[|rs| - 1];
      && SegmentOk(s, front, c, limit) && RowsFor(rs, s.datatype_)[..|front|] == RowsFor(front, s.datatype_)
      && ValidRecord(last, s.generator.kind) && OfSource(last, s)
      && Validate(s.types, s.datatype_, last.payload, c) && Meaning(s.types, s.datatype_, last.payload, c).Some?
      && |last.payload| <= (if limit < 0xFFFF_FFFF then limit else 0xFFFF_FFFF)
  {
    hide Proper, Validate, Meaning, ValidRecord;
    var rows, n := RowsFor(rs, s.datatype_), |rs| - 1;
    assert rows[n] == Row(s.datatype_, rs[n].payload);
    assert rows[..n] == RowsFor(rs[..n], s.datatype_);
  }

  /** One row is read where it comes next, selected or not. */
  lemma {:induction false} RowReads(s: Source, r: Record, q: Query, c: Context, setting: Setting, d: seq<Chars>, cur: Cursor,
                                    moreMeta: Meta, more: Columns)
    requires Proper(s.types) && SolidFrom(s.types, s.datatype_) && ValidRecord(r, s.generator.kind) && OfSource(r, s)
    requires Validate(s.types, s.datatype_, r.payload, c) && Meaning(s.types, s.datatype_, r.payload, c).Some?
    requires |r.payload| <= setting.limit && ArgumentRoundTrip.Agrees(Unshared(c), setting) && DictionaryOk(d, Unshared(c))
    requires var puts := PutAll(d, Meaning(s.types, s.datatype_, r.payload, c).value.tokens, Unshared(c));
      && puts.ok && puts.dictionary <= setting.dictionary
      && cur.meta == PlusMeta(MetaOf(s.generator.kind, cur.prev, r), moreMeta)
      && cur.place == Place(Plus(puts.columns, more), |d|)
    requires SourceSelected(s.generator, s.datatype_, q)
    ensures var puts := PutAll(d, Meaning(s.types, s.datatype_, r.payload, c).value.tokens, Unshared(c));
      ReadOne(s, q, setting, cur)
      == Some(Cursor(moreMeta, Place(more, |puts.dictionary|), Prev(r.id, r.parent, r.end), AddBounds(cur.bounds, r),
                     if Selected(r, s.generator, s.datatype_, q) then cur.visited + [r] else cur.visited))
  {
    hide Proper, SolidFrom, Validate, Meaning, PutAll, Plus, ReadType, ReadMeta, MetaOf, PlusMeta, ArgumentRoundTrip.Agrees, DictionaryOk,
         SourceSelected, MeetsWindow;
    MetaReads(s.generator.kind, cur.prev, r, moreMeta);
    RowBackOf(s.types, Row(s.datatype_, r.payload), d, more, Unshared(c), setting);
    TypeSkips(s.types, s.datatype_, cur.place, 0, setting);
    var bare := r.(payload := []);
    assert RowSelected(bare, q) == RowSelected(r, q);
  }

  lemma {:induction false} RowsRead(s: Source, rs: seq<Record>, q: Query, c: Context, setting: Setting, limit: nat, moreMeta: Meta, more: Columns)
    requires Proper(s.types) && SolidFrom(s.types, s.datatype_) && SegmentOk(s, rs, c, limit)
    requires setting.limit == (if limit < 0xFFFF_FFFF then limit else 0xFFFF_FFFF) && ArgumentRoundTrip.Agrees(Unshared(c), setting)
    requires PutsOf(s.types, s.datatype_, rs, c).ok && PutsOf(s.types, s.datatype_, rs, c).dictionary <= setting.dictionary
    requires SourceSelected(s.generator, s.datatype_, q)
    ensures var puts := PutsOf(s.types, s.datatype_, rs, c);
      var start := Cursor(PlusMeta(MetaAll(s.generator.kind, rs), moreMeta), Place(Plus(puts.columns, more), 0), Prev(0, 0, 0), NO_BOUNDS, []);
      ReadFirst(s, q, setting, start, |rs|)
      == Some(Cursor(moreMeta, Place(more, |puts.dictionary|), PrevOf(rs), BoundsOf(rs), Filter(rs, s.generator, s.datatype_, q)))
  {
    hide Proper, SolidFrom, Validate, Meaning, PutAll, Plus, ReadOne, MetaOf, PlusMeta, ArgumentRoundTrip.Agrees, DictionaryOk,
         SourceSelected, Selected, ValidRecord;
    if rs == [] {
      NothingToRead(s, rs, c, moreMeta, more);
    } else {
      var front, last := rs[..|rs| - 1], rs[|rs| - 1];
      FrontOk(s, rs, c, limit);
      var g := Unshared(c);
      var a, b := TokensOf(s.types, RowsFor(front, s.datatype_), c), Meaning(s.types, s.datatype_, last.payload, c).value.tokens;
      var first := PutAll([], a, g);
      PutsAdd([], a, b, g);
      EmptyDictionary(g);
      DictionariesGrow([], a, g);
      DictionariesGrow(first.dictionary, b, g);
      var second := PutAll(first.dictionary, b, g);
      PlusAssociates(first.columns, second.columns, more);
      var lastMeta := MetaOf(s.generator.kind, PrevOf(front), last);
      MetaFacts(MetaAll(s.generator.kind, front), lastMeta, moreMeta);
      RowsRead(s, front, q, c, setting, limit, PlusMeta(lastMeta, moreMeta), Plus(second.columns, more));
      var cur := Cursor(PlusMeta(lastMeta, moreMeta), Place(Plus(second.columns, more), |first.dictionary|), PrevOf(front), BoundsOf(front),
                        Filter(front, s.generator, s.datatype_, q));
      RowReads(s, last, q, c, setting, first.dictionary, cur, moreMeta, more);
      assert cur.visited + [] == cur.visited;
    }
  }

  lemma {:induction false} NothingToRead(s: Source, rs: seq<Record>, c: Context, moreMeta: Meta, more: Columns)
    requires Proper(s.types) && rs == [] && AllValid(rs, s.generator.kind) && RowsOk(s.types, RowsFor(rs, s.datatype_), c)
    ensures PutsOf(s.types, s.datatype_, rs, c) == Puts(NO_COLUMNS, [], true) && MetaAll(s.generator.kind, rs) == NO_META
    ensures PlusMeta(NO_META, moreMeta) == moreMeta && Plus(NO_COLUMNS, more) == more
  {
    hide Proper, Plus, PlusMeta;
    PlusNothing(more);
    MetaFacts(moreMeta, moreMeta, moreMeta);
    assert RowsFor(rs, s.datatype_) == [];
  }

  /** The raw bytes of a segment answer a query with exactly its selected records, in their order. */
  lemma {:induction false} SegmentQueried(s: Source, rs: seq<Record>, h: SegmentHeader, q: Query, c: Context, limit: nat)
    requires Proper(s.types) && SolidFrom(s.types, s.datatype_) && SegmentOk(s, rs, c, limit)
    requires PutsOf(s.types, s.datatype_, rs, c).ok && BoundsMatch(BoundsOf(rs), h) && h.count == |rs|
    requires |Flat(SegmentColumns(s.types, s.generator.kind, s.datatype_, rs, c))| < 0x1_0000_0000_0000_0000
    requires SourceSelected(s.generator, s.datatype_, q)
    ensures QuerySegment(s, h, PackedColumns(SegmentColumns(s.types, s.generator.kind, s.datatype_, rs, c)), q, c, limit)
            == Some(Filter(rs, s.generator, s.datatype_, q))
  {
    hide Proper, SolidFrom, PackedColumns, Unpacked, Flat, Opened, Finished, ReadFirst, MetaAll, PutAll, TokensOf, BoundsMatch, BoundsOf,
         Filter, Validate, Meaning, DictionaryOk, SourceSelected, Plus, PlusMeta, ValidRecord;
    var columns := SegmentColumns(s.types, s.generator.kind, s.datatype_, rs, c);
    var puts := PutsOf(s.types, s.datatype_, rs, c);
    var g := Unshared(c);
    ColumnsFit(columns);
    UnpacksBack(columns);
    EmptyDictionary(g);
    DictionariesGrow([], TokensOf(s.types, RowsFor(rs, s.datatype_), c), g);
    NoDictionaryBytes([], TokensOf(s.types, RowsFor(rs, s.datatype_), c), g);
    FinishedOpens(Store(puts.columns, puts.dictionary), g, limit, []);
    var setting := Setting(c, puts.dictionary, false, [], if limit < 0xFFFF_FFFF then limit else 0xFFFF_FFFF);
    RowsRead(s, rs, q, c, setting, limit, NO_META, NO_COLUMNS);
    MetaFacts(MetaAll(s.generator.kind, rs), NO_META, NO_META);
    PlusNothing(puts.columns);
    NineParts(MetaAll(s.generator.kind, rs), Finished(Store(puts.columns, puts.dictionary), g));
  }

  lemma {:induction false} NineParts(meta: Meta, a: Columns)
    ensures MetaFrom(NineOf(meta, a)) == meta && ArgumentsFrom(NineOf(meta, a)) == a
  {
  }

  // ---------------------------------------------------------------- the encoder

  function PackedSize(columns: seq<Entry>): nat {
    if columns == [] then 0 else
      PackedSize(columns[..|columns| - 1]) + |Leb(|columns[|columns| - 1]|)| + |columns[|columns| - 1]|
  }

  lemma {:induction false} PackedSizeIs(columns: seq<Entry>)
    ensures |Lengths(columns)| + |Flat(columns)| == PackedSize(columns)
  {
    hide Leb;
    if columns != [] {
      PackedSizeIs(columns[..|columns| - 1]);
    }
  }

  /** The size of nine columns is one byte, and for each column its length and its bytes. */
  lemma {:induction false} NinePacked(columns: seq<Entry>)
    requires |columns| == 9
    ensures |PackedColumns(columns)| == 1 + PackedSize(columns)
  {
    hide Lengths, Flat;
    PackedSizeIs(columns);
    assert |Leb(9)| == 1;
  }

  class SegmentEncoder {
    var meta: Meta
    var prev: Prev
    const arguments: Writer

    ghost predicate Valid()
      reads this, arguments
    {
      arguments.Valid() && arguments.config.shared.None?
    }

    constructor (c: Context)
      ensures Valid() && fresh(arguments) && arguments.config == Unshared(c)
      ensures meta == NO_META && prev == Prev(0, 0, 0) && arguments.State() == Store(NO_COLUMNS, [])
    {
      meta := NO_META;
      prev := Prev(0, 0, 0);
      arguments := new Writer(Unshared(c));
    }

    /** One row more; when its payload is refused, its differences are put down all the same. */
    method Append(types: seq<Datatype>, kind: RecordKind, r: Record, datatype_: nat) returns (ok: bool)
      requires Valid() && Proper(types) && ValidRecord(r, kind)
      modifies this, arguments
      ensures Valid()
      ensures meta == PlusMeta(old(meta), MetaOf(kind, old(prev), r))
      ensures prev == if ok then Prev(r.id, r.parent, r.end) else old(prev)
      ensures !Validate(types, datatype_, r.payload, arguments.config.c) ==> !ok && arguments.State() == old(arguments.State())
      ensures Validate(types, datatype_, r.payload, arguments.config.c) ==>
                && Meaning(types, datatype_, r.payload, arguments.config.c).Some?
                && After(old(arguments.State()), Meaning(types, datatype_, r.payload, arguments.config.c).value.tokens, arguments.config,
                         arguments.State(), ok)
    {
      hide Proper, Validate, Meaning, PutAll, DictionaryOk, Indexes, Leb;
      meta := meta.(begins := meta.begins + DeltaBytes(r.begin, prev.end));
      meta := meta.(ids := meta.ids + DeltaBytes(r.id, prev.id));
      if kind.Log? {
        meta := meta.(parents := meta.parents + Leb(if r.parent == 0 then 0 else r.id - r.parent));
      } else {
        meta := meta.(parents := meta.parents + DeltaBytes(r.parent, prev.parent));
      }
      if kind.Stage? {
        meta := meta.(durations := meta.durations + Leb(r.end - r.begin));
      } else {
        assert meta.durations + [] == meta.durations;
      }
      ok := arguments.Append(types, datatype_, r.payload);
      if ok {
        prev := Prev(r.id, r.parent, r.end);
      }
    }

    /** The size of the segment so far, without packing it. */
    method Size() returns (size: nat)
      requires Valid()
      ensures size == |PackedColumns(NineOf(meta, Finished(arguments.State(), arguments.config)))|
    {
      hide DictionaryOk, Indexes, PackedColumns, Leb;
      var m := arguments.EncodedLengths();
      ghost var columns := NineOf(meta, Finished(arguments.State(), arguments.config));
      var lengths := [|meta.begins|, |meta.ids|, |meta.parents|, |meta.durations|, m.numbers, m.floats, m.texts, m.dictionary, m.others];
      NinePacked(columns);
      size := 1;
      assert columns[..0] == [] && columns[..9] == columns && PackedSize([]) == 0;
      for i := 0 to 9
        invariant size == 1 + PackedSize(columns[..i])
      {
        assert columns[..i + 1][..i] == columns[..i] && columns[..i + 1][i] == columns[i];
        assert lengths[i] == |columns[i]|;
        LengthIsFormula(lengths[i]);
        size := size + LenU64(lengths[i]) + lengths[i];
      }
    }
  }
}
