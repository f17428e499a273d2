/** Whatever bytes a block is made of, every record that a query shows could have been recorded. */
module RecordSoundness {
  import opened Options
  import opened Words
  import opened ColumnPacking
  import opened Datatypes
  import opened DatatypeWalks
  import opened ArgumentReading
  import opened ArgumentRows
  import opened ArgumentSoundness
  import opened Records
  import opened RecordSegments
  import opened RecordGroups
  import opened RecordBlocks
  import opened RecordQueries
  import opened RecordVisits

  /** A valid record of a known generator, whose payload is one of its datatype and no longer than the limit. */
  ghost predicate Sound(r: Record, types: seq<Datatype>, gens: Generators, c: Context, limit: nat)
    requires Proper(types)
  {
    && r.generator in gens && ValidRecord(r, gens[r.generator].kind) && |r.payload| <= limit
    && PayloadType(gens[r.generator], r.datatype_).Some?
    && Validate(types, PayloadType(gens[r.generator], r.datatype_).value, r.payload, c)
  }

  ghost predicate AllSound(rs: seq<Record>, types: seq<Datatype>, gens: Generators, c: Context, limit: nat)
    requires Proper(types)
  {
    forall i :: 0 <= i < |rs| ==> Sound(rs[i], types, gens, c, limit)
  }

  /** The source is one of the file's. */
  predicate SourceOk(s: Source, gens: Generators) {
    s.generator.id in gens && gens[s.generator.id] == s.generator && PayloadType(s.generator, s.selection) == Some(s.datatype_)
  }

  lemma {:induction false} OneIsSound(s: Source, gens: Generators, q: Query, setting: Setting, cur: Cursor)
    requires Proper(s.types) && SourceOk(s, gens) && TextsOk(setting) && setting.limit < 0x1_0000_0000
    requires AllSound(cur.visited, s.types, gens, setting.c, setting.limit) && ReadOne(s, q, setting, cur).Some?
    ensures AllSound(ReadOne(s, q, setting, cur).value.visited, s.types, gens, setting.c, setting.limit)
  {
    hide Proper, ReadType, ReadMeta, ValidRecord, AddBounds, RowSelected, TextsOk, Validate, Meaning, PayloadType;
    if ReadType(true, s.types, s.datatype_, cur.place, 0, setting).Some? {
      var p := ReadType(true, s.types, s.datatype_, cur.place, 0, setting).value.bytes;
      ReadIsPayload(s.types, s.datatype_, cur.place, 0, setting);
      ValidateIff(s.types, s.datatype_, p, setting.c);
    }
  }

  lemma {:induction false} RowsAreSound(s: Source, gens: Generators, q: Query, setting: Setting, start: Cursor, n: nat)
    requires Proper(s.types) && SourceOk(s, gens) && TextsOk(setting) && setting.limit < 0x1_0000_0000
    requires start.visited == [] && ReadFirst(s, q, setting, start, n).Some?
    ensures AllSound(ReadFirst(s, q, setting, start, n).value.visited, s.types, gens, setting.c, setting.limit)
  {
    hide Proper, ReadOne, Sound, SourceOk, TextsOk;
    if n > 0 {
      RowsAreSound(s, gens, q, setting, start, n - 1);
      OneIsSound(s, gens, q, setting, ReadFirst(s, q, setting, start, n - 1).value);
    }
  }

  lemma {:induction false} MoreIsSound(rs: seq<Record>, types: seq<Datatype>, gens: Generators, c: Context, less: nat, limit: nat)
    requires Proper(types) && AllSound(rs, types, gens, c, less) && less <= limit
    ensures AllSound(rs, types, gens, c, limit)
  {
    hide Proper, Validate, ValidRecord, PayloadType;
    forall i | 0 <= i < |rs|
      ensures Sound(rs[i], types, gens, c, limit)
    {
      assert Sound(rs[i], types, gens, c, less);
    }
  }

  lemma {:induction false} SeenAreSound(s: Source, raw: seq<byte>, gens: Generators, q: Query, c: Context, limit: nat, k: nat)
    requires Proper(s.types) && SourceOk(s, gens)
    ensures AllSound(Seen(s, raw, q, c, limit, k), s.types, gens, c, limit)
  {
    hide Proper, ReadFirst, Unpacked, Opened, Sound, SourceOk, TextsOk;
    if Unpacked(raw, 9).Some? && Opened(ArgumentsFrom(Unpacked(raw, 9).value), c, limit, []).Some? {
      var columns := Unpacked(raw, 9).value;
      var (setting, place) := Opened(ArgumentsFrom(columns), c, limit, []).value;
      var start := Cursor(MetaFrom(columns), place, Prev(0, 0, 0), NO_BOUNDS, []);
      OpenedTextsOk(ArgumentsFrom(columns), c, limit, []);
      if ReadFirst(s, q, setting, start, k).Some? {
        RowsAreSound(s, gens, q, setting, start, k);
        MoreIsSound(ReadFirst(s, q, setting, start, k).value.visited, s.types, gens, c, setting.limit, limit);
      }
    }
  }

  lemma {:induction false} SeenOfIsSound(h: SegmentHeader, pages: seq<seq<byte>>, types: seq<Datatype>, gens: Generators, q: Query, c: Context,
                                         limit: nat, k: nat)
    requires Proper(types) && GeneratorsOk(gens)
    ensures AllSound(SeenOf(h, pages, types, gens, q, c, limit, k), types, gens, c, limit)
    ensures QueryHeader(h, pages, types, gens, q, c, limit).Some? ==>
              AllSound(QueryHeader(h, pages, types, gens, q, c, limit).value, types, gens, c, limit)
  {
    hide Proper, PassedOver, Seen, PayloadType, ReadFirst, Unpacked, Opened, Sound, BoundsMatch, QuerySegment;
    assert AllSound([], types, gens, c, limit);
    if h.generator in gens && PayloadType(gens[h.generator], h.selection).Some? {
      var g := gens[h.generator];
      var datatype_ := PayloadType(g, h.selection).value;
      if !PassedOver(h, g, datatype_, q) && OnPage(h, pages) {
        var s, raw := Source(types, g, h.selection, datatype_), pages[h.page][h.rawOffset..h.rawOffset + h.rawLength];
        SeenAreSound(s, raw, gens, q, c, limit, k);
        SeenAreSound(s, raw, gens, q, c, limit, h.count);
        if QuerySegment(s, h, raw, q, c, limit).Some? {
          SegmentIsSeen(s, h, raw, q, c, limit);
        }
      }
    }
  }

  lemma {:induction false} FirstIsSound(block: Block, n: nat, types: seq<Datatype>, gens: Generators, q: Query, c: Context, limit: nat)
    requires Proper(types) && GeneratorsOk(gens) && n <= |block.segments| && QueryFirst(block, n, types, gens, q, c, limit).Some?
    ensures AllSound(QueryFirst(block, n, types, gens, q, c, limit).value, types, gens, c, limit)
  {
    hide Proper, QueryHeader, GeneratorsOk, Sound;
    if n > 0 {
      FirstIsSound(block, n - 1, types, gens, q, c, limit);
      SeenOfIsSound(block.segments[n - 1], block.pages, types, gens, q, c, limit, 0);
    }
  }

  /** Whatever the segments and pages are, and wherever a query stops or fails: only sound records are shown. */
  lemma {:induction false} ShownIsSound(block: Block, n: nat, k: nat, types: seq<Datatype>, gens: Generators, q: Query, c: Context, limit: nat,
                                        shown: seq<Record>)
    requires Proper(types) && GeneratorsOk(gens) && ShownAt(block, n, k, types, gens, q, c, limit, shown)
    ensures AllSound(shown, types, gens, c, limit)
  {
    hide Proper, QueryFirst, SeenOf, GeneratorsOk, Sound;
    FirstIsSound(block, n, types, gens, q, c, limit);
    if n < |block.segments| {
      SeenOfIsSound(block.segments[n], block.pages, types, gens, q, c, limit, k);
    }
  }
}
