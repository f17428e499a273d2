/** Parsing finished containers, and recovering the sections that fit whole from any prefix. */
module FramingRecovery {
  import opened Options
  import opened Limbs
  import opened Words
  import opened Varint
  import opened Slices
  import opened Framing
  import opened FramingRoundTrip

  // ---------------------------------------------------------------- fields

  lemma {:induction false} Field32(b: seq<byte>, at: nat, x: u32)
    requires at + 4 <= |b| && b[at..at + 4] == Bytes(x, 4)
    ensures U32(b, at) == x
  {
    BytesBack(x, 4);
  }

  lemma {:induction false} Field64(b: seq<byte>, at: nat, x: u64)
    requires at + 8 <= |b| && b[at..at + 8] == Bytes(x, 8)
    ensures U64(b, at) == x
  {
    BytesBack(x, 8);
  }

  lemma {:induction false} HeaderFields(kind: u32, flags: u32, length: nat, crc: u32)
    ensures var h := SectionHeader(kind, flags, length, crc);
      && h[0..4] == Bytes(kind, 4) && h[4..8] == Bytes(flags, 4) && h[8..16] == Bytes(length, 8)
      && h[16..20] == Bytes(crc, 4) && h[20..24] == Bytes(0, 4)
  {
    hide Bytes;
    var a, b, d, e, z := Bytes(kind, 4), Bytes(flags, 4), Bytes(length, 8), Bytes(crc, 4), Bytes(0, 4);
    Joined(a, b, 0, 4);
    Joined(a + b, d, 0, 4);
    Joined(a + b, d, 4, 8);
    Joined(a + b + d, e, 0, 4);
    Joined(a + b + d, e, 4, 8);
    Joined(a + b + d, e, 8, 16);
    Joined(a + b + d + e, z, 0, 4);
    Joined(a + b + d + e, z, 4, 8);
    Joined(a + b + d + e, z, 8, 16);
    Joined(a + b + d + e, z, 16, 20);
  }

  lemma {:induction false} Joined(a: seq<byte>, b: seq<byte>, i: nat, j: nat)
    requires i <= j <= |a|
    ensures (a + b)[i..j] == a[i..j] && (a + b)[|a|..|a| + |b|] == b && a[0..|a|] == a
  {
  }

  lemma {:induction false} HeaderReads(b: seq<byte>, at: nat, kind: u32, flags: u32, length: u64, crc: u32)
    requires at + SECTION_BYTES <= |b| && b[at..at + SECTION_BYTES] == SectionHeader(kind, flags, length, crc)
    ensures U32(b, at) == kind && U32(b, at + 4) == flags && U64(b, at + 8) == length && U32(b, at + 16) == crc && U32(b, at + 20) == 0
  {
    hide Bytes, SectionHeader, U32, U64;
    HeaderFields(kind, flags, length, crc);
    SliceOf(b, at, at + SECTION_BYTES, 0, 4);
    SliceOf(b, at, at + SECTION_BYTES, 4, 8);
    SliceOf(b, at, at + SECTION_BYTES, 8, 16);
    SliceOf(b, at, at + SECTION_BYTES, 16, 20);
    SliceOf(b, at, at + SECTION_BYTES, 20, 24);
    Field32(b, at, kind);
    Field32(b, at + 4, flags);
    Field64(b, at + 8, length);
    Field32(b, at + 16, crc);
    Field32(b, at + 20, 0);
  }

  /** A header and its payload read back where they lie. */
  lemma {:induction false} SectionReads(b: seq<byte>, at: nat, kind: u32, flags: u32, payload: seq<byte>, g: Codec)
    requires |b| < 0x1_0000_0000_0000_0000 && at + SECTION_BYTES + |payload| <= |b|
    requires b[at..at + SECTION_BYTES + |payload|] == SectionHeader(kind, flags, |payload|, g.crc(payload)) + payload
    ensures SectionAt(b, at) == Some(Section(kind, flags, at, |payload|, 0, 0, 0))
    ensures PayloadOf(b, SectionAt(b, at).value) == payload && Checked(b, SectionAt(b, at).value, g)
  {
    hide Bytes, SectionHeader, U32, U64;
    var whole := b[at..at + SECTION_BYTES + |payload|];
    var h := SectionHeader(kind, flags, |payload|, g.crc(payload));
    assert whole[0..SECTION_BYTES] == h && whole[SECTION_BYTES..SECTION_BYTES + |payload|] == payload;
    SliceOf(b, at, at + SECTION_BYTES + |payload|, 0, SECTION_BYTES);
    SliceOf(b, at, at + SECTION_BYTES + |payload|, SECTION_BYTES, SECTION_BYTES + |payload|);
    HeaderReads(b, at, kind, flags, |payload|, g.crc(payload));
  }

  lemma {:induction false} PrefixSlice(b: seq<byte>, whole: seq<byte>, i: nat, j: nat)
    requires b <= whole && i <= j <= |b|
    ensures b[i..j] == whole[i..j]
  {
  }

  /** Part `i` reads back from any prefix of the image that holds it whole. */
  lemma {:induction false} PartReads(b: seq<byte>, identity: seq<byte>, parts: seq<Part>, tail: seq<byte>, g: Codec, i: nat)
    requires IdentityOk(identity) && PartsOk(parts) && i < |parts| && b <= Image(identity, parts, tail, g)
    requires End(parts, i + 1) <= |b| < 0x1_0000_0000_0000_0000
    ensures var p, at := parts[i], End(parts, i);
      && SectionAt(b, at) == Some(Section(p.kind, p.flags, at, |p.payload|, 0, 0, 0))
      && PayloadOf(b, SectionAt(b, at).value) == p.payload && Checked(b, SectionAt(b, at).value, g)
  {
    hide Bytes, SectionHeader, U32, U64, Image, SectionAt, PayloadOf, Checked;
    PartBytes(identity, parts, tail, g, i);
    PrefixSlice(b, Image(identity, parts, tail, g), End(parts, i), End(parts, i + 1));
    SectionReads(b, End(parts, i), parts[i].kind, parts[i].flags, parts[i].payload, g);
  }

  /** Part `i` is not found in a prefix that cuts it. */
  lemma {:induction false} PartIsCut(b: seq<byte>, identity: seq<byte>, parts: seq<Part>, tail: seq<byte>, g: Codec, i: nat)
    requires IdentityOk(identity) && PartsOk(parts) && i < |parts| && b <= Image(identity, parts, tail, g)
    requires End(parts, i) <= |b| < End(parts, i + 1) && |b| < 0x1_0000_0000_0000_0000
    ensures SectionAt(b, End(parts, i)).None?
  {
    hide Bytes, SectionHeader, U32, U64, Image;
    var at, p := End(parts, i), parts[i];
    if |b| - at >= SECTION_BYTES {
      PartBytes(identity, parts, tail, g, i);
      EndGrows(parts, i + 1, |parts|);
      var whole := Image(identity, parts, tail, g);
      PrefixSlice(b, whole, at, at + SECTION_BYTES);
      assert FrameOf(p, g)[0..SECTION_BYTES] == SectionHeader(p.kind, p.flags, |p.payload|, g.crc(p.payload));
      SliceOf(whole, at, End(parts, i + 1), 0, SECTION_BYTES);
      HeaderReads(b, at, p.kind, p.flags, |p.payload|, g.crc(p.payload));
    }
  }

  lemma {:induction false} IdentityReads(b: seq<byte>, identity: seq<byte>, parts: seq<Part>, tail: seq<byte>, g: Codec)
    requires IdentityOk(identity) && b <= Image(identity, parts, tail, g) && |b| >= HEADER_BYTES
    ensures ParseHeader(b) == Some(identity)
  {
    hide Flat, Pieces, U32;
    var h := Header(identity);
    HeaderParts(identity);
    var rest := Flat(Pieces(parts, g)) + tail;
    assert Image(identity, parts, tail, g) == h + rest;
    assert b[..HEADER_BYTES] == h by {
      assert (h + rest)[..HEADER_BYTES] == h;
      PrefixSlice(b, h + rest, 0, HEADER_BYTES);
    }
    PrefixSlice(h, b, 0, 8);
    PrefixSlice(h, b, 8, 10);
    PrefixSlice(h, b, 10, 12);
    PrefixSlice(h, b, 12, 16);
    PrefixSlice(h, b, 16, 32);
    Field32(b, 12, 0);
  }

  lemma {:induction false} HeaderParts(identity: seq<byte>)
    requires |identity| == 16
    ensures var h := Header(identity);
      && |h| == HEADER_BYTES && h[0..8] == MAGIC && h[8..10] == Bytes(MAJOR, 2) && h[10..12] == Bytes(MINOR, 2)
      && h[12..16] == Bytes(0, 4) && h[16..32] == identity
  {
    hide Bytes;
  }

  // ---------------------------------------------------------------- scanning a prefix

  /** The numbers of the part are those that its payload begins with. */
  ghost predicate Agrees(p: Part, g: Codec) {
    Prefix(p.kind, p.payload, g) == Some((p.aux0, p.aux1, p.block))
  }

  ghost predicate AllAgree(parts: seq<Part>, g: Codec) {
    forall i :: 0 <= i < |parts| ==> Agrees(parts[i], g)
  }

  /** What is no section of a scan, cut or not: nothing, or a directory. */
  ghost predicate Stops(tail: seq<byte>) {
    |tail| >= SECTION_BYTES ==> tail[0..4] == Bytes(DIRECTORY, 4)
  }

  /** How many parts fit whole into `n` bytes. */
  function Fitting(parts: seq<Part>, n: nat): (k: nat)
    requires n >= HEADER_BYTES
    ensures k <= |parts| && End(parts, k) <= n && (k < |parts| ==> n < End(parts, k + 1))
  {
    FittingFrom(parts, n, 0)
  }

  function FittingFrom(parts: seq<Part>, n: nat, i: nat): (k: nat)
    requires i <= |parts| && End(parts, i) <= n
    ensures i <= k <= |parts| && End(parts, k) <= n && (k < |parts| ==> n < End(parts, k + 1))
    decreases |parts| - i
  {
    if i < |parts| && End(parts, i + 1) <= n then FittingFrom(parts, n, i + 1) else i
  }

  lemma {:induction false} PartScans(b: seq<byte>, identity: seq<byte>, parts: seq<Part>, tail: seq<byte>, g: Codec, i: nat)
    requires IdentityOk(identity) && PartsOk(parts) && i < |parts| && Agrees(parts[i], g) && b <= Image(identity, parts, tail, g)
    requires End(parts, i + 1) <= |b| < 0x1_0000_0000_0000_0000
    ensures ScanOne(b, End(parts, i), g) == Some(SectionFor(parts, i))
  {
    hide SectionAt, PayloadOf, Checked, Image, Prefix;
    PartReads(b, identity, parts, tail, g, i);
    assert PartOk(parts[i]);
  }

  lemma {:induction false} ScanStops(b: seq<byte>, identity: seq<byte>, parts: seq<Part>, tail: seq<byte>, g: Codec, k: nat)
    requires IdentityOk(identity) && PartsOk(parts) && Stops(tail) && b <= Image(identity, parts, tail, g)
    requires k <= |parts| && End(parts, k) <= |b| < 0x1_0000_0000_0000_0000 && (k < |parts| ==> |b| < End(parts, k + 1))
    ensures ScanFrom(b, End(parts, k), g) == ([], End(parts, k))
  {
    hide SectionAt, PayloadOf, Checked, Image, Prefix, ScanOne, PartsOk, Bytes;
    var at := End(parts, k);
    ScanStep(b, at, g);
    if |b| - at >= SECTION_BYTES {
      if k < |parts| {
        PartIsCut(b, identity, parts, tail, g, k);
        NothingAt(b, at, g);
      } else {
        ImageSize(identity, parts, g);
        Tailed(identity, parts, tail, g);
        var whole := Image(identity, parts, tail, g);
        var before := Image(identity, parts, [], g);
        assert whole == before + tail;
        assert whole[at..at + 4] == tail[0..4];
        PrefixSlice(b, whole, at, at + 4);
        DirectoryAt(b, at, g);
      }
    }
  }

  lemma {:induction false} NothingAt(b: seq<byte>, at: nat, g: Codec)
    requires |b| < 0x1_0000_0000_0000_0000 && SectionAt(b, at).None?
    ensures ScanOne(b, at, g).None?
  {
  }

  lemma {:induction false} DirectoryAt(b: seq<byte>, at: nat, g: Codec)
    requires at + SECTION_BYTES <= |b| < 0x1_0000_0000_0000_0000 && b[at..at + 4] == Bytes(DIRECTORY, 4)
    ensures ScanOne(b, at, g).None?
  {
    hide U64, PayloadOf, Checked, Prefix, Bytes;
    Field32(b, at, DIRECTORY);
  }

  lemma {:induction false} ScansFrom(b: seq<byte>, identity: seq<byte>, parts: seq<Part>, tail: seq<byte>, g: Codec, i: nat, k: nat)
    requires IdentityOk(identity) && PartsOk(parts) && AllAgree(parts, g) && Stops(tail) && b <= Image(identity, parts, tail, g)
    requires i <= k <= |parts| && End(parts, k) <= |b| < 0x1_0000_0000_0000_0000 && (k < |parts| ==> |b| < End(parts, k + 1))
    ensures End(parts, i) <= |b| && ScanFrom(b, End(parts, i), g) == (Located(parts, k)[i..], End(parts, k))
    decreases k - i
  {
    hide Image, ScanFrom, ScanOne, PartsOk, Prefix;
    EndGrows(parts, i, k);
    if i == k {
      ScanStops(b, identity, parts, tail, g, k);
    } else {
      EndGrows(parts, i + 1, k);
      assert Agrees(parts[i], g);
      PartScans(b, identity, parts, tail, g, i);
      ScanStep(b, End(parts, i), g);
      ScansFrom(b, identity, parts, tail, g, i + 1, k);
      assert Located(parts, k)[i..] == [Located(parts, k)[i]] + Located(parts, k)[i + 1..];
    }
  }

  /** Cut anywhere behind the header, the image scans as exactly the sections that fit whole; the rest is dropped. */
  lemma {:induction false} PrefixRecovers(identity: seq<byte>, parts: seq<Part>, tail: seq<byte>, g: Codec, n: nat)
    requires IdentityOk(identity) && PartsOk(parts) && AllAgree(parts, g) && Stops(tail)
    requires HEADER_BYTES <= n <= |Image(identity, parts, tail, g)| && n < 0x1_0000_0000_0000_0000
    ensures var k := Fitting(parts, n);
      Parse(Image(identity, parts, tail, g)[..n], false, g)
      == Some(Container(identity, Unfinished, n - End(parts, k), None, Located(parts, k)))
  {
    hide Image, ScanFrom, PartsOk, Prefix, ParseHeader;
    var b, k := Image(identity, parts, tail, g)[..n], Fitting(parts, n);
    IdentityReads(b, identity, parts, tail, g);
    ScansFrom(b, identity, parts, tail, g, 0, k);
    assert Located(parts, k)[0..] == Located(parts, k);
  }

  /** A directory ends the scan. */
  lemma {:induction false} ClosingStops(directory: seq<byte>, position: nat, incomplete: bool, g: Codec)
    ensures Stops(Closing(directory, position, incomplete, g)) && Stops([])
  {
    hide Bytes, SectionHeader;
    var flags: u32 := if incomplete then 2 else 0;
    var h := SectionHeader(DIRECTORY, flags, |directory|, g.crc(directory));
    HeaderFields(DIRECTORY, flags, |directory|, g.crc(directory));
    Joined(h, directory, 0, 4);
    Joined(h + directory, Trailer(position, position + |directory| + 48), 0, 4);
  }

  // ---------------------------------------------------------------- the directory

  lemma {:induction false} EntryFields(s: Section)
    ensures var e := EntryOf(s);
      && e[0..4] == Bytes(s.kind, 4) && e[4..8] == Bytes(s.flags, 4) && e[8..16] == Bytes(s.offset, 8) && e[16..24] == Bytes(s.length, 8)
      && e[24..32] == Bytes(s.aux0, 8) && e[32..40] == Bytes(s.aux1, 8) && e[40..48] == Bytes(s.block, 8)
  {
    hide Bytes;
    var a, b, o, l, x, y, z := Bytes(s.kind, 4), Bytes(s.flags, 4), Bytes(s.offset, 8), Bytes(s.length, 8), Bytes(s.aux0, 8), Bytes(s.aux1, 8), Bytes(s.block, 8);
    var front := a + b + o + l;
    Joined(a, b, 0, 4);
    Joined(a + b, o, 0, 4);
    Joined(a + b, o, 4, 8);
    Joined(a + b + o, l, 0, 4);
    Joined(a + b + o, l, 4, 8);
    Joined(a + b + o, l, 8, 16);
    FrontStays(front, x, y, z);
  }

  lemma {:induction false} FrontStays(front: seq<byte>, x: seq<byte>, y: seq<byte>, z: seq<byte>)
    requires |front| == 24 && |x| == 8 && |y| == 8 && |z| == 8
    ensures var e := front + x + y + z;
      && e[24..32] == x && e[32..40] == y && e[40..48] == z
      && e[0..4] == front[0..4] && e[4..8] == front[4..8] && e[8..16] == front[8..16] && e[16..24] == front[16..24]
  {
    var rest := x + y + z;
    assert front + x + y + z == front + rest;
    Joined(front, rest, 0, 4);
    Joined(front, rest, 4, 8);
    Joined(front, rest, 8, 16);
    Joined(front, rest, 16, 24);
  }

  lemma {:induction false} EntryReads(d: seq<byte>, at: nat, s: Section)
    requires at + ENTRY_BYTES <= |d| && d[at..at + ENTRY_BYTES] == EntryOf(s)
    ensures ReadEntry(d, at) == s
  {
    hide Bytes, U32, U64, EntryOf;
    EntryFields(s);
    EntrySlices(d, at);
    Field32(d, at, s.kind);
    Field32(d, at + 4, s.flags);
    Field64(d, at + 8, s.offset);
    Field64(d, at + 16, s.length);
    Field64(d, at + 24, s.aux0);
    Field64(d, at + 32, s.aux1);
    Field64(d, at + 40, s.block);
  }

  lemma {:induction false} EntrySlices(d: seq<byte>, at: nat)
    requires at + ENTRY_BYTES <= |d|
    ensures var e := d[at..at + ENTRY_BYTES];
      && d[at..at + 4] == e[0..4] && d[at + 4..at + 8] == e[4..8] && d[at + 8..at + 16] == e[8..16] && d[at + 16..at + 24] == e[16..24]
      && d[at + 24..at + 32] == e[24..32] && d[at + 32..at + 40] == e[32..40] && d[at + 40..at + 48] == e[40..48]
  {
    SliceOf(d, at, at + ENTRY_BYTES, 0, 4);
    SliceOf(d, at, at + ENTRY_BYTES, 4, 8);
    SliceOf(d, at, at + ENTRY_BYTES, 8, 16);
    SliceOf(d, at, at + ENTRY_BYTES, 16, 24);
    SliceOf(d, at, at + ENTRY_BYTES, 24, 32);
    SliceOf(d, at, at + ENTRY_BYTES, 32, 40);
    SliceOf(d, at, at + ENTRY_BYTES, 40, 48);
  }

  /** The directory says how many sections, how many bytes were dropped, and every section. */
  lemma {:induction false} DirectoryReads(sections: seq<Section>, dropped: u64)
    requires |sections| < 0x1_0000_0000_0000_0000
    ensures var d := DirectoryOf(sections, dropped);
      && |d| == 16 + |sections| * ENTRY_BYTES && U64(d, 0) == |sections| && U64(d, 8) == dropped
      && forall k :: 0 <= k < |sections| ==> 16 + k * ENTRY_BYTES + ENTRY_BYTES <= |d| && ReadEntry(d, 16 + k * ENTRY_BYTES) == sections[k]
  {
    hide Bytes, U64, EntryOf, Flat, ReadEntry;
    var d, front, entries := DirectoryOf(sections, dropped), Bytes(|sections|, 8) + Bytes(dropped, 8), Flat(Entries(sections));
    FlatAt(Entries(sections), ENTRY_BYTES, 0);
    Joined(Bytes(|sections|, 8), Bytes(dropped, 8), 0, 8);
    Joined(front, entries, 0, 8);
    Joined(front, entries, 8, 16);
    Field64(d, 0, |sections|);
    Field64(d, 8, dropped);
    forall k | 0 <= k < |sections|
      ensures 16 + k * ENTRY_BYTES + ENTRY_BYTES <= |d| && ReadEntry(d, 16 + k * ENTRY_BYTES) == sections[k]
    {
      FlatAt(Entries(sections), ENTRY_BYTES, k);
      var at := k * ENTRY_BYTES;
      SliceOf(d, 16, |d|, at, at + ENTRY_BYTES);
      EntryReads(d, 16 + at, sections[k]);
    }
  }

  // ---------------------------------------------------------------- a finished container

  /** Block numbers that are given are given once. */
  predicate DistinctBlocks(parts: seq<Part>, n: nat)
    requires n <= |parts|
  {
    forall i, j :: 0 <= i < j < n && parts[i].block != 0 ==> parts[i].block != parts[j].block
  }

  function BlocksOf(parts: seq<Part>, n: nat): (s: set<nat>)
    requires n <= |parts|
    ensures forall b :: b in s <==> b != 0 && exists i :: 0 <= i < n && parts[i].block == b
  {
    if n == 0 then {} else
      var s := BlocksOf(parts, n - 1);
      if parts[n - 1].block != 0 then s + {parts[n - 1].block as nat} else s
  }

  lemma {:induction false} EntryIs(parts: seq<Part>, dropped: u64, k: nat)
    requires PartsOk(parts) && |parts| < 0x1_0000_0000_0000_0000
    ensures |DirectoryOf(Located(parts, |parts|), dropped)| == 16 + |parts| * ENTRY_BYTES
    ensures k < |parts| ==> 16 + k * ENTRY_BYTES + ENTRY_BYTES <= 16 + |parts| * ENTRY_BYTES
    ensures k < |parts| ==> ReadEntry(DirectoryOf(Located(parts, |parts|), dropped), 16 + k * ENTRY_BYTES) == SectionFor(parts, k)
  {
    hide DirectoryOf, ReadEntry, PartsOk;
    DirectoryReads(Located(parts, |parts|), dropped);
  }

  lemma {:induction false} EntriesRead(b: seq<byte>, identity: seq<byte>, parts: seq<Part>, tail: seq<byte>, g: Codec, dropped: u64, n: nat)
    requires IdentityOk(identity) && PartsOk(parts) && b == Image(identity, parts, tail, g) && |b| < 0x1_0000_0000_0000_0000
    requires n <= |parts| < 0x1_0000_0000_0000_0000
    ensures |DirectoryOf(Located(parts, |parts|), dropped)| == 16 + |parts| * ENTRY_BYTES
    ensures ReadEntries(b, DirectoryOf(Located(parts, |parts|), dropped), End(parts, |parts|), n)
            == if DistinctBlocks(parts, n) then Some(Listed(Located(parts, n), End(parts, n), BlocksOf(parts, n))) else None
  {
    hide Image, SectionAt, DirectoryOf, ReadEntry, PartsOk, AddEntry, U64, Located, DistinctBlocks, BlocksOf, SectionFor;
    EntryIs(parts, dropped, n);
    if n == 0 {
      NothingYet(parts);
    } else {
      EntriesRead(b, identity, parts, tail, g, dropped, n - 1);
      EntryIs(parts, dropped, n - 1);
      DistinctFewer(parts, n - 1);
      if DistinctBlocks(parts, n - 1) {
        EntryAdds(b, identity, parts, tail, g, n - 1);
      }
    }
  }

  lemma {:induction false} NothingYet(parts: seq<Part>)
    requires PartsOk(parts)
    ensures DistinctBlocks(parts, 0) && Located(parts, 0) == [] && End(parts, 0) == HEADER_BYTES && BlocksOf(parts, 0) == {}
  {
  }

  lemma {:induction false} DistinctFewer(parts: seq<Part>, n: nat)
    requires n < |parts|
    ensures DistinctBlocks(parts, n + 1) ==> DistinctBlocks(parts, n)
  {
  }

  lemma {:induction false} EntryAdds(b: seq<byte>, identity: seq<byte>, parts: seq<Part>, tail: seq<byte>, g: Codec, k: nat)
    requires IdentityOk(identity) && PartsOk(parts) && b == Image(identity, parts, tail, g) && |b| < 0x1_0000_0000_0000_0000
    requires k < |parts| && DistinctBlocks(parts, k)
    ensures AddEntry(b, SectionFor(parts, k), End(parts, |parts|), Listed(Located(parts, k), End(parts, k), BlocksOf(parts, k)))
            == if DistinctBlocks(parts, k + 1) then Some(Listed(Located(parts, k + 1), End(parts, k + 1), BlocksOf(parts, k + 1))) else None
  {
    hide Image, SectionAt, PayloadOf, Checked;
    EndGrows(parts, k + 1, |parts|);
    ImageSize(identity, parts, g);
    Tailed(identity, parts, tail, g);
    PartReads(b, identity, parts, tail, g, k);
    assert PartOk(parts[k]);
    OneMoreBlock(parts, k);
  }

  lemma {:induction false} OneMoreBlock(parts: seq<Part>, k: nat)
    requires k < |parts| && DistinctBlocks(parts, k)
    ensures DistinctBlocks(parts, k + 1) <==> parts[k].block == 0 || parts[k].block !in BlocksOf(parts, k)
  {
  }

  lemma {:induction false} ClosingReads(before: seq<byte>, directory: seq<byte>, incomplete: bool, g: Codec)
    requires var b := before + Closing(directory, |before|, incomplete, g); |b| < 0x1_0000_0000_0000_0000 && |before| >= HEADER_BYTES
    ensures var b := before + Closing(directory, |before|, incomplete, g);
      && |b| == |before| + |directory| + 48
      && HasTrailer(b) && U64(b, |b| - 24) == |before|
      && SectionAt(b, |before|) == Some(Section(DIRECTORY, if incomplete then 2 else 0, |before|, |directory|, 0, 0, 0))
      && PayloadOf(b, SectionAt(b, |before|).value) == directory && Checked(b, SectionAt(b, |before|).value, g)
  {
    hide Bytes, SectionHeader, U64, SectionAt, PayloadOf, Checked;
    var at := |before|;
    var length := at + |directory| + 48;
    var h := SectionHeader(DIRECTORY, if incomplete then 2 else 0, |directory|, g.crc(directory));
    var x, y := Bytes(at, 8), Bytes(length, 8);
    var b := before + Closing(directory, at, incomplete, g);
    var body := h + directory;
    assert b == before + body + (x + y + TRAILER_MAGIC);
    InTheMiddle(before, body, x + y + TRAILER_MAGIC, 0, |body|);
    assert body[0..|body|] == body;
    SectionReads(b, at, DIRECTORY, if incomplete then 2 else 0, directory, g);
    var end := at + |body|;
    assert b == before + body + x + y + TRAILER_MAGIC;
    assert b[end..end + 8] == x && b[end + 8..end + 16] == y && b[end + 16..] == TRAILER_MAGIC;
    Field64(b, end, at);
    Field64(b, end + 8, length);
  }

  /** A finished container parses back as what was written if and only if no block number was given twice. */
  lemma {:induction false} FinishedParses(identity: seq<byte>, parts: seq<Part>, incomplete: bool, dropped: u64, g: Codec)
    requires IdentityOk(identity) && PartsOk(parts) && (incomplete || dropped == 0)
    requires |FinishedImage(identity, parts, incomplete, dropped, g)| < 0x1_0000_0000_0000_0000
    ensures var b := FinishedImage(identity, parts, incomplete, dropped, g);
      Parse(b, true, g) ==
      if DistinctBlocks(parts, |parts|) then
        Some(Container(identity, if incomplete then Incomplete else Complete, dropped,
                       Some(Fingerprint(identity, |b|, g.crc(DirectoryOf(Located(parts, |parts|), dropped)))), Located(parts, |parts|)))
      else None
  {
    hide Image, Closing, DirectoryOf, PartsOk, ParseHeader, HasTrailer, SectionAt, PayloadOf, Checked, U64, ReadEntries, DistinctBlocks, BlocksOf,
         ScanFrom;
    var directory := DirectoryOf(Located(parts, |parts|), dropped);
    var before := Image(identity, parts, [], g);
    var tail := Closing(directory, End(parts, |parts|), incomplete, g);
    var b := FinishedImage(identity, parts, incomplete, dropped, g);
    ImageSize(identity, parts, g);
    Tailed(identity, parts, tail, g);
    assert b == before + tail;
    PartsAreFew(parts);
    ClosingReads(before, directory, incomplete, g);
    IdentityReads(b, identity, parts, tail, g);
    DirectoryReads(Located(parts, |parts|), dropped);
    EntriesRead(b, identity, parts, tail, g, dropped, |parts|);
  }

  /** Two blocks with the same number, which the writer takes. */
  const TWICE: seq<Part> := [Part(5, 0, [], 0, 0, 1), Part(5, 0, [], 0, 0, 1)]

  /** The writer accepts and finishes a container that the parser then refuses: it does not look at the numbers of earlier blocks. */
  lemma {:induction false} TwiceIsRefused(identity: seq<byte>, g: Codec)
    requires IdentityOk(identity)
    ensures PartsOk(TWICE) && |FinishedImage(identity, TWICE, false, 0, g)| < 0x1_0000_0000_0000_0000
    ensures Parse(FinishedImage(identity, TWICE, false, 0, g), true, g).None?
  {
    hide FinishedImage, Parse, DirectoryOf, Image, Located;
    assert End(TWICE, 1) == 56 && End(TWICE, 2) == 80;
    FinishedSize(identity, TWICE, false, 0, g);
    DirectoryReads(Located(TWICE, 2), 0);
    FinishedParses(identity, TWICE, false, 0, g);
    assert TWICE[0].block == TWICE[1].block;
  }

  lemma {:induction false} PartsAreFew(parts: seq<Part>)
    requires PartsOk(parts)
    ensures |parts| < 0x1_0000_0000_0000_0000
  {
    EndAtLeast(parts, |parts|);
  }

  lemma {:induction false} EndAtLeast(parts: seq<Part>, n: nat)
    requires n <= |parts|
    ensures End(parts, n) >= n
  {
    if n > 0 {
      EndAtLeast(parts, n - 1);
    }
  }

  // ---------------------------------------------------------------- whatever is accepted

  /** Sections without gaps from one place to another. */
  ghost predicate Chain(ss: seq<Section>, from: nat, to: nat)
    decreases |ss|
  {
    if ss == [] then from == to else ss[0].offset == from && Chain(ss[1..], from + SECTION_BYTES + ss[0].length, to)
  }

  lemma {:induction false} ChainAdds(ss: seq<Section>, from: nat, to: nat, s: Section)
    requires Chain(ss, from, to) && s.offset == to
    ensures Chain(ss + [s], from, to + SECTION_BYTES + s.length)
    decreases |ss|
  {
    if ss == [] {
      assert (ss + [s])[1..] == [];
    } else {
      ChainAdds(ss[1..], from + SECTION_BYTES + ss[0].length, to, s);
      assert (ss + [s])[1..] == ss[1..] + [s];
    }
  }

  /** Its header is there, whole, and its block number is no one else's. */
  ghost predicate ListedWell(b: seq<byte>, l: Listed)
    requires |b| < 0x1_0000_0000_0000_0000
  {
    && Chain(l.sections, HEADER_BYTES, l.previous)
    && (forall i :: 0 <= i < |l.sections| ==> HeaderAgrees(b, l.sections[i]))
    && (forall i :: 0 <= i < |l.sections| && l.sections[i].block != 0 ==> l.sections[i].block in l.blocks)
    && forall i, j :: 0 <= i < j < |l.sections| && l.sections[i].block != 0 ==> l.sections[i].block != l.sections[j].block
  }

  ghost predicate HeaderAgrees(b: seq<byte>, s: Section)
    requires |b| < 0x1_0000_0000_0000_0000
  {
    && s.kind != 0 && s.kind != DIRECTORY && (Block(s.kind) <==> s.block != 0)
    && SectionAt(b, s.offset) == Some(s.(aux0 := 0, aux1 := 0, block := 0))
  }

  lemma {:induction false} EntriesAreWell(b: seq<byte>, directory: seq<byte>, offset: nat, k: nat)
    requires |b| < 0x1_0000_0000_0000_0000 && 16 + k * ENTRY_BYTES <= |directory|
    requires ReadEntries(b, directory, offset, k).Some?
    ensures ListedWell(b, ReadEntries(b, directory, offset, k).value)
  {
    hide SectionAt, ReadEntry, U32, U64;
    if k > 0 {
      EntriesAreWell(b, directory, offset, k - 1);
      var l, s := ReadEntries(b, directory, offset, k - 1).value, ReadEntry(directory, 16 + (k - 1) * ENTRY_BYTES);
      ChainAdds(l.sections, HEADER_BYTES, l.previous, s);
    }
  }

  lemma {:induction false} ScanIsChain(b: seq<byte>, offset: nat, g: Codec)
    requires |b| < 0x1_0000_0000_0000_0000 && offset <= |b|
    ensures Chain(ScanFrom(b, offset, g).0, offset, ScanFrom(b, offset, g).1)
    decreases |b| - offset
  {
    hide ScanOne, ScanFrom;
    ScanStep(b, offset, g);
    if |b| - offset >= SECTION_BYTES && ScanOne(b, offset, g).Some? {
      var s := ScanOne(b, offset, g).value;
      ScanIsChain(b, offset + SECTION_BYTES + s.length, g);
      assert ([s] + ScanFrom(b, offset + SECTION_BYTES + s.length, g).0)[1..] == ScanFrom(b, offset + SECTION_BYTES + s.length, g).0;
    }
  }

  /** Whatever bytes are accepted, the sections lie without gaps behind the header, inside the bytes. */
  lemma {:induction false} AcceptedIsChain(b: seq<byte>, useDirectory: bool, g: Codec)
    requires |b| < 0x1_0000_0000_0000_0000 && Parse(b, useDirectory, g).Some?
    ensures var c := Parse(b, useDirectory, g).value;
      c.completion == Unfinished ==> c.dropped <= |b| && Chain(c.sections, HEADER_BYTES, |b| - c.dropped)
    ensures var c := Parse(b, useDirectory, g).value;
      c.completion != Unfinished ==> |b| >= 56 && Chain(c.sections, HEADER_BYTES, U64(b, |b| - 24))
    ensures var c := Parse(b, useDirectory, g).value;
      c.completion != Unfinished ==> forall i :: 0 <= i < |c.sections| ==> HeaderAgrees(b, c.sections[i])
  {
    hide SectionAt, PayloadOf, Checked, ParseHeader, ReadEntries, ScanFrom, U64, Chain, HeaderAgrees;
    HeaderFits(b);
    if useDirectory && HasTrailer(b) {
      var offset := U64(b, |b| - 24);
      var directory := PayloadOf(b, SectionAt(b, offset).value);
      EntriesAreWell(b, directory, offset, U64(directory, 0));
    } else {
      ScanIsChain(b, HEADER_BYTES, g);
    }
  }

  // ---------------------------------------------------------------- recovering

  function PartIn(b: seq<byte>, s: Section): Part
    requires s.offset + SECTION_BYTES + s.length <= |b|
  {
    Part(s.kind, s.flags, PayloadOf(b, s), s.aux0, s.aux1, s.block)
  }

  predicate Inside(b: seq<byte>, ss: seq<Section>) {
    forall i :: 0 <= i < |ss| ==> ss[i].offset + SECTION_BYTES + ss[i].length <= |b|
  }

  function PartsIn(b: seq<byte>, ss: seq<Section>): (r: seq<Part>)
    requires Inside(b, ss)
    ensures |r| == |ss|
  {
    if ss == [] then [] else PartsIn(b, ss[..|ss| - 1]) + [PartIn(b, ss[|ss| - 1])]
  }

  lemma {:induction false} ScanIsInside(b: seq<byte>, offset: nat, g: Codec)
    requires |b| < 0x1_0000_0000_0000_0000 && offset <= |b|
    ensures Inside(b, ScanFrom(b, offset, g).0)
    decreases |b| - offset
  {
    hide ScanOne, ScanFrom;
    ScanStep(b, offset, g);
    if |b| - offset >= SECTION_BYTES && ScanOne(b, offset, g).Some? {
      ScanIsInside(b, offset + SECTION_BYTES + ScanOne(b, offset, g).value.length, g);
    }
  }

  /** The sections of the scan as an incomplete container, when there is metadata among them and the writer takes them all. */
  function Recovered(b: seq<byte>, g: Codec): Option<seq<byte>>
    requires |b| < 0x1_0000_0000_0000_0000
  {
    match Parse(b, false, g)
    case None => None
    case Some(c) =>
      HeaderFits(b);
      ScanIsInside(b, HEADER_BYTES, g);
      var parts := PartsIn(b, c.sections);
      if HasMetadata(parts) && PartsOk(parts) && |FinishedImage(c.identity, parts, true, c.dropped, g)| < 0x1_0000_0000_0000_0000
      then Some(FinishedImage(c.identity, parts, true, c.dropped, g)) else None
  }

  predicate HasMetadata(parts: seq<Part>) {
    exists i :: 0 <= i < |parts| && parts[i].kind == 1
  }

  /** `recover`: the sections of the scan written once more, unless there is no metadata or the writer refuses one. */
  method Recover(b: seq<byte>, g: Codec) returns (out: Option<seq<byte>>)
    requires |b| < 0x1_0000_0000_0000_0000
    ensures out == Recovered(b, g)
  {
    hide ParseHeader, ScanFrom, FinishedImage, Image, DirectoryOf, Closing, IdentityOk, PartsIn, PartOk, Located;
    var parsed := ParseBytes(b, false, g);
    if parsed.None? {
      return None;
    }
    var c := parsed.value;
    HeaderFits(b);
    ScanIsInside(b, HEADER_BYTES, g);
    IdentityOkOf(b);
    MetadataIn(b, c.sections);
    if !exists i :: 0 <= i < |c.sections| && c.sections[i].kind == 1 {
      return None;
    }
    var writer := new FramedWriter(c.identity, g);
    NoPartsIn(b);
    assert c.sections[..0] == [];
    for i := 0 to |c.sections|
      invariant writer.Valid() && !writer.finished && fresh(writer) && writer.identity == c.identity && writer.codec == g
      invariant writer.parts == PartsIn(b, c.sections[..i])
    {
      MorePartIn(b, c.sections, i);
      var ok := writer.Write(PartIn(b, c.sections[i]));
      if !ok {
        RefusedPart(PartsIn(b, c.sections), i, writer.position);
        return None;
      }
    }
    assert c.sections[..|c.sections|] == c.sections;
    FinishedSize(c.identity, writer.parts, true, c.dropped, g);
    var done := writer.Finish(true, c.dropped);
    if done.None? {
      return None;
    }
    out := Some(writer.output);
  }

  lemma {:induction false} MetadataIn(b: seq<byte>, ss: seq<Section>)
    requires Inside(b, ss)
    ensures HasMetadata(PartsIn(b, ss)) <==> exists i :: 0 <= i < |ss| && ss[i].kind == 1
  {
    hide PartsIn;
    forall i | 0 <= i < |ss|
      ensures PartsIn(b, ss)[i].kind == ss[i].kind
    {
      MorePartIn(b, ss, i);
    }
  }

  lemma {:induction false} IdentityOkOf(b: seq<byte>)
    requires ParseHeader(b).Some?
    ensures IdentityOk(ParseHeader(b).value)
  {
    hide Bytes, U32;
  }

  lemma {:induction false} NoPartsIn(b: seq<byte>)
    ensures PartsIn(b, []) == []
  {
  }

  lemma {:induction false} MorePartIn(b: seq<byte>, ss: seq<Section>, i: nat)
    requires Inside(b, ss) && i < |ss|
    ensures PartsIn(b, ss[..i + 1]) == PartsIn(b, ss[..i]) + [PartIn(b, ss[i])]
    ensures PartsIn(b, ss)[..i] == PartsIn(b, ss[..i]) && PartsIn(b, ss)[i] == PartIn(b, ss[i])
    decreases |ss|
  {
    hide PartIn;
    assert ss[..i + 1][..i] == ss[..i];
    var front := ss[..|ss| - 1];
    if i < |front| {
      MorePartIn(b, front, i);
      assert front[..i] == ss[..i];
    } else {
      assert ss[..i + 1] == ss && ss[..i] == front;
    }
  }

  lemma {:induction false} RefusedPart(parts: seq<Part>, i: nat, position: nat)
    requires i < |parts| && position == End(parts[..i], i)
    requires !PartOk(parts[i]) || position + SECTION_BYTES + |parts[i].payload| >= 0x1_0000_0000_0000_0000
    ensures !PartsOk(parts)
  {
    EndOfFront(parts, i, i);
    EndGrows(parts, i + 1, |parts|);
  }

  lemma {:induction false} EndOfFront(parts: seq<Part>, i: nat, k: nat)
    requires k <= i <= |parts|
    ensures End(parts[..i], k) == End(parts, k)
  {
    if k > 0 {
      EndOfFront(parts, i, k - 1);
    }
  }

  lemma {:induction false} FinishedSize(identity: seq<byte>, parts: seq<Part>, incomplete: bool, dropped: u64, g: Codec)
    requires PartsOk(parts) && IdentityOk(identity)
    ensures |FinishedImage(identity, parts, incomplete, dropped, g)|
            == End(parts, |parts|) + |DirectoryOf(Located(parts, |parts|), dropped)| + 48
  {
    hide Image, DirectoryOf, Located, Closing, Bytes;
    var directory := DirectoryOf(Located(parts, |parts|), dropped);
    ImageSize(identity, parts, g);
    Tailed(identity, parts, Closing(directory, End(parts, |parts|), incomplete, g), g);
    Closes([], directory, End(parts, |parts|), End(parts, |parts|) + |directory| + 48, incomplete, g);
  }

  /** Recovering a container cut anywhere writes exactly the parts that fit whole, and says how much was dropped. */
  lemma {:induction false} RecoversPrefix(identity: seq<byte>, parts: seq<Part>, tail: seq<byte>, g: Codec, n: nat)
    requires IdentityOk(identity) && PartsOk(parts) && AllAgree(parts, g) && Stops(tail)
    requires HEADER_BYTES <= n <= |Image(identity, parts, tail, g)| && n < 0x1_0000_0000_0000_0000
    ensures var k, b := Fitting(parts, n), Image(identity, parts, tail, g)[..n];
      && Parse(b, false, g).Some? && Inside(b, Parse(b, false, g).value.sections)
      && PartsIn(b, Parse(b, false, g).value.sections) == parts[..k] && Parse(b, false, g).value.dropped == n - End(parts, k)
  {
    hide Image, Parse, PartsOk, Prefix, PartsIn;
    var k, b := Fitting(parts, n), Image(identity, parts, tail, g)[..n];
    PrefixRecovers(identity, parts, tail, g, n);
    LocatedInside(b, identity, parts, tail, g, k);
  }

  lemma {:induction false} LocatedInside(b: seq<byte>, identity: seq<byte>, parts: seq<Part>, tail: seq<byte>, g: Codec, k: nat)
    requires IdentityOk(identity) && PartsOk(parts) && b <= Image(identity, parts, tail, g)
    requires k <= |parts| && End(parts, k) <= |b| < 0x1_0000_0000_0000_0000
    ensures Inside(b, Located(parts, k)) && PartsIn(b, Located(parts, k)) == parts[..k]
  {
    hide Image, PartsOk, SectionAt, PartsIn, PayloadOf, SectionFor;
    if k == 0 {
      NoPartsIn(b);
    } else {
      var ss := Located(parts, k);
      LocatedInside(b, identity, parts, tail, g, k - 1);
      PartReads(b, identity, parts, tail, g, k - 1);
      assert ss[..k - 1] == Located(parts, k - 1);
      LastInside(b, identity, parts, k - 1);
      MorePartIn(b, ss, k - 1);
      assert ss[..k] == ss;
      assert parts[..k] == parts[..k - 1] + [parts[k - 1]];
    }
  }

  lemma {:induction false} LastInside(b: seq<byte>, identity: seq<byte>, parts: seq<Part>, i: nat)
    requires PartsOk(parts) && i < |parts| && |b| < 0x1_0000_0000_0000_0000
    requires SectionAt(b, End(parts, i)).Some? && SectionAt(b, End(parts, i)).value.length == |parts[i].payload|
    requires PayloadOf(b, SectionAt(b, End(parts, i)).value) == parts[i].payload
    ensures var s := SectionFor(parts, i);
      s.offset + SECTION_BYTES + s.length <= |b| && PartIn(b, s) == parts[i]
  {
    hide SectionAt, PartsOk;
  }

  lemma {:induction false} FrontIsOk(parts: seq<Part>, k: nat)
    requires PartsOk(parts) && k <= |parts|
    ensures PartsOk(parts[..k]) && End(parts[..k], k) == End(parts, k)
  {
    EndOfFront(parts, k, k);
    EndGrows(parts, k, |parts|);
  }

  /**
   * What recovering a container cut anywhere writes: the parts that fit whole, as an incomplete container that says how much was
   * dropped. Read again, it has exactly these parts, unless a block number occurs twice among them.
   */
  lemma {:induction false} RecoveredReadsBack(identity: seq<byte>, parts: seq<Part>, tail: seq<byte>, g: Codec, n: nat)
    requires IdentityOk(identity) && PartsOk(parts) && AllAgree(parts, g) && Stops(tail)
    requires n <= |Image(identity, parts, tail, g)| && n < 0x1_0000_0000_0000_0000
    ensures n < HEADER_BYTES ==> Recovered(Image(identity, parts, tail, g)[..n], g).None?
    ensures n >= HEADER_BYTES ==>
              var k, out := Fitting(parts, n), Recovered(Image(identity, parts, tail, g)[..n], g);
              var kept, dropped := parts[..k], n - End(parts, k);
              && PartsOk(kept)
              && out == (if HasMetadata(kept) && |FinishedImage(identity, kept, true, dropped, g)| < 0x1_0000_0000_0000_0000
                         then Some(FinishedImage(identity, kept, true, dropped, g)) else None)
              && (out.Some? ==>
                    && Parse(out.value, true, g).Some? == DistinctBlocks(kept, k)
                    && (DistinctBlocks(kept, k) ==>
                          var c := Parse(out.value, true, g).value;
                          && c.identity == identity && c.completion == Incomplete && c.dropped == dropped
                          && Inside(out.value, c.sections) && PartsIn(out.value, c.sections) == kept))
  {
    hide Image, Parse, PartsOk, Prefix, PartsIn, FinishedImage, DistinctBlocks;
    var b := Image(identity, parts, tail, g)[..n];
    if n < HEADER_BYTES {
      ShortFails(b, g);
    } else {
      var k := Fitting(parts, n);
      var kept, dropped := parts[..k], n - End(parts, k);
      FrontIsOk(parts, k);
      RecoversPrefix(identity, parts, tail, g, n);
      PrefixRecovers(identity, parts, tail, g, n);
      if Recovered(b, g).Some? {
        FinishedParses(identity, kept, true, dropped, g);
        KeptInside(identity, kept, dropped, g);
      }
    }
  }

  lemma {:induction false} ShortFails(b: seq<byte>, g: Codec)
    requires |b| < HEADER_BYTES
    ensures Parse(b, false, g).None?
  {
  }

  lemma {:induction false} KeptInside(identity: seq<byte>, kept: seq<Part>, dropped: u64, g: Codec)
    requires IdentityOk(identity) && PartsOk(kept) && |FinishedImage(identity, kept, true, dropped, g)| < 0x1_0000_0000_0000_0000
    ensures var out, k := FinishedImage(identity, kept, true, dropped, g), |kept|;
      Inside(out, Located(kept, k)) && PartsIn(out, Located(kept, k)) == kept
  {
    hide Image, PartsOk, PartsIn, Located, DirectoryOf, Closing;
    var k, tail := |kept|, Closing(DirectoryOf(Located(kept, |kept|), dropped), End(kept, |kept|), true, g);
    ImageSize(identity, kept, g);
    Tailed(identity, kept, tail, g);
    LocatedInside(FinishedImage(identity, kept, true, dropped, g), identity, kept, tail, g, k);
    assert kept[..k] == kept;
  }
}
