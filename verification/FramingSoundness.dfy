/** What a scan takes for a section: its checksum, and what its payload says of itself. */
module FramingSoundness {
  import opened Options
  import opened Limbs
  import opened Words
  import opened Varint
  import opened Slices
  import opened Framing
  import opened FramingRoundTrip

  // ---------------------------------------------------------------- what payloads say of themselves

  /** The payload spells the number there, in eight bytes, least significant first. */
  predicate Spells(payload: seq<byte>, at: nat, v: u64) {
    at + 8 <= |payload| && payload[at..at + 8] == Bytes(v, 8)
  }

  /**
   * Changes of signals begin with their first and last time; transaction blocks with their number, and records with theirs, say these
   * times behind 32 and 24 bytes more; activity pages begin with two numbers of variable length; declarations are compressed; any other
   * section says nothing.
   */
  ghost predicate Says(kind: u32, payload: seq<byte>, g: Codec, aux0: u64, aux1: u64, block: u64) {
    if kind == 4 then block == 0 && Spells(payload, 0, aux0) && Spells(payload, 8, aux1)
    else if kind == 5 then Spells(payload, 0, block) && Spells(payload, 8 + 32, aux0) && Spells(payload, 8 + 32 + 8, aux1)
    else if kind == 9 then Spells(payload, 0, block) && Spells(payload, 8 + 24, aux0) && Spells(payload, 8 + 24 + 8, aux1)
    else if kind == 10 then block == 0 && Leb(aux0) + Leb(aux1) <= payload
    else if kind == 2 || kind == 3 then block == 0 && g.declared(payload) == Some((aux0, aux1))
    else aux0 == aux1 == block == 0
  }

  lemma {:induction false} SpellsIs(payload: seq<byte>, at: nat, v: u64)
    ensures Spells(payload, at, v) <==> at + 8 <= |payload| && U64(payload, at) == v
  {
    hide Bytes;
    if at + 8 <= |payload| {
      BytesOfLe(payload[at..at + 8]);
      BytesBack(v, 8);
    }
  }

  lemma {:induction false} TwoNumbers(payload: seq<byte>, a: u64, b: u64)
    ensures Leb(a) + Leb(b) <= payload <==>
            ReadVar(payload).Some? && ReadVar(payload).value.0 == a
            && ReadVar(ReadVar(payload).value.1).Some? && ReadVar(ReadVar(payload).value.1).value.0 == b
  {
    hide Leb, Unleb, ReadVar;
    var both := Leb(a) + Leb(b);
    if both <= payload {
      var rest := payload[|both|..];
      assert payload == both + rest == Leb(a) + (Leb(b) + rest);
      ReadVarIff(payload, a, Leb(b) + rest);
      ReadVarIff(Leb(b) + rest, b, rest);
    }
    if ReadVar(payload).Some? && ReadVar(payload).value.0 == a {
      var more := ReadVar(payload).value.1;
      ReadVarIff(payload, a, more);
      if ReadVar(more).Some? && ReadVar(more).value.0 == b {
        ReadVarIff(more, b, ReadVar(more).value.1);
        assert payload == both + ReadVar(more).value.1;
      }
    }
  }

  /** The scan takes exactly what the payload says. */
  lemma {:induction false} PrefixIsSaid(kind: u32, payload: seq<byte>, g: Codec, aux0: u64, aux1: u64, block: u64)
    ensures Prefix(kind, payload, g) == Some((aux0, aux1, block)) <==> Says(kind, payload, g, aux0, aux1, block)
  {
    hide Spells, U64, Leb, ReadVar;
    var skip := if kind == 4 then 0 else if kind == 5 then 40 else 32;
    SpellsIs(payload, 0, block);
    SpellsIs(payload, skip, aux0);
    SpellsIs(payload, skip + 8, aux1);
    TwoNumbers(payload, aux0, aux1);
  }

  // ---------------------------------------------------------------- what a scan finds

  /** A section whose payload has its checksum, or that has none, and says what the section says. */
  ghost predicate Sound(b: seq<byte>, s: Section, g: Codec) {
    && s.kind != 0 && s.kind != 7 && s.offset + 24 + s.length <= |b|
    && var header, payload := b[s.offset..s.offset + 24], b[s.offset + 24..s.offset + 24 + s.length];
       && header[..4] == Bytes(s.kind, 4) && header[4..8] == Bytes(s.flags, 4) && header[8..16] == Bytes(s.length, 8)
       && (header[16..20] == Bytes(0, 4) || header[16..20] == Bytes(g.crc(payload), 4)) && header[20..] == Bytes(0, 4)
       && Says(s.kind, payload, g, s.aux0, s.aux1, s.block)
  }

  /** The bytes there spell the number. */
  lemma {:induction false} HeaderSpells(b: seq<byte>, at: nat, i: nat, n: nat, v: nat)
    requires at + 24 <= |b| && i + n <= 24 && ((n == 4 && v < 0x1_0000_0000) || (n == 8 && v < 0x1_0000_0000_0000_0000))
    ensures b[at..at + 24][i..i + n] == b[at + i..at + i + n]
    ensures b[at + i..at + i + n] == Bytes(v, n) <==> Word(b[at + i..at + i + n]) == v
  {
    hide Bytes;
    SliceOfSlice(b, at, 24, i, n);
    BytesOfLe(b[at + i..at + i + n]);
    BytesBack(v, n);
  }

  lemma {:induction false} SectionIff(b: seq<byte>, offset: u64, kind: u32, flags: u32, length: u64)
    requires |b| < 0x1_0000_0000_0000_0000
    ensures SectionAt(b, offset) == Some(Section(kind, flags, offset, length, 0, 0, 0)) <==>
            && offset + 24 + length <= |b|
            && var header := b[offset..offset + 24];
               && header[..4] == Bytes(kind, 4) && header[4..8] == Bytes(flags, 4) && header[8..16] == Bytes(length, 8)
               && header[20..] == Bytes(0, 4)
  {
    hide Bytes, Word;
    if offset + 24 <= |b| {
      HeaderSpells(b, offset, 0, 4, kind);
      HeaderSpells(b, offset, 4, 4, flags);
      HeaderSpells(b, offset, 8, 8, length);
      HeaderSpells(b, offset, 20, 4, 0);
      assert b[offset..offset + 24][20..] == b[offset..offset + 24][20..24] && b[offset..offset + 24][..4] == b[offset..offset + 24][0..4];
    }
  }

  lemma {:induction false} CheckedIff(b: seq<byte>, d: Section, g: Codec)
    requires d.offset + 24 + d.length <= |b|
    ensures var header, payload := b[d.offset..d.offset + 24], b[d.offset + 24..d.offset + 24 + d.length];
      Checked(b, d, g) <==> header[16..20] == Bytes(0, 4) || header[16..20] == Bytes(g.crc(payload), 4)
  {
    hide Bytes, Word;
    HeaderSpells(b, d.offset, 16, 4, 0);
    HeaderSpells(b, d.offset, 16, 4, g.crc(PayloadOf(b, d)));
  }

  /** Exactly the sound sections are taken. */
  lemma {:induction false} ScanOneIff(b: seq<byte>, offset: nat, g: Codec, s: Section)
    requires |b| < 0x1_0000_0000_0000_0000 && s.offset == offset
    ensures ScanOne(b, offset, g) == Some(s) <==> Sound(b, s, g)
  {
    hide Bytes, Says, Prefix, SectionAt, Checked;
    var bare := s.(aux0 := 0, aux1 := 0, block := 0);
    SectionIff(b, offset, s.kind, s.flags, s.length);
    if offset + 24 + s.length <= |b| {
      CheckedIff(b, bare, g);
      PrefixIsSaid(s.kind, PayloadOf(b, bare), g, s.aux0, s.aux1, s.block);
    }
  }

  /** Everything a scan finds is sound, and it stops only where no sound section begins. */
  lemma {:induction false} ScannedIsSound(b: seq<byte>, offset: nat, g: Codec)
    requires |b| < 0x1_0000_0000_0000_0000 && offset <= |b|
    ensures var (sections, end) := ScanFrom(b, offset, g);
      && (forall i :: 0 <= i < |sections| ==> Sound(b, sections[i], g))
      && forall s: Section :: s.offset == end ==> !Sound(b, s, g)
    decreases |b| - offset
  {
    hide ScanFrom, ScanOne, Sound;
    ScanStep(b, offset, g);
    if |b| - offset < SECTION_BYTES {
      forall s: Section | s.offset == offset
        ensures !Sound(b, s, g)
      {
        SoundFits(b, s, g);
      }
    } else {
      match ScanOne(b, offset, g)
      case None =>
        forall s: Section | s.offset == offset
          ensures !Sound(b, s, g)
        {
          ScanOneIff(b, offset, g, s);
        }
      case Some(s) =>
        ScanOneIff(b, offset, g, s);
        ScannedIsSound(b, offset + SECTION_BYTES + s.length, g);
    }
  }

  lemma {:induction false} SoundFits(b: seq<byte>, s: Section, g: Codec)
    ensures Sound(b, s, g) ==> s.offset + 24 + s.length <= |b|
  {
  }

  lemma {:induction false} DirectoryChecked(b: seq<byte>, g: Codec)
    requires |b| < 0x1_0000_0000_0000_0000 && HasTrailer(b) && Parse(b, true, g).Some?
    ensures var d := SectionAt(b, U64(b, |b| - 24));
      d.Some? && d.value.kind == 7 && d.value.length == |b| - U64(b, |b| - 24) - 48 && Checked(b, d.value, g)
  {
    hide U64, SectionAt, Checked, ReadEntries, ParseHeader;
  }

  /** A container that is accepted by its directory has one with its checksum, or without one. */
  lemma {:induction false} DirectoryIsSound(b: seq<byte>, g: Codec)
    requires |b| < 0x1_0000_0000_0000_0000 && HasTrailer(b) && Parse(b, true, g).Some?
    ensures var at := U64(b, |b| - 24);
      && at + 48 <= |b| && b[at..at + 4] == Bytes(7, 4)
      && var directory := b[at + 24..|b| - 24];
         b[at + 16..at + 20] == Bytes(0, 4) || b[at + 16..at + 20] == Bytes(g.crc(directory), 4)
  {
    hide Bytes, Parse, U64, SectionAt, Checked;
    var at := U64(b, |b| - 24);
    DirectoryChecked(b, g);
    var d := SectionAt(b, at).value;
    SectionIff(b, at, d.kind, d.flags, d.length);
    CheckedIff(b, d, g);
    SliceOfSlice(b, at, 24, 0, 4);
    SliceOfSlice(b, at, 24, 16, 4);
  }

  // ---------------------------------------------------------------- what a writer writes

  /** The bytes there are a section with its own checksum, never without one where the checksum is not zero. */
  ghost predicate Framed(b: seq<byte>, at: nat, kind: u32, flags: u32, payload: seq<byte>, g: Codec) {
    && at + 24 + |payload| <= |b| && b[at + 24..at + 24 + |payload|] == payload
    && var header := b[at..at + 24];
       && header[..4] == Bytes(kind, 4) && header[4..8] == Bytes(flags, 4) && header[8..16] == Bytes(|payload|, 8)
       && header[16..20] == Bytes(g.crc(payload), 4) && header[20..] == Bytes(0, 4)
  }

  lemma {:induction false} FrameIsFramed(front: seq<byte>, kind: u32, flags: u32, payload: seq<byte>, back: seq<byte>, g: Codec)
    ensures Framed(front + (SectionHeader(kind, flags, |payload|, g.crc(payload)) + payload) + back, |front|, kind, flags, payload, g)
  {
    hide Bytes;
    var header := SectionHeader(kind, flags, |payload|, g.crc(payload));
    var b := front + (header + payload) + back;
    assert b[|front|..|front| + 24] == header && b[|front| + 24..|front| + 24 + |payload|] == payload;
    var k, f, n, c, z := Bytes(kind, 4), Bytes(flags, 4), Bytes(|payload|, 8), Bytes(g.crc(payload), 4), Bytes(0, 4);
    assert header == k + f + n + c + z;
  }

  /** Every part of an image is written behind a header with its checksum. */
  lemma {:induction false} WrittenIsChecked(identity: seq<byte>, parts: seq<Part>, tail: seq<byte>, g: Codec, i: nat)
    requires IdentityOk(identity) && i < |parts|
    ensures Framed(Image(identity, parts, tail, g), End(parts, i), parts[i].kind, parts[i].flags, parts[i].payload, g)
  {
    hide Framed, SectionHeader, Header;
    var b, p := Image(identity, parts, tail, g), parts[i];
    PartBytes(identity, parts, tail, g, i);
    FrameIsFramed(b[..End(parts, i)], p.kind, p.flags, p.payload, b[End(parts, i + 1)..], g);
    assert b == b[..End(parts, i)] + FrameOf(p, g) + b[End(parts, i + 1)..];
  }

  /** And so is the directory. */
  lemma {:induction false} DirectoryIsChecked(identity: seq<byte>, parts: seq<Part>, incomplete: bool, dropped: u64, g: Codec)
    requires IdentityOk(identity) && PartsOk(parts)
    ensures Framed(FinishedImage(identity, parts, incomplete, dropped, g), End(parts, |parts|), DIRECTORY, if incomplete then 2 else 0,
                   DirectoryOf(Located(parts, |parts|), dropped), g)
  {
    hide Framed, SectionHeader, Header, Trailer, DirectoryOf, Located;
    var directory, at := DirectoryOf(Located(parts, |parts|), dropped), End(parts, |parts|);
    var front, back := Header(identity) + Flat(Pieces(parts, g)), Trailer(at, at + |directory| + 48);
    ImageSize(identity, parts, g);
    assert Image(identity, parts, [], g) == front;
    FrameIsFramed(front, DIRECTORY, if incomplete then 2 else 0, directory, back, g);
    var frame := SectionHeader(DIRECTORY, if incomplete then 2 else 0, |directory|, g.crc(directory)) + directory;
    assert FinishedImage(identity, parts, incomplete, dropped, g) == front + (frame + back) == front + frame + back;
  }
}
