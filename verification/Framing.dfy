/** Containers: checked sections one after the other, a final directory, and scanning without it. */
module Framing {
  import opened Options
  import opened Limbs
  import opened Words
  import opened Varint
  import opened Slices

  const MAGIC: seq<byte> := [0x89, 86, 84, 82, 13, 10, 26, 10]
  const TRAILER_MAGIC: seq<byte> := [86, 84, 82, 95, 69, 78, 68, 0]
  const MAJOR: nat := 3
  const MINOR: nat := 4
  const HEADER_BYTES: nat := 32
  const SECTION_BYTES: nat := 24
  const ENTRY_BYTES: nat := 48
  const DIRECTORY: u32 := 7

  datatype Section = Section(kind: u32, flags: u32, offset: u64, length: u64, aux0: u64, aux1: u64, block: u64)

  /** The checksum, and the two numbers at the front of a declaration that was compressed. */
  datatype Codec = Codec(crc: seq<byte> -> u32, declared: seq<byte> -> Option<(u64, u64)>)

  datatype Completion = Complete | Incomplete | Unfinished

  datatype Fingerprint = Fingerprint(recording: seq<byte>, length: nat, directoryCrc: u32)

  datatype Container = Container(identity: seq<byte>, completion: Completion, dropped: nat, fingerprint: Option<Fingerprint>,
                                 sections: seq<Section>)

  const NO_IDENTITY: seq<byte> := [0, 0, 0, 0, 0, 0, 0, 0, 0, 0, 0, 0, 0, 0, 0, 0]

  // ---------------------------------------------------------------- numbers in bytes

  function U32(b: seq<byte>, at: nat): u32
    requires at + 4 <= |b|
  {
    LeBound(b[at..at + 4]);
    PowFour();
    Word(b[at..at + 4])
  }

  function U64(b: seq<byte>, at: nat): u64
    requires at + 8 <= |b|
  {
    Word(b[at..at + 8])
  }

  function Header(identity: seq<byte>): seq<byte> {
    MAGIC + Bytes(MAJOR, 2) + Bytes(MINOR, 2) + Bytes(0, 4) + identity
  }

  function SectionHeader(kind: u32, flags: u32, length: nat, crc: u32): (s: seq<byte>)
    ensures |s| == SECTION_BYTES
  {
    Bytes(kind, 4) + Bytes(flags, 4) + Bytes(length, 8) + Bytes(crc, 4) + Bytes(0, 4)
  }

  function EntryOf(s: Section): (e: seq<byte>)
    ensures |e| == ENTRY_BYTES
  {
    Bytes(s.kind, 4) + Bytes(s.flags, 4) + Bytes(s.offset, 8) + Bytes(s.length, 8) + Bytes(s.aux0, 8) + Bytes(s.aux1, 8) + Bytes(s.block, 8)
  }

  function Entries(sections: seq<Section>): (es: seq<Entry>)
    ensures |es| == |sections| && forall i :: 0 <= i < |sections| ==> es[i] == EntryOf(sections[i])
  {
    seq(|sections|, i requires 0 <= i < |sections| => EntryOf(sections[i]))
  }

  function DirectoryOf(sections: seq<Section>, dropped: nat): seq<byte> {
    Bytes(|sections|, 8) + Bytes(dropped, 8) + Flat(Entries(sections))
  }

  predicate Block(kind: u32) {
    kind == 5 || kind == 9
  }

  // ---------------------------------------------------------------- reading

  function ParseHeader(b: seq<byte>): Option<seq<byte>> {
    if |b| < HEADER_BYTES || b[..8] != MAGIC then None
    else if b[8..10] != Bytes(MAJOR, 2) || b[10..12] != Bytes(MINOR, 2) || U32(b, 12) != 0 then None
    else if b[16..32] == NO_IDENTITY then None
    else Some(b[16..32])
  }

  /** The section that begins here, if it lies within the bytes. */
  function SectionAt(b: seq<byte>, offset: nat): (r: Option<Section>)
    requires |b| < 0x1_0000_0000_0000_0000
    ensures r.Some? ==> r.value.offset == offset && offset + SECTION_BYTES + r.value.length <= |b|
    ensures r.Some? ==> r.value.aux0 == 0 && r.value.aux1 == 0 && r.value.block == 0
  {
    if offset > |b| || |b| - offset < SECTION_BYTES || U32(b, offset + 20) != 0 then None
    else
      var length := U64(b, offset + 8);
      if length > |b| - (offset + SECTION_BYTES) then None
      else Some(Section(U32(b, offset), U32(b, offset + 4), offset, length, 0, 0, 0))
  }

  function PayloadOf(b: seq<byte>, s: Section): seq<byte>
    requires s.offset + SECTION_BYTES + s.length <= |b|
  {
    b[s.offset + SECTION_BYTES..s.offset + SECTION_BYTES + s.length]
  }

  predicate Checked(b: seq<byte>, s: Section, g: Codec)
    requires s.offset + SECTION_BYTES + s.length <= |b|
  {
    var expected := U32(b, s.offset + 16);
    expected == 0 || expected == g.crc(PayloadOf(b, s))
  }

  /** What a payload itself says of block number and auxiliary fields. */
  function Prefix(kind: u32, payload: seq<byte>, g: Codec): Option<(u64, u64, u64)> {
    if kind == 4 then
      if |payload| < 16 then None else Some((U64(payload, 0), U64(payload, 8), 0))
    else if Block(kind) then
      var skip := if kind == 5 then 40 else 32;
      if |payload| < skip + 16 then None else Some((U64(payload, skip), U64(payload, skip + 8), U64(payload, 0)))
    else if kind == 10 then
      match ReadVar(payload)
      case None => None
      case Some((aux0, rest)) =>
        match ReadVar(rest)
        case None => None
        case Some((aux1, _)) => Some((aux0, aux1, 0))
    else if kind == 2 || kind == 3 then
      match g.declared(payload)
      case None => None
      case Some((aux0, aux1)) => Some((aux0, aux1, 0))
    else Some((0, 0, 0))
  }

  /** One section of the scan, or the end of the prefix that can be recovered. */
  function ScanOne(b: seq<byte>, offset: nat, g: Codec): (r: Option<Section>)
    requires |b| < 0x1_0000_0000_0000_0000
    ensures r.Some? ==> r.value.offset == offset && offset + SECTION_BYTES + r.value.length <= |b|
  {
    match SectionAt(b, offset)
    case None => None
    case Some(s) =>
      if s.kind == 0 || s.kind == DIRECTORY || !Checked(b, s, g) then None else
        match Prefix(s.kind, PayloadOf(b, s), g)
        case None => None
        case Some((aux0, aux1, block)) => Some(s.(aux0 := aux0, aux1 := aux1, block := block))
  }

  function ScanFrom(b: seq<byte>, offset: nat, g: Codec): (r: (seq<Section>, nat))
    requires |b| < 0x1_0000_0000_0000_0000 && offset <= |b|
    ensures offset <= r.1 <= |b|
    decreases |b| - offset
  {
    if |b| - offset < SECTION_BYTES then ([], offset) else
      match ScanOne(b, offset, g)
      case None => ([], offset)
      case Some(s) =>
        var (rest, end) := ScanFrom(b, offset + SECTION_BYTES + s.length, g);
        ([s] + rest, end)
  }

  function FromScan(b: seq<byte>, identity: seq<byte>, g: Codec): Container
    requires HEADER_BYTES <= |b| < 0x1_0000_0000_0000_0000
  {
    var (sections, end) := ScanFrom(b, HEADER_BYTES, g);
    Container(identity, Unfinished, |b| - end, None, sections)
  }

  predicate HasTrailer(b: seq<byte>) {
    && |b| >= 56 && b[|b| - 8..] == TRAILER_MAGIC
    && U64(b, |b| - 16) == |b| && 32 <= U64(b, |b| - 24) <= |b| - 48
  }

  function ReadEntry(e: seq<byte>, at: nat): Section
    requires at + ENTRY_BYTES <= |e|
  {
    Section(U32(e, at), U32(e, at + 4), U64(e, at + 8), U64(e, at + 16), U64(e, at + 24), U64(e, at + 32), U64(e, at + 40))
  }

  datatype Listed = Listed(sections: seq<Section>, previous: nat, blocks: set<nat>)

  /** One entry more: right behind the one before, in front of the directory, and as its own header says. */
  function AddEntry(b: seq<byte>, s: Section, offset: nat, l: Listed): Option<Listed>
    requires |b| < 0x1_0000_0000_0000_0000
  {
    if || s.offset != l.previous || s.offset >= offset || offset - s.offset < SECTION_BYTES
       || s.length > offset - s.offset - SECTION_BYTES || s.kind == 0 || s.kind == DIRECTORY
       || (Block(s.kind) != (s.block != 0)) || (s.block != 0 && s.block in l.blocks)
    then None else
      match SectionAt(b, s.offset)
      case None => None
      case Some(actual) =>
        if actual.kind != s.kind || actual.flags != s.flags || actual.length != s.length then None
        else Some(Listed(l.sections + [s], s.offset + SECTION_BYTES + s.length, if s.block != 0 then l.blocks + {s.block} else l.blocks))
  }

  /** The first `k` entries of a directory. */
  function ReadEntries(b: seq<byte>, directory: seq<byte>, offset: nat, k: nat): Option<Listed>
    requires |b| < 0x1_0000_0000_0000_0000 && 16 + k * ENTRY_BYTES <= |directory|
  {
    if k == 0 then Some(Listed([], HEADER_BYTES, {})) else
      match ReadEntries(b, directory, offset, k - 1)
      case None => None
      case Some(l) => AddEntry(b, ReadEntry(directory, 16 + (k - 1) * ENTRY_BYTES), offset, l)
  }

  function FromDirectory(b: seq<byte>, identity: seq<byte>, g: Codec): Option<Container>
    requires |b| < 0x1_0000_0000_0000_0000 && HasTrailer(b)
  {
    var offset := U64(b, |b| - 24);
    match SectionAt(b, offset)
    case None => None
    case Some(d) =>
      if d.kind != DIRECTORY || d.length != |b| - offset - 48 || (d.flags != 0 && d.flags != 2) || !Checked(b, d, g) then None else
        var directory := PayloadOf(b, d);
        if |directory| < 16 then None else
          var count, dropped := U64(directory, 0), U64(directory, 8);
          if (d.flags == 0 && dropped != 0) || count > (|directory| - 16) / ENTRY_BYTES then None else
            match ReadEntries(b, directory, offset, count)
            case None => None
            case Some(l) =>
              if |directory| != 16 + count * ENTRY_BYTES || l.previous != offset then None
              else Some(Container(identity, if d.flags == 0 then Complete else Incomplete, dropped,
                                  Some(Fingerprint(identity, |b|, g.crc(directory))), l.sections))
  }

  function Parse(b: seq<byte>, useDirectory: bool, g: Codec): Option<Container>
    requires |b| < 0x1_0000_0000_0000_0000
  {
    match ParseHeader(b)
    case None => None
    case Some(identity) =>
      if useDirectory && HasTrailer(b) then FromDirectory(b, identity, g) else Some(FromScan(b, identity, g))
  }

  // ---------------------------------------------------------------- the loops

  method Scan(b: seq<byte>, g: Codec) returns (sections: seq<Section>, dropped: nat)
    requires HEADER_BYTES <= |b| < 0x1_0000_0000_0000_0000
    ensures var (found, end) := ScanFrom(b, HEADER_BYTES, g); sections == found && dropped == |b| - end
  {
    hide ScanFrom, ScanOne;
    var offset := HEADER_BYTES;
    sections := [];
    assert [] + ScanFrom(b, HEADER_BYTES, g).0 == ScanFrom(b, HEADER_BYTES, g).0;
    while |b| - offset >= SECTION_BYTES
      invariant offset <= |b|
      invariant ScanFrom(b, HEADER_BYTES, g) == (sections + ScanFrom(b, offset, g).0, ScanFrom(b, offset, g).1)
      decreases |b| - offset
    {
      ScanStep(b, offset, g);
      var parsed := ScanOne(b, offset, g);
      if parsed.None? {
        assert sections + [] == sections;
        return sections, |b| - offset;
      }
      var next := offset + SECTION_BYTES + parsed.value.length;
      assert sections + ([parsed.value] + ScanFrom(b, next, g).0) == sections + [parsed.value] + ScanFrom(b, next, g).0;
      sections := sections + [parsed.value];
      offset := next;
    }
    ScanStep(b, offset, g);
    assert sections + [] == sections;
    dropped := |b| - offset;
  }

  lemma {:induction false} ScanStep(b: seq<byte>, offset: nat, g: Codec)
    requires |b| < 0x1_0000_0000_0000_0000 && offset <= |b|
    ensures |b| - offset < SECTION_BYTES ==> ScanFrom(b, offset, g) == ([], offset)
    ensures |b| - offset >= SECTION_BYTES ==>
              match ScanOne(b, offset, g)
              case None => ScanFrom(b, offset, g) == ([], offset)
              case Some(s) =>
                var next := offset + SECTION_BYTES + s.length;
                ScanFrom(b, offset, g) == ([s] + ScanFrom(b, next, g).0, ScanFrom(b, next, g).1)
  {
    hide ScanOne;
  }

  method Directory(b: seq<byte>, directory: seq<byte>, offset: nat, count: nat) returns (l: Option<Listed>)
    requires |b| < 0x1_0000_0000_0000_0000 && 16 + count * ENTRY_BYTES <= |directory|
    ensures l == ReadEntries(b, directory, offset, count)
  {
    hide AddEntry, ReadEntry;
    var sofar := Listed([], HEADER_BYTES, {});
    for k := 0 to count
      invariant ReadEntries(b, directory, offset, k) == Some(sofar)
    {
      var next := AddEntry(b, ReadEntry(directory, 16 + k * ENTRY_BYTES), offset, sofar);
      if next.None? {
        EntriesFail(b, directory, offset, k + 1, count);
        return None;
      }
      sofar := next.value;
    }
    l := Some(sofar);
  }

  lemma {:induction false} EntriesFail(b: seq<byte>, directory: seq<byte>, offset: nat, k: nat, n: nat)
    requires |b| < 0x1_0000_0000_0000_0000 && k <= n && 16 + n * ENTRY_BYTES <= |directory|
    requires ReadEntries(b, directory, offset, k).None?
    ensures ReadEntries(b, directory, offset, n).None?
  {
    hide AddEntry, ReadEntry;
    if k < n {
      EntriesFail(b, directory, offset, k, n - 1);
    }
  }

  method ParseBytes(b: seq<byte>, useDirectory: bool, g: Codec) returns (r: Option<Container>)
    requires |b| < 0x1_0000_0000_0000_0000
    ensures r == Parse(b, useDirectory, g)
  {
    hide ReadEntries, ScanFrom, SectionAt, Checked, ParseHeader;
    var identity := ParseHeader(b);
    if identity.None? {
      return None;
    }
    if useDirectory && HasTrailer(b) {
      var offset := U64(b, |b| - 24);
      var d := SectionAt(b, offset);
      if d.None? || d.value.kind != DIRECTORY || d.value.length != |b| - offset - 48 || (d.value.flags != 0 && d.value.flags != 2)
         || !Checked(b, d.value, g) {
        return None;
      }
      var directory := PayloadOf(b, d.value);
      if |directory| < 16 {
        return None;
      }
      var count, dropped := U64(directory, 0), U64(directory, 8);
      if (d.value.flags == 0 && dropped != 0) || count > (|directory| - 16) / ENTRY_BYTES {
        return None;
      }
      var l := Directory(b, directory, offset, count);
      if l.None? || |directory| != 16 + count * ENTRY_BYTES || l.value.previous != offset {
        return None;
      }
      return Some(Container(identity.value, if d.value.flags == 0 then Complete else Incomplete, dropped,
                            Some(Fingerprint(identity.value, |b|, g.crc(directory))), l.value.sections));
    }
    HeaderFits(b);
    var sections, dropped := Scan(b, g);
    r := Some(Container(identity.value, Unfinished, dropped, None, sections));
  }

  lemma {:induction false} HeaderFits(b: seq<byte>)
    ensures ParseHeader(b).Some? ==> |b| >= HEADER_BYTES
  {
  }
}
