/** What a framed writer wrote is parsed back, through the directory or from any prefix of it. */
module FramingRoundTrip {
  import opened Options
  import opened Limbs
  import opened Words
  import opened Varint
  import opened Slices
  import opened Framing

  // ---------------------------------------------------------------- what was written

  datatype Part = Part(kind: u32, flags: u32, payload: seq<byte>, aux0: u64, aux1: u64, block: u64)

  function FrameOf(p: Part, g: Codec): (s: seq<byte>)
    ensures |s| == SECTION_BYTES + |p.payload|
  {
    SectionHeader(p.kind, p.flags, |p.payload|, g.crc(p.payload)) + p.payload
  }

  function Pieces(parts: seq<Part>, g: Codec): (es: seq<Entry>)
    ensures |es| == |parts| && forall i :: 0 <= i < |parts| ==> es[i] == FrameOf(parts[i], g)
  {
    seq(|parts|, i requires 0 <= i < |parts| => FrameOf(parts[i], g))
  }

  /** Where the first `i` parts end. */
  function End(parts: seq<Part>, i: nat): (n: nat)
    requires i <= |parts|
    ensures n >= HEADER_BYTES
  {
    if i == 0 then HEADER_BYTES else End(parts, i - 1) + SECTION_BYTES + |parts[i - 1].payload|
  }

  lemma {:induction false} EndGrows(parts: seq<Part>, i: nat, j: nat)
    requires i <= j <= |parts|
    ensures End(parts, i) <= End(parts, j)
  {
    if i < j {
      EndGrows(parts, i, j - 1);
    }
  }

  lemma {:induction false} EndOfMore(parts: seq<Part>, p: Part, i: nat)
    requires i <= |parts|
    ensures End(parts + [p], i) == End(parts, i)
  {
    if i > 0 {
      EndOfMore(parts, p, i - 1);
    }
  }

  /** The parts fit 64-bit offsets and are of kinds a writer accepts. */
  predicate PartOk(p: Part) {
    p.kind != 0 && p.kind != DIRECTORY && (Block(p.kind) == (p.block != 0))
  }

  predicate PartsOk(parts: seq<Part>) {
    && (forall i :: 0 <= i < |parts| ==> PartOk(parts[i]))
    && End(parts, |parts|) < 0x1_0000_0000_0000_0000
  }

  function SectionFor(parts: seq<Part>, i: nat): (s: Section)
    requires PartsOk(parts) && i < |parts|
  {
    EndGrows(parts, i + 1, |parts|);
    var p := parts[i];
    Section(p.kind, p.flags, End(parts, i), |p.payload|, p.aux0, p.aux1, p.block)
  }

  function Located(parts: seq<Part>, n: nat): (r: seq<Section>)
    requires PartsOk(parts) && n <= |parts|
    ensures |r| == n && forall i :: 0 <= i < n ==> r[i] == SectionFor(parts, i)
  {
    if n == 0 then [] else Located(parts, n - 1) + [SectionFor(parts, n - 1)]
  }

  function Image(identity: seq<byte>, parts: seq<Part>, tail: seq<byte>, g: Codec): seq<byte> {
    Header(identity) + Flat(Pieces(parts, g)) + tail
  }

  function Trailer(position: nat, length: nat): seq<byte> {
    Bytes(position, 8) + Bytes(length, 8) + TRAILER_MAGIC
  }

  /** The directory section and the trailer. */
  function Closing(directory: seq<byte>, position: nat, incomplete: bool, g: Codec): seq<byte> {
    SectionHeader(DIRECTORY, if incomplete then 2 else 0, |directory|, g.crc(directory)) + directory
    + Trailer(position, position + |directory| + 48)
  }

  function FinishedImage(identity: seq<byte>, parts: seq<Part>, incomplete: bool, dropped: nat, g: Codec): seq<byte>
    requires PartsOk(parts)
  {
    Image(identity, parts, Closing(DirectoryOf(Located(parts, |parts|), dropped), End(parts, |parts|), incomplete, g), g)
  }

  predicate IdentityOk(identity: seq<byte>) {
    |identity| == 16 && identity != NO_IDENTITY
  }

  // ---------------------------------------------------------------- the writer

  class FramedWriter {
    var output: seq<byte>
    const identity: seq<byte>
    var position: nat
    var sections: seq<Section>
    var finished: bool
    const codec: Codec
    ghost var parts: seq<Part>

    ghost predicate Valid()
      reads this
    {
      && IdentityOk(identity) && PartsOk(parts) && sections == Located(parts, |parts|)
      && (!finished ==> output == Image(identity, parts, [], codec) && position == End(parts, |parts|))
    }

    constructor (identity: seq<byte>, codec: Codec)
      requires IdentityOk(identity)
      ensures Valid() && !finished && parts == [] && this.identity == identity && this.codec == codec
    {
      this.identity := identity;
      this.codec := codec;
      output := Header(identity);
      position := HEADER_BYTES;
      sections := [];
      finished := false;
      parts := [];
      new;
      FlatOfNone();
      assert Header(identity) + [] + [] == Header(identity);
    }

    /** `section`: refused, and nothing changes, or one part more. */
    method Write(p: Part) returns (ok: bool)
      requires Valid()
      modifies this
      ensures Valid() && finished == old(finished)
      ensures ok <==> !old(finished) && PartOk(p) && old(position) + SECTION_BYTES + |p.payload| < 0x1_0000_0000_0000_0000
      ensures ok ==> parts == old(parts) + [p]
      ensures !ok ==> parts == old(parts) && output == old(output) && position == old(position) && sections == old(sections)
    {
      hide PartOk, Image, SectionHeader, Header, Flat, Pieces, IdentityOk;
      if finished {
        return false;
      }
      if !PartOk(p) {
        return false;
      }
      var next := position + SECTION_BYTES + |p.payload|;
      if next >= 0x1_0000_0000_0000_0000 {
        return false;
      }
      MorePart(identity, parts, p, codec);
      output := output + FrameOf(p, codec);
      sections := sections + [Section(p.kind, p.flags, position, |p.payload|, p.aux0, p.aux1, p.block)];
      position := next;
      parts := parts + [p];
      ok := true;
    }

    /** `finish`: the directory and the trailer, once. */
    method Finish(incomplete: bool, dropped: u64) returns (r: Option<Fingerprint>)
      requires Valid()
      modifies this`output, this`position, this`finished
      ensures Valid()
      ensures var directory := DirectoryOf(sections, dropped);
        r.Some? <==> !old(finished) && (incomplete || dropped == 0)
                     && old(position) + |directory| + 48 < 0x1_0000_0000_0000_0000
      ensures r.Some? ==> finished && output == FinishedImage(identity, parts, incomplete, dropped, codec)
                          && r.value == Fingerprint(identity, |output|, codec.crc(DirectoryOf(sections, dropped)))
      ensures r.None? ==> finished == old(finished) && output == old(output) && position == old(position)
    {
      hide SectionHeader, Header, Flat, Pieces, Entries, Located, PartsOk, Image, Bytes, Closing;
      if finished || (!incomplete && dropped != 0) {
        return None;
      }
      var directory := DirectoryFor(sections, dropped);
      var length := position + |directory| + 48;
      if length >= 0x1_0000_0000_0000_0000 {
        return None;
      }
      ImageSize(identity, parts, codec);
      ghost var before := output;
      output := output + SectionHeader(DIRECTORY, if incomplete then 2 else 0, |directory|, codec.crc(directory));
      output := output + directory;
      output := output + Bytes(position, 8);
      output := output + Bytes(length, 8);
      output := output + TRAILER_MAGIC;
      Closes(before, directory, position, length, incomplete, codec);
      Tailed(identity, parts, Closing(directory, position, incomplete, codec), codec);
      position := length;
      finished := true;
      r := Some(Fingerprint(identity, length, codec.crc(directory)));
    }
  }

  method DirectoryFor(sections: seq<Section>, dropped: u64) returns (directory: seq<byte>)
    ensures directory == DirectoryOf(sections, dropped)
  {
    hide EntryOf;
    directory := Bytes(|sections|, 8) + Bytes(dropped, 8);
    ghost var start := directory;
    FlatOfNone();
    assert start + [] == start;
    assert Entries(sections[..0]) == [];
    for i := 0 to |sections|
      invariant directory == start + Flat(Entries(sections[..i]))
    {
      assert Entries(sections[..i + 1]) == Entries(sections[..i]) + [EntryOf(sections[i])];
      FlatGrows(Entries(sections[..i]), EntryOf(sections[i]));
      assert start + Flat(Entries(sections[..i])) + EntryOf(sections[i]) == start + (Flat(Entries(sections[..i])) + EntryOf(sections[i]));
      directory := directory + EntryOf(sections[i]);
    }
    assert sections[..|sections|] == sections;
  }

  lemma {:induction false} LocatedMore(parts: seq<Part>, p: Part, n: nat)
    requires PartsOk(parts) && PartsOk(parts + [p]) && n <= |parts|
    ensures Located(parts + [p], n) == Located(parts, n)
  {
    if n > 0 {
      LocatedMore(parts, p, n - 1);
      EndOfMore(parts, p, n - 1);
    }
  }

  lemma {:induction false} MorePart(identity: seq<byte>, parts: seq<Part>, p: Part, g: Codec)
    requires PartsOk(parts) && PartOk(p) && End(parts, |parts|) + SECTION_BYTES + |p.payload| < 0x1_0000_0000_0000_0000
    ensures PartsOk(parts + [p]) && End(parts + [p], |parts| + 1) == End(parts, |parts|) + SECTION_BYTES + |p.payload|
    ensures Located(parts + [p], |parts| + 1) ==
            Located(parts, |parts|) + [Section(p.kind, p.flags, End(parts, |parts|), |p.payload|, p.aux0, p.aux1, p.block)]
    ensures Image(identity, parts + [p], [], g) == Image(identity, parts, [], g) + FrameOf(p, g)
  {
    hide FrameOf, Header, Flat, PartOk;
    EndOfMore(parts, p, |parts|);
    LocatedMore(parts, p, |parts|);
    assert Pieces(parts + [p], g) == Pieces(parts, g) + [FrameOf(p, g)];
    FlatGrows(Pieces(parts, g), FrameOf(p, g));
    var h, f, e := Header(identity), Flat(Pieces(parts, g)), FrameOf(p, g);
    assert h + (f + e) + [] == h + f + [] + e;
  }

  lemma {:induction false} Tailed(identity: seq<byte>, parts: seq<Part>, tail: seq<byte>, g: Codec)
    ensures Image(identity, parts, [], g) + tail == Image(identity, parts, tail, g)
  {
    hide Header, Flat, Pieces;
    assert Header(identity) + Flat(Pieces(parts, g)) + [] == Header(identity) + Flat(Pieces(parts, g));
  }

  lemma {:induction false} Closes(before: seq<byte>, directory: seq<byte>, position: nat, length: nat, incomplete: bool, g: Codec)
    requires length == position + |directory| + 48
    ensures before + SectionHeader(DIRECTORY, if incomplete then 2 else 0, |directory|, g.crc(directory)) + directory + Bytes(position, 8)
            + Bytes(length, 8) + TRAILER_MAGIC == before + Closing(directory, position, incomplete, g)
    ensures |Closing(directory, position, incomplete, g)| == |directory| + 48
  {
    hide SectionHeader;
    var a, b, c, m := SectionHeader(DIRECTORY, if incomplete then 2 else 0, |directory|, g.crc(directory)), Bytes(position, 8), Bytes(length, 8), TRAILER_MAGIC;
    assert before + a + directory + b + c + m == before + (a + directory + (b + c + m));
  }

  // ---------------------------------------------------------------- sizes

  lemma {:induction false} FlatEnd(parts: seq<Part>, g: Codec, i: nat)
    requires i <= |parts|
    ensures |Flat(Pieces(parts, g)[..i])| + HEADER_BYTES == End(parts, i)
  {
    hide FrameOf;
    var es := Pieces(parts, g);
    if i > 0 {
      FlatEnd(parts, g, i - 1);
      PieceAt(es, i - 1);
    } else {
      FlatOfNone();
      assert es[..0] == [];
    }
  }

  lemma {:induction false} ImageSize(identity: seq<byte>, parts: seq<Part>, g: Codec)
    requires |identity| == 16
    ensures |Header(identity)| == HEADER_BYTES
    ensures |Image(identity, parts, [], g)| == End(parts, |parts|)
  {
    hide Flat;
    FlatEnd(parts, g, |parts|);
    assert Pieces(parts, g)[..|parts|] == Pieces(parts, g);
  }

  /** The bytes of part `i` in the image, whatever follows. */
  lemma {:induction false} PartBytes(identity: seq<byte>, parts: seq<Part>, tail: seq<byte>, g: Codec, i: nat)
    requires |identity| == 16 && i < |parts|
    ensures var b := Image(identity, parts, tail, g);
      End(parts, i + 1) <= |b| && b[End(parts, i)..End(parts, i + 1)] == FrameOf(parts[i], g)
  {
    hide Flat, FrameOf, Header;
    var es := Pieces(parts, g);
    PieceAt(es, i);
    FlatEnd(parts, g, i);
    FlatEnd(parts, g, i + 1);
    ImageSize(identity, parts, g);
    InTheMiddle(Header(identity), Flat(es), tail, |Flat(es[..i])|, |Flat(es[..i + 1])|);
  }

  lemma {:induction false} InTheMiddle(a: seq<byte>, b: seq<byte>, d: seq<byte>, i: nat, j: nat)
    requires i <= j <= |b|
    ensures (a + b + d)[|a| + i..|a| + j] == b[i..j]
  {
  }
}
