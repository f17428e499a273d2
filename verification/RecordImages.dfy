/** Blocks of records in bytes: headers of numbers and compressed pages, written and opened again. */
module RecordImages {
  import opened Options
  import opened Limbs
  import opened Words
  import opened Varint
  import opened Slices
  import opened ColumnPacking
  import opened Datatypes
  import opened Records
  import opened RecordGroups
  import RecordPieces
  import opened RecordBlocks
  import opened RecordEncoding
  import opened RecordQueries

  // ---------------------------------------------------------------- numbers of a given width

  datatype Number = Number(value: nat, width: nat)

  function Widths(ns: seq<Number>): (ws: seq<nat>)
    ensures |ws| == |ns| && forall i :: 0 <= i < |ns| ==> ws[i] == ns[i].width
  {
    seq(|ns|, i requires 0 <= i < |ns| => ns[i].width)
  }

  function Values(ns: seq<Number>): (vs: seq<nat>)
    ensures |vs| == |ns| && forall i :: 0 <= i < |ns| ==> vs[i] == ns[i].value
  {
    seq(|ns|, i requires 0 <= i < |ns| => ns[i].value)
  }

  predicate Fits(n: Number) {
    (n.width == 4 && n.value < 0x1_0000_0000) || (n.width == 8 && n.value < 0x1_0000_0000_0000_0000)
  }

  predicate AllFit(ns: seq<Number>) {
    forall i :: 0 <= i < |ns| ==> Fits(ns[i])
  }

  /** The numbers one after the other, each with its low byte first. */
  function Put(ns: seq<Number>): seq<byte> {
    if ns == [] then [] else Put(ns[..|ns| - 1]) + Limbs.Bytes(ns[|ns| - 1].value, ns[|ns| - 1].width)
  }

  /** Numbers of these widths, and what is left. */
  function Take(s: seq<byte>, widths: seq<nat>): (r: Option<(seq<nat>, seq<byte>)>)
    requires forall i :: 0 <= i < |widths| ==> widths[i] <= 8
    ensures r.Some? ==> |r.value.0| == |widths| && forall i :: 0 <= i < |widths| && widths[i] == 4 ==> r.value.0[i] < 0x1_0000_0000
    ensures r.Some? ==> forall i :: 0 <= i < |widths| ==> r.value.0[i] < 0x1_0000_0000_0000_0000
  {
    if widths == [] then Some(([], s)) else
      match Take(s, widths[..|widths| - 1])
      case None => None
      case Some((values, rest)) =>
        var w := widths[|widths| - 1];
        if w > |rest| then None else
          WordIsSmall(rest[..w]);
          Some((values + [Word(rest[..w])], rest[w..]))
  }

  lemma {:induction false} WordIsSmall(s: seq<byte>)
    requires |s| <= 8
    ensures |s| == 4 ==> Word(s) < 0x1_0000_0000
  {
    if |s| == 4 {
      LeBound(s);
      PowFour();
    }
  }

  lemma {:induction false} TakesBack(ns: seq<Number>, rest: seq<byte>)
    requires AllFit(ns)
    ensures Take(Put(ns) + rest, Widths(ns)) == Some((Values(ns), rest))
  {
    hide Limbs.Bytes;
    if ns == [] {
      assert [] + rest == rest;
    } else {
      var front, last := ns[..|ns| - 1], ns[|ns| - 1];
      var bytes := Limbs.Bytes(last.value, last.width);
      assert Put(front) + bytes + rest == Put(front) + (bytes + rest);
      TakesBack(front, bytes + rest);
      assert Widths(ns)[..|ns| - 1] == Widths(front);
      assert Fits(last);
      BytesBack(last.value, last.width);
      assert (bytes + rest)[..last.width] == bytes && (bytes + rest)[last.width..] == rest;
      assert Values(ns) == Values(front) + [last.value];
    }
  }

  function Width(ns: seq<Number>): nat {
    if ns == [] then 0 else Width(ns[..|ns| - 1]) + ns[|ns| - 1].width
  }

  lemma {:induction false} PutSize(ns: seq<Number>)
    ensures |Put(ns)| == Width(ns)
  {
    if ns != [] {
      PutSize(ns[..|ns| - 1]);
    }
  }

  lemma {:induction false} WidthAdds(a: seq<Number>, b: seq<Number>)
    ensures Width(a + b) == Width(a) + Width(b)
    decreases |b|
  {
    if b == [] {
      assert a + b == a;
    } else {
      assert (a + b)[..|a + b| - 1] == a + b[..|b| - 1];
      WidthAdds(a, b[..|b| - 1]);
    }
  }

  // ---------------------------------------------------------------- segments

  const SEGMENT_WIDTHS: seq<nat> := [4, 4, 4, 4, 8, 8, 8, 8, 8, 8]

  function Rest(h: SegmentHeader): (ns: seq<Number>)
    ensures Widths(ns) == SEGMENT_WIDTHS
  {
    [Number(h.page, 4), Number(h.count, 4), Number(h.rawOffset, 4), Number(h.rawLength, 4), Number(h.minId, 8), Number(h.maxId, 8),
     Number(h.minParent, 8), Number(h.maxParent, 8), Number(h.begin, 8), Number(h.end, 8)]
  }

  /** Only logs name a datatype. */
  function Selected(h: SegmentHeader): seq<Number> {
    match h.selection
    case None => []
    case Some(id) => [Number(id, 4)]
  }

  function SegmentBytes(h: SegmentHeader): seq<byte> {
    Put([Number(h.generator, 4)]) + Put(Selected(h)) + Put(Rest(h))
  }

  function SegmentsBytes(hs: seq<SegmentHeader>): seq<byte> {
    if hs == [] then [] else SegmentsBytes(hs[..|hs| - 1]) + SegmentBytes(hs[|hs| - 1])
  }

  function HeaderOf(selection: Option<nat>, generator: u32, v: seq<nat>): SegmentHeader
    requires |v| == 10 && forall i :: 0 <= i < 10 ==> v[i] < 0x1_0000_0000_0000_0000
  {
    SegmentHeader(selection, generator, v[0], v[1], v[2], v[3], v[4], v[5], v[6], v[7], v[8], v[9])
  }

  /** One segment header, when its numbers are in order. */
  function ReadSegment(s: seq<byte>, pages: nat, types: seq<Datatype>, gens: Generators): Option<(SegmentHeader, seq<byte>)> {
    match Take(s, [4])
    case None => None
    case Some((g, s)) =>
      var generator: u32 := g[0];
      if generator !in gens then None else
        match Take(s, if gens[generator].kind.Log? then [4] else [])
        case None => None
        case Some((selected, s)) =>
          match Take(s, SEGMENT_WIDTHS)
          case None => None
          case Some((v, rest)) =>
            var h := HeaderOf(if gens[generator].kind.Log? then Some(selected[0]) else None, generator, v);
            if HeaderAccepted(h, pages, types, gens) then Some((h, rest)) else None
  }

  function ReadSegments(s: seq<byte>, n: nat, pages: nat, types: seq<Datatype>, gens: Generators): (r: Option<(seq<SegmentHeader>, seq<byte>)>)
    ensures r.Some? ==> |r.value.0| == n
    ensures r.Some? ==> forall i :: 0 <= i < n ==> HeaderAccepted(r.value.0[i], pages, types, gens)
  {
    if n == 0 then Some(([], s)) else
      match ReadSegments(s, n - 1, pages, types, gens)
      case None => None
      case Some((hs, s)) =>
        match ReadSegment(s, pages, types, gens)
        case None => None
        case Some((h, rest)) => Some((hs + [h], rest))
  }

  // ---------------------------------------------------------------- pages

  /** Compression: what a page becomes, and what a piece of bytes with an expected length unpacks to. */
  datatype Packer = Packer(pack: seq<byte> -> seq<byte>, unpack: (seq<byte>, nat) -> Option<seq<byte>>)

  /** What is packed is not nothing, and unpacks to itself. */
  ghost predicate PackerOk(k: Packer) {
    forall raw: seq<byte> :: 0 < |raw| < MAX_BLOCK_BYTES ==> k.pack(raw) != [] && k.unpack(k.pack(raw), |raw|) == Some(raw)
  }

  datatype PageHeader = PageHeader(offset: nat, length: nat, rawLength: nat)

  function Packed(pages: seq<seq<byte>>, k: Packer): (es: seq<Entry>)
    ensures |es| == |pages| && forall i :: 0 <= i < |pages| ==> es[i] == k.pack(pages[i])
  {
    seq(|pages|, i requires 0 <= i < |pages| => k.pack(pages[i]))
  }

  /** Each page's header: where its blob begins, how long it is, and how long the page was. */
  function PageHeaders(pages: seq<seq<byte>>, k: Packer): (hs: seq<PageHeader>)
    ensures |hs| == |pages|
    ensures forall i :: 0 <= i < |pages| ==> hs[i] == PageHeader(|Flat(Packed(pages, k)[..i])|, |k.pack(pages[i])|, |pages[i]|)
  {
    seq(|pages|, i requires 0 <= i < |pages| => PageHeader(|Flat(Packed(pages, k)[..i])|, |k.pack(pages[i])|, |pages[i]|))
  }

  function PageNumbers(h: PageHeader): (ns: seq<Number>)
    ensures Widths(ns) == [4, 4, 4]
  {
    [Number(h.offset, 4), Number(h.length, 4), Number(h.rawLength, 4)]
  }

  function PagesBytes(hs: seq<PageHeader>): seq<byte> {
    if hs == [] then [] else PagesBytes(hs[..|hs| - 1]) + Put(PageNumbers(hs[|hs| - 1]))
  }

  /** Page headers without gaps between their blobs, and where the last blob ends. */
  function ReadPages(s: seq<byte>, n: nat): (r: Option<(seq<PageHeader>, nat, seq<byte>)>)
    ensures r.Some? ==> |r.value.0| == n
  {
    if n == 0 then Some(([], 0, s)) else
      match ReadPages(s, n - 1)
      case None => None
      case Some((hs, end, s)) =>
        match Take(s, [4, 4, 4])
        case None => None
        case Some((v, rest)) =>
          if v[1] == 0 || v[2] == 0 || v[0] != end || v[2] >= MAX_BLOCK_BYTES then None
          else Some((hs + [PageHeader(v[0], v[1], v[2])], end + v[1], rest))
  }

  // ---------------------------------------------------------------- a block

  function Head(block: Block): (ns: seq<Number>)
    ensures Widths(ns) == HEAD_WIDTHS
  {
    [Number(block.number, 8), Number(block.bounds.count, 8), Number(block.bounds.minId, 8), Number(block.bounds.maxId, 8),
     Number(block.bounds.begin, 8), Number(block.bounds.end, 8), Number(|block.segments|, 4), Number(|block.pages|, 4)]
  }

  const HEAD_WIDTHS: seq<nat> := [8, 8, 8, 8, 8, 8, 4, 4]

  /** The bytes of a block. */
  function Image(block: Block, k: Packer): seq<byte> {
    Put(Head(block)) + SegmentsBytes(block.segments) + PagesBytes(PageHeaders(block.pages, k)) + Flat(Packed(block.pages, k))
  }

  datatype Directory = Directory(number: u64, bounds: Bounds, segments: seq<SegmentHeader>, pages: seq<PageHeader>, blobs: seq<byte>)

  function RawLengths(hs: seq<PageHeader>): (ls: seq<nat>)
    ensures |ls| == |hs| && forall i :: 0 <= i < |hs| ==> ls[i] == hs[i].rawLength
  {
    seq(|hs|, i requires 0 <= i < |hs| => hs[i].rawLength)
  }

  /** The bounds a block keeps: those of the parents are known by segment only. */
  function Kept(b: Bounds): Bounds {
    b.(minParent := 0, maxParent := 0)
  }

  /** `RecordBlockView::new`. */
  function Open(s: seq<byte>, types: seq<Datatype>, gens: Generators): Option<Directory> {
    match Take(s, HEAD_WIDTHS)
    case None => None
    case Some((v, s)) =>
      if v[0] == 0 || v[1] == 0 || v[2] == 0 || v[2] > v[3] || v[4] > v[5] then None
      else if v[6] == 0 || v[7] == 0 || v[6] > |s| / 68 then None else
        match ReadSegments(s, v[6], v[7], types, gens)
        case None => None
        case Some((segments, s)) =>
          if v[7] > |s| / 12 then None else
            match ReadPages(s, v[7])
            case None => None
            case Some((pages, end, blobs)) =>
              var bounds := Bounds(v[1], v[2], v[3], 0, 0, v[4], v[5]);
              if end != |blobs| || !Partitions(segments, RawLengths(pages)) || Rows(segments) != bounds.count || !BoundsAreOf(bounds, segments)
              then None else Some(Directory(v[0], bounds, segments, pages, blobs))
  }

  /** `read_page`. */
  function ReadPage(d: Directory, p: nat, k: Packer): Option<seq<byte>>
    requires p < |d.pages| && d.pages[p].offset + d.pages[p].length <= |d.blobs|
  {
    k.unpack(d.blobs[d.pages[p].offset..d.pages[p].offset + d.pages[p].length], d.pages[p].rawLength)
  }

  // ---------------------------------------------------------------- whatever is accepted

  lemma {:induction false} PagesAreChain(s: seq<byte>, n: nat)
    requires ReadPages(s, n).Some?
    ensures var (hs, end, _) := ReadPages(s, n).value;
      && (forall p :: 0 <= p < n ==> hs[p].offset + hs[p].length <= end && hs[p].length > 0 && 0 < hs[p].rawLength < MAX_BLOCK_BYTES)
      && (forall p :: 0 <= p < n ==> hs[p].offset == if p == 0 then 0 else hs[p - 1].offset + hs[p - 1].length)
      && end == (if n == 0 then 0 else hs[n - 1].offset + hs[n - 1].length)
  {
    hide Take;
    if n > 0 {
      PagesAreChain(s, n - 1);
    }
  }

  predicate InPage(h: SegmentHeader, pages: seq<PageHeader>) {
    h.page < |pages| && h.rawOffset + h.rawLength <= pages[h.page].rawLength
  }

  /** Whatever bytes open: all numbers are in order, the blobs lie without gaps up to the end, and every segment lies on its page. */
  lemma {:induction false} OpenedIsSafe(s: seq<byte>, types: seq<Datatype>, gens: Generators)
    requires Open(s, types, gens).Some?
    ensures var d := Open(s, types, gens).value;
      && Opens(d.number, d.bounds, d.segments, RawLengths(d.pages), types, gens)
      && (forall p :: 0 <= p < |d.pages| ==> d.pages[p].offset + d.pages[p].length <= |d.blobs|)
      && forall i :: 0 <= i < |d.segments| ==> InPage(d.segments[i], d.pages)
  {
    hide Take, ReadSegments, ReadPages, HeaderAccepted, Rows, BoundsAreOf, WalkPages;
    var (v, s1) := Take(s, HEAD_WIDTHS).value;
    var (segments, s2) := ReadSegments(s1, v[6], v[7], types, gens).value;
    PagesAreChain(s2, v[7]);
    var d := Open(s, types, gens).value;
    forall i | 0 <= i < |segments|
      ensures InPage(segments[i], d.pages)
    {
      OnItsPage(segments, RawLengths(d.pages), |segments|, i);
    }
  }

  lemma {:induction false} OnItsPage(segments: seq<SegmentHeader>, lengths: seq<nat>, n: nat, i: nat)
    requires i < n <= |segments| && WalkPages(segments, lengths, n).Some?
    ensures segments[i].page < |lengths| && segments[i].rawOffset + segments[i].rawLength <= lengths[segments[i].page]
  {
    if i < n - 1 {
      OnItsPage(segments, lengths, n - 1, i);
    }
  }

  // ---------------------------------------------------------------- what was written opens

  predicate HeaderFits(h: SegmentHeader) {
    AllFit(Selected(h)) && AllFit(Rest(h))
  }

  /** The blobs begin and are as long as the headers of pages can say. */
  predicate BlobsFit(pages: seq<seq<byte>>, k: Packer) {
    forall p :: 0 <= p < |pages| ==> |Flat(Packed(pages, k)[..p])| < TWO_32 && |k.pack(pages[p])| < TWO_32
  }

  lemma {:induction false} SegmentReads(h: SegmentHeader, rest: seq<byte>, pages: nat, types: seq<Datatype>, gens: Generators)
    requires HeaderAccepted(h, pages, types, gens) && HeaderFits(h)
    ensures ReadSegment(SegmentBytes(h) + rest, pages, types, gens) == Some((h, rest))
  {
    hide Take, Put, HeaderFits;
    var g, a, b := Put([Number(h.generator, 4)]), Put(Selected(h)), Put(Rest(h));
    assert SegmentBytes(h) + rest == g + (a + (b + rest));
    TakesBack([Number(h.generator, 4)], a + (b + rest));
    FitsAll(h);
    TakesBack(Selected(h), b + rest);
    TakesBack(Rest(h), rest);
    assert Widths([Number(h.generator, 4)]) == [4];
    if h.selection.Some? {
      assert Widths(Selected(h)) == [4];
    } else {
      assert Widths(Selected(h)) == [];
    }
  }

  lemma {:induction false} FitsAll(h: SegmentHeader)
    requires HeaderFits(h)
    ensures AllFit(Selected(h)) && AllFit(Rest(h))
  {
  }

  lemma {:induction false} SegmentsRead(hs: seq<SegmentHeader>, rest: seq<byte>, pages: nat, types: seq<Datatype>, gens: Generators)
    requires forall i :: 0 <= i < |hs| ==> HeaderAccepted(hs[i], pages, types, gens) && HeaderFits(hs[i])
    ensures ReadSegments(SegmentsBytes(hs) + rest, |hs|, pages, types, gens) == Some((hs, rest)) && |SegmentsBytes(hs)| >= 68 * |hs|
  {
    hide ReadSegment, SegmentBytes, HeaderAccepted, HeaderFits;
    if hs == [] {
      assert [] + rest == rest;
    } else {
      var front, last := hs[..|hs| - 1], hs[|hs| - 1];
      assert SegmentsBytes(front) + SegmentBytes(last) + rest == SegmentsBytes(front) + (SegmentBytes(last) + rest);
      SegmentsRead(front, SegmentBytes(last) + rest, pages, types, gens);
      SegmentReads(last, rest, pages, types, gens);
      SegmentSize(last);
      assert hs == front + [last];
    }
  }

  lemma {:induction false} SegmentSize(h: SegmentHeader)
    ensures |SegmentBytes(h)| >= 68
  {
    hide Put, Width;
    PutSize([Number(h.generator, 4)]);
    PutSize(Rest(h));
    var r := Rest(h);
    SameWidths(r[..4], 4);
    SameWidths(r[4..], 8);
    SameWidths([Number(h.generator, 4)], 4);
    assert r == r[..4] + r[4..];
    WidthAdds(r[..4], r[4..]);
  }

  lemma {:induction false} SameWidths(ns: seq<Number>, w: nat)
    requires forall i :: 0 <= i < |ns| ==> ns[i].width == w
    ensures Width(ns) == |ns| * w
  {
    if ns != [] {
      SameWidths(ns[..|ns| - 1], w);
      assert |ns| * w == (|ns| - 1) * w + w;
    }
  }

  lemma {:induction false} FrontOfPages(pages: seq<seq<byte>>, k: Packer, n: nat)
    requires n <= |pages|
    ensures Packed(pages[..n], k) == Packed(pages, k)[..n] && PageHeaders(pages[..n], k) == PageHeaders(pages, k)[..n]
  {
    hide Flat;
    assert forall i :: 0 <= i < n ==> Packed(pages[..n], k)[..i] == Packed(pages, k)[..i];
  }

  lemma {:induction false} PagesRead(pages: seq<seq<byte>>, k: Packer, rest: seq<byte>)
    requires PackerOk(k) && BlobsFit(pages, k) && PagesOk(pages)
    ensures ReadPages(PagesBytes(PageHeaders(pages, k)) + rest, |pages|) == Some((PageHeaders(pages, k), |Flat(Packed(pages, k))|, rest))
    ensures |PagesBytes(PageHeaders(pages, k))| == 12 * |pages|
  {
    hide Flat, Take, Put, PackerOk, PageNumbers, BlobsFit, PagesOk, ReadPages;
    var hs := PageHeaders(pages, k);
    if pages == [] {
      FlatOfNone();
      assert hs == [] && Packed(pages, k) == [] && PagesBytes(hs) + rest == rest;
      NoPages(rest);
    } else {
      var n := |pages| - 1;
      var last := Put(PageNumbers(hs[n]));
      FrontOfPages(pages, k, n);
      FrontBlobsFit(pages, k, n);
      assert PagesBytes(hs[..n]) + last + rest == PagesBytes(hs[..n]) + (last + rest);
      PagesRead(pages[..n], k, last + rest);
      PageOk(pages[n], k);
      PieceAt(Packed(pages, k), n);
      assert Packed(pages, k)[..n + 1] == Packed(pages, k);
      assert hs == hs[..n] + [hs[n]];
      LastPageRead(PagesBytes(hs) + rest, hs[..n], hs[n], rest);
    }
  }

  lemma {:induction false} NoPages(rest: seq<byte>)
    ensures ReadPages(rest, 0) == Some(([], 0, rest))
  {
  }

  lemma {:induction false} LastPageRead(s: seq<byte>, before: seq<PageHeader>, h: PageHeader, rest: seq<byte>)
    requires ReadPages(s, |before|) == Some((before, h.offset, Put(PageNumbers(h)) + rest)) && AllFit(PageNumbers(h))
    requires h.length > 0 && 0 < h.rawLength < MAX_BLOCK_BYTES
    ensures ReadPages(s, |before| + 1) == Some((before + [h], h.offset + h.length, rest)) && |Put(PageNumbers(h))| == 12
  {
    hide Take, Put, ReadPages;
    TakesBack(PageNumbers(h), rest);
    PutSize(PageNumbers(h));
    SameWidths(PageNumbers(h), 4);
    assert Values(PageNumbers(h)) == [h.offset, h.length, h.rawLength];
    PageStep(s, |before|);
  }

  lemma {:induction false} PageStep(s: seq<byte>, n: nat)
    ensures ReadPages(s, n + 1) ==
            match ReadPages(s, n)
            case None => None
            case Some((hs, end, s)) =>
              match Take(s, [4, 4, 4])
              case None => None
              case Some((v, rest)) =>
                if v[1] == 0 || v[2] == 0 || v[0] != end || v[2] >= MAX_BLOCK_BYTES then None
                else Some((hs + [PageHeader(v[0], v[1], v[2])], end + v[1], rest))
  {
    hide Take;
  }

  lemma {:induction false} FrontBlobsFit(pages: seq<seq<byte>>, k: Packer, n: nat)
    requires BlobsFit(pages, k) && PagesOk(pages) && n < |pages|
    ensures BlobsFit(pages[..n], k) && PagesOk(pages[..n]) && AllFit(PageNumbers(PageHeaders(pages, k)[n])) && 0 < |pages[n]| < MAX_BLOCK_BYTES
  {
    hide Flat;
    FrontOfPages(pages, k, n);
    forall p | 0 <= p < n
      ensures |Flat(Packed(pages[..n], k)[..p])| < TWO_32 && |k.pack(pages[..n][p])| < TWO_32
    {
      assert Packed(pages, k)[..n][..p] == Packed(pages, k)[..p];
      assert |Flat(Packed(pages, k)[..p])| < TWO_32 && |k.pack(pages[p])| < TWO_32;
    }
  }

  lemma {:induction false} PageOk(raw: seq<byte>, k: Packer)
    requires PackerOk(k) && 0 < |raw| < MAX_BLOCK_BYTES
    ensures k.pack(raw) != [] && k.unpack(k.pack(raw), |raw|) == Some(raw)
  {
  }

  /** All numbers of a block fit their places. */
  predicate NumbersFit(block: Block) {
    && block.bounds.count < 0x1_0000_0000_0000_0000 && |block.segments| < TWO_32 && |block.pages| < TWO_32
    && forall i :: 0 <= i < |block.segments| ==> HeaderFits(block.segments[i])
  }

  function DirectoryFor(block: Block, k: Packer): Directory {
    Directory(block.number, Kept(block.bounds), block.segments, PageHeaders(block.pages, k), Flat(Packed(block.pages, k)))
  }

  lemma {:induction false} FrontReads(block: Block, k: Packer)
    requires NumbersFit(block)
    requires block.number < 0x1_0000_0000_0000_0000 && block.bounds.minId <= block.bounds.maxId < 0x1_0000_0000_0000_0000
    requires block.bounds.begin <= block.bounds.end < 0x1_0000_0000_0000_0000
    ensures Take(Image(block, k), HEAD_WIDTHS) ==
            Some((Values(Head(block)), SegmentsBytes(block.segments) + (PagesBytes(PageHeaders(block.pages, k)) + Flat(Packed(block.pages, k)))))
  {
    hide Take, Put, Flat, HeaderFits;
    var pages, blobs := PagesBytes(PageHeaders(block.pages, k)), Flat(Packed(block.pages, k));
    assert Image(block, k) == Put(Head(block)) + (SegmentsBytes(block.segments) + (pages + blobs));
    TakesBack(Head(block), SegmentsBytes(block.segments) + (pages + blobs));
  }

  lemma {:induction false} HeadersRead(block: Block, types: seq<Datatype>, gens: Generators, rest: seq<byte>)
    requires Accepted(block, types, gens) && NumbersFit(block)
    ensures var s := SegmentsBytes(block.segments) + rest;
      && ReadSegments(s, |block.segments|, |block.pages|, types, gens) == Some((block.segments, rest))
      && |block.segments| <= |s| / 68
  {
    hide HeaderAccepted, HeaderFits, ReadSegments, Rows, Partitions, BoundsAreOf;
    assert |LengthsOf(block.pages)| == |block.pages|;
    SegmentsRead(block.segments, rest, |block.pages|, types, gens);
  }

  /** The bytes of a block open as that block. */
  lemma {:induction false} ImageOpens(block: Block, types: seq<Datatype>, gens: Generators, k: Packer)
    requires Accepted(block, types, gens) && NumbersFit(block) && PackerOk(k) && BlobsFit(block.pages, k)
    ensures Open(Image(block, k), types, gens) == Some(DirectoryFor(block, k))
  {
    hide Take, Put, Flat, PackerOk, BlobsFit, HeaderAccepted, HeaderFits, ReadPages, ReadSegments, Rows, Partitions, BoundsAreOf, Image;
    var pages, blobs, lengths := PagesBytes(PageHeaders(block.pages, k)), Flat(Packed(block.pages, k)), LengthsOf(block.pages);
    FrontReads(block, k);
    HeadersRead(block, types, gens, pages + blobs);
    PagesAreOk(block.pages, lengths);
    PagesRead(block.pages, k, blobs);
    assert RawLengths(PageHeaders(block.pages, k)) == lengths;
    SameBounds(block.bounds, block.segments);
  }

  lemma {:induction false} PagesAreOk(pages: seq<seq<byte>>, lengths: seq<nat>)
    requires lengths == LengthsOf(pages) && forall i :: 0 <= i < |lengths| ==> 0 < lengths[i] < MAX_BLOCK_BYTES
    ensures PagesOk(pages)
  {
    forall i | 0 <= i < |pages|
      ensures 0 < |pages[i]| < MAX_BLOCK_BYTES
    {
      assert lengths[i] == |pages[i]|;
    }
  }

  lemma {:induction false} SameBounds(b: Bounds, segments: seq<SegmentHeader>)
    ensures BoundsAreOf(b, segments) ==> BoundsAreOf(Kept(b), segments)
  {
    forall i | 0 <= i < |segments|
      ensures Encloses(b, segments[i]) == Encloses(Kept(b), segments[i])
    {
    }
  }

  /** And every page reads back. */
  lemma {:induction false} PageReadsBack(block: Block, k: Packer, p: nat)
    requires PackerOk(k) && PagesOk(block.pages) && p < |block.pages|
    ensures var d := DirectoryFor(block, k);
      && d.pages[p].offset + d.pages[p].length <= |d.blobs|
      && ReadPage(d, p, k) == Some(block.pages[p])
  {
    hide Flat, PackerOk;
    PieceAt(Packed(block.pages, k), p);
    PageOk(block.pages[p], k);
  }

  // ---------------------------------------------------------------- what is encoded can be written

  lemma {:induction false} HeaderOfChunk(h: SegmentHeader, pages: seq<seq<byte>>, b: Bucket, types: seq<Datatype>, gens: Generators, c: Context)
    requires SegmentIs(h, pages, b, types, gens, c) && HeaderAccepted(h, |pages|, types, gens) && PagesOk(pages)
    requires |pages| < TWO_32 && |types| <= TWO_32
    ensures HeaderFits(h) && h.count < MAX_BLOCK_BYTES
  {
    hide Proper, BoundsOf, BoundsMatch, RawOf, ChunkOk;
    RecordsAreFew(b, types, gens, c);
    assert 0 < |pages[h.page]| < MAX_BLOCK_BYTES;
  }

  lemma {:induction false} FewRows(segments: seq<SegmentHeader>)
    requires forall i :: 0 <= i < |segments| ==> segments[i].count < MAX_BLOCK_BYTES
    ensures Rows(segments) <= |segments| * MAX_BLOCK_BYTES
  {
    if segments != [] {
      FewRows(segments[..|segments| - 1]);
    }
  }

  /** The numbers of an encoded block fit their places in the header. */
  lemma {:induction false} EncodedFits(block: Block, chunks: seq<Bucket>, types: seq<Datatype>, gens: Generators, c: Context)
    requires Encodes(block, chunks, types, gens, c) && |chunks| < TWO_32 && |types| <= TWO_32
    ensures NumbersFit(block) && Accepted(block, types, gens)
  {
    hide SegmentIs, TilesAt, AllOf, HeaderAccepted, HeaderFits, Rows, Partitions, BoundsAreOf;
    EncodedIsAccepted(block, chunks, types, gens, c);
    PagesNotMore(block, chunks, types, gens, c);
    forall i | 0 <= i < |block.segments|
      ensures HeaderFits(block.segments[i]) && block.segments[i].count < MAX_BLOCK_BYTES
    {
      assert SegmentIs(block.segments[i], block.pages, chunks[i], types, gens, c);
      assert HeaderAccepted(block.segments[i], |LengthsOf(block.pages)|, types, gens);
      HeaderOfChunk(block.segments[i], block.pages, chunks[i], types, gens, c);
    }
    FewRows(block.segments);
  }

  lemma {:induction false} PagesNotMore(block: Block, chunks: seq<Bucket>, types: seq<Datatype>, gens: Generators, c: Context)
    requires Encodes(block, chunks, types, gens, c)
    ensures |block.pages| <= |chunks|
  {
    hide SegmentIs, TilesAt, AllOf;
    PageOfTile(block.segments, block.pages, |block.segments| - 1);
  }

  // ---------------------------------------------------------------- writing

  /** `flush_page` for every page. */
  method PackPages(pages: seq<seq<byte>>, k: Packer) returns (ok: bool, headers: seq<PageHeader>, blobs: seq<byte>)
    requires PagesOk(pages)
    ensures ok <==> BlobsFit(pages, k)
    ensures ok ==> headers == PageHeaders(pages, k) && blobs == Flat(Packed(pages, k))
  {
    hide Flat;
    headers, blobs := [], [];
    FlatOfNone();
    assert Packed(pages, k)[..0] == [] && PageHeaders(pages, k)[..0] == [];
    for p := 0 to |pages|
      invariant headers == PageHeaders(pages, k)[..p] && blobs == Flat(Packed(pages, k)[..p])
      invariant forall q :: 0 <= q < p ==> |Flat(Packed(pages, k)[..q])| < TWO_32 && |k.pack(pages[q])| < TWO_32
    {
      var packed := k.pack(pages[p]);
      if |blobs| >= TWO_32 || |packed| >= TWO_32 || |pages[p]| >= TWO_32 {
        return false, [], [];
      }
      assert Packed(pages, k)[..p + 1] == Packed(pages, k)[..p] + [packed];
      FlatGrows(Packed(pages, k)[..p], packed);
      headers := headers + [PageHeader(|blobs|, |packed|, |pages[p]|)];
      blobs := blobs + packed;
    }
    assert Packed(pages, k)[..|pages|] == Packed(pages, k);
    assert PageHeaders(pages, k)[..|pages|] == PageHeaders(pages, k);
    ok := true;
  }

  /** The headers of the segments behind what was written so far. */
  method PutSegments(front: seq<byte>, hs: seq<SegmentHeader>) returns (bytes: seq<byte>)
    ensures bytes == front + SegmentsBytes(hs)
  {
    hide SegmentBytes;
    bytes := front;
    assert hs[..0] == [] && hs[..|hs|] == hs && front + [] == front;
    for i := 0 to |hs|
      invariant bytes == front + SegmentsBytes(hs[..i])
    {
      assert hs[..i + 1][..i] == hs[..i];
      bytes := bytes + SegmentBytes(hs[i]);
    }
  }

  /** And those of the pages. */
  method PutPages(front: seq<byte>, hs: seq<PageHeader>) returns (bytes: seq<byte>)
    ensures bytes == front + PagesBytes(hs)
  {
    hide Put, PageNumbers;
    bytes := front;
    assert hs[..0] == [] && hs[..|hs|] == hs && front + [] == front;
    for p := 0 to |hs|
      invariant bytes == front + PagesBytes(hs[..p])
    {
      assert hs[..p + 1][..p] == hs[..p];
      bytes := bytes + Put(PageNumbers(hs[p]));
    }
  }

  method WriteImage(block: Block, k: Packer) returns (out: Option<seq<byte>>)
    requires PagesOk(block.pages)
    ensures out == if BlobsFit(block.pages, k) then Some(Image(block, k)) else None
  {
    hide PagesOk, BlobsFit, Flat, Put, SegmentsBytes, PagesBytes;
    var ok, headers, blobs := PackPages(block.pages, k);
    if !ok {
      return None;
    }
    var bytes := Put(Head(block));
    bytes := PutSegments(bytes, block.segments);
    bytes := PutPages(bytes, headers);
    out := Some(bytes + blobs);
  }

  /**
   * A block of records in bytes, from the records. It is too large if and only if some segment is, or there are 2^32 of them, or, laid
   * out, the packed pages begin beyond or are longer than 32 bits can say.
   */
  method EncodeImage(number: u64, types: seq<Datatype>, gens: Generators, rs: seq<Record>, pageBytes: nat, separate: bool, c: Context, k: Packer)
    returns (r: Outcome, out: seq<byte>, ghost chunks: seq<Bucket>, ghost laid: Option<Block>)
    requires Proper(types) && GeneratorsOk(gens) && |types| <= TWO_32
    ensures r.Refused? <==> number == 0 || rs == [] || pageBytes == 0 || pageBytes >= MAX_BLOCK_BYTES || !Acceptable(rs, types, gens, c)
    ensures !r.Refused? ==>
              && AllSourced(rs, gens) && RecordPieces.AllRowsOk(Ordered(BucketsOf(rs, gens), separate), types, c)
              && var pieces := RecordPieces.AllPieces(Ordered(BucketsOf(rs, gens), separate), pageBytes, types, c);
                 && (laid.None? <==> |pieces| >= TWO_32 || RecordPieces.SomeOversized(pieces, types, c))
                 && (laid.Some? ==> chunks == pieces && Encodes(laid.value, chunks, types, gens, c) && NumbersFit(laid.value))
                 && (r.TooLarge? <==> laid.None? || !BlobsFit(laid.value.pages, k))
    ensures r.Encoded? ==>
              && laid == Some(r.block) && r.block.number == number && PagesFit(r.block.segments, r.block.pages, pageBytes)
              && SameFound(chunks, Ordered(BucketsOf(rs, gens), separate)) && out == Image(r.block, k)
  {
    hide Encodes, SameFound, BlobsFit, NumbersFit, Image, Acceptable, RecordPieces.AllPieces, RecordPieces.AllRowsOk, RecordPieces.SomeOversized,
         Ordered, BucketsOf, AllSourced, Proper, GeneratorsOk, PagesOk, Accepted, PagesFit;
    r, chunks := RecordQueries.EncodeBlock(number, types, gens, rs, pageBytes, separate, c);
    out, laid := [], None;
    if r.Encoded? {
      laid := Some(r.block);
      EncodedPages(r.block, chunks, types, gens, c);
      EncodedFits(r.block, chunks, types, gens, c);
      var written := WriteImage(r.block, k);
      if written.None? {
        r := TooLarge;
        return;
      }
      out := written.value;
    }
  }

  lemma {:induction false} EncodedPages(block: Block, chunks: seq<Bucket>, types: seq<Datatype>, gens: Generators, c: Context)
    requires Encodes(block, chunks, types, gens, c)
    ensures PagesOk(block.pages)
  {
    hide LaidOut, AllOf, PagesOk;
  }

  // ---------------------------------------------------------------- opening

  /** The loop over segment headers. */
  method SegmentLoop(s: seq<byte>, n: nat, pages: nat, types: seq<Datatype>, gens: Generators) returns (r: Option<(seq<SegmentHeader>, seq<byte>)>)
    ensures r == ReadSegments(s, n, pages, types, gens)
  {
    hide ReadSegment;
    var segments, rest := [], s;
    for i := 0 to n
      invariant ReadSegments(s, i, pages, types, gens) == Some((segments, rest))
    {
      var next := ReadSegment(rest, pages, types, gens);
      if next.None? {
        SegmentsFail(s, i + 1, n, pages, types, gens);
        return None;
      }
      segments, rest := segments + [next.value.0], next.value.1;
    }
    r := Some((segments, rest));
  }

  lemma {:induction false} SegmentsFail(s: seq<byte>, i: nat, n: nat, pages: nat, types: seq<Datatype>, gens: Generators)
    requires i <= n && ReadSegments(s, i, pages, types, gens).None?
    ensures ReadSegments(s, n, pages, types, gens).None?
  {
    hide ReadSegment;
    if i < n {
      SegmentsFail(s, i, n - 1, pages, types, gens);
    }
  }

  /** The loop over page headers. */
  method PageLoop(s: seq<byte>, n: nat) returns (r: Option<(seq<PageHeader>, nat, seq<byte>)>)
    ensures r == ReadPages(s, n)
  {
    hide Take, ReadPages;
    var pages: seq<PageHeader>, end: nat, rest := [], 0, s;
    NoPages(s);
    for i := 0 to n
      invariant ReadPages(s, i) == Some((pages, end, rest))
    {
      PageStep(s, i);
      var next := Take(rest, [4, 4, 4]);
      if next.None? {
        PagesFail(s, i + 1, n);
        return None;
      }
      var (v, left) := next.value;
      if v[1] == 0 || v[2] == 0 || v[0] != end || v[2] >= MAX_BLOCK_BYTES {
        PagesFail(s, i + 1, n);
        return None;
      }
      pages, end, rest := pages + [PageHeader(v[0], v[1], v[2])], end + v[1], left;
    }
    r := Some((pages, end, rest));
  }

  lemma {:induction false} PagesFail(s: seq<byte>, i: nat, n: nat)
    requires i <= n && ReadPages(s, i).None?
    ensures ReadPages(s, n).None?
  {
    hide Take;
    if i < n {
      PagesFail(s, i, n - 1);
    }
  }

  /** The walk over the segments: each behind the one before, on its page or on the next. */
  method Walked(segments: seq<SegmentHeader>, lengths: seq<nat>) returns (ok: bool, rows: nat)
    requires lengths != [] && forall i :: 0 <= i < |segments| ==> segments[i].page < |lengths|
    ensures ok <==> Partitions(segments, lengths)
    ensures ok ==> rows == Rows(segments)
  {
    hide WalkPages;
    var page: nat, offset: nat := 0, 0;
    rows := 0;
    NothingWalked(segments, lengths);
    assert segments[..0] == [];
    for i := 0 to |segments|
      invariant page < |lengths| && WalkPages(segments, lengths, i) == Some((page, offset)) && rows == Rows(segments[..i])
    {
      WalkStep(segments, lengths, i);
      var h := segments[i];
      if h.page != page {
        if h.page != page + 1 || offset != lengths[page] {
          WalkFails(segments, lengths, i + 1, |segments|);
          return false, 0;
        }
        page, offset := page + 1, 0;
      }
      if h.rawOffset != offset {
        WalkFails(segments, lengths, i + 1, |segments|);
        return false, 0;
      }
      offset := offset + h.rawLength;
      if offset > lengths[page] {
        WalkFails(segments, lengths, i + 1, |segments|);
        return false, 0;
      }
      assert segments[..i + 1][..i] == segments[..i];
      rows := rows + h.count;
    }
    assert segments[..|segments|] == segments;
    ok := page + 1 == |lengths| && offset == lengths[page];
  }

  lemma {:induction false} NothingWalked(segments: seq<SegmentHeader>, lengths: seq<nat>)
    ensures WalkPages(segments, lengths, 0) == Some((0, 0))
  {
  }

  lemma {:induction false} WalkStep(segments: seq<SegmentHeader>, lengths: seq<nat>, i: nat)
    requires i < |segments|
    ensures WalkPages(segments, lengths, i + 1) ==
            match WalkPages(segments, lengths, i)
            case None => None
            case Some((page, offset)) =>
              var h := segments[i];
              if h.page != page && (h.page != page + 1 || page >= |lengths| || offset != lengths[page]) then None else
                var page', offset' := h.page, if h.page != page then 0 else offset;
                if page' >= |lengths| || h.rawOffset != offset' || offset' + h.rawLength > lengths[page'] then None
                else Some((page', offset' + h.rawLength))
  {
  }

  lemma {:induction false} WalkFails(segments: seq<SegmentHeader>, lengths: seq<nat>, i: nat, n: nat)
    requires i <= n <= |segments| && WalkPages(segments, lengths, i).None?
    ensures WalkPages(segments, lengths, n).None?
  {
    if i < n {
      WalkFails(segments, lengths, i, n - 1);
    }
  }

  /** `RecordBlockView::new`, step by step. */
  method OpenImage(s: seq<byte>, types: seq<Datatype>, gens: Generators) returns (d: Option<Directory>)
    ensures d == Open(s, types, gens)
  {
    hide Take, ReadSegments, ReadPages, Partitions, Rows, BoundsAreOf;
    var head := Take(s, HEAD_WIDTHS);
    if head.None? {
      return None;
    }
    var (v, rest) := head.value;
    if v[0] == 0 || v[1] == 0 || v[2] == 0 || v[2] > v[3] || v[4] > v[5] {
      return None;
    }
    if v[6] == 0 || v[7] == 0 || v[6] > |rest| / 68 {
      return None;
    }
    var segments := SegmentLoop(rest, v[6], v[7], types, gens);
    if segments.None? || v[7] > |segments.value.1| / 12 {
      return None;
    }
    var pages := PageLoop(segments.value.1, v[7]);
    if pages.None? {
      return None;
    }
    var (headers, end, blobs) := pages.value;
    if end != |blobs| {
      return None;
    }
    OnPages(rest, v[6], v[7], types, gens);
    var ok, rows := Walked(segments.value.0, RawLengths(headers));
    var bounds := Bounds(v[1], v[2], v[3], 0, 0, v[4], v[5]);
    if !ok || rows != bounds.count || !BoundsAreOf(bounds, segments.value.0) {
      return None;
    }
    d := Some(Directory(v[0], bounds, segments.value.0, headers, blobs));
  }

  lemma {:induction false} OnPages(s: seq<byte>, n: nat, pages: nat, types: seq<Datatype>, gens: Generators)
    requires ReadSegments(s, n, pages, types, gens).Some?
    ensures forall i :: 0 <= i < n ==> ReadSegments(s, n, pages, types, gens).value.0[i].page < pages
  {
    hide ReadSegments;
    var hs := ReadSegments(s, n, pages, types, gens).value.0;
    forall i | 0 <= i < n
      ensures hs[i].page < pages
    {
      assert HeaderAccepted(hs[i], pages, types, gens);
    }
  }

  // ---------------------------------------------------------------- from bytes to answers

  predicate BlobsInside(d: Directory) {
    forall p :: 0 <= p < |d.pages| ==> d.pages[p].offset + d.pages[p].length <= |d.blobs|
  }

  /** The first `n` pages, when all of them can be read. */
  function PagesOf(d: Directory, n: nat, k: Packer): Option<seq<seq<byte>>>
    requires n <= |d.pages| && BlobsInside(d)
  {
    if n == 0 then Some([]) else
      match PagesOf(d, n - 1, k)
      case None => None
      case Some(pages) =>
        match ReadPage(d, n - 1, k)
        case None => None
        case Some(page) => Some(pages + [page])
  }

  lemma {:induction false} PagesComeBack(block: Block, k: Packer, n: nat)
    requires PackerOk(k) && PagesOk(block.pages) && n <= |block.pages|
    ensures var d := DirectoryFor(block, k);
      |d.pages| == |block.pages| && BlobsInside(d) && PagesOf(d, n, k) == Some(block.pages[..n])
  {
    hide PackerOk, ReadPage, PagesOk, Flat;
    var d := DirectoryFor(block, k);
    forall p | 0 <= p < |d.pages|
      ensures d.pages[p].offset + d.pages[p].length <= |d.blobs|
    {
      PageReadsBack(block, k, p);
    }
    if n > 0 {
      PagesComeBack(block, k, n - 1);
      PageReadsBack(block, k, n - 1);
      assert block.pages[..n] == block.pages[..n - 1] + [block.pages[n - 1]];
    }
  }

  /** The bounds of the whole block play no part in a query of it. */
  lemma {:induction false} BoundsDoNotMatter(block: Block, bounds: Bounds, n: nat, types: seq<Datatype>, gens: Generators, q: Query, c: Context, limit: nat)
    requires Proper(types) && n <= |block.segments|
    ensures QueryFirst(block.(bounds := bounds), n, types, gens, q, c, limit) == QueryFirst(block, n, types, gens, q, c, limit)
  {
    hide Proper, QueryHeader;
    if n > 0 {
      BoundsDoNotMatter(block, bounds, n - 1, types, gens, q, c, limit);
    }
  }

  /** Records written to bytes: the bytes open, and what was opened answers every query with exactly the records that match. */
  lemma {:induction false} ImageAnswers(block: Block, chunks: seq<Bucket>, rs: seq<Record>, separate: bool, types: seq<Datatype>, gens: Generators,
                                        q: Query, c: Context, limit: nat, k: Packer)
    requires Proper(types) && GeneratorsOk(gens) && AllSourced(rs, gens) && SolidRecords(rs, gens, types, q)
    requires Encodes(block, chunks, types, gens, c) && SameFound(chunks, Ordered(BucketsOf(rs, gens), separate))
    requires |chunks| < TWO_32 && |types| <= TWO_32 && PackerOk(k) && BlobsFit(block.pages, k)
    requires forall i :: 0 <= i < |rs| ==> |rs[i].payload| <= limit
    requires q.begin <= q.end
    ensures Open(Image(block, k), types, gens) == Some(DirectoryFor(block, k)) && BlobsInside(DirectoryFor(block, k))
    ensures var d := DirectoryFor(block, k); var pages := PagesOf(d, |d.pages|, k);
      && pages.Some?
      && var found := FilterAll(Ordered(BucketsOf(rs, gens), separate), q);
         && QueryBlock(Block(d.number, d.bounds, d.segments, pages.value), types, gens, q, c, limit) == Some(found)
         && multiset(found) == multiset(Matching(rs, gens, q))
         && forall r: Record :: multiset(found)[r] == if r.generator in gens && AskedFor(r, gens[r.generator], q) then multiset(rs)[r] else 0
  {
    hide Proper, Encodes, SameFound, AskedFor, BucketsOf, Ordered, FilterAll, Matching, Sourced, SolidRecords, Open, Image, Accepted, NumbersFit, BlobsFit,
         PackerOk, BlobsInside, QueryFirst, PagesOk, GeneratorsOk, AllSourced;
    EncodedPages(block, chunks, types, gens, c);
    EncodedFits(block, chunks, types, gens, c);
    ImageOpens(block, types, gens, k);
    PagesComeBack(block, k, |block.pages|);
    assert block.pages[..|block.pages|] == block.pages;
    EncodedAnswers(block, chunks, rs, separate, types, gens, q, c, limit);
    BoundsDoNotMatter(block, Kept(block.bounds), |block.segments|, types, gens, q, c, limit);
    assert Block(block.number, Kept(block.bounds), block.segments, block.pages) == block.(bounds := Kept(block.bounds));
  }
}
