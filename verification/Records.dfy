/** Located records: which are valid, which a query selects, and the bounds by which whole segments are passed over. */
module Records {
  import opened Options
  import opened Words
  import opened Varint

  datatype RecordKind = Transaction | Clock | Event | Stage | Log | EmbeddedEvent | EmbeddedStage

  datatype Generator = Generator(id: u32, kind: RecordKind, payloadType: nat)

  /** A record; only logs name a datatype of their own. */
  datatype Record = Record(datatype_: Option<nat>, id: u64, generator: u32, begin: u64, end: u64, parent: u64, payload: seq<byte>)

  predicate LocatedKind(kind: RecordKind) {
    kind.Event? || kind.Stage? || kind.Log?
  }

  /** `valid_record`. */
  predicate ValidRecord(r: Record, kind: RecordKind) {
    && r.id != 0 && r.parent < r.id && LocatedKind(kind)
    && (!kind.Log? ==> r.parent != 0)
    && r.begin <= r.end && (!kind.Stage? ==> r.begin == r.end)
  }

  /** `Generators::payload_type`. */
  function PayloadType(g: Generator, selection: Option<nat>): Option<nat> {
    match (g.kind, selection)
    case (Log, Some(id)) => Some(id)
    case (Log, None) => None
    case (_, None) => Some(g.payloadType)
    case (_, Some(_)) => None
  }

  // ---------------------------------------------------------------- queries

  datatype Query = Query(datatype_: Option<nat>, generator: Option<u32>, parent: Option<u64>, id: Option<u64>, kind: Option<RecordKind>,
                         begin: u64, end: u64, includeLogs: bool)

  const EVERYTHING: Query := Query(None, None, None, None, None, 0, 0xFFFF_FFFF_FFFF_FFFF, true)

  /** The record lies in the window: an instant within it, or an interval that meets it. */
  predicate MeetsWindow(begin: u64, end: u64, q: Query) {
    begin <= q.end && if begin == end then begin >= q.begin else end > q.begin
  }

  predicate RowSelected(r: Record, q: Query) {
    MeetsWindow(r.begin, r.end, q) && (q.parent.Some? ==> q.parent.value == r.parent) && (q.id.Some? ==> q.id.value == r.id)
  }

  /** What can be told from the generator and the datatype alone. */
  predicate SourceSelected(g: Generator, datatype_: nat, q: Query) {
    && (q.datatype_.Some? ==> q.datatype_.value == datatype_)
    && (q.generator.Some? ==> q.generator.value == g.id)
    && (q.includeLogs || !g.kind.Log?)
    && (q.kind.Some? ==> q.kind.value == g.kind)
  }

  predicate Selected(r: Record, g: Generator, datatype_: nat, q: Query) {
    SourceSelected(g, datatype_, q) && RowSelected(r, q)
  }

  /** When something is going on: at its instant, or at each time before its end. */
  predicate ActiveAt(r: Record, t: nat) {
    if r.begin == r.end then t == r.begin else r.begin <= t < r.end
  }

  /** What a caller asks for: the record's source, parent and number, and that it is active some time in the window. */
  ghost predicate AskedFor(r: Record, g: Generator, q: Query) {
    && (q.datatype_.Some? ==> if g.kind.Log? then r.datatype_ == q.datatype_ else g.payloadType == q.datatype_.value)
    && (q.generator.Some? ==> r.generator == q.generator.value)
    && (q.kind.Some? ==> g.kind == q.kind.value)
    && (g.kind.Log? ==> q.includeLogs)
    && (q.parent.Some? ==> r.parent == q.parent.value)
    && (q.id.Some? ==> r.id == q.id.value)
    && exists t: nat :: q.begin <= t <= q.end && ActiveAt(r, t)
  }

  /** Two comparisons tell whether there is such a time. */
  lemma {:induction false} WindowIsActivity(r: Record, q: Query)
    requires r.begin <= r.end && q.begin <= q.end
    ensures MeetsWindow(r.begin, r.end, q) <==> exists t: nat :: q.begin <= t <= q.end && ActiveAt(r, t)
  {
    if MeetsWindow(r.begin, r.end, q) {
      assert ActiveAt(r, if r.begin >= q.begin then r.begin else q.begin);
    }
  }

  lemma {:induction false} SelectedIsAsked(r: Record, g: Generator, datatype_: nat, q: Query)
    requires r.begin <= r.end && q.begin <= q.end && r.generator == g.id && PayloadType(g, r.datatype_) == Some(datatype_)
    ensures Selected(r, g, datatype_, q) <==> AskedFor(r, g, q)
  {
    hide MeetsWindow, ActiveAt;
    WindowIsActivity(r, q);
  }

  function Filter(rs: seq<Record>, g: Generator, datatype_: nat, q: Query): seq<Record> {
    if rs == [] then [] else
      Filter(rs[..|rs| - 1], g, datatype_, q) + if Selected(rs[|rs| - 1], g, datatype_, q) then [rs[|rs| - 1]] else []
  }

  lemma {:induction false} FilterAdds(a: seq<Record>, b: seq<Record>, g: Generator, datatype_: nat, q: Query)
    ensures Filter(a + b, g, datatype_, q) == Filter(a, g, datatype_, q) + Filter(b, g, datatype_, q)
    decreases |b|
  {
    hide Selected;
    if b == [] {
      assert a + b == a;
    } else {
      var n := |b| - 1;
      assert (a + b)[..|a + b| - 1] == a + b[..n] && (a + b)[|a + b| - 1] == b[n];
      FilterAdds(a, b[..n], g, datatype_, q);
      var last := if Selected(b[n], g, datatype_, q) then [b[n]] else [];
      assert Filter(a, g, datatype_, q) + (Filter(b[..n], g, datatype_, q) + last)
          == Filter(a, g, datatype_, q) + Filter(b[..n], g, datatype_, q) + last;
    }
  }

  lemma {:induction false} FilterOfNone(rs: seq<Record>, g: Generator, datatype_: nat, q: Query)
    requires forall i :: 0 <= i < |rs| ==> !Selected(rs[i], g, datatype_, q)
    ensures Filter(rs, g, datatype_, q) == []
  {
    hide Selected;
    if rs != [] {
      FilterOfNone(rs[..|rs| - 1], g, datatype_, q);
    }
  }

  /** A query for everything selects every valid record. */
  lemma {:induction false} EverythingSelected(rs: seq<Record>, g: Generator, datatype_: nat)
    requires forall i :: 0 <= i < |rs| ==> ValidRecord(rs[i], g.kind)
    ensures Filter(rs, g, datatype_, EVERYTHING) == rs
  {
    if rs != [] {
      EverythingSelected(rs[..|rs| - 1], g, datatype_);
      assert Selected(rs[|rs| - 1], g, datatype_, EVERYTHING);
    }
  }

  // ---------------------------------------------------------------- bounds

  datatype Bounds = Bounds(count: nat, minId: u64, maxId: u64, minParent: u64, maxParent: u64, begin: u64, end: u64)

  const NO_BOUNDS: Bounds := Bounds(0, 0xFFFF_FFFF_FFFF_FFFF, 0, 0xFFFF_FFFF_FFFF_FFFF, 0, 0xFFFF_FFFF_FFFF_FFFF, 0)

  function Min(a: u64, b: u64): u64 {
    if a <= b then a else b
  }

  function Max(a: u64, b: u64): u64 {
    if a >= b then a else b
  }

  function AddBounds(b: Bounds, r: Record): Bounds {
    Bounds(b.count + 1, Min(b.minId, r.id), Max(b.maxId, r.id),
           if r.parent != 0 then Min(b.minParent, r.parent) else b.minParent,
           if r.parent != 0 then Max(b.maxParent, r.parent) else b.maxParent,
           Min(b.begin, r.begin), Max(b.end, r.end))
  }

  function BoundsOf(rs: seq<Record>): Bounds {
    if rs == [] then NO_BOUNDS else AddBounds(BoundsOf(rs[..|rs| - 1]), rs[|rs| - 1])
  }

  function ParentMin(b: Bounds): u64 {
    if b.maxParent == 0 then 0 else b.minParent
  }

  datatype SegmentHeader = SegmentHeader(selection: Option<nat>, generator: u32, page: nat, count: nat, rawOffset: nat, rawLength: nat,
                                         minId: u64, maxId: u64, minParent: u64, maxParent: u64, begin: u64, end: u64)

  /** `Bounds::matches`. */
  predicate BoundsMatch(b: Bounds, h: SegmentHeader) {
    && b.count == h.count && b.minId == h.minId && b.maxId == h.maxId && ParentMin(b) == h.minParent && b.maxParent == h.maxParent
    && b.begin == h.begin && b.end == h.end
  }

  /** `query_with_pages`: nothing in this segment can be selected. */
  predicate PassedOver(h: SegmentHeader, g: Generator, datatype_: nat, q: Query) {
    || (q.datatype_.Some? && q.datatype_.value != datatype_)
    || (q.generator.Some? && q.generator.value != h.generator)
    || (!q.includeLogs && g.kind.Log?)
    || (q.kind.Some? && q.kind.value != g.kind)
    || (q.id.Some? && (q.id.value < h.minId || q.id.value > h.maxId))
    || (q.parent.Some? && q.parent.value != 0 && (q.parent.value < h.minParent || q.parent.value > h.maxParent))
    || q.end < h.begin || q.begin > h.end
  }

  lemma {:induction false} BoundsHold(rs: seq<Record>, i: nat)
    requires i < |rs|
    ensures var b, r := BoundsOf(rs), rs[i];
      && b.minId <= r.id <= b.maxId && b.begin <= r.begin && r.end <= b.end
      && (r.parent != 0 ==> b.minParent <= r.parent <= b.maxParent)
    decreases |rs|
  {
    if i < |rs| - 1 {
      BoundsHold(rs[..|rs| - 1], i);
    }
  }

  /** Passing over a segment by its bounds never drops a record that the query selects. */
  lemma {:induction false} PruningIsSafe(rs: seq<Record>, h: SegmentHeader, g: Generator, datatype_: nat, q: Query)
    requires BoundsMatch(BoundsOf(rs), h) && h.generator == g.id && PassedOver(h, g, datatype_, q)
    requires forall i :: 0 <= i < |rs| ==> ValidRecord(rs[i], g.kind)
    ensures Filter(rs, g, datatype_, q) == []
  {
    hide BoundsOf;
    forall i | 0 <= i < |rs|
      ensures !Selected(rs[i], g, datatype_, q)
    {
      BoundsHold(rs, i);
      assert ValidRecord(rs[i], g.kind);
    }
    FilterOfNone(rs, g, datatype_, q);
  }

  /** The bounds of records are themselves in order, and there is no parent exactly when the least is zero. */
  lemma {:induction false} BoundsInOrder(rs: seq<Record>, kind: RecordKind)
    requires rs != [] && forall i :: 0 <= i < |rs| ==> ValidRecord(rs[i], kind)
    ensures var b := BoundsOf(rs);
      && b.count == |rs| && 0 < b.minId <= b.maxId && b.begin <= b.end && ParentMin(b) <= b.maxParent
      && (ParentMin(b) == 0 ==> b.maxParent == 0) && (!kind.Log? ==> ParentMin(b) != 0)
      && (b.maxParent != 0 ==> 0 < b.minParent <= b.maxParent) && (b.maxParent == 0 ==> b.minParent == NO_BOUNDS.minParent)
  {
    assert ValidRecord(rs[|rs| - 1], kind);
    if |rs| > 1 {
      BoundsInOrder(rs[..|rs| - 1], kind);
    } else {
      assert rs[..0] == [];
      assert BoundsOf(rs[..0]) == NO_BOUNDS;
    }
  }
}
