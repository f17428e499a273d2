/**
 * When generators are active: intervals come in any order and are merged into an ordered map from
 * (generator, begin) to end.
 */
module ActivityRanges {
  import opened ActivityStretches

  /** One entry of the map; the map is the sequence of its entries in key order. */
  datatype Range = Range(generator: nat, begin: Time, end: Time)

  /** Entry `a` comes before entry `b`, and for the same generator leaves a silent time unit between. */
  ghost predicate Separate(a: Range, b: Range) {
    a.generator < b.generator || (a.generator == b.generator && a.end + 1 < b.begin)
  }

  ghost predicate Merged(ranges: seq<Range>) {
    && (forall k :: 0 <= k < |ranges| ==> ranges[k].begin <= ranges[k].end)
    && forall j, k :: 0 <= j < k < |ranges| ==> Separate(ranges[j], ranges[k])
  }

  ghost predicate Within(r: Range, generator: nat, t: Time) {
    r.generator == generator && r.begin <= t <= r.end
  }

  /** The generator is active at `t`. */
  ghost predicate ActiveAt(ranges: seq<Range>, generator: nat, t: Time) {
    exists k :: 0 <= k < |ranges| && Within(ranges[k], generator, t)
  }

  predicate Above(r: Range, generator: nat, begin: Time) {
    r.generator > generator || (r.generator == generator && r.begin > begin)
  }

  /** `std::map::upper_bound`: the first entry with a greater key. */
  method UpperBound(ranges: seq<Range>, generator: nat, begin: Time) returns (i: nat)
    requires Merged(ranges)
    ensures i <= |ranges|
    ensures forall k :: 0 <= k < i ==> !Above(ranges[k], generator, begin)
    ensures forall k :: i <= k < |ranges| ==> Above(ranges[k], generator, begin)
  {
    i := 0;
    while i < |ranges| && !Above(ranges[i], generator, begin)
      invariant i <= |ranges|
      invariant forall k :: 0 <= k < i ==> !Above(ranges[k], generator, begin)
    {
      i := i + 1;
    }
    forall k | i <= k < |ranges|
      ensures Above(ranges[k], generator, begin)
    {
      assert i < k ==> Separate(ranges[i], ranges[k]);
    }
  }

  /** The entries from `low` up to `high` give way to one. */
  function Spliced(ranges: seq<Range>, low: nat, high: nat, r: Range): seq<Range>
    requires low <= high <= |ranges|
  {
    ranges[..low] + [r] + ranges[high..]
  }

  /** What must hold of the entry that takes their place. */
  ghost predicate Absorbs(ranges: seq<Range>, low: nat, high: nat, generator: nat, begin: Time, end: Time, r: Range)
    requires low <= high <= |ranges|
  {
    && r.generator == generator && r.begin <= begin <= end <= r.end
    && (forall k :: low <= k < high ==> ranges[k].generator == generator && r.begin <= ranges[k].begin && ranges[k].end <= r.end)
    && (forall k :: 0 <= k < low ==> Separate(ranges[k], r))
    && (forall k :: high <= k < |ranges| ==> Separate(r, ranges[k]))
    && forall t: Time :: r.begin <= t <= r.end ==> begin <= t <= end || InSome(ranges, low, high, t)
  }

  ghost predicate InSome(ranges: seq<Range>, low: nat, high: nat, t: Time)
    requires low <= high <= |ranges|
  {
    exists k :: low <= k < high && ranges[k].begin <= t <= ranges[k].end
  }

  lemma {:induction false} SpliceKeeps(ranges: seq<Range>, low: nat, high: nat, generator: nat, begin: Time, end: Time, r: Range)
    requires Merged(ranges) && low <= high <= |ranges| && Absorbs(ranges, low, high, generator, begin, end, r)
    ensures Merged(Spliced(ranges, low, high, r))
    ensures forall g: nat, t: Time :: ActiveAt(Spliced(ranges, low, high, r), g, t) <==>
              ActiveAt(ranges, g, t) || (g == generator && begin <= t <= end)
  {
    var ranges' := Spliced(ranges, low, high, r);
    forall j, k | 0 <= j < k < |ranges'|
      ensures Separate(ranges'[j], ranges'[k])
    {
      SplicedSeparate(ranges, low, high, generator, begin, end, r, j, k);
    }
    forall g: nat, t: Time
      ensures ActiveAt(ranges', g, t) <==> ActiveAt(ranges, g, t) || (g == generator && begin <= t <= end)
    {
      SplicedCovers(ranges, low, high, generator, begin, end, r, g, t);
    }
  }

  lemma {:induction false} SplicedSeparate(ranges: seq<Range>, low: nat, high: nat, generator: nat, begin: Time, end: Time, r: Range, j: nat, k: nat)
    requires Merged(ranges) && low <= high <= |ranges| && Absorbs(ranges, low, high, generator, begin, end, r)
    requires j < k < |Spliced(ranges, low, high, r)|
    ensures Separate(Spliced(ranges, low, high, r)[j], Spliced(ranges, low, high, r)[k])
  {
    var ranges' := Spliced(ranges, low, high, r);
    var from := if j < low then j else j - low - 1 + high;
    var to := if k < low then k else k - low - 1 + high;
    assert j != low ==> ranges'[j] == ranges[from];
    assert k != low ==> ranges'[k] == ranges[to];
    assert j != low && k != low ==> Separate(ranges[from], ranges[to]);
  }

  lemma {:induction false} SplicedCovers(ranges: seq<Range>, low: nat, high: nat, generator: nat, begin: Time, end: Time, r: Range, g: nat, t: Time)
    requires Merged(ranges) && low <= high <= |ranges| && Absorbs(ranges, low, high, generator, begin, end, r)
    ensures ActiveAt(Spliced(ranges, low, high, r), g, t) <==> ActiveAt(ranges, g, t) || (g == generator && begin <= t <= end)
  {
    var ranges' := Spliced(ranges, low, high, r);
    if ActiveAt(ranges, g, t) {
      var k :| 0 <= k < |ranges| && Within(ranges[k], g, t);
      var at := if k < low then k else if k < high then low else k - high + low + 1;
      assert Within(ranges'[at], g, t);
    }
    if g == generator && begin <= t <= end {
      assert Within(ranges'[low], g, t);
    }
    if ActiveAt(ranges', g, t) {
      SplicedCoversNoMore(ranges, low, high, generator, begin, end, r, g, t);
    }
  }

  lemma {:induction false} SplicedCoversNoMore(ranges: seq<Range>, low: nat, high: nat, generator: nat, begin: Time, end: Time, r: Range, g: nat, t: Time)
    requires Merged(ranges) && low <= high <= |ranges| && Absorbs(ranges, low, high, generator, begin, end, r)
    requires ActiveAt(Spliced(ranges, low, high, r), g, t)
    ensures ActiveAt(ranges, g, t) || (g == generator && begin <= t <= end)
  {
    var ranges' := Spliced(ranges, low, high, r);
    var k :| 0 <= k < |ranges'| && Within(ranges'[k], g, t);
    if k != low {
      assert Within(ranges[if k < low then k else k - low - 1 + high], g, t);
    } else if !(begin <= t <= end) {
      assert InSome(ranges, low, high, t);
      var m :| low <= m < high && ranges[m].begin <= t <= ranges[m].end;
      assert Within(ranges[m], g, t);
    }
  }

  class Ranges {
    var ranges: seq<Range>

    ghost predicate Valid()
      reads this
    {
      Merged(ranges)
    }

    constructor ()
      ensures Valid() && ranges == []
    {
      ranges := [];
    }

    /** Entries from index `i` on that meet or touch the interval are erased, and it grows to include them. */
    method EraseJoined(i: nat, generator: nat, begin: Time, end1: Time, ghost low: nat, ghost begin0: Time, ghost end0: Time)
      returns (end: Time, ghost high: nat)
      requires Valid() && i <= |ranges| && Joins(ranges, low, i, generator, begin0, end0, begin, end1)
      modifies this
      ensures i <= high <= |old(ranges)| && ranges == old(ranges)[..i] + old(ranges)[high..]
      ensures Joins(old(ranges), low, high, generator, begin0, end0, begin, end)
      ensures low <= high && Absorbs(old(ranges), low, high, generator, begin0, end0, Range(generator, begin, end))
    {
      hide ActiveAt, Merged, Joins, Absorbs;
      ghost var was := ranges;
      end, high := end1, i;
      while i < |ranges| && ranges[i].generator == generator && ranges[i].begin <= end + (if end != LAST then 1 else 0)
        invariant i <= high <= |was| && ranges == was[..i] + was[high..]
        invariant Joins(was, low, high, generator, begin0, end0, begin, end)
        decreases |ranges| - i
      {
        assert ranges[i] == was[high];
        JoinNext(was, low, high, generator, begin0, end0, begin, end);
        end := if end > ranges[i].end then end else ranges[i].end;
        ranges := ranges[..i] + ranges[i + 1..];
        high := high + 1;
      }
      assert i < |ranges| ==> ranges[i] == was[high];
      JoinEnds(was, low, high, generator, begin0, end0, begin, end);
    }

    /** An interval is added: it joins the entries it meets or touches. */
    method Visit(generator: nat, begin0: Time, end0: Time)
      requires Valid() && begin0 <= end0
      modifies this
      ensures Valid()
      ensures forall g: nat, t: Time :: ActiveAt(ranges, g, t) <==>
                old(ActiveAt(ranges, g, t)) || (g == generator && begin0 <= t <= end0)
    {
      hide ActiveAt, Merged, Joins, Absorbs;
      var begin: Time := begin0;
      var i := UpperBound(ranges, generator, begin);
      var joined := false;
      if i > 0 {
        var previous := ranges[i - 1];
        if previous.generator == generator && previous.end >= (if begin > 0 then begin - 1 else 0) {
          if end0 <= previous.end {
            AlreadyActive(ranges, i - 1, generator, begin, end0);
            return;
          }
          begin := previous.begin;
          joined := true;
        }
      }
      ghost var was, low := ranges, if joined then i - 1 else i;
      JoinStarts(was, i, generator, begin0, end0, joined);
      var again := UpperBound(ranges, generator, begin);
      SameBound(was, i, again, generator, begin0, begin);
      ghost var high;
      var end: Time;
      end, high := EraseJoined(again, generator, begin, end0, low, begin0, end0);
      Store(i, joined, Range(generator, begin, end));
      SpliceKeeps(was, low, high, generator, begin0, end0, Range(generator, begin, end));
      assert ranges == Spliced(was, low, high, Range(generator, begin, end));
    }

    /** `ranges[key] = end`: the entry before index `i` has the key already, or it is new there. */
    method Store(i: nat, present: bool, r: Range)
      requires i <= |ranges| && (present ==> i > 0)
      modifies this
      ensures ranges == if present then old(ranges)[i - 1 := r] else old(ranges)[..i] + [r] + old(ranges)[i..]
    {
      if present {
        ranges := ranges[i - 1 := r];
      } else {
        ranges := ranges[..i] + [r] + ranges[i..];
      }
    }
  }

  /** The interval from `begin` to `end` is what the new interval and the entries from `low` up to `high` make up. */
  ghost predicate Joins(ranges: seq<Range>, low: nat, high: nat, generator: nat, begin0: Time, end0: Time, begin: Time, end: Time) {
    && low <= high <= |ranges|
    && begin <= begin0 <= end0 <= end
    && (forall k :: low <= k < high ==> ranges[k].generator == generator && begin <= ranges[k].begin && ranges[k].end <= end)
    && (forall k :: 0 <= k < low ==> Separate(ranges[k], Range(generator, begin, end)))
    && (forall k :: high <= k < |ranges| ==> Above(ranges[k], generator, begin0))
    && forall t: Time :: begin <= t <= end ==> begin0 <= t <= end0 || InSome(ranges, low, high, t)
  }

  /** An interval inside an entry adds nothing. */
  lemma {:induction false} AlreadyActive(ranges: seq<Range>, p: nat, generator: nat, begin: Time, end: Time)
    requires Merged(ranges) && p < |ranges| && ranges[p].generator == generator && ranges[p].begin <= begin && end <= ranges[p].end
    ensures forall t: Time :: begin <= t <= end ==> ActiveAt(ranges, generator, t)
  {
    forall t: Time | begin <= t <= end
      ensures ActiveAt(ranges, generator, t)
    {
      assert Within(ranges[p], generator, t);
    }
  }

  lemma {:induction false} JoinStarts(ranges: seq<Range>, i: nat, generator: nat, begin0: Time, end0: Time, joined: bool)
    requires Merged(ranges) && i <= |ranges| && begin0 <= end0
    requires forall k :: 0 <= k < i ==> !Above(ranges[k], generator, begin0)
    requires forall k :: i <= k < |ranges| ==> Above(ranges[k], generator, begin0)
    requires joined == (i > 0 && ranges[i - 1].generator == generator && ranges[i - 1].end >= (if begin0 > 0 then begin0 - 1 else 0))
    requires joined ==> ranges[i - 1].end < end0
    ensures var low := if joined then i - 1 else i;
      low <= i && Joins(ranges, low, i, generator, begin0, end0, if joined then ranges[low].begin else begin0, end0)
  {
    var low := if joined then i - 1 else i;
    var begin := if joined then ranges[low].begin else begin0;
    forall k | 0 <= k < low
      ensures Separate(ranges[k], Range(generator, begin, end0))
    {
      assert joined ==> Separate(ranges[k], ranges[low]);
      assert !joined && k < i - 1 ==> Separate(ranges[k], ranges[i - 1]);
    }
    forall t: Time | begin <= t <= end0
      ensures begin0 <= t <= end0 || InSome(ranges, low, i, t)
    {
      assert joined && t < begin0 ==> ranges[low].begin <= t <= ranges[low].end;
    }
  }

  /** Looking again from the joined begin leads to the same place. */
  lemma {:induction false} SameBound(ranges: seq<Range>, i: nat, again: nat, generator: nat, begin0: Time, begin: Time)
    requires Merged(ranges) && i <= |ranges| && again <= |ranges| && begin <= begin0
    requires forall k :: 0 <= k < i ==> !Above(ranges[k], generator, begin0)
    requires forall k :: i <= k < |ranges| ==> Above(ranges[k], generator, begin0)
    requires forall k :: 0 <= k < again ==> !Above(ranges[k], generator, begin)
    requires forall k :: again <= k < |ranges| ==> Above(ranges[k], generator, begin)
    requires begin != begin0 ==> i > 0 && ranges[i - 1].generator == generator && ranges[i - 1].begin == begin
    ensures again == i
  {
    if i > 0 {
      NotUpTo(ranges, again, i - 1, generator, begin);
    }
    if i < |ranges| {
      NotBeyond(ranges, again, i, generator, begin);
    }
  }

  lemma {:induction false} NotUpTo(ranges: seq<Range>, again: nat, p: nat, generator: nat, begin: Time)
    requires p < |ranges| && !Above(ranges[p], generator, begin)
    requires forall k :: again <= k < |ranges| ==> Above(ranges[k], generator, begin)
    ensures again > p
  {
  }

  lemma {:induction false} NotBeyond(ranges: seq<Range>, again: nat, p: nat, generator: nat, begin: Time)
    requires again <= |ranges| && p < |ranges| && Above(ranges[p], generator, begin)
    requires forall k :: 0 <= k < again ==> !Above(ranges[k], generator, begin)
    ensures again <= p
  {
  }

  /** The next entry begins inside the interval or right after it: it joins. */
  lemma {:induction false} JoinNext(ranges: seq<Range>, low: nat, high: nat, generator: nat, begin0: Time, end0: Time, begin: Time, end: Time)
    requires Merged(ranges) && Joins(ranges, low, high, generator, begin0, end0, begin, end) && high < |ranges|
    requires ranges[high].generator == generator && ranges[high].begin <= end + (if end != LAST then 1 else 0)
    ensures Joins(ranges, low, high + 1, generator, begin0, end0, begin, if end > ranges[high].end then end else ranges[high].end)
  {
    var end' := if end > ranges[high].end then end else ranges[high].end;
    var next := high + 1;
    forall t: Time | begin <= t <= end'
      ensures begin0 <= t <= end0 || InSome(ranges, low, next, t)
    {
      if t <= end && InSome(ranges, low, high, t) {
        var k :| low <= k < high && ranges[k].begin <= t <= ranges[k].end;
        assert low <= k < next;
      } else if t > end {
        assert ranges[high].begin <= t <= ranges[high].end;
      }
    }
  }

  /** When the next entry does not join, all the rest lie apart. */
  lemma {:induction false} JoinEnds(ranges: seq<Range>, low: nat, high: nat, generator: nat, begin0: Time, end0: Time, begin: Time, end: Time)
    requires Merged(ranges) && Joins(ranges, low, high, generator, begin0, end0, begin, end)
    requires high < |ranges| ==> !(ranges[high].generator == generator && ranges[high].begin <= end + (if end != LAST then 1 else 0))
    ensures low <= high <= |ranges| && Absorbs(ranges, low, high, generator, begin0, end0, Range(generator, begin, end))
  {
    forall k | high <= k < |ranges|
      ensures Separate(Range(generator, begin, end), ranges[k])
    {
      assert Above(ranges[k], generator, begin0);
      assert high < k ==> Separate(ranges[high], ranges[k]);
    }
  }

  // ---------------------------------------------------------------- order of insertion

  /** Merged entries are determined by when which generator is active, so they do not depend on the order of the intervals. */
  lemma {:induction false} ActivityDetermines(a: seq<Range>, b: seq<Range>)
    requires Merged(a) && Merged(b)
    requires forall g: nat, t: Time :: ActiveAt(a, g, t) <==> ActiveAt(b, g, t)
    ensures a == b
  {
    if a != [] && b != [] {
      FirstIsSame(a, b);
      RestActive(a);
      RestActive(b);
      assert forall g: nat, t: Time :: ActiveAt(a[1..], g, t) <==> ActiveAt(b[1..], g, t);
      ActivityDetermines(a[1..], b[1..]);
      assert a == [a[0]] + a[1..] && b == [b[0]] + b[1..];
    } else {
      NobodyActive(a, b);
      NobodyActive(b, a);
    }
  }

  lemma {:induction false} NobodyActive(a: seq<Range>, b: seq<Range>)
    requires Merged(b) && forall g: nat, t: Time :: ActiveAt(b, g, t) ==> ActiveAt(a, g, t)
    ensures a == [] ==> b == []
  {
    if b != [] {
      assert Within(b[0], b[0].generator, b[0].begin);
      assert ActiveAt(b, b[0].generator, b[0].begin);
    }
  }

  lemma {:induction false} FirstIsSame(a: seq<Range>, b: seq<Range>)
    requires Merged(a) && Merged(b) && a != [] && b != []
    requires forall g: nat, t: Time :: ActiveAt(a, g, t) <==> ActiveAt(b, g, t)
    ensures a[0] == b[0]
  {
    FirstAtMost(a, b);
    FirstAtMost(b, a);
    FirstReaches(a, b);
    FirstReaches(b, a);
  }

  /** The first entry of `b` begins no later than that of `a`. */
  lemma {:induction false} FirstAtMost(a: seq<Range>, b: seq<Range>)
    requires Merged(a) && Merged(b) && a != [] && b != []
    requires forall g: nat, t: Time :: ActiveAt(a, g, t) ==> ActiveAt(b, g, t)
    ensures b[0].generator < a[0].generator || (b[0].generator == a[0].generator && b[0].begin <= a[0].begin)
  {
    assert Within(a[0], a[0].generator, a[0].begin);
    assert ActiveAt(b, a[0].generator, a[0].begin);
    var k :| 0 <= k < |b| && Within(b[k], a[0].generator, a[0].begin);
    assert k > 0 ==> Separate(b[0], b[k]);
  }

  lemma {:induction false} FirstReaches(a: seq<Range>, b: seq<Range>)
    requires Merged(a) && Merged(b) && a != [] && b != []
    requires a[0].generator == b[0].generator && a[0].begin == b[0].begin
    requires forall g: nat, t: Time :: ActiveAt(a, g, t) ==> ActiveAt(b, g, t)
    ensures a[0].end <= b[0].end
  {
    if a[0].end > b[0].end {
      var t: Time := b[0].end + 1;
      assert Within(a[0], a[0].generator, t);
      assert ActiveAt(a, a[0].generator, t);
      SilentAfterFirst(b);
    }
  }

  lemma {:induction false} SilentAfterFirst(b: seq<Range>)
    requires Merged(b) && b != []
    ensures b[0].end < LAST ==> !ActiveAt(b, b[0].generator, b[0].end + 1)
  {
    if b[0].end < LAST {
      var t: Time := b[0].end + 1;
      forall k | 0 <= k < |b|
        ensures !Within(b[k], b[0].generator, t)
      {
        assert k > 0 ==> Separate(b[0], b[k]);
      }
    }
  }

  lemma {:induction false} RestActive(a: seq<Range>)
    requires Merged(a) && a != []
    ensures Merged(a[1..])
    ensures forall g: nat, t: Time :: ActiveAt(a[1..], g, t) <==> ActiveAt(a, g, t) && !Within(a[0], g, t)
  {
    var rest := a[1..];
    forall j, k | 0 <= j < k < |rest|
      ensures Separate(rest[j], rest[k])
    {
      assert Separate(a[j + 1], a[k + 1]);
    }
    forall g: nat, t: Time
      ensures ActiveAt(rest, g, t) <==> ActiveAt(a, g, t) && !Within(a[0], g, t)
    {
      if ActiveAt(rest, g, t) {
        var k :| 0 <= k < |rest| && Within(rest[k], g, t);
        assert Within(a[k + 1], g, t) && Separate(a[0], a[k + 1]);
      }
      if ActiveAt(a, g, t) && !Within(a[0], g, t) {
        var k :| 0 <= k < |a| && Within(a[k], g, t);
        assert Within(rest[k - 1], g, t);
      }
    }
  }
}
