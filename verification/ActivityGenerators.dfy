/** The merged intervals of every generator as lists of stretches, and which generators a window shows. */
module ActivityGenerators {
  import opened ActivityStretches
  import opened ActivityRanges

  datatype Entry = Entry(generator: nat, list: seq<Stretch>)

  ghost predicate ListedAt(index: seq<Entry>, generator: nat, t: Time) {
    exists e :: 0 <= e < |index| && index[e].generator == generator && Covers(index[e].list, t)
  }

  /** One entry a generator, in order of generators, each with stretches apart. */
  ghost predicate Indexed(index: seq<Entry>) {
    && (forall e :: 0 <= e < |index| ==> index[e].list != [] && Apart(index[e].list))
    && forall d, e :: 0 <= d < e < |index| ==> index[d].generator < index[e].generator
  }

  /** The index lists exactly the first `n` ranges. */
  ghost predicate Lists(index: seq<Entry>, ranges: seq<Range>, n: nat)
    requires n <= |ranges|
  {
    && Indexed(index)
    && (forall g: nat, t: Time :: ListedAt(index, g, t) <==> ActiveAt(ranges[..n], g, t))
    && (if index == [] then n == 0 else n > 0 && EndsLike(index[|index| - 1], ranges[n - 1]))
  }

  ghost predicate EndsLike(entry: Entry, r: Range) {
    && entry.generator == r.generator && entry.list != []
    && entry.list[|entry.list| - 1] == Stretch(r.begin, r.end, 0)
  }

  /** The intervals carry no step. */
  ghost predicate Plain(list: seq<Stretch>) {
    forall k :: 0 <= k < |list| ==> list[k].gap == 0
  }

  ghost predicate AllPlain(index: seq<Entry>) {
    forall e :: 0 <= e < |index| ==> Plain(index[e].list)
  }

  /** The index with one more range. */
  function WithRange(index: seq<Entry>, r: Range): seq<Entry> {
    var grown := if index == [] || index[|index| - 1].generator != r.generator then index + [Entry(r.generator, [])] else index;
    var last := grown[|grown| - 1];
    grown[|grown| - 1 := last.(list := last.list + [Stretch(r.begin, r.end, 0)])]
  }

  /** All merged ranges, generator by generator. */
  method ByGenerator(ranges: seq<Range>) returns (index: seq<Entry>)
    requires Merged(ranges)
    ensures Indexed(index) && AllPlain(index)
    ensures forall g: nat, t: Time :: ListedAt(index, g, t) <==> ActiveAt(ranges, g, t)
  {
    hide Indexed, ListedAt, ActiveAt, WithRange, Merged;
    index := [];
    ListsNothing(ranges);
    for i := 0 to |ranges|
      invariant Lists(index, ranges, i) && AllPlain(index)
    {
      ListsOn(index, ranges, i);
      StaysPlain(index, ranges[i]);
      index := WithRange(index, ranges[i]);
    }
    assert ranges[..|ranges|] == ranges;
  }

  lemma {:induction false} StaysPlain(index: seq<Entry>, r: Range)
    requires AllPlain(index)
    ensures AllPlain(WithRange(index, r))
  {
  }

  lemma {:induction false} ListsNothing(ranges: seq<Range>)
    ensures Lists([], ranges, 0)
  {
  }

  lemma {:induction false} ListsOn(index: seq<Entry>, ranges: seq<Range>, i: nat)
    requires Merged(ranges) && i < |ranges| && Lists(index, ranges, i)
    ensures Lists(WithRange(index, ranges[i]), ranges, i + 1)
  {
    hide Merged, ActiveAt, ListedAt, Indexed, Apart;
    var r := ranges[i];
    var index' := WithRange(index, r);
    StaysIndexed(index, ranges, i);
    assert ranges[..i + 1] == ranges[..i] + [r];
    forall g: nat, t: Time
      ensures ListedAt(index', g, t) <==> ActiveAt(ranges[..i + 1], g, t)
    {
      OneMoreActive(ranges[..i], r, g, t);
      OneMoreListed(index, r, g, t);
    }
  }

  lemma {:induction false} OneMoreActive(ranges: seq<Range>, r: Range, g: nat, t: Time)
    ensures ActiveAt(ranges + [r], g, t) <==> ActiveAt(ranges, g, t) || Within(r, g, t)
  {
    var ranges' := ranges + [r];
    if ActiveAt(ranges, g, t) {
      var k :| 0 <= k < |ranges| && Within(ranges[k], g, t);
      assert Within(ranges'[k], g, t);
    }
    if Within(r, g, t) {
      assert Within(ranges'[|ranges|], g, t);
    }
  }

  lemma {:induction false} OneMoreCovered(list: seq<Stretch>, s: Stretch, t: Time)
    ensures Covers(list + [s], t) <==> Covers(list, t) || Holds(s, t)
  {
    var list' := list + [s];
    if Covers(list, t) {
      var k :| 0 <= k < |list| && Holds(list[k], t);
      assert Holds(list'[k], t);
    }
    if Holds(s, t) {
      assert Holds(list'[|list|], t);
    }
  }

  lemma {:induction false} OneMoreListed(index: seq<Entry>, r: Range, g: nat, t: Time)
    ensures ListedAt(WithRange(index, r), g, t) <==> ListedAt(index, g, t) || Within(r, g, t)
  {
    hide Covers;
    var index', s := WithRange(index, r), Stretch(r.begin, r.end, 0);
    var m := |index'| - 1;
    var before := if m < |index| then index[m].list else [];
    assert index'[m] == Entry(r.generator, before + [s]);
    OneMoreCovered(before, s, t);
    NothingCovers(t);
    if ListedAt(index, g, t) {
      var e :| 0 <= e < |index| && index[e].generator == g && Covers(index[e].list, t);
      assert index'[e].generator == g && Covers(index'[e].list, t);
    }
    if Within(r, g, t) {
      assert index'[m].generator == g && Covers(index'[m].list, t);
    }
    if ListedAt(index', g, t) {
      var e :| 0 <= e < |index'| && index'[e].generator == g && Covers(index'[e].list, t);
      if e < m || Covers(before, t) {
        assert index[e].generator == g && Covers(index[e].list, t);
      }
    }
  }

  lemma {:induction false} NothingCovers(t: Time)
    ensures !Covers([], t)
  {
  }

  lemma {:induction false} StaysIndexed(index: seq<Entry>, ranges: seq<Range>, i: nat)
    requires Merged(ranges) && i < |ranges| && Lists(index, ranges, i)
    ensures Indexed(WithRange(index, ranges[i]))
  {
    hide ActiveAt, ListedAt;
    var r := ranges[i];
    if index != [] {
      var last := index[|index| - 1];
      assert Separate(ranges[i - 1], r);
      if last.generator == r.generator {
        ApartAppend(last.list, Stretch(r.begin, r.end, 0));
      }
    }
  }

  lemma {:induction false} ApartAppend(list: seq<Stretch>, s: Stretch)
    requires Apart(list) && s.begin <= s.end && (list != [] ==> Before(list[|list| - 1], s))
    ensures Apart(list + [s])
  {
    var list' := list + [s];
    forall j, k | 0 <= j < k < |list'|
      ensures Before(list'[j], list'[k])
    {
      if k < |list| {
        assert Before(list[j], list[k]);
      } else {
        assert j < |list| - 1 ==> Before(list[j], list[|list| - 1]);
      }
    }
  }

  ghost predicate ActiveDuring(ranges: seq<Range>, generator: nat, begin: Time, end: Time) {
    exists t: Time :: begin <= t <= end && ActiveAt(ranges, generator, t)
  }

  /** The generators with activity in the window: exactly those some interval of which meets it. */
  method ActiveGenerators(index: seq<Entry>, ghost ranges: seq<Range>, begin: Time, end: Time) returns (result: seq<nat>)
    requires begin <= end && Indexed(index)
    requires forall g: nat, t: Time :: ListedAt(index, g, t) <==> ActiveAt(ranges, g, t)
    ensures forall g: nat :: g in result <==> ActiveDuring(ranges, g, begin, end)
    ensures forall j, k :: 0 <= j < k < |result| ==> result[j] < result[k]
  {
    hide Covers, Apart, ActiveAt, ActiveIn;
    result := [];
    for i := 0 to |index|
      invariant forall g: nat :: g in result <==> ShownBefore(index, i, g, begin, end)
      invariant forall j, k :: 0 <= j < k < |result| ==> result[j] < result[k]
      invariant forall j :: 0 <= j < |result| ==> exists e :: 0 <= e < i && index[e].generator == result[j]
    {
      var meets := Meets(index[i].list, begin, end);
      if meets {
        result := result + [index[i].generator];
      }
      forall g: nat
        ensures ShownBefore(index, i + 1, g, begin, end) <==>
                ShownBefore(index, i, g, begin, end) || (meets && index[i].generator == g)
      {
      }
    }
    forall g: nat
      ensures ShownBefore(index, |index|, g, begin, end) <==> ActiveDuring(ranges, g, begin, end)
    {
      ShownIsActive(index, ranges, g, begin, end);
    }
  }

  ghost predicate ShownBefore(index: seq<Entry>, n: nat, g: nat, begin: Time, end: Time)
    requires n <= |index|
  {
    exists e :: 0 <= e < n && index[e].generator == g && ActiveIn(index[e].list, begin, end)
  }

  lemma {:induction false} ShownIsActive(index: seq<Entry>, ranges: seq<Range>, g: nat, begin: Time, end: Time)
    requires forall g: nat, t: Time :: ListedAt(index, g, t) <==> ActiveAt(ranges, g, t)
    ensures ShownBefore(index, |index|, g, begin, end) <==> ActiveDuring(ranges, g, begin, end)
  {
    hide Covers, ActiveAt;
    if ShownBefore(index, |index|, g, begin, end) {
      var e :| 0 <= e < |index| && index[e].generator == g && ActiveIn(index[e].list, begin, end);
      var t: Time :| begin <= t <= end && Covers(index[e].list, t);
      assert ListedAt(index, g, t);
    }
    if ActiveDuring(ranges, g, begin, end) {
      var t: Time :| begin <= t <= end && ActiveAt(ranges, g, t);
      assert ListedAt(index, g, t);
      var e :| 0 <= e < |index| && index[e].generator == g && Covers(index[e].list, t);
      assert ActiveIn(index[e].list, begin, end);
    }
  }

  // ---------------------------------------------------------------- from intervals in any order to an answer

  /** The second half of `build`: all intervals merged, in the order they come. */
  method Merge(intervals: seq<Range>) returns (ranges: seq<Range>)
    requires forall i :: 0 <= i < |intervals| ==> intervals[i].begin <= intervals[i].end
    ensures Merged(ranges) && forall g: nat, t: Time :: ActiveAt(ranges, g, t) <==> ActiveAt(intervals, g, t)
  {
    hide Merged, ActiveAt;
    var all := new Ranges();
    for i := 0 to |intervals|
      invariant all.Valid() && fresh(all)
      invariant forall g: nat, t: Time :: ActiveAt(all.ranges, g, t) <==> ActiveAt(intervals[..i], g, t)
    {
      var r := intervals[i];
      assert intervals[..i + 1] == intervals[..i] + [r];
      ghost var was := all.ranges;
      all.Visit(r.generator, r.begin, r.end);
      forall g: nat, t: Time
        ensures ActiveAt(all.ranges, g, t) <==> ActiveAt(intervals[..i + 1], g, t)
      {
        OneMoreActive(intervals[..i], r, g, t);
        assert ActiveAt(all.ranges, g, t) <==> ActiveAt(was, g, t) || Within(r, g, t);
      }
    }
    assert intervals[..|intervals|] == intervals;
    ranges := all.ranges;
  }

  /** Building from any intervals and asking for a window shows exactly the generators one of whose intervals meets it. */
  method BuildAndAsk(intervals: seq<Range>, begin: Time, end: Time) returns (result: seq<nat>)
    requires begin <= end && forall i :: 0 <= i < |intervals| ==> intervals[i].begin <= intervals[i].end
    ensures forall g: nat :: g in result <==>
              exists i :: 0 <= i < |intervals| && intervals[i].generator == g && intervals[i].begin <= end && begin <= intervals[i].end
    ensures forall j, k :: 0 <= j < k < |result| ==> result[j] < result[k]
  {
    hide Merged, ActiveAt, ListedAt, Indexed, ActiveDuring;
    var ranges := Merge(intervals);
    var index := ByGenerator(ranges);
    result := ActiveGenerators(index, ranges, begin, end);
    forall g: nat
      ensures ActiveDuring(ranges, g, begin, end) <==>
              exists i :: 0 <= i < |intervals| && intervals[i].generator == g && intervals[i].begin <= end && begin <= intervals[i].end
    {
      DuringIsMeeting(intervals, ranges, g, begin, end);
    }
  }

  lemma {:induction false} DuringIsMeeting(intervals: seq<Range>, ranges: seq<Range>, g: nat, begin: Time, end: Time)
    requires begin <= end && forall i :: 0 <= i < |intervals| ==> intervals[i].begin <= intervals[i].end
    requires forall t: Time :: ActiveAt(ranges, g, t) <==> ActiveAt(intervals, g, t)
    ensures ActiveDuring(ranges, g, begin, end) <==>
            exists i :: 0 <= i < |intervals| && intervals[i].generator == g && intervals[i].begin <= end && begin <= intervals[i].end
  {
    if ActiveDuring(ranges, g, begin, end) {
      var t: Time :| begin <= t <= end && ActiveAt(ranges, g, t);
      assert ActiveAt(intervals, g, t);
      var i :| 0 <= i < |intervals| && Within(intervals[i], g, t);
      assert intervals[i].generator == g;
    }
    if i :| 0 <= i < |intervals| && intervals[i].generator == g && intervals[i].begin <= end && begin <= intervals[i].end {
      var t: Time := if intervals[i].begin <= begin then begin else intervals[i].begin;
      assert Within(intervals[i], g, t);
      assert ActiveAt(intervals, g, t);
      assert ActiveAt(ranges, g, t);
    }
  }

  /** Intervals that come in another order are merged into the same entries. */
  lemma {:induction false} OrderDoesNotMatter(a: seq<Range>, b: seq<Range>, mergedA: seq<Range>, mergedB: seq<Range>)
    requires multiset(a) == multiset(b) && Merged(mergedA) && Merged(mergedB)
    requires forall g: nat, t: Time :: ActiveAt(mergedA, g, t) <==> ActiveAt(a, g, t)
    requires forall g: nat, t: Time :: ActiveAt(mergedB, g, t) <==> ActiveAt(b, g, t)
    ensures mergedA == mergedB
  {
    hide Merged, ActiveAt;
    forall g: nat, t: Time
      ensures ActiveAt(mergedA, g, t) <==> ActiveAt(mergedB, g, t)
    {
      if ActiveAt(a, g, t) {
        SameActive(a, b, g, t);
      }
      if ActiveAt(b, g, t) {
        SameActive(b, a, g, t);
      }
    }
    ActivityDetermines(mergedA, mergedB);
  }

  lemma {:induction false} SameActive(a: seq<Range>, b: seq<Range>, g: nat, t: Time)
    requires multiset(a) == multiset(b) && ActiveAt(a, g, t)
    ensures ActiveAt(b, g, t)
  {
    var k :| 0 <= k < |a| && Within(a[k], g, t);
    assert a[k] in multiset(b);
    var j :| 0 <= j < |b| && b[j] == a[k];
    assert Within(b[j], g, t);
  }
}
