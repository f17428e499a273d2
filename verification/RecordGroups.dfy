/** Records grouped by generator and datatype, in order of first use, and queries over the groups. */
module RecordGroups {
  import opened Options
  import opened Words
  import opened Records

  datatype Bucket = Bucket(generator: Generator, selection: Option<nat>, datatype_: nat, records: seq<Record>)

  type Generators = map<u32, Generator>

  /** Generators are declared under their own number. */
  ghost predicate GeneratorsOk(gens: Generators) {
    forall id :: id in gens ==> gens[id].id == id
  }

  predicate Sourced(r: Record, gens: Generators) {
    r.generator in gens && ValidRecord(r, gens[r.generator].kind) && PayloadType(gens[r.generator], r.datatype_).Some?
  }

  predicate OfBucket(r: Record, b: Bucket) {
    r.generator == b.generator.id && r.datatype_ == b.selection
  }

  /** The bucket of the record's source. */
  function Find(bs: seq<Bucket>, r: Record): (i: Option<nat>)
    ensures i.Some? ==> i.value < |bs| && OfBucket(r, bs[i.value])
    ensures i.None? ==> forall k :: 0 <= k < |bs| ==> !OfBucket(r, bs[k])
  {
    if bs == [] then None
    else if OfBucket(r, bs[|bs| - 1]) then Some(|bs| - 1)
    else Find(bs[..|bs| - 1], r)
  }

  function Add(bs: seq<Bucket>, r: Record, gens: Generators): seq<Bucket>
    requires Sourced(r, gens)
  {
    match Find(bs, r)
    case Some(i) => bs[i := bs[i].(records := bs[i].records + [r])]
    case None => bs + [Bucket(gens[r.generator], r.datatype_, PayloadType(gens[r.generator], r.datatype_).value, [r])]
  }

  predicate AllSourced(rs: seq<Record>, gens: Generators) {
    forall i :: 0 <= i < |rs| ==> Sourced(rs[i], gens)
  }

  function BucketsOf(rs: seq<Record>, gens: Generators): seq<Bucket>
    requires AllSourced(rs, gens)
  {
    if rs == [] then [] else Add(BucketsOf(rs[..|rs| - 1], gens), rs[|rs| - 1], gens)
  }

  /** With separate logs, all other buckets come first; otherwise nothing moves. */
  function NotLogs(bs: seq<Bucket>): seq<Bucket> {
    if bs == [] then [] else
      NotLogs(bs[..|bs| - 1]) + if bs[|bs| - 1].generator.kind.Log? then [] else [bs[|bs| - 1]]
  }

  function Logs(bs: seq<Bucket>): seq<Bucket> {
    if bs == [] then [] else
      Logs(bs[..|bs| - 1]) + if bs[|bs| - 1].generator.kind.Log? then [bs[|bs| - 1]] else []
  }

  function Ordered(bs: seq<Bucket>, separate: bool): seq<Bucket> {
    if separate then NotLogs(bs) + Logs(bs) else bs
  }

  function CountOf(bs: seq<Bucket>, logs: bool): nat {
    if bs == [] then 0 else CountOf(bs[..|bs| - 1], logs) + if bs[|bs| - 1].generator.kind.Log? == logs then 1 else 0
  }

  /** Where group `i` comes: behind the groups of its sort before it, and behind everything else when it is of logs. */
  function PlaceOf(bs: seq<Bucket>, i: nat): nat
    requires i < |bs|
  {
    CountOf(bs[..i], bs[i].generator.kind.Log?) + if bs[i].generator.kind.Log? then CountOf(bs, false) else 0
  }

  lemma {:induction false} SortsAdd(bs: seq<Bucket>, i: nat)
    requires i < |bs|
    ensures |NotLogs(bs)| == CountOf(bs, false) && |Logs(bs)| == CountOf(bs, true)
    ensures var k := CountOf(bs[..i], bs[i].generator.kind.Log?);
      if bs[i].generator.kind.Log? then k < |Logs(bs)| && Logs(bs)[k] == bs[i] else k < |NotLogs(bs)| && NotLogs(bs)[k] == bs[i]
    decreases |bs|
  {
    var front := bs[..|bs| - 1];
    SizesAdd(front);
    if i < |bs| - 1 {
      SortsAdd(front, i);
      assert front[..i] == bs[..i];
    }
  }

  lemma {:induction false} SizesAdd(bs: seq<Bucket>)
    ensures |NotLogs(bs)| == CountOf(bs, false) && |Logs(bs)| == CountOf(bs, true) && CountOf(bs, false) + CountOf(bs, true) == |bs|
  {
    if bs != [] {
      SizesAdd(bs[..|bs| - 1]);
    }
  }

  lemma {:induction false} CountsGrow(bs: seq<Bucket>, i: nat, j: nat, logs: bool)
    requires i < j <= |bs|
    ensures CountOf(bs[..i], logs) <= CountOf(bs[..j], logs)
    ensures bs[i].generator.kind.Log? == logs ==> CountOf(bs[..i], logs) < CountOf(bs[..j], logs)
    decreases j
  {
    assert bs[..j][..j - 1] == bs[..j - 1];
    if i < j - 1 {
      CountsGrow(bs, i, j - 1, logs);
    }
  }

  /** Logs come behind everything else, and otherwise the groups stay in order: every group has its own place. */
  lemma {:induction false} OrderIsStable(bs: seq<Bucket>, i: nat, j: nat)
    requires i < |bs| && j < |bs|
    ensures |Ordered(bs, true)| == |bs| && Ordered(bs, false) == bs
    ensures PlaceOf(bs, i) < |bs| && Ordered(bs, true)[PlaceOf(bs, i)] == bs[i]
    ensures !bs[i].generator.kind.Log? && bs[j].generator.kind.Log? ==> PlaceOf(bs, i) < PlaceOf(bs, j)
    ensures bs[i].generator.kind.Log? == bs[j].generator.kind.Log? && i < j ==> PlaceOf(bs, i) < PlaceOf(bs, j)
  {
    hide NotLogs, Logs, CountOf;
    SizesAdd(bs);
    SortsAdd(bs, i);
    SortsAdd(bs, j);
    if i < j {
      CountsGrow(bs, i, j, bs[i].generator.kind.Log?);
    }
    assert bs[..|bs|] == bs;
    CountsGrow(bs, i, |bs|, bs[i].generator.kind.Log?);
  }

  // ---------------------------------------------------------------- what a query finds

  function FilterBucket(b: Bucket, q: Query): seq<Record> {
    Filter(b.records, b.generator, b.datatype_, q)
  }

  function FilterAll(bs: seq<Bucket>, q: Query): seq<Record> {
    if bs == [] then [] else FilterAll(bs[..|bs| - 1], q) + FilterBucket(bs[|bs| - 1], q)
  }

  /** The records that match, found by looking at every one. */
  function Matching(rs: seq<Record>, gens: Generators, q: Query): seq<Record>
    requires AllSourced(rs, gens)
  {
    if rs == [] then [] else
      var r := rs[|rs| - 1];
      Matching(rs[..|rs| - 1], gens, q) +
      if Selected(r, gens[r.generator], PayloadType(gens[r.generator], r.datatype_).value, q) then [r] else []
  }

  /** The records that match are exactly those asked for, each as often as it is there. */
  lemma {:induction false} MatchingIsAsked(rs: seq<Record>, gens: Generators, q: Query)
    requires AllSourced(rs, gens) && GeneratorsOk(gens) && q.begin <= q.end
    ensures forall r: Record :: multiset(Matching(rs, gens, q))[r] ==
              if r.generator in gens && AskedFor(r, gens[r.generator], q) then multiset(rs)[r] else 0
  {
    hide Selected, AskedFor, PayloadType, GeneratorsOk;
    if rs != [] {
      var front, last := rs[..|rs| - 1], rs[|rs| - 1];
      assert rs == front + [last];
      MatchingIsAsked(front, gens, q);
      OneMatches(last, gens, q);
      assert Sourced(last, gens);
    }
  }

  lemma {:induction false} OneMatches(r: Record, gens: Generators, q: Query)
    requires Sourced(r, gens) && GeneratorsOk(gens) && q.begin <= q.end
    ensures Selected(r, gens[r.generator], PayloadType(gens[r.generator], r.datatype_).value, q) <==> AskedFor(r, gens[r.generator], q)
  {
    SelectedIsAsked(r, gens[r.generator], PayloadType(gens[r.generator], r.datatype_).value, q);
  }

  lemma {:induction false} FilterAllAdds(a: seq<Bucket>, b: seq<Bucket>, q: Query)
    ensures FilterAll(a + b, q) == FilterAll(a, q) + FilterAll(b, q)
    decreases |b|
  {
    hide FilterBucket;
    if b == [] {
      assert a + b == a;
    } else {
      var n := |b| - 1;
      assert (a + b)[..|a + b| - 1] == a + b[..n] && (a + b)[|a + b| - 1] == b[n];
      FilterAllAdds(a, b[..n], q);
      assert FilterAll(a, q) + (FilterAll(b[..n], q) + FilterBucket(b[n], q)) == FilterAll(a, q) + FilterAll(b[..n], q) + FilterBucket(b[n], q);
    }
  }

  /** Moving the logs behind the rest keeps what is found. */
  lemma {:induction false} OrderKeeps(bs: seq<Bucket>, q: Query)
    ensures multiset(FilterAll(NotLogs(bs) + Logs(bs), q)) == multiset(FilterAll(bs, q))
  {
    hide FilterBucket, FilterAll;
    FilterAllAdds(NotLogs(bs), Logs(bs), q);
    if bs == [] {
      assert NotLogs(bs) + Logs(bs) == bs;
    } else {
      var front, last := bs[..|bs| - 1], bs[|bs| - 1];
      OrderKeeps(front, q);
      FilterAllAdds(NotLogs(front), Logs(front), q);
      OneFiltered(last, q);
      LastFiltered(bs, q);
      if last.generator.kind.Log? {
        FilterAllAdds(Logs(front), [last], q);
        assert NotLogs(front) + [] == NotLogs(front);
      } else {
        FilterAllAdds(NotLogs(front), [last], q);
        assert Logs(front) + [] == Logs(front);
      }
    }
  }

  lemma {:induction false} OneFiltered(b: Bucket, q: Query)
    ensures FilterAll([b], q) == FilterBucket(b, q)
  {
    hide FilterBucket;
    assert [b][..0] == [];
    assert FilterAll([b][..0], q) == [];
    assert [] + FilterBucket(b, q) == FilterBucket(b, q);
  }

  /** Every bucket belongs to its source, and no two to the same. */
  ghost predicate BucketsOk(bs: seq<Bucket>, gens: Generators) {
    && (forall i :: 0 <= i < |bs| ==> BucketOk(bs[i], gens))
    && forall i, j :: 0 <= i < j < |bs| ==> bs[i].generator.id != bs[j].generator.id || bs[i].selection != bs[j].selection
  }

  ghost predicate BucketOk(b: Bucket, gens: Generators) {
    && b.generator.id in gens && gens[b.generator.id] == b.generator && PayloadType(b.generator, b.selection) == Some(b.datatype_)
    && b.records != [] && forall k :: 0 <= k < |b.records| ==> ValidRecord(b.records[k], b.generator.kind) && OfBucket(b.records[k], b)
  }

  lemma {:induction false} AddKeepsOk(bs: seq<Bucket>, r: Record, gens: Generators)
    requires BucketsOk(bs, gens) && Sourced(r, gens) && GeneratorsOk(gens)
    ensures BucketsOk(Add(bs, r, gens), gens)
  {
    hide ValidRecord, PayloadType;
  }

  lemma {:induction false} BucketsAreOk(rs: seq<Record>, gens: Generators)
    requires AllSourced(rs, gens) && GeneratorsOk(gens)
    ensures BucketsOk(BucketsOf(rs, gens), gens)
  {
    hide Add, Sourced;
    if rs != [] {
      BucketsAreOk(rs[..|rs| - 1], gens);
      AddKeepsOk(BucketsOf(rs[..|rs| - 1], gens), rs[|rs| - 1], gens);
    }
  }

  /** One record more in its bucket is one record more to be found. */
  lemma {:induction false} AddFilters(bs: seq<Bucket>, r: Record, gens: Generators, q: Query)
    requires BucketsOk(bs, gens) && Sourced(r, gens) && GeneratorsOk(gens)
    ensures var g := gens[r.generator]; var found := if Selected(r, g, PayloadType(g, r.datatype_).value, q) then multiset{r} else multiset{};
      multiset(FilterAll(Add(bs, r, gens), q)) == multiset(FilterAll(bs, q)) + found
  {
    hide Selected, ValidRecord;
    var g := gens[r.generator];
    match Find(bs, r)
    case Some(i) =>
      var b := bs[i].(records := bs[i].records + [r]);
      assert BucketOk(bs[i], gens);
      UpdateFilters(bs, i, b, q);
      OneMoreFiltered(bs[i], r, q);
      Cancel(multiset(FilterAll(bs[i := b], q)), multiset(FilterAll(bs, q)), multiset(FilterBucket(bs[i], q)),
             if Selected(r, g, bs[i].datatype_, q) then multiset{r} else multiset{});
    case None =>
      var b := Bucket(g, r.datatype_, PayloadType(g, r.datatype_).value, [r]);
      FilterAllAdds(bs, [b], q);
      OneFiltered(b, q);
      OneMoreFiltered(b.(records := []), r, q);
      assert [] + [r] == [r];
  }

  lemma {:induction false} Cancel(a: multiset<Record>, b: multiset<Record>, x: multiset<Record>, found: multiset<Record>)
    requires a + x == b + (x + found)
    ensures a == b + found
  {
    forall r: Record
      ensures a[r] == (b + found)[r]
    {
      assert (a + x)[r] == (b + (x + found))[r];
    }
  }

  lemma {:induction false} OneMoreFiltered(b: Bucket, r: Record, q: Query)
    ensures multiset(FilterBucket(b.(records := b.records + [r]), q))
            == multiset(FilterBucket(b, q)) + if Selected(r, b.generator, b.datatype_, q) then multiset{r} else multiset{}
  {
    hide Selected;
    assert (b.records + [r])[..|b.records|] == b.records;
  }

  lemma {:induction false} LastFiltered(bs: seq<Bucket>, q: Query)
    requires bs != []
    ensures multiset(FilterAll(bs, q)) == multiset(FilterAll(bs[..|bs| - 1], q)) + multiset(FilterBucket(bs[|bs| - 1], q))
  {
    hide FilterBucket;
  }

  lemma {:induction false} UpdateFilters(bs: seq<Bucket>, i: nat, b: Bucket, q: Query)
    requires i < |bs|
    ensures multiset(FilterAll(bs[i := b], q)) + multiset(FilterBucket(bs[i], q))
            == multiset(FilterAll(bs, q)) + multiset(FilterBucket(b, q))
    decreases |bs|
  {
    hide FilterBucket, FilterAll;
    var n := |bs| - 1;
    LastFiltered(bs, q);
    LastFiltered(bs[i := b], q);
    if i == n {
      assert bs[i := b][..n] == bs[..n];
    } else {
      assert bs[i := b][..n] == bs[..n][i := b] && bs[i := b][n] == bs[n];
      UpdateFilters(bs[..n], i, b, q);
      AlsoLast(multiset(FilterAll(bs[..n][i := b], q)), multiset(FilterAll(bs[..n], q)), multiset(FilterBucket(bs[i], q)),
               multiset(FilterBucket(b, q)), multiset(FilterBucket(bs[n], q)));
    }
  }

  lemma {:induction false} AlsoLast(a: multiset<Record>, b: multiset<Record>, x: multiset<Record>, y: multiset<Record>, last: multiset<Record>)
    requires a + x == b + y
    ensures (a + last) + x == (b + last) + y
  {
    assert (a + last) + x == (a + x) + last;
  }

  /** A query over the groups finds exactly the records that match, each as often as it is there. */
  lemma {:induction false} GroupsFindMatching(rs: seq<Record>, gens: Generators, separate: bool, q: Query)
    requires AllSourced(rs, gens) && GeneratorsOk(gens)
    ensures multiset(FilterAll(Ordered(BucketsOf(rs, gens), separate), q)) == multiset(Matching(rs, gens, q))
  {
    BucketsFindMatching(rs, gens, q);
    OrderKeeps(BucketsOf(rs, gens), q);
  }

  lemma {:induction false} BucketsFindMatching(rs: seq<Record>, gens: Generators, q: Query)
    requires AllSourced(rs, gens) && GeneratorsOk(gens)
    ensures multiset(FilterAll(BucketsOf(rs, gens), q)) == multiset(Matching(rs, gens, q))
  {
    hide Add, FilterAll, Sourced, Selected;
    if rs == [] {
      NothingFiltered(q);
    } else {
      var front, r := rs[..|rs| - 1], rs[|rs| - 1];
      BucketsFindMatching(front, gens, q);
      BucketsAreOk(front, gens);
      AddFilters(BucketsOf(front, gens), r, gens, q);
    }
  }

  lemma {:induction false} NothingFiltered(q: Query)
    ensures FilterAll([], q) == []
  {
  }

  /** The records of one source, in the order they came. */
  function FromSource(rs: seq<Record>, generator: u32, selection: Option<nat>): seq<Record> {
    if rs == [] then [] else
      var r := rs[|rs| - 1];
      FromSource(rs[..|rs| - 1], generator, selection) + if r.generator == generator && r.datatype_ == selection then [r] else []
  }

  /** Each bucket holds exactly the records of its source, in the order they came. */
  lemma {:induction false} BucketIs(rs: seq<Record>, gens: Generators, i: nat)
    requires AllSourced(rs, gens) && GeneratorsOk(gens) && i < |BucketsOf(rs, gens)|
    ensures var b := BucketsOf(rs, gens)[i]; b.records == FromSource(rs, b.generator.id, b.selection)
  {
    hide Sourced, BucketsOk, PayloadType;
    var front, r := rs[..|rs| - 1], rs[|rs| - 1];
    var bs := BucketsOf(front, gens);
    BucketsAreOk(front, gens);
    if i < |bs| {
      BucketIs(front, gens, i);
      OneSource(bs, r, gens, i);
      assert bs[i].records + [] == bs[i].records;
    } else {
      NoBucketHere(bs, r);
      NoneFrom(front, gens, r.generator, r.datatype_);
      GeneratorNumber(r, gens);
    }
  }

  /** Where the first record of a source comes; at the end when there is none. */
  function FirstOf(rs: seq<Record>, generator: u32, selection: Option<nat>): (n: nat)
    ensures n <= |rs|
    ensures n < |rs| ==> rs[n].generator == generator && rs[n].datatype_ == selection
    ensures forall i :: 0 <= i < n ==> !(rs[i].generator == generator && rs[i].datatype_ == selection)
  {
    if rs == [] then 0 else
      var n := FirstOf(rs[..|rs| - 1], generator, selection);
      if n < |rs| - 1 || (rs[n].generator == generator && rs[n].datatype_ == selection) then n else |rs|
  }

  /** The buckets come in the order of their first records. */
  lemma {:induction false} BucketsInOrder(rs: seq<Record>, gens: Generators, i: nat, j: nat)
    requires AllSourced(rs, gens) && GeneratorsOk(gens) && i < j < |BucketsOf(rs, gens)|
    ensures var a, b := BucketsOf(rs, gens)[i], BucketsOf(rs, gens)[j];
      FirstOf(rs, a.generator.id, a.selection) < FirstOf(rs, b.generator.id, b.selection) < |rs|
  {
    hide AllSourced, Sourced, GeneratorsOk, Add, Find, NoBucket, FirstOf, FromSource;
    BucketHasFirst(rs, gens, j);
    var front, r := FrontSourced(rs, gens);
    var bs := BucketsOf(front, gens);
    SourceStays(bs, r, gens, i);
    SourceStays(bs, r, gens, j);
    BucketHasFirst(front, gens, i);
    FirstStays(front, r, bs[i].generator.id, bs[i].selection);
    if j < |bs| {
      BucketsInOrder(front, gens, i, j);
      FirstStays(front, r, bs[j].generator.id, bs[j].selection);
    } else {
      NoneFrom(front, gens, r.generator, r.datatype_);
      FirstOfNone(front, r.generator, r.datatype_);
      FirstAtEnd(front, r, r.generator, r.datatype_);
    }
  }

  lemma {:induction false} FrontSourced(rs: seq<Record>, gens: Generators) returns (front: seq<Record>, r: Record)
    requires AllSourced(rs, gens) && BucketsOf(rs, gens) != []
    ensures rs != [] && front == rs[..|rs| - 1] && r == rs[|rs| - 1] && rs == front + [r] && AllSourced(front, gens) && Sourced(r, gens)
  {
    hide Sourced, Add;
    front, r := rs[..|rs| - 1], rs[|rs| - 1];
  }

  /** A record more leaves the buckets of its source and all others where they are, or opens one at the end. */
  lemma {:induction false} SourceStays(bs: seq<Bucket>, r: Record, gens: Generators, j: nat)
    requires Sourced(r, gens) && GeneratorsOk(gens) && j < |Add(bs, r, gens)|
    ensures var b := Add(bs, r, gens)[j];
      if j < |bs| then b.generator.id == bs[j].generator.id && b.selection == bs[j].selection
      else j == |bs| && b.generator.id == r.generator && b.selection == r.datatype_ && NoBucket(bs, r.generator, r.datatype_)
  {
    hide PayloadType, ValidRecord, Find;
    NoBucketHere(bs, r);
  }

  lemma {:induction false} FirstAtEnd(rs: seq<Record>, r: Record, generator: u32, selection: Option<nat>)
    requires r.generator == generator && r.datatype_ == selection && FirstOf(rs, generator, selection) >= |rs|
    ensures FirstOf(rs + [r], generator, selection) == |rs|
  {
    assert (rs + [r])[..|rs|] == rs;
  }

  lemma {:induction false} FirstStays(rs: seq<Record>, r: Record, generator: u32, selection: Option<nat>)
    ensures FirstOf(rs, generator, selection) < |rs| ==> FirstOf(rs + [r], generator, selection) == FirstOf(rs, generator, selection)
  {
    assert (rs + [r])[..|rs|] == rs;
  }

  lemma {:induction false} FirstOfNone(rs: seq<Record>, generator: u32, selection: Option<nat>)
    ensures FirstOf(rs, generator, selection) < |rs| <==> FromSource(rs, generator, selection) != []
  {
    if rs != [] {
      FirstOfNone(rs[..|rs| - 1], generator, selection);
    }
  }

  lemma {:induction false} BucketHasFirst(rs: seq<Record>, gens: Generators, i: nat)
    requires AllSourced(rs, gens) && GeneratorsOk(gens) && i < |BucketsOf(rs, gens)|
    ensures var b := BucketsOf(rs, gens)[i]; FirstOf(rs, b.generator.id, b.selection) < |rs|
  {
    hide Sourced, PayloadType;
    BucketIs(rs, gens, i);
    BucketsAreOk(rs, gens);
    var b := BucketsOf(rs, gens)[i];
    assert BucketOk(b, gens);
    FirstOfNone(rs, b.generator.id, b.selection);
  }

  lemma {:induction false} NoBucketHere(bs: seq<Bucket>, r: Record)
    ensures Find(bs, r).None? ==> NoBucket(bs, r.generator, r.datatype_)
  {
  }

  lemma {:induction false} GeneratorNumber(r: Record, gens: Generators)
    requires Sourced(r, gens) && GeneratorsOk(gens)
    ensures gens[r.generator].id == r.generator
  {
  }

  lemma {:induction false} OneSource(bs: seq<Bucket>, r: Record, gens: Generators, i: nat)
    requires BucketsOk(bs, gens) && i < |bs|
    ensures OfBucket(r, bs[i]) <==> Find(bs, r) == Some(i)
  {
    hide BucketOk;
  }

  ghost predicate NoBucket(bs: seq<Bucket>, generator: u32, selection: Option<nat>) {
    forall k :: 0 <= k < |bs| ==> bs[k].generator.id != generator || bs[k].selection != selection
  }

  /** A source without a bucket has had no records. */
  lemma {:induction false} NoneFrom(rs: seq<Record>, gens: Generators, generator: u32, selection: Option<nat>)
    requires AllSourced(rs, gens) && GeneratorsOk(gens) && NoBucket(BucketsOf(rs, gens), generator, selection)
    ensures FromSource(rs, generator, selection) == []
  {
    hide Sourced, NoBucket, Add;
    if rs != [] {
      var front, r := rs[..|rs| - 1], rs[|rs| - 1];
      NoBucketBefore(BucketsOf(front, gens), r, gens, generator, selection);
      NoneFrom(front, gens, generator, selection);
    }
  }

  lemma {:induction false} NoBucketBefore(bs: seq<Bucket>, r: Record, gens: Generators, generator: u32, selection: Option<nat>)
    requires Sourced(r, gens) && GeneratorsOk(gens) && NoBucket(Add(bs, r, gens), generator, selection)
    ensures NoBucket(bs, generator, selection) && !(r.generator == generator && r.datatype_ == selection)
  {
    hide ValidRecord, PayloadType;
    var all := Add(bs, r, gens);
    forall k | 0 <= k < |bs|
      ensures bs[k].generator.id != generator || bs[k].selection != selection
    {
      assert all[k].generator == bs[k].generator && all[k].selection == bs[k].selection;
    }
    match Find(bs, r)
    case Some(i) => assert all[i].generator == bs[i].generator && all[i].selection == bs[i].selection;
    case None => assert all[|bs|].generator.id == r.generator && all[|bs|].selection == r.datatype_;
  }

  // ---------------------------------------------------------------- how many records

  function RecordCount(bs: seq<Bucket>): nat {
    if bs == [] then 0 else RecordCount(bs[..|bs| - 1]) + |bs[|bs| - 1].records|
  }

  lemma {:induction false} CountAdds(a: seq<Bucket>, b: seq<Bucket>)
    ensures RecordCount(a + b) == RecordCount(a) + RecordCount(b)
    decreases |b|
  {
    if b == [] {
      assert a + b == a;
    } else {
      var n := |b| - 1;
      assert (a + b)[..|a + b| - 1] == a + b[..n] && (a + b)[|a + b| - 1] == b[n];
      CountAdds(a, b[..n]);
    }
  }

  lemma {:induction false} CountOfParts(bs: seq<Bucket>)
    ensures RecordCount(NotLogs(bs)) + RecordCount(Logs(bs)) == RecordCount(bs)
  {
    hide RecordCount;
    if bs == [] {
      CountAdds(bs, bs);
      assert bs + bs == bs;
    } else {
      var front, last := bs[..|bs| - 1], bs[|bs| - 1];
      CountOfParts(front);
      assert bs == front + [last];
      CountAdds(front, [last]);
      CountAdds(if last.generator.kind.Log? then Logs(front) else NotLogs(front), [last]);
      assert NotLogs(front) + [] == NotLogs(front) && Logs(front) + [] == Logs(front);
    }
  }

  lemma {:induction false} CountOfUpdate(bs: seq<Bucket>, i: nat, b: Bucket)
    requires i < |bs|
    ensures RecordCount(bs[i := b]) == RecordCount(bs) - |bs[i].records| + |b.records|
    decreases |bs|
  {
    var n := |bs| - 1;
    if i == n {
      assert bs[i := b][..n] == bs[..n];
    } else {
      assert bs[i := b][..n] == bs[..n][i := b];
      CountOfUpdate(bs[..n], i, b);
    }
  }

  lemma {:induction false} CountOfAdd(bs: seq<Bucket>, r: Record, gens: Generators)
    requires Sourced(r, gens)
    ensures RecordCount(Add(bs, r, gens)) == RecordCount(bs) + 1
  {
    match Find(bs, r)
    case Some(i) => CountOfUpdate(bs, i, bs[i].(records := bs[i].records + [r]));
    case None =>
      var b := Bucket(gens[r.generator], r.datatype_, PayloadType(gens[r.generator], r.datatype_).value, [r]);
      assert (bs + [b])[..|bs|] == bs;
  }

  /** No record is lost or doubled by grouping. */
  lemma {:induction false} CountOfGroups(rs: seq<Record>, gens: Generators, separate: bool)
    requires AllSourced(rs, gens)
    ensures RecordCount(Ordered(BucketsOf(rs, gens), separate)) == |rs|
  {
    var bs := BucketsOf(rs, gens);
    CountOfParts(bs);
    CountAdds(NotLogs(bs), Logs(bs));
    CountOfBuckets(rs, gens);
  }

  lemma {:induction false} CountOfBuckets(rs: seq<Record>, gens: Generators)
    requires AllSourced(rs, gens)
    ensures RecordCount(BucketsOf(rs, gens)) == |rs|
  {
    hide Add, Sourced;
    if rs != [] {
      CountOfBuckets(rs[..|rs| - 1], gens);
      CountOfAdd(BucketsOf(rs[..|rs| - 1], gens), rs[|rs| - 1], gens);
    }
  }
}
