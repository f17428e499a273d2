/**
 * When things happen: lists of closed stretches of time, built from changes and intervals and asked
 * about windows. A stretch never touches or overlaps the next one.
 */
module ActivityStretches {

  const LAST: int := 0xFFFF_FFFF_FFFF_FFFF

  type Time = x: int | 0 <= x < 0x1_0000_0000_0000_0000

  /** Unsigned subtraction. */
  function Sub(a: Time, b: Time): Time {
    (a - b) % 0x1_0000_0000_0000_0000
  }

  /** From `begin` to `end`, both included; `gap` is the step between its changes, 0 when there is only one. */
  datatype Stretch = Stretch(begin: Time, end: Time, gap: Time)

  /** The stretches are in order, with a silent time unit between any two. */
  ghost predicate Apart(list: seq<Stretch>) {
    && (forall k :: 0 <= k < |list| ==> list[k].begin <= list[k].end)
    && forall j, k :: 0 <= j < k < |list| ==> Before(list[j], list[k])
  }

  ghost predicate Before(a: Stretch, b: Stretch) {
    a.end + 1 < b.begin
  }

  ghost predicate Covers(list: seq<Stretch>, t: Time) {
    exists k :: 0 <= k < |list| && Holds(list[k], t)
  }

  ghost predicate Holds(s: Stretch, t: Time) {
    s.begin <= t <= s.end
  }

  /** Lists with stretches apart are the same stretches if they cover the same times. */
  lemma {:induction false} CoverageDetermines(a: seq<Stretch>, b: seq<Stretch>)
    requires Apart(a) && Apart(b) && forall t: Time :: Covers(a, t) <==> Covers(b, t)
    ensures |a| == |b| && forall k :: 0 <= k < |a| ==> a[k].begin == b[k].begin && a[k].end == b[k].end
  {
    if a != [] && b != [] {
      FirstBegins(a, b);
      FirstBegins(b, a);
      FirstEnds(a, b);
      FirstEnds(b, a);
      RestCovers(a);
      RestCovers(b);
      assert forall t: Time :: Covers(a[1..], t) <==> Covers(b[1..], t);
      CoverageDetermines(a[1..], b[1..]);
      assert forall k :: 1 <= k < |a| ==> a[k] == a[1..][k - 1] && b[k] == b[1..][k - 1];
    } else {
      NothingCovered(a, b);
      NothingCovered(b, a);
    }
  }

  lemma {:induction false} NothingCovered(a: seq<Stretch>, b: seq<Stretch>)
    requires Apart(b) && forall t: Time :: Covers(b, t) ==> Covers(a, t)
    ensures a == [] ==> b == []
  {
    if b != [] {
      assert Holds(b[0], b[0].begin);
      assert Covers(b, b[0].begin);
    }
  }

  lemma {:induction false} FirstBegins(a: seq<Stretch>, b: seq<Stretch>)
    requires Apart(a) && Apart(b) && a != [] && b != [] && forall t: Time :: Covers(a, t) ==> Covers(b, t)
    ensures b[0].begin <= a[0].begin
  {
    assert Holds(a[0], a[0].begin);
    assert Covers(b, a[0].begin);
    var k :| 0 <= k < |b| && Holds(b[k], a[0].begin);
    assert k > 0 ==> Before(b[0], b[k]);
  }

  lemma {:induction false} FirstEnds(a: seq<Stretch>, b: seq<Stretch>)
    requires Apart(a) && Apart(b) && a != [] && b != [] && a[0].begin == b[0].begin
    requires forall t: Time :: Covers(a, t) ==> Covers(b, t)
    ensures a[0].end <= b[0].end
  {
    if a[0].end > b[0].end {
      var t: Time := b[0].end + 1;
      assert Holds(a[0], t);
      assert Covers(b, t);
      JustAfterFirst(b);
    }
  }

  lemma {:induction false} JustAfterFirst(b: seq<Stretch>)
    requires Apart(b) && b != []
    ensures b[0].end < LAST ==> !Covers(b, b[0].end + 1)
  {
    if b[0].end < LAST {
      var t: Time := b[0].end + 1;
      forall k | 0 <= k < |b|
        ensures !Holds(b[k], t)
      {
        BeforeAt(b, 0, k);
      }
    }
  }

  lemma {:induction false} BeforeAt(list: seq<Stretch>, j: nat, k: nat)
    requires Apart(list) && k < |list|
    ensures j < k ==> Before(list[j], list[k])
  {
  }

  lemma {:induction false} RestCovers(a: seq<Stretch>)
    requires Apart(a) && a != []
    ensures Apart(a[1..]) && forall t: Time :: Covers(a[1..], t) <==> Covers(a, t) && !Holds(a[0], t)
  {
    var rest := a[1..];
    forall j, k | 0 <= j < k < |rest|
      ensures Before(rest[j], rest[k])
    {
      assert Before(a[j + 1], a[k + 1]);
    }
    forall t: Time
      ensures Covers(rest, t) <==> Covers(a, t) && !Holds(a[0], t)
    {
      if Covers(rest, t) {
        var k :| 0 <= k < |rest| && Holds(rest[k], t);
        assert Holds(a[k + 1], t) && Before(a[0], a[k + 1]);
      }
      if Covers(a, t) && !Holds(a[0], t) {
        var k :| 0 <= k < |a| && Holds(a[k], t);
        assert Holds(rest[k - 1], t);
      }
    }
  }

  // ---------------------------------------------------------------- windows

  /** Whether a list has activity in the window: one look where `std::lower_bound` points. */
  method Meets(list: seq<Stretch>, begin: Time, end: Time) returns (meets: bool)
    requires Apart(list) && begin <= end
    ensures meets <==> ActiveIn(list, begin, end)
  {
    var low, high := 0, |list|;
    while low < high
      invariant 0 <= low <= high <= |list|
      invariant forall k :: 0 <= k < low ==> list[k].end < begin
      invariant forall k :: high <= k < |list| ==> list[k].end >= begin
    {
      var mid := (low + high) / 2;
      assert forall k :: 0 <= k < mid ==> Before(list[k], list[mid]);
      assert forall k :: mid < k < |list| ==> Before(list[mid], list[k]);
      if list[mid].end < begin {
        low := mid + 1;
      } else {
        high := mid;
      }
    }
    meets := low < |list| && list[low].begin <= end;
    if meets {
      var t: Time := if list[low].begin < begin then begin else list[low].begin;
      assert Holds(list[low], t);
      assert Covers(list, t);
    } else {
      NoneMeets(list, begin, end, low);
    }
  }

  lemma {:induction false} NoneMeets(list: seq<Stretch>, begin: Time, end: Time, low: nat)
    requires Apart(list) && low <= |list| && (low < |list| ==> list[low].begin > end)
    requires forall k :: 0 <= k < low ==> list[k].end < begin
    ensures forall t: Time :: begin <= t <= end ==> !Covers(list, t)
  {
    forall t: Time | begin <= t <= end
      ensures !Covers(list, t)
    {
      forall k | 0 <= k < |list|
        ensures !Holds(list[k], t)
      {
        assert low < k ==> Before(list[low], list[k]);
      }
    }
  }

  /** The lists, by index, that have activity in the window, in order. */
  method Active(lists: seq<seq<Stretch>>, begin: Time, end: Time) returns (result: seq<nat>)
    requires begin <= end && forall s :: 0 <= s < |lists| ==> Apart(lists[s])
    ensures forall s: nat :: s in result <==> s < |lists| && ActiveIn(lists[s], begin, end)
    ensures forall j, k :: 0 <= j < k < |result| ==> result[j] < result[k]
  {
    result := [];
    for s := 0 to |lists|
      invariant forall q: nat :: q in result <==> q < s && ActiveIn(lists[q], begin, end)
      invariant forall j, k :: 0 <= j < k < |result| ==> result[j] < result[k]
      invariant forall j :: 0 <= j < |result| ==> result[j] < s
    {
      var meets := Meets(lists[s], begin, end);
      if meets {
        result := result + [s];
      }
    }
  }

  ghost predicate ActiveIn(list: seq<Stretch>, begin: Time, end: Time) {
    exists t: Time :: begin <= t <= end && Covers(list, t)
  }

  // ---------------------------------------------------------------- the changes of signals

  datatype Change = Change(time: Time, signal: nat)

  /** Some change of `signal` at `t` among the first `n`, not counting the times up to `minimum`. */
  ghost predicate Changed(changes: seq<Change>, n: nat, minimum: Time, signal: nat, t: Time)
    requires n <= |changes|
  {
    t > minimum && exists i :: 0 <= i < n && changes[i] == Change(t, signal)
  }

  ghost predicate Ordered(changes: seq<Change>) {
    forall i, j :: 0 <= i < j < |changes| ==> changes[i].time <= changes[j].time
  }

  /** One stretch for each longest run of successive times. */
  ghost predicate Steps(list: seq<Stretch>) {
    forall k :: 0 <= k < |list| ==> StepOk(list[k])
  }

  ghost predicate StepOk(s: Stretch) {
    s.gap == if s.begin == s.end then 0 else 1
  }

  /** The stretches of one signal once its change at `t` came in. */
  function WithChange(list: seq<Stretch>, t: Time): seq<Stretch> {
    if list == [] then [Stretch(t, t, 0)] else
      var last := list[|list| - 1];
      if t == last.end then list
      else if Sub(t, last.end) == 1 then list[..|list| - 1] + [last.(end := t, gap := 1)]
      else list + [Stretch(t, t, 0)]
  }

  lemma {:induction false} ChangeKeeps(list: seq<Stretch>, t: Time)
    requires Apart(list) && Steps(list) && forall u: Time :: Covers(list, u) ==> u <= t
    ensures Apart(WithChange(list, t)) && Steps(WithChange(list, t))
    ensures forall u: Time :: Covers(WithChange(list, t), u) <==> Covers(list, u) || u == t
  {
    var list' := WithChange(list, t);
    if list != [] {
      var last := list[|list| - 1];
      assert Holds(last, last.end);
      assert Covers(list, last.end);
      assert Holds(list'[|list'| - 1], t);
    } else {
      assert Holds(list'[0], t);
    }
    ChangeApart(list, t);
    forall u: Time
      ensures Covers(list', u) <==> Covers(list, u) || u == t
    {
      if Covers(list, u) {
        var k :| 0 <= k < |list| && Holds(list[k], u);
        assert Holds(list'[k], u);
      }
      if Covers(list', u) {
        var k :| 0 <= k < |list'| && Holds(list'[k], u);
        assert k < |list| && u != t ==> Holds(list[k], u);
      }
    }
  }

  lemma {:induction false} ChangeApart(list: seq<Stretch>, t: Time)
    requires Apart(list) && (list != [] ==> list[|list| - 1].end <= t)
    ensures Apart(WithChange(list, t))
  {
    var list' := WithChange(list, t);
    forall j, k | 0 <= j < k < |list'|
      ensures Before(list'[j], list'[k])
    {
      if k < |list| {
        assert Before(list[j], list[k]);
      } else {
        assert j < |list| - 1 ==> Before(list[j], list[|list| - 1]);
      }
    }
  }

  /** Every signal's list covers exactly the times at which it changed after the minimum. */
  method BuildSignals(changes: seq<Change>, minimum: Time, signals: nat) returns (lists: seq<seq<Stretch>>)
    requires Ordered(changes) && forall i :: 0 <= i < |changes| ==> changes[i].signal < signals
    ensures |lists| == signals
    ensures forall s: nat :: s < signals ==> Apart(lists[s]) && Steps(lists[s])
    ensures forall s: nat, t: Time :: s < signals ==> (Covers(lists[s], t) <==> Changed(changes, |changes|, minimum, s, t))
  {
    hide Apart, Covers, Steps, WithChange, Changed;
    lists := seq(signals, _ => []);
    NothingYet(changes, minimum);
    for i := 0 to |changes|
      invariant |lists| == signals
      invariant forall s: nat :: s < signals ==> Follows(changes, i, minimum, s, lists[s])
    {
      var change := changes[i];
      ghost var before := lists;
      if change.time > minimum {
        lists := lists[change.signal := WithChange(lists[change.signal], change.time)];
      }
      forall s: nat | s < signals
        ensures Follows(changes, i + 1, minimum, s, lists[s])
      {
        FollowsOn(changes, i, minimum, s, before[s]);
      }
    }
    forall s: nat | s < signals
      ensures Apart(lists[s]) && Steps(lists[s])
      ensures forall t: Time :: Covers(lists[s], t) <==> Changed(changes, |changes|, minimum, s, t)
    {
      assert Follows(changes, |changes|, minimum, s, lists[s]);
    }
  }

  /** The list covers exactly the changes of `s` among the first `n`. */
  ghost predicate Follows(changes: seq<Change>, n: nat, minimum: Time, s: nat, list: seq<Stretch>)
    requires n <= |changes|
  {
    && Apart(list) && Steps(list)
    && forall t: Time :: Covers(list, t) <==> Changed(changes, n, minimum, s, t)
  }

  lemma {:induction false} NothingYet(changes: seq<Change>, minimum: Time)
    ensures forall s: nat :: Follows(changes, 0, minimum, s, [])
  {
    forall s: nat
      ensures Follows(changes, 0, minimum, s, [])
    {
    }
  }

  lemma {:induction false} FollowsOn(changes: seq<Change>, i: nat, minimum: Time, s: nat, list: seq<Stretch>)
    requires Ordered(changes) && i < |changes| && Follows(changes, i, minimum, s, list)
    ensures Follows(changes, i + 1, minimum, s,
                    if changes[i].signal == s && changes[i].time > minimum then WithChange(list, changes[i].time) else list)
  {
    hide WithChange, Apart, Covers, Steps;
    var change := changes[i];
    forall t: Time
      ensures Changed(changes, i + 1, minimum, s, t) <==>
              Changed(changes, i, minimum, s, t) || (t > minimum && change == Change(t, s))
    {
    }
    if change.signal == s && change.time > minimum {
      ChangeKeeps(list, change.time);
    }
  }

  /** What a built index answers about a window is what looking at every change would answer. */
  lemma {:induction false} ActiveIsBruteForce(changes: seq<Change>, minimum: Time, list: seq<Stretch>, s: nat, begin: Time, end: Time)
    requires Follows(changes, |changes|, minimum, s, list)
    ensures ActiveIn(list, begin, end) <==>
            exists i :: 0 <= i < |changes| && changes[i].signal == s && begin <= changes[i].time <= end && changes[i].time > minimum
  {
    hide Covers;
    if ActiveIn(list, begin, end) {
      var t: Time :| begin <= t <= end && Covers(list, t);
      assert Changed(changes, |changes|, minimum, s, t);
    }
    if i :| 0 <= i < |changes| && changes[i].signal == s && begin <= changes[i].time <= end && changes[i].time > minimum {
      assert changes[i] == Change(changes[i].time, s);
      assert Changed(changes, |changes|, minimum, s, changes[i].time);
    }
  }
}
