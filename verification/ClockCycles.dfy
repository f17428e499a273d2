/** Cycle numbers of a clock: how many edges there are up to a time, minus one. */
module ClockCycles {
  import opened Arithmetic
  import opened Options

  const WORD: int := 0x1_0000_0000_0000_0000

  /** A stretch of edges: at `begin`, and every `step` until `end`. */
  datatype Span = Span(begin: nat, end: nat, step: nat)

  predicate StretchOk(s: Span) {
    s.begin <= s.end < WORD && s.step > 0 && (s.end - s.begin) % s.step == 0
  }

  type Stretch = s: Span | StretchOk(s) witness Span(0, 0, 1)

  /** The number of the last edge of the stretch, counted from zero. */
  function LastEdge(s: Stretch): nat
  {
    (s.end - s.begin) / s.step
  }

  // ---------------------------------------------------------------- counting edges one by one

  /** How many of the edges 0 to `n` are at or before the time. */
  function CountTo(s: Stretch, n: nat, time: nat): nat {
    (if n == 0 then 0 else CountTo(s, n - 1, time)) + if s.begin + n * s.step <= time then 1 else 0
  }

  function Edges(s: Stretch, time: nat): nat
  {
    CountTo(s, LastEdge(s), time)
  }

  function AllEdges(ss: seq<Stretch>, time: nat): nat
  {
    if ss == [] then 0 else AllEdges(ss[..|ss| - 1], time) + Edges(ss[|ss| - 1], time)
  }

  /** Edges up to a time within the stretch. */
  lemma {:induction false} CountIs(s: Stretch, n: nat, time: nat)
    ensures time < s.begin ==> CountTo(s, n, time) == 0
    ensures time >= s.begin ==> CountTo(s, n, time) == if n <= (time - s.begin) / s.step then n + 1 else (time - s.begin) / s.step + 1
  {
    if time >= s.begin {
      Reaches(n, s.step, time - s.begin);
    } else {
      assert n * s.step >= 0 by {
        Scaled(n, s.step);
      }
    }
    if n > 0 {
      CountIs(s, n - 1, time);
    }
  }

  lemma {:induction false} Reaches(n: nat, step: nat, x: nat)
    requires step > 0
    ensures n * step <= x <==> n <= x / step
  {
    var d := x / step - n;
    assert d * step == x / step * step - n * step;
    Scaled(d, step);
  }

  /** The number, within its stretch, of the last edge at or before the time. */
  function Into(s: Stretch, time: nat): nat
    requires time >= s.begin
  {
    ((if time < s.end then time else s.end) - s.begin) / s.step
  }

  /** The formula with division is the number of edges. */
  lemma {:induction false} EdgesAre(s: Stretch, time: nat)
    ensures Edges(s, time) == if time < s.begin then 0 else Into(s, time) + 1
  {
    hide CountTo;
    CountIs(s, LastEdge(s), time);
    if time >= s.begin {
      if time < s.end {
        Ordered(time - s.begin, s.end - s.begin, s.step);
      } else {
        Ordered(s.end - s.begin, time - s.begin, s.step);
      }
    }
  }

  lemma {:induction false} Ordered(a: nat, b: nat, step: nat)
    requires a <= b && step > 0
    ensures a / step <= b / step
  {
    Reaches(a / step, step, b);
    assert a / step * step <= a;
  }

  // ---------------------------------------------------------------- sorting

  predicate Sorted(ss: seq<Stretch>) {
    forall i, j :: 0 <= i < j < |ss| ==> ss[i].begin <= ss[j].begin
  }

  function Insert(ss: seq<Stretch>, s: Stretch): (r: seq<Stretch>)
    requires Sorted(ss)
    ensures Sorted(r) && multiset(r) == multiset(ss) + multiset{s}
  {
    if ss == [] || ss[|ss| - 1].begin <= s.begin then ss + [s]
    else
      var front, last := ss[..|ss| - 1], ss[|ss| - 1];
      assert ss == front + [last];
      var r := Insert(front, s);
      InsertedBelow(front, s, r, last);
      r + [last]
  }

  lemma {:induction false} InsertedBelow(front: seq<Stretch>, s: Stretch, r: seq<Stretch>, last: Stretch)
    requires multiset(r) == multiset(front) + multiset{s} && s.begin <= last.begin
    requires forall i :: 0 <= i < |front| ==> front[i].begin <= last.begin
    ensures forall i :: 0 <= i < |r| ==> r[i].begin <= last.begin
  {
    forall i | 0 <= i < |r|
      ensures r[i].begin <= last.begin
    {
      assert r[i] in multiset(r);
      assert r[i] in front || r[i] == s;
    }
  }

  /** The library's sort by `begin`. */
  function SortByBegin(ss: seq<Stretch>): (r: seq<Stretch>)
    ensures Sorted(r) && multiset(r) == multiset(ss)
  {
    if ss == [] then [] else
      assert ss == ss[..|ss| - 1] + [ss[|ss| - 1]];
      Insert(SortByBegin(ss[..|ss| - 1]), ss[|ss| - 1])
  }

  lemma {:induction false} InsertEdges(ss: seq<Stretch>, s: Stretch, time: nat)
    requires Sorted(ss)
    ensures AllEdges(Insert(ss, s), time) == AllEdges(ss, time) + Edges(s, time)
  {
    hide Edges;
    var all := Insert(ss, s);
    if ss == [] || ss[|ss| - 1].begin <= s.begin {
      assert all[..|all| - 1] == ss;
    } else {
      InsertEdges(ss[..|ss| - 1], s, time);
      assert all[..|all| - 1] == Insert(ss[..|ss| - 1], s);
    }
  }

  lemma {:induction false} SortedEdges(ss: seq<Stretch>, time: nat)
    ensures AllEdges(SortByBegin(ss), time) == AllEdges(ss, time)
  {
    hide Edges, Insert;
    if ss != [] {
      SortedEdges(ss[..|ss| - 1], time);
      InsertEdges(SortByBegin(ss[..|ss| - 1]), ss[|ss| - 1], time);
    }
  }

  // ---------------------------------------------------------------- the query

  predicate ApartAt(ss: seq<Stretch>, i: nat)
    requires i < |ss|
  {
    i > 0 ==> ss[i - 1].end < ss[i].begin
  }

  /** No stretch begins at or before the last edge of the one before it. */
  predicate Apart(ss: seq<Stretch>) {
    forall i :: 0 <= i < |ss| ==> ApartAt(ss, i)
  }

  /** All edges of all stretches. */
  function Total(ss: seq<Stretch>): nat
  {
    if ss == [] then 0 else Total(ss[..|ss| - 1]) + LastEdge(ss[|ss| - 1]) + 1
  }

  lemma {:induction false} ApartBefore(ss: seq<Stretch>, n: nat)
    requires n <= |ss|
    ensures Apart(ss) ==> Apart(ss[..n])
    ensures n < |ss| ==> (Apart(ss[..n + 1]) <==> Apart(ss[..n]) && ApartAt(ss, n))
  {
    forall i | 0 <= i < n
      ensures ApartAt(ss, i) == ApartAt(ss[..n], i) && (n < |ss| ==> ApartAt(ss, i) == ApartAt(ss[..n + 1], i))
    {
    }
    if n < |ss| {
      assert ApartAt(ss[..n + 1], n) == ApartAt(ss, n);
      if Apart(ss[..n + 1]) {
        forall i | 0 <= i < n
          ensures ApartAt(ss[..n], i)
        {
          assert ApartAt(ss[..n + 1], i);
        }
      } else if Apart(ss[..n]) && ApartAt(ss, n) {
        var more := ss[..n + 1];
        forall i | 0 <= i < |more|
          ensures ApartAt(more, i)
        {
          assert i < n ==> ApartAt(ss[..n], i);
        }
      }
    }
  }

  lemma {:induction false} AllBefore(ss: seq<Stretch>, time: nat)
    requires Apart(ss) && (ss != [] ==> ss[|ss| - 1].end <= time)
    ensures AllEdges(ss, time) == Total(ss)
  {
    hide Edges, Apart;
    if ss != [] {
      var front, last := ss[..|ss| - 1], ss[|ss| - 1];
      ApartBefore(ss, |ss| - 1);
      assert ss[..|ss|] == ss;
      AllBefore(front, time);
      EdgesAre(last, time);
    }
  }

  datatype Answer = Refused | NoCycle | Cycle(number: nat)

  function AnswerOf(edges: nat): Answer {
    if edges == 0 then NoCycle else Cycle(edges - 1)
  }

  /** Where the loop stands after the first `i` stretches. */
  ghost predicate Standing(ss: seq<Stretch>, i: nat, time: nat, answer: Answer, lastCycle: Option<nat>, lastEdge: Option<nat>)
    requires i <= |ss|
  {
    && Apart(ss[..i]) && Total(ss[..i]) <= WORD && answer == AnswerOf(AllEdges(ss[..i], time))
    && (if i == 0 then lastCycle == None && lastEdge == None && Total(ss[..i]) == 0
        else Total(ss[..i]) > 0 && lastCycle == Some(Total(ss[..i]) - 1) && lastEdge == Some(ss[i - 1].end))
  }

  // ---------------------------------------------------------------- stretches as they are recorded

  /** An attribute of a transaction: whether its key is that of the period, and whether it is a time. */
  datatype Attribute = Attribute(isPeriod: bool, isTime: bool, number: nat)

  datatype Recorded = Recorded(begin: nat, end: nat, attributes: seq<Attribute>)

  type Transaction = t: Recorded | t.begin <= t.end < WORD witness Recorded(0, 0, [])

  predicate BadPeriod(a: Attribute) {
    a.isPeriod && (!a.isTime || a.number == 0)
  }

  /** The last period given; refused when one of them is not a positive time. */
  function PeriodIn(attributes: seq<Attribute>): (r: Option<Option<nat>>)
    ensures r.Some? && r.value.Some? ==> r.value.value > 0
  {
    if attributes == [] then Some(None) else
      var last := attributes[|attributes| - 1];
      match PeriodIn(attributes[..|attributes| - 1])
      case None => None
      case Some(before) => if !last.isPeriod then Some(before) else if BadPeriod(last) then None else Some(Some(last.number))
  }

  lemma {:induction false} PeriodRefused(attributes: seq<Attribute>)
    ensures PeriodIn(attributes).None? <==> exists i :: 0 <= i < |attributes| && BadPeriod(attributes[i])
  {
    if attributes != [] {
      var n := |attributes| - 1;
      PeriodRefused(attributes[..n]);
      assert forall i :: 0 <= i < n ==> attributes[..n][i] == attributes[i];
      if i :| 0 <= i < |attributes| && BadPeriod(attributes[i]) {
        assert i < n ==> BadPeriod(attributes[..n][i]);
      }
    }
  }

  /** The stretch that was recorded: a single edge has no period, and any other is a multiple of its period. */
  function SpanOf(t: Transaction): Option<Stretch> {
    match PeriodIn(t.attributes)
    case None => None
    case Some(None) => if t.begin == t.end then Some(Span(t.begin, t.end, 1)) else None
    case Some(Some(step)) => if t.begin != t.end && (t.end - t.begin) % step == 0 then Some(Span(t.begin, t.end, step)) else None
  }

  /** What is said at `i` is the last that is said of the period. */
  predicate LastPeriod(attributes: seq<Attribute>, i: nat) {
    i < |attributes| && attributes[i].isPeriod && forall j :: i < j < |attributes| ==> !attributes[j].isPeriod
  }

  /** Every period that is given is a positive time. */
  predicate PeriodsOk(attributes: seq<Attribute>) {
    forall i :: 0 <= i < |attributes| && attributes[i].isPeriod ==> attributes[i].isTime && attributes[i].number > 0
  }

  /** The edges of the stretch are `p` apart: no period is given for a single edge, and otherwise the last one given is `p` and fits. */
  ghost predicate HasStep(t: Transaction, p: nat) {
    if t.begin == t.end then p == 1 && forall i :: 0 <= i < |t.attributes| ==> !t.attributes[i].isPeriod
    else
      && PeriodsOk(t.attributes) && p > 0 && (t.end - t.begin) % p == 0
      && exists i: nat :: LastPeriod(t.attributes, i) && t.attributes[i].number == p
  }

  lemma {:induction false} PeriodGiven(attributes: seq<Attribute>)
    ensures match PeriodIn(attributes)
            case None => !PeriodsOk(attributes)
            case Some(None) => forall i :: 0 <= i < |attributes| ==> !attributes[i].isPeriod
            case Some(Some(p)) => PeriodsOk(attributes) && exists i: nat :: LastPeriod(attributes, i) && attributes[i].number == p
  {
    if attributes != [] {
      var n := |attributes| - 1;
      var front := attributes[..n];
      PeriodGiven(front);
      assert forall i :: 0 <= i < n ==> front[i] == attributes[i];
      if !PeriodsOk(front) {
        var i :| 0 <= i < n && front[i].isPeriod && !(front[i].isTime && front[i].number > 0);
        assert attributes[i] == front[i];
      } else if attributes[n].isPeriod {
        assert LastPeriod(attributes, n);
      } else if PeriodIn(front).value.Some? {
        var i: nat :| LastPeriod(front, i) && front[i].number == PeriodIn(front).value.value;
        assert LastPeriod(attributes, i);
      }
    }
  }

  lemma {:induction false} OneLastPeriod(attributes: seq<Attribute>, i: nat, j: nat)
    requires LastPeriod(attributes, i) && LastPeriod(attributes, j)
    ensures i == j
  {
  }

  /** The stretch that is made of what was recorded has the recorded period, and there is none only when nothing fits. */
  lemma {:induction false} SpanHasStep(t: Transaction)
    ensures match SpanOf(t)
            case Some(s) => s.begin == t.begin && s.end == t.end && HasStep(t, s.step)
            case None => forall p: nat :: !HasStep(t, p)
  {
    hide PeriodIn, PeriodsOk, LastPeriod;
    PeriodGiven(t.attributes);
    forall p: nat | HasStep(t, p)
      ensures SpanOf(t).Some?
    {
      StepIsGiven(t, p);
    }
  }

  lemma {:induction false} StepIsGiven(t: Transaction, p: nat)
    requires HasStep(t, p)
    ensures PeriodIn(t.attributes) == Some(if t.begin == t.end then None else Some(p))
  {
    hide PeriodIn;
    if t.begin == t.end {
      NothingGiven(t.attributes);
    } else {
      PeriodGiven(t.attributes);
      var i: nat :| LastPeriod(t.attributes, i) && t.attributes[i].number == p;
      assert t.attributes[i].isPeriod;
      var j: nat :| LastPeriod(t.attributes, j) && t.attributes[j].number == PeriodIn(t.attributes).value.value;
      OneLastPeriod(t.attributes, i, j);
    }
  }

  lemma {:induction false} NothingGiven(attributes: seq<Attribute>)
    requires forall i :: 0 <= i < |attributes| ==> !attributes[i].isPeriod
    ensures PeriodIn(attributes) == Some(None)
  {
    if attributes != [] {
      NothingGiven(attributes[..|attributes| - 1]);
    }
  }

  /** `period`: how far apart the edges of the stretch are, refused when nothing fits. */
  method Period(t: Transaction) returns (step: Option<nat>)
    ensures if step.Some? then HasStep(t, step.value) else forall p: nat :: !HasStep(t, p)
    ensures step == if SpanOf(t).Some? then Some(SpanOf(t).value.step) else None
  {
    hide HasStep;
    SpanHasStep(t);
    var value: Option<nat> := None;
    assert t.attributes[..|t.attributes|] == t.attributes;
    for i := 0 to |t.attributes|
      invariant PeriodIn(t.attributes[..i]) == Some(value)
    {
      var a := t.attributes[i];
      assert t.attributes[..i + 1][..i] == t.attributes[..i];
      if a.isPeriod {
        if !a.isTime || a.number == 0 {
          assert BadPeriod(t.attributes[i]);
          PeriodRefused(t.attributes);
          return None;
        }
        value := Some(a.number);
      }
    }
    if t.begin == t.end {
      return if value.Some? then None else Some(1);
    }
    if value.None? || (t.end - t.begin) % value.value != 0 {
      return None;
    }
    step := value;
  }

  predicate AllSpans(ts: seq<Transaction>) {
    forall i :: 0 <= i < |ts| ==> SpanOf(ts[i]).Some?
  }

  function Spans(ts: seq<Transaction>): (ss: seq<Stretch>)
    requires AllSpans(ts)
    ensures |ss| == |ts| && forall i :: 0 <= i < |ts| ==> ss[i] == SpanOf(ts[i]).value
  {
    seq(|ts|, i requires 0 <= i < |ts| => SpanOf(ts[i]).value)
  }

  function InsertTx(ts: seq<Transaction>, t: Transaction): (r: seq<Transaction>)
    ensures multiset(r) == multiset(ts) + multiset{t}
  {
    if ts == [] || ts[|ts| - 1].begin <= t.begin then ts + [t]
    else
      assert ts == ts[..|ts| - 1] + [ts[|ts| - 1]];
      InsertTx(ts[..|ts| - 1], t) + [ts[|ts| - 1]]
  }

  function SortTxs(ts: seq<Transaction>): (r: seq<Transaction>)
    ensures multiset(r) == multiset(ts)
  {
    if ts == [] then [] else
      assert ts == ts[..|ts| - 1] + [ts[|ts| - 1]];
      InsertTx(SortTxs(ts[..|ts| - 1]), ts[|ts| - 1])
  }

  // ---------------------------------------------------------------- what is asked for, in terms of what was recorded

  /** The `n`-th edge of the stretch exists and is at or before the time. */
  ghost predicate HasEdge(t: Transaction, n: nat, time: nat) {
    exists p: nat :: HasStep(t, p) && t.begin + n * p <= t.end && t.begin + n * p <= time
  }

  ghost function EdgesUpTo(t: Transaction, time: nat): set<nat> {
    set n | 0 <= n <= t.end - t.begin && HasEdge(t, n, time)
  }

  /** All edges at or before the time: which stretch, and the how-manieth of its edges. */
  ghost function AllEdgesUpTo(ts: seq<Transaction>, time: nat): set<(int, int)> {
    set i, n | 0 <= i < |ts| && n in EdgesUpTo(ts[i], time) :: (i, n)
  }

  ghost predicate Disjoint(a: Transaction, b: Transaction) {
    a.end < b.begin || b.end < a.begin
  }

  /** No two stretches share a time. */
  ghost predicate AllDisjoint(ts: seq<Transaction>) {
    forall i, j :: 0 <= i < j < |ts| ==> Disjoint(ts[i], ts[j])
  }

  function NumbersTo(s: Stretch, k: nat, time: nat): set<nat> {
    set n | 0 <= n <= k && s.begin + n * s.step <= time
  }

  lemma {:induction false} NumbersCounted(s: Stretch, k: nat, time: nat)
    ensures |NumbersTo(s, k, time)| == CountTo(s, k, time)
  {
    if k == 0 {
      assert NumbersTo(s, 0, time) == if s.begin <= time then {0} else {};
    } else {
      NumbersCounted(s, k - 1, time);
      assert NumbersTo(s, k, time) == NumbersTo(s, k - 1, time) + if s.begin + k * s.step <= time then {k} else {};
    }
  }

  lemma {:induction false} StepIsOne(t: Transaction, p: nat)
    requires SpanOf(t).Some? && HasStep(t, p)
    ensures p == SpanOf(t).value.step
  {
    hide PeriodsOk, LastPeriod, PeriodIn;
    StepIsGiven(t, p);
  }

  /** The edges of a recorded stretch, one by one, are as many as those of its span. */
  lemma {:induction false} EdgesCounted(t: Transaction, time: nat)
    requires SpanOf(t).Some?
    ensures |EdgesUpTo(t, time)| == Edges(SpanOf(t).value, time)
  {
    hide HasStep, SpanOf, CountTo;
    SpanHasStep(t);
    var s := SpanOf(t).value;
    forall n: nat
      ensures n <= t.end - t.begin && HasEdge(t, n, time) <==> n <= LastEdge(s) && s.begin + n * s.step <= time
    {
      EdgeOf(t, n, time);
    }
    assert EdgesUpTo(t, time) == NumbersTo(s, LastEdge(s), time);
    NumbersCounted(s, LastEdge(s), time);
  }

  lemma {:induction false} EdgeOf(t: Transaction, n: nat, time: nat)
    requires SpanOf(t).Some?
    ensures var s := SpanOf(t).value;
      n <= t.end - t.begin && HasEdge(t, n, time) <==> n <= LastEdge(s) && s.begin + n * s.step <= time
  {
    hide HasStep, SpanOf;
    SpanHasStep(t);
    var s := SpanOf(t).value;
    Reaches(n, s.step, s.end - s.begin);
    Distributes(n, s.step - 1, 1);
    NotLess(n, s.step);
    if HasEdge(t, n, time) {
      var p: nat :| HasStep(t, p) && t.begin + n * p <= t.end && t.begin + n * p <= time;
      StepIsOne(t, p);
    }
  }

  lemma {:induction false} NotLess(n: nat, step: nat)
    requires step > 0
    ensures n <= n * step
  {
    Distributes(n, step - 1, 1);
  }

  lemma {:induction false} PairsAre(ts: seq<Transaction>, t: Transaction, time: nat)
    ensures |AllEdgesUpTo(ts + [t], time)| == |AllEdgesUpTo(ts, time)| + |EdgesUpTo(t, time)|
  {
    hide EdgesUpTo;
    var more, own := ts + [t], EdgesUpTo(t, time);
    var pairs := Pairs(|ts|, own);
    assert AllEdgesUpTo(more, time) == AllEdgesUpTo(ts, time) + pairs;
    Paired(|ts|, own);
    assert AllEdgesUpTo(ts, time) !! pairs;
  }

  ghost function Pairs(i: int, numbers: set<nat>): set<(int, int)> {
    set n | n in numbers :: (i, n)
  }

  lemma {:induction false} Paired(i: int, numbers: set<nat>)
    ensures |Pairs(i, numbers)| == |numbers|
  {
    if numbers != {} {
      var n :| n in numbers;
      Paired(i, numbers - {n});
      assert Pairs(i, numbers) == Pairs(i, numbers - {n}) + {(i, n)};
    }
  }

  lemma {:induction false} AllEdgesCounted(ts: seq<Transaction>, time: nat)
    requires AllSpans(ts)
    ensures |AllEdgesUpTo(ts, time)| == AllEdges(Spans(ts), time)
  {
    hide SpanOf, Edges, EdgesUpTo, AllEdgesUpTo;
    if ts == [] {
      NoPairs(time);
    } else {
      var front, last := ts[..|ts| - 1], ts[|ts| - 1];
      assert ts == front + [last];
      AllEdgesCounted(front, time);
      SpansAdd(front, last);
      PairsAre(front, last, time);
      EdgesCounted(last, time);
      assert Spans(ts)[..|ts| - 1] == Spans(front);
    }
  }

  lemma {:induction false} NoPairs(time: nat)
    ensures AllEdgesUpTo([], time) == {}
  {
  }

  /** Up to a time behind everything these are all edges. */
  lemma {:induction false} AllOfThem(ss: seq<Stretch>)
    ensures AllEdges(ss, WORD) == Total(ss)
  {
    hide Edges;
    if ss != [] {
      AllOfThem(ss[..|ss| - 1]);
      EdgesAre(ss[|ss| - 1], WORD);
    }
  }

  lemma {:induction false} TotalSorted(ss: seq<Stretch>)
    ensures Total(SortByBegin(ss)) == AllEdges(ss, WORD)
  {
    AllOfThem(SortByBegin(ss));
    SortedEdges(ss, WORD);
  }

  ghost predicate NoneShared(ss: seq<Stretch>) {
    forall i, j :: 0 <= i < j < |ss| ==> ss[i].end < ss[j].begin || ss[j].end < ss[i].begin
  }

  ghost predicate FreeOf(ss: seq<Stretch>, s: Stretch) {
    forall i :: 0 <= i < |ss| ==> ss[i].end < s.begin || s.end < ss[i].begin
  }

  lemma {:induction false} SharedAdd(ss: seq<Stretch>, s: Stretch)
    ensures NoneShared(ss + [s]) <==> NoneShared(ss) && FreeOf(ss, s)
  {
    var more := ss + [s];
    assert forall i :: 0 <= i < |ss| ==> more[i] == ss[i];
    if NoneShared(more) {
      forall i | 0 <= i < |ss|
        ensures ss[i].end < s.begin || s.end < ss[i].begin
      {
        assert more[i].end < more[|ss|].begin || more[|ss|].end < more[i].begin;
      }
      forall i, j | 0 <= i < j < |ss|
        ensures ss[i].end < ss[j].begin || ss[j].end < ss[i].begin
      {
        assert more[i].end < more[j].begin || more[j].end < more[i].begin;
      }
    }
  }

  lemma {:induction false} FreeOfSame(a: seq<Stretch>, b: seq<Stretch>, s: Stretch)
    requires multiset(a) == multiset(b) && FreeOf(a, s)
    ensures FreeOf(b, s)
  {
    forall i | 0 <= i < |b|
      ensures b[i].end < s.begin || s.end < b[i].begin
    {
      assert b[i] in multiset(a);
    }
  }

  lemma {:induction false} InsertShares(ss: seq<Stretch>, s: Stretch)
    requires Sorted(ss)
    ensures NoneShared(Insert(ss, s)) <==> NoneShared(ss) && FreeOf(ss, s)
  {
    hide NoneShared, FreeOf;
    if ss == [] || ss[|ss| - 1].begin <= s.begin {
      SharedAdd(ss, s);
    } else {
      var front, last := ss[..|ss| - 1], ss[|ss| - 1];
      assert ss == front + [last];
      InsertShares(front, s);
      SharedAdd(Insert(front, s), last);
      SharedAdd(front, last);
      FreeOfAdds(front, s, last);
      InsertFree(front, s, last);
    }
  }

  lemma {:induction false} FreeOfAdds(front: seq<Stretch>, s: Stretch, last: Stretch)
    ensures FreeOf(front + [last], s) <==> FreeOf(front, s) && (last.end < s.begin || s.end < last.begin)
    ensures FreeOf(front + [s], last) <==> FreeOf(front, last) && (last.end < s.begin || s.end < last.begin)
  {
    var a, b := front + [last], front + [s];
    assert a[|front|] == last && b[|front|] == s;
    assert forall i :: 0 <= i < |front| ==> a[i] == front[i] && b[i] == front[i];
  }

  lemma {:induction false} InsertFree(front: seq<Stretch>, s: Stretch, last: Stretch)
    requires Sorted(front)
    ensures FreeOf(Insert(front, s), last) <==> FreeOf(front + [s], last)
  {
    hide FreeOf, Insert;
    assert multiset(front + [s]) == multiset(Insert(front, s));
    if FreeOf(Insert(front, s), last) {
      FreeOfSame(Insert(front, s), front + [s], last);
    }
    if FreeOf(front + [s], last) {
      FreeOfSame(front + [s], Insert(front, s), last);
    }
  }

  lemma {:induction false} SortShares(ss: seq<Stretch>)
    ensures NoneShared(SortByBegin(ss)) <==> NoneShared(ss)
  {
    hide NoneShared, FreeOf, Insert, Sorted;
    if ss != [] {
      var front, last := ss[..|ss| - 1], ss[|ss| - 1];
      assert ss == front + [last];
      SortShares(front);
      InsertShares(SortByBegin(front), last);
      SharedAdd(front, last);
      if FreeOf(front, last) {
        FreeOfSame(front, SortByBegin(front), last);
      }
      if FreeOf(SortByBegin(front), last) {
        FreeOfSame(SortByBegin(front), front, last);
      }
    }
  }

  /** In order of their beginnings it is enough to look at neighbours. */
  lemma {:induction false} NeighboursSuffice(ss: seq<Stretch>)
    requires Sorted(ss)
    ensures Apart(ss) <==> NoneShared(ss)
  {
    if NoneShared(ss) {
      forall i | 0 <= i < |ss|
        ensures ApartAt(ss, i)
      {
        if i > 0 {
          var a, b := ss[i - 1], ss[i];
          assert a.begin <= b.begin;
          assert a.end < b.begin || b.end < a.begin;
        }
      }
    }
    if Apart(ss) {
      forall i, j | 0 <= i < j < |ss|
        ensures ss[i].end < ss[j].begin
      {
        assert ApartAt(ss, i + 1);
        assert i + 1 < j ==> ss[i + 1].begin <= ss[j].begin;
      }
    }
  }

  /** What the loop refuses, in terms of what was recorded. */
  lemma {:induction false} RefusedIs(ts: seq<Transaction>)
    requires AllSpans(ts)
    ensures Apart(SortByBegin(Spans(ts))) <==> AllDisjoint(ts)
    ensures Total(SortByBegin(Spans(ts))) == |AllEdgesUpTo(ts, WORD)|
  {
    hide SpanOf, AllEdgesUpTo, Apart, Total, AllEdges, SortByBegin;
    TotalSorted(Spans(ts));
    AllEdgesCounted(ts, WORD);
    NeighboursSuffice(SortByBegin(Spans(ts)));
    SortShares(Spans(ts));
    forall i | 0 <= i < |ts|
      ensures Spans(ts)[i].begin == ts[i].begin && Spans(ts)[i].end == ts[i].end
    {
      SameBegin(ts[i]);
    }
    SharesAre(ts, Spans(ts));
  }

  lemma {:induction false} SharesAre(ts: seq<Transaction>, ss: seq<Stretch>)
    requires |ss| == |ts| && forall i :: 0 <= i < |ts| ==> ss[i].begin == ts[i].begin && ss[i].end == ts[i].end
    ensures NoneShared(ss) <==> AllDisjoint(ts)
  {
    if NoneShared(ss) {
      forall i, j | 0 <= i < j < |ts|
        ensures Disjoint(ts[i], ts[j])
      {
        assert ss[i].end < ss[j].begin || ss[j].end < ss[i].begin;
      }
    }
    if AllDisjoint(ts) {
      forall i, j | 0 <= i < j < |ss|
        ensures ss[i].end < ss[j].begin || ss[j].end < ss[i].begin
      {
        assert Disjoint(ts[i], ts[j]);
      }
    }
  }

  /** Some stretch has no step that fits. */
  ghost predicate SomeMismatched(ts: seq<Transaction>) {
    exists i :: 0 <= i < |ts| && Mismatched(ts[i])
  }

  ghost predicate Mismatched(t: Transaction) {
    forall p: nat :: !HasStep(t, p)
  }

  lemma {:induction false} MismatchedIs(ts: seq<Transaction>)
    ensures SomeMismatched(ts) <==> !AllSpans(ts)
  {
    hide SpanOf, HasStep;
    forall i | 0 <= i < |ts|
      ensures SpanOf(ts[i]).None? <==> Mismatched(ts[i])
    {
      SpanHasStep(ts[i]);
    }
    if !AllSpans(ts) {
      var i :| 0 <= i < |ts| && SpanOf(ts[i]).None?;
      assert Mismatched(ts[i]);
    }
  }

  lemma {:induction false} SameMembers(a: seq<Transaction>, b: seq<Transaction>)
    requires multiset(a) == multiset(b)
    ensures AllSpans(a) == AllSpans(b)
  {
    hide SpanOf;
    forall i | 0 <= i < |a|
      ensures a[i] in b
    {
      assert a[i] in multiset(b);
    }
    forall i | 0 <= i < |b|
      ensures b[i] in a
    {
      assert b[i] in multiset(a);
    }
  }

  lemma {:induction false} InsertSpans(ts: seq<Transaction>, t: Transaction)
    requires AllSpans(ts) && SpanOf(t).Some? && Sorted(Spans(ts))
    ensures AllSpans(InsertTx(ts, t)) && Spans(InsertTx(ts, t)) == Insert(Spans(ts), SpanOf(t).value)
  {
    hide SpanOf;
    var ss, s := Spans(ts), SpanOf(t).value;
    SameBegin(t);
    if ts == [] || ts[|ts| - 1].begin <= t.begin {
      SpansAdd(ts, t);
      if ts != [] {
        SameBegin(ts[|ts| - 1]);
      }
    } else {
      var n := |ts| - 1;
      SameBegin(ts[n]);
      assert Spans(ts[..n]) == ss[..n];
      InsertSpans(ts[..n], t);
      SpansAdd(InsertTx(ts[..n], t), ts[n]);
    }
  }

  lemma {:induction false} SpansAdd(ts: seq<Transaction>, t: Transaction)
    requires AllSpans(ts) && SpanOf(t).Some?
    ensures AllSpans(ts + [t]) && Spans(ts + [t]) == Spans(ts) + [SpanOf(t).value]
  {
    hide SpanOf;
  }

  /** Sorting what was recorded sorts the stretches. */
  lemma {:induction false} SortedSpans(ts: seq<Transaction>)
    requires AllSpans(ts)
    ensures AllSpans(SortTxs(ts)) && Spans(SortTxs(ts)) == SortByBegin(Spans(ts))
  {
    hide SpanOf, InsertTx, Insert, Sorted;
    if ts != [] {
      var front := ts[..|ts| - 1];
      assert Spans(front) == Spans(ts)[..|ts| - 1];
      SortedSpans(front);
      InsertSpans(SortTxs(front), ts[|ts| - 1]);
    }
  }

  /**
   * `cycle_at`: refuses stretches that do not match their period, stretches that share a time and cycles beyond 64 bits, otherwise the
   * answer is the number of edges at or before the time, minus one.
   */
  method CycleAt(transactions: seq<Transaction>, time: nat) returns (answer: Answer)
    ensures answer.Refused? <==> SomeMismatched(transactions) || !AllDisjoint(transactions) || |AllEdgesUpTo(transactions, WORD)| > WORD
    ensures !answer.Refused? ==>
              answer == if AllEdgesUpTo(transactions, time) == {} then NoCycle else Cycle(|AllEdgesUpTo(transactions, time)| - 1)
    ensures answer.Refused? <==>
              || !AllSpans(transactions)
              || !Apart(SortByBegin(Spans(transactions))) || Total(SortByBegin(Spans(transactions))) > WORD
    ensures !answer.Refused? ==> answer == AnswerOf(AllEdges(Spans(transactions), time))
  {
    hide Edges, SortByBegin, AllEdges, Total, Standing, Apart, Into, SpanOf, SortTxs, SomeMismatched, AllDisjoint, AllEdgesUpTo, HasStep;
    var ts := SortTxs(transactions);
    SameMembers(ts, transactions);
    MismatchedIs(transactions);
    if AllSpans(transactions) {
      SortedSpans(transactions);
      SortedEdges(Spans(transactions), time);
      RefusedIs(transactions);
      AllEdgesCounted(transactions, time);
    }
    answer := NoCycle;
    var lastCycle: Option<nat>, lastEdge: Option<nat> := None, None;
    StandsFirst(Spans(ts[..0]), time);
    for i := 0 to |ts|
      invariant AllSpans(ts[..i]) && Standing(Spans(ts[..i]), i, time, answer, lastCycle, lastEdge) && !answer.Refused?
    {
      var t := ts[i];
      if AllSpans(ts) {
        StandsAmong(Spans(ts), Spans(ts[..i]), i, time, answer, lastCycle, lastEdge);
        StandsNext(Spans(ts), i, time, answer, lastCycle, lastEdge);
      }
      SameBegin(t);
      if lastEdge.Some? && t.begin <= lastEdge.value {
        return Refused;
      }
      var step := Period(t);
      if step.None? {
        return Refused;
      }
      StepIsPositive(t);
      OneMoreSpan(ts, i);
      StandsAmong(Spans(ts[..i + 1]), Spans(ts[..i]), i, time, answer, lastCycle, lastEdge);
      StandsNext(Spans(ts[..i + 1]), i, time, answer, lastCycle, lastEdge);
      var last := (t.end - t.begin) / step.value;
      if lastCycle.Some? && lastCycle.value == WORD - 1 {
        return Refused;
      }
      var first := if lastCycle.Some? then lastCycle.value + 1 else 0;
      if last > WORD - 1 - first {
        return Refused;
      }
      if time >= t.begin {
        IntoIs(t, time);
        answer := Cycle(first + ((if time < t.end then time else t.end) - t.begin) / step.value);
      }
      lastCycle := Some(first + last);
      lastEdge := Some(t.end);
    }
    assert ts[..|ts|] == ts;
    StandsLast(Spans(ts), time, answer, lastCycle, lastEdge);
  }

  lemma {:induction false} SameBegin(t: Transaction)
    ensures SpanOf(t).Some? ==> SpanOf(t).value.begin == t.begin && SpanOf(t).value.end == t.end
  {
  }

  lemma {:induction false} StepIsPositive(t: Transaction)
    requires SpanOf(t).Some?
    ensures SpanOf(t).value.step > 0 && LastEdge(SpanOf(t).value) == (t.end - t.begin) / SpanOf(t).value.step
  {
  }

  lemma {:induction false} IntoIs(t: Transaction, time: nat)
    requires SpanOf(t).Some? && time >= t.begin
    ensures SpanOf(t).value.step > 0 && SpanOf(t).value.begin <= time
    ensures Into(SpanOf(t).value, time) == ((if time < t.end then time else t.end) - t.begin) / SpanOf(t).value.step
  {
  }

  lemma {:induction false} OneMoreSpan(ts: seq<Transaction>, i: nat)
    requires i < |ts| && AllSpans(ts[..i]) && SpanOf(ts[i]).Some?
    ensures AllSpans(ts[..i + 1]) && Spans(ts[..i + 1])[..i] == Spans(ts[..i]) && Spans(ts[..i + 1])[i] == SpanOf(ts[i]).value
  {
    hide SpanOf;
    assert ts[..i + 1] == ts[..i] + [ts[i]];
    SpansAdd(ts[..i], ts[i]);
  }

  /** Where the loop stands depends on the stretches so far only. */
  lemma {:induction false} StandsAmong(ss: seq<Stretch>, front: seq<Stretch>, i: nat, time: nat, answer: Answer, lastCycle: Option<nat>,
                                       lastEdge: Option<nat>)
    requires i == |front| && front <= ss && Standing(front, i, time, answer, lastCycle, lastEdge)
    ensures Standing(ss, i, time, answer, lastCycle, lastEdge)
  {
    hide Apart, Total, AllEdges;
    assert ss[..i] == front && front[..i] == front;
  }

  lemma {:induction false} StandsFirst(ss: seq<Stretch>, time: nat)
    ensures Standing(ss, 0, time, NoCycle, None, None)
  {
    assert ss[..0] == [];
  }

  lemma {:induction false} StandsLast(ss: seq<Stretch>, time: nat, answer: Answer, lastCycle: Option<nat>, lastEdge: Option<nat>)
    requires Standing(ss, |ss|, time, answer, lastCycle, lastEdge)
    ensures Apart(ss) && Total(ss) <= WORD && answer == AnswerOf(AllEdges(ss, time))
  {
    assert ss[..|ss|] == ss;
  }

  /** One round of the loop: why it refuses, and where it stands afterwards. */
  lemma {:induction false} StandsNext(ss: seq<Stretch>, i: nat, time: nat, answer: Answer, lastCycle: Option<nat>, lastEdge: Option<nat>)
    requires i < |ss| && Standing(ss, i, time, answer, lastCycle, lastEdge)
    ensures var s := ss[i];
      var last, first := LastEdge(s), if lastCycle.Some? then lastCycle.value + 1 else 0;
      && (lastEdge.Some? && s.begin <= lastEdge.value ==> !Apart(ss))
      && (first + last > WORD - 1 ==> Total(ss) > WORD)
      && (!(lastEdge.Some? && s.begin <= lastEdge.value) && first + last <= WORD - 1 ==>
            Standing(ss, i + 1, time,
                     if time >= s.begin then Cycle(first + Into(s, time)) else answer,
                     Some(first + last), Some(s.end)))
  {
    hide Edges, Apart, LastEdge, Into;
    var more, s := ss[..i + 1], ss[i];
    assert more[..i] == ss[..i] && more[i] == s;
    TotalGrows(ss, i + 1);
    ApartBefore(ss, i);
    ApartBefore(ss, i + 1);
    EdgesAre(s, time);
    if time >= s.begin && ApartAt(ss, i) {
      assert ss[..i] != [] ==> ss[..i][i - 1] == ss[i - 1];
      AllBefore(ss[..i], time);
    }
  }

  lemma {:induction false} TotalGrows(ss: seq<Stretch>, n: nat)
    requires n <= |ss|
    ensures Total(ss[..n]) <= Total(ss)
    decreases |ss|
  {
    if n == |ss| {
      assert ss[..n] == ss;
    } else {
      TotalGrows(ss[..|ss| - 1], n);
      assert ss[..|ss| - 1][..n] == ss[..n];
    }
  }
}
