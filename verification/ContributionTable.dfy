/**
 * Counting any subset of the signals: the record grouped by signal with a counting sort, and the
 * sum of the wanted signals' entries over the scopes.
 */
module ContributionTable {
  import opened Words
  import opened ScopeForest
  import opened SignalLog
  import opened CensusInvariant

  datatype Contributions = Contributions(parent: seq<u32>, off: seq<u32>, weights: seq<u32>)

  /** The entry a recorded word stands for. */
  function Decode(s: u32, word: u32): Contribution {
    if word < NEGATIVE then Contribution(s, word, true) else Contribution(s, word - NEGATIVE, false)
  }

  function Decoded(s: u32, words: seq<u32>): seq<Contribution> {
    seq(|words|, k requires 0 <= k < |words| => Decode(s, words[k]))
  }

  /** `c` can answer for every signal: its slice of words adds up, over any subtree, to one or zero. */
  ghost predicate Answers(c: Contributions, parent: seq<u32>, vars: seq<seq<u32>>) {
    && Forest(parent) && |vars| == |parent| && c.parent == parent
    && (forall s: u32 :: HasSlice(c.off, c.weights, s))
    && (forall k :: 0 <= k < |c.weights| ==> Decode(0, c.weights[k]).scope < |parent|)
    && forall s: u32, v: int :: 0 <= v < |parent| ==> AnswersAt(c, parent, vars, s, v)
  }

  /** The offsets of signal `s`, when it has any, bound a slice of the words. */
  ghost predicate HasSlice(off: seq<u32>, weights: seq<u32>, s: u32) {
    s + 1 < |off| ==> off[s] <= off[s + 1] <= |weights|
  }

  ghost predicate AnswersAt(c: Contributions, parent: seq<u32>, vars: seq<seq<u32>>, s: u32, v: int)
    requires Forest(parent) && |vars| == |parent|
  {
    if s + 1 < |c.off| then
      && HasSlice(c.off, c.weights, s)
      && var col := Decoded(s, c.weights[c.off[s]..c.off[s + 1]]);
         InForest(parent, col) && Net(parent, col, v) == Bit(s in Signals(parent, vars, v))
    else
      s !in Signals(parent, vars, v)
  }

  // ---------------------------------------------------------------- the counting sort

  /** The number of entries for signals below `s`: where the entries of `s` start. */
  ghost function Below(log: seq<Contribution>, s: nat): nat {
    if s == 0 then 0 else Below(log, s - 1) + |Column(log, s - 1)|
  }

  lemma {:induction false} BelowMonotone(log: seq<Contribution>, s: nat, t: nat)
    requires s < t
    ensures Below(log, s) + |Column(log, s)| <= Below(log, t)
  {
    if s < t - 1 {
      BelowMonotone(log, s, t - 1);
    }
  }

  lemma {:induction false} BelowEverything(log: seq<Contribution>, s: nat)
    ensures Below(log, s) <= |log|
    ensures (forall k :: 0 <= k < |log| ==> log[k].signal < s) ==> Below(log, s) == |log|
  {
    if log == [] {
      BelowNothing(s);
    } else {
      var before := log[..|log| - 1];
      BelowEverything(before, s);
      BelowOfLast(log, s);
    }
  }

  lemma {:induction false} BelowNothing(s: nat)
    ensures Below([], s) == 0
  {
    if s > 0 {
      BelowNothing(s - 1);
    }
  }

  lemma {:induction false} BelowOfLast(log: seq<Contribution>, s: nat)
    requires log != []
    ensures Below(log, s) == Below(log[..|log| - 1], s) + if log[|log| - 1].signal < s then 1 else 0
  {
    if s > 0 {
      BelowOfLast(log, s - 1);
    }
  }

  /** What the first `k` entries contribute to a column is a prefix of it. */
  lemma {:induction false} ColumnPrefix(log: seq<Contribution>, k: nat, s: int)
    requires k <= |log|
    ensures |Column(log[..k], s)| <= |Column(log, s)|
    ensures k < |log| ==> Column(log[..k + 1], s) == Column(log[..k], s) + if log[k].signal == s then [log[k]] else []
    ensures k < |log| && log[k].signal == s ==> |Column(log[..k], s)| < |Column(log, s)|
    decreases |log| - k
  {
    if k < |log| {
      assert log[..k + 1][..|log[..k + 1]| - 1] == log[..k];
      ColumnPrefix(log, k + 1, s);
    } else {
      assert log[..k] == log;
    }
  }

  lemma {:induction false} ColumnEntries(log: seq<Contribution>, s: int, t: nat)
    requires t < |Column(log, s)|
    ensures Column(log, s)[t].signal == s
    ensures Column(log, s)[t] in log
  {
    var before := log[..|log| - 1];
    if t < |Column(before, s)| {
      ColumnEntries(before, s, t);
    }
  }

  ghost predicate StartsAt(off: seq<u32>, log: seq<Contribution>) {
    forall t {:trigger off[t]} :: 0 <= t < |off| ==> off[t] == Below(log, t)
  }

  /** The words of a column, from its start on. */
  ghost predicate Placed(weights: seq<u32>, start: nat, col: seq<Contribution>) {
    && start + |col| <= |weights|
    && forall t :: 0 <= t < |col| ==> col[t].scope < TWO_31 && weights[start + t] == Word(col[t])
  }

  /** Offsets and words grouped by signal, each signal's words in the order they were recorded. */
  ghost predicate Groups(off: seq<u32>, weights: seq<u32>, log: seq<Contribution>) {
    && off != [] && StartsAt(off, log) && |weights| == |log|
    && (forall k :: 0 <= k < |log| ==> log[k].signal < |off| - 1)
    && forall s :: 0 <= s < |off| - 1 ==> PlacedAt(weights, log, s)
  }

  ghost predicate PlacedAt(weights: seq<u32>, log: seq<Contribution>, s: nat) {
    Placed(weights, Below(log, s), Column(log, s))
  }

  method GroupBySignal(record: seq<(u32, u32)>, ghost log: seq<Contribution>)
    returns (off: seq<u32>, weights: seq<u32>)
    requires IsRecordOf(record, log) && |record| < TWO_32
    ensures Groups(off, weights, log)
  {
    var signals: int := 0;
    for k := 0 to |record|
      invariant signals >= 0
      invariant forall j :: 0 <= j < k ==> log[j].signal < signals
    {
      var s: int := record[k].0;
      if s + 1 > signals {
        signals := s + 1;
      }
    }
    off := CountPerSignal(record, log, signals);
    off := SumUp(off, log, signals);
    weights := Place(record, log, off);
  }

  method CountPerSignal(record: seq<(u32, u32)>, ghost log: seq<Contribution>, signals: nat) returns (off: seq<u32>)
    requires IsRecordOf(record, log) && |record| < TWO_32
    requires forall j :: 0 <= j < |log| ==> log[j].signal < signals
    ensures |off| == signals + 1 && off[0] == 0
    ensures Sizes(off, log, |log|, 0)
  {
    off := seq(signals + 1, _ => 0);
    for k := 0 to |record|
      invariant |off| == signals + 1 && off[0] == 0
      invariant Sizes(off, log, k, 0)
    {
      var s: nat := record[k].0;
      SizesStep(off, log, k, s);
      off := off[s + 1 := off[s + 1] + 1];
    }
  }

  /** From `from` on, `off` holds one place up how many of the first `k` entries each signal has. */
  ghost predicate Sizes(off: seq<u32>, log: seq<Contribution>, k: nat, from: nat)
    requires k <= |log|
  {
    forall t {:trigger off[t]} :: from < t < |off| ==> off[t] == |Column(log[..k], t - 1)|
  }

  lemma {:induction false} SizesStep(off: seq<u32>, log: seq<Contribution>, k: nat, s: nat)
    requires k < |log| < TWO_32 && s == log[k].signal && s + 1 < |off| && Sizes(off, log, k, 0)
    ensures off[s + 1] + 1 < TWO_32 && Sizes(off[s + 1 := off[s + 1] + 1], log, k + 1, 0)
  {
    ColumnPrefix(log, k, s);
    BelowEverything(log, s + 1);
    var off' := off[s + 1 := off[s + 1] + 1];
    forall t | 0 < t < |off'|
      ensures off'[t] == |Column(log[..k + 1], t - 1)|
    {
      ColumnPrefix(log, k, t - 1);
    }
  }

  method SumUp(counts: seq<u32>, ghost log: seq<Contribution>, signals: nat) returns (off: seq<u32>)
    requires |counts| == signals + 1 && counts[0] == 0 && |log| < TWO_32
    requires Sizes(counts, log, |log|, 0)
    ensures |off| == signals + 1 && StartsAt(off, log)
  {
    off := counts;
    assert log[..|log|] == log;
    for i := 0 to signals
      invariant |off| == signals + 1
      invariant forall t {:trigger off[t]} :: 0 <= t <= i ==> off[t] == Below(log, t)
      invariant Sizes(off, log, |log|, i)
    {
      BelowEverything(log, i + 1);
      off := off[i + 1 := off[i + 1] + off[i]];
    }
  }

  /** `next` is where each signal's next word goes. */
  ghost predicate NextPlaces(next: seq<u32>, log: seq<Contribution>, k: nat)
    requires k <= |log|
  {
    forall s {:trigger next[s]} :: 0 <= s < |next| - 1 ==> next[s] == Below(log, s) + |Column(log[..k], s)|
  }

  method Place(record: seq<(u32, u32)>, ghost log: seq<Contribution>, off: seq<u32>) returns (weights: seq<u32>)
    requires IsRecordOf(record, log) && off != [] && StartsAt(off, log) && |log| < TWO_32
    requires forall k :: 0 <= k < |log| ==> log[k].signal < |off| - 1
    ensures Groups(off, weights, log)
  {
    var next := off;
    weights := seq(|record|, _ => 0);
    assert log[..0] == [];
    forall s | 0 <= s < |off| - 1
      ensures Placed(weights, Below(log, s), Column(log[..0], s))
    {
      BelowEverything(log, s);
    }
    assert NextPlaces(next, log, 0);
    hide Placed, Column, Below;
    for k := 0 to |record|
      invariant |next| == |off| && |weights| == |log|
      invariant NextPlaces(next, log, k)
      invariant forall s :: 0 <= s < |off| - 1 ==> Placed(weights, Below(log, s), Column(log[..k], s))
    {
      var s: u32, w: u32 := record[k].0, record[k].1;
      PlaceStep(record, log, off, next, weights, k);
      weights := weights[next[s] := w];
      next := next[s := next[s] + 1];
    }
    assert log[..|record|] == log;
    assert forall s :: 0 <= s < |off| - 1 ==> PlacedAt(weights, log, s);
  }

  lemma {:induction false} PlaceStep(record: seq<(u32, u32)>, log: seq<Contribution>, off: seq<u32>,
        next: seq<u32>, weights: seq<u32>, k: nat)
    requires IsRecordOf(record, log) && k < |log| < TWO_32 && |next| == |off| && |weights| == |log|
    requires forall j :: 0 <= j < |log| ==> log[j].signal < |off| - 1
    requires NextPlaces(next, log, k)
    requires forall s :: 0 <= s < |off| - 1 ==> Placed(weights, Below(log, s), Column(log[..k], s))
    ensures var s := record[k].0;
      && s < |next| - 1 && next[s] < |weights| && next[s] + 1 < TWO_32
      && NextPlaces(next[s := next[s] + 1], log, k + 1)
      && forall g :: 0 <= g < |off| - 1 ==>
           Placed(weights[next[s] := record[k].1], Below(log, g), Column(log[..k + 1], g))
  {
    var s := record[k].0;
    assert s == log[k].signal;
    assert next[s] == Below(log, s) + |Column(log[..k], s)|;
    ColumnPrefix(log, k, s);
    BelowMonotone(log, s, |off| - 1);
    BelowEverything(log, |off| - 1);
    forall g | 0 <= g < |off| - 1
      ensures Placed(weights[next[s] := record[k].1], Below(log, g), Column(log[..k + 1], g))
    {
      assert Placed(weights, Below(log, g), Column(log[..k], g));
      PlaceKeeps(record, log, weights, k, g);
    }
    forall g | 0 <= g < |next| - 1
      ensures next[s := next[s] + 1][g] == Below(log, g) + |Column(log[..k + 1], g)|
    {
      ColumnPrefix(log, k, g);
      assert next[g] == Below(log, g) + |Column(log[..k], g)|;
    }
  }

  lemma {:induction false} PlaceKeeps(record: seq<(u32, u32)>, log: seq<Contribution>, weights: seq<u32>, k: nat, g: nat)
    requires IsRecordOf(record, log) && k < |log| == |weights|
    requires Placed(weights, Below(log, g), Column(log[..k], g))
    requires Below(log, log[k].signal) + |Column(log, log[k].signal)| <= |log|
    ensures var at := Below(log, log[k].signal) + |Column(log[..k], log[k].signal)|;
      && at < |weights|
      && Placed(weights[at := record[k].1], Below(log, g), Column(log[..k + 1], g))
  {
    hide Column, Below;
    var s: nat := log[k].signal;
    ColumnPrefix(log, k, s);
    ColumnPrefix(log, k, g);
    if g < s {
      BelowMonotone(log, g, s);
    } else if s < g {
      BelowMonotone(log, s, g);
    }
  }

  /** Grouping a balanced log by signal yields contributions that can answer. */
  lemma {:induction false} GroupsAnswer(c: Contributions, parent: seq<u32>, vars: seq<seq<u32>>, log: seq<Contribution>)
    requires Balanced(parent, vars, log) && c.parent == parent && Groups(c.off, c.weights, log)
    requires forall k :: 0 <= k < |log| ==> log[k].scope < TWO_31
    ensures Answers(c, parent, vars)
  {
    BelowEverything(log, |c.off| - 1);
    hide Groups, InForest, Column, Below, Forest, Net, Signals;
    forall s: u32
      ensures HasSlice(c.off, c.weights, s)
    {
      SliceIsColumn(c.off, c.weights, log, s);
    }
    forall s: u32, v: int | 0 <= v < |parent|
      ensures AnswersAt(c, parent, vars, s, v)
    {
      assert BalancedAt(parent, vars, log, s, v);
      SliceIsColumn(c.off, c.weights, log, s);
    }
    forall k | 0 <= k < |c.weights|
      ensures Decode(0, c.weights[k]).scope < |parent|
    {
      EveryWordDecodes(c, parent, log, |c.off| - 1, k);
    }
  }

  lemma {:induction false} SliceIsColumn(off: seq<u32>, weights: seq<u32>, log: seq<Contribution>, s: u32)
    requires Groups(off, weights, log)
    ensures HasSlice(off, weights, s)
    ensures if s + 1 < |off| then
        Decoded(s, weights[off[s]..off[s + 1]]) == Column(log, s)
      else Column(log, s) == []
  {
    if s + 1 < |off| {
      assert off[s] == Below(log, s) && off[s + 1] == Below(log, s + 1);
      BelowEverything(log, s + 1);
      assert PlacedAt(weights, log, s);
      var col, words := Column(log, s), weights[off[s]..off[s + 1]];
      forall t | 0 <= t < |col|
        ensures Decode(s, words[t]) == col[t]
      {
        ColumnEntries(log, s, t);
      }
    } else {
      NoColumn(log, s);
    }
  }

  lemma {:induction false} NoColumn(log: seq<Contribution>, s: u32)
    requires forall k :: 0 <= k < |log| ==> log[k].signal < s
    ensures Column(log, s) == []
  {
    if log != [] {
      NoColumn(log[..|log| - 1], s);
    }
  }

  lemma {:induction false} EveryWordDecodes(c: Contributions, parent: seq<u32>, log: seq<Contribution>, s: nat, k: nat)
    requires Groups(c.off, c.weights, log) && InForest(parent, log)
    requires s < |c.off| && k < Below(log, s)
    ensures k < |c.weights| && Decode(0, c.weights[k]).scope < |parent|
  {
    hide InForest, StartsAt, Column, Placed;
    if k < Below(log, s - 1) {
      EveryWordDecodes(c, parent, log, s - 1, k);
    } else {
      ColumnInForest(parent, log, s - 1);
      assert PlacedAt(c.weights, log, s - 1);
      PlacedDecodes(parent, c.weights, Below(log, s - 1), Column(log, s - 1), k - Below(log, s - 1));
    }
  }

  lemma {:induction false} PlacedDecodes(parent: seq<u32>, weights: seq<u32>, start: nat, col: seq<Contribution>, t: nat)
    requires Placed(weights, start, col) && InForest(parent, col) && t < |col|
    ensures start + t < |weights| && Decode(0, weights[start + t]).scope < |parent|
  {
    assert weights[start + t] == Word(col[t]);
  }

  // ---------------------------------------------------------------- counting a subset

  /** How many elements of the list lie in the set. */
  ghost function Hits(list: seq<u32>, wanted: set<u32>): nat {
    if list == [] then 0 else Hits(list[..|list| - 1], wanted) + if list[|list| - 1] in wanted then 1 else 0
  }

  ghost predicate NoDuplicates(list: seq<u32>) {
    forall i, j :: 0 <= i < j < |list| ==> list[i] != list[j]
  }

  ghost function Elements(list: seq<u32>): set<u32> {
    set s | s in list
  }

  lemma {:induction false} WithoutLast(list: seq<u32>)
    requires NoDuplicates(list) && list != []
    ensures var n := |list| - 1;
      && NoDuplicates(list[..n]) && list[n] !in Elements(list[..n])
      && Elements(list) == Elements(list[..n]) + {list[n]}
  {
    var n := |list| - 1;
    assert list == list[..n] + [list[n]];
  }

  /** On a list without duplicates that is the size of an intersection. */
  lemma {:induction false} HitsOfDistinct(list: seq<u32>, wanted: set<u32>)
    requires NoDuplicates(list)
    ensures Hits(list, wanted) == |Elements(list) * wanted|
  {
    if list != [] {
      var n := |list| - 1;
      WithoutLast(list);
      hide NoDuplicates, Elements;
      HitsOfDistinct(list[..n], wanted);
      OneMore(Elements(list[..n]), list[n], wanted);
    }
  }

  lemma {:induction false} OneMore(some: set<u32>, x: u32, wanted: set<u32>)
    requires x !in some
    ensures |(some + {x}) * wanted| == |some * wanted| + Bit(x in wanted)
  {
    if x in wanted {
      assert (some + {x}) * wanted == some * wanted + {x};
    } else {
      assert (some + {x}) * wanted == some * wanted;
    }
  }

  lemma {:induction false} HitsStep(list: seq<u32>, k: nat, wanted: set<u32>)
    requires k < |list|
    ensures Hits(list[..k + 1], wanted) == Hits(list[..k], wanted) + Bit(list[k] in wanted)
  {
    assert list[..k + 1][..k] == list[..k];
  }

  /** The words `out` keep integers whose subtree sums are `Hits` of the list so far plus a partial net. */
  ghost predicate Tallies(parent: seq<u32>, vars: seq<seq<u32>>, w: seq<int>, out: seq<u32>, list: seq<u32>, col: seq<Contribution>) {
    && Forest(parent) && |vars| == |w| == |out| == |parent| && InForest(parent, col)
    && (forall v :: 0 <= v < |w| ==> out[v] == Wrap(w[v]))
    && forall v :: 0 <= v < |parent| ==> TalliesAt(parent, vars, w, list, col, v)
  }

  ghost predicate TalliesAt(parent: seq<u32>, vars: seq<seq<u32>>, w: seq<int>, list: seq<u32>, col: seq<Contribution>, v: int)
    requires Forest(parent) && |vars| == |w| == |parent| && InForest(parent, col)
  {
    SubtreeSum(parent, w, v) == Hits(list, Signals(parent, vars, v)) + Net(parent, col, v)
  }

  lemma {:induction false} TallyStart(parent: seq<u32>, vars: seq<seq<u32>>, w: seq<int>, out: seq<u32>)
    requires Forest(parent) && |vars| == |w| == |out| == |parent|
    requires forall v :: 0 <= v < |parent| ==> w[v] == 0 && out[v] == 0
    ensures Tallies(parent, vars, w, out, [], [])
  {
    forall v | 0 <= v < |parent|
      ensures TalliesAt(parent, vars, w, [], [], v)
    {
      GatherOfZeros(parent, w, v, |parent|);
    }
  }

  lemma {:induction false} GatherOfZeros(parent: seq<u32>, w: seq<int>, v: int, k: nat)
    requires Forest(parent) && |w| == |parent| && k <= |parent|
    requires forall j :: 0 <= j < |w| ==> w[j] == 0
    ensures Gather(parent, w, v, 0, k) == 0
  {
    if k > 0 {
      GatherOfZeros(parent, w, v, k - 1);
    }
  }

  lemma {:induction false} TallyEntry(parent: seq<u32>, vars: seq<seq<u32>>, w: seq<int>, out: seq<u32>, list: seq<u32>,
        col: seq<Contribution>, e: Contribution)
    requires Tallies(parent, vars, w, out, list, col) && e.scope < |parent|
    ensures var d := if e.gain then 1 else -1;
      Tallies(parent, vars, w[e.scope := w[e.scope] + d], out[e.scope := Wrap(out[e.scope] + d)], list, col + [e])
  {
    var d := if e.gain then 1 else -1;
    var w' := w[e.scope := w[e.scope] + d];
    WrapOfSum(w[e.scope], 1);
    forall v | 0 <= v < |parent|
      ensures InForest(parent, col + [e]) && TalliesAt(parent, vars, w', list, col + [e], v)
    {
      assert TalliesAt(parent, vars, w, list, col, v);
      GatherAfterUpdate(parent, w, v, 0, |parent|, e.scope, d);
      NetOfAppend(parent, col, e, v);
    }
  }

  /** A signal whose entries are all in is one more hit wherever it occurs. */
  lemma {:induction false} TallySignal(c: Contributions, vars: seq<seq<u32>>, w: seq<int>, out: seq<u32>,
        list: seq<u32>, k: nat, col: seq<Contribution>)
    requires Answers(c, c.parent, vars) && k < |list|
    requires Tallies(c.parent, vars, w, out, list[..k], col)
    requires if list[k] + 1 < |c.off| then
        HasSlice(c.off, c.weights, list[k]) &&
        col == Decoded(list[k], c.weights[c.off[list[k]]..c.off[list[k] + 1]])
      else col == []
    ensures Tallies(c.parent, vars, w, out, list[..k + 1], [])
  {
    var now := list[..k + 1];
    forall v | 0 <= v < |c.parent|
      ensures TalliesAt(c.parent, vars, w, now, [], v)
    {
      assert TalliesAt(c.parent, vars, w, list[..k], col, v);
      assert AnswersAt(c, c.parent, vars, list[k], v);
      HitsStep(list, k, Signals(c.parent, vars, v));
    }
  }

  ghost predicate CountsHits(out: seq<u32>, parent: seq<u32>, vars: seq<seq<u32>>, list: seq<u32>) {
    && Forest(parent) && |vars| == |out| == |parent|
    && forall v {:trigger out[v]} :: 0 <= v < |parent| ==> out[v] == Wrap(Hits(list, Signals(parent, vars, v)))
  }

  lemma {:induction false} TalliesRollUp(parent: seq<u32>, vars: seq<seq<u32>>, w: seq<int>, tallied: seq<u32>, out: seq<u32>, list: seq<u32>)
    requires Tallies(parent, vars, w, tallied, list, []) && RolledUp(parent, w, out, 0)
    ensures CountsHits(out, parent, vars, list)
  {
    forall v | 0 <= v < |parent|
      ensures out[v] == Wrap(Hits(list, Signals(parent, vars, v)))
    {
      assert TalliesAt(parent, vars, w, list, [], v);
      assert RolledUpAt(parent, w, out, 0, v);
    }
  }

  /** For every scope, how many of the listed signals occur in its subtree; unknown signals count nothing. */
  method Count(c: Contributions, signals: seq<u32>, ghost vars: seq<seq<u32>>) returns (out: seq<u32>)
    requires Answers(c, c.parent, vars)
    ensures CountsHits(out, c.parent, vars, signals)
  {
    hide Forest, Tallies, RolledUp, CountsHits, InForest;
    var n := |c.parent|;
    out := seq(n, _ => 0);
    ghost var w: seq<int> := seq(n, _ => 0);
    TallyStart(c.parent, vars, w, out);
    var known := if |c.off| == 0 then 0 else |c.off| - 1;
    for k := 0 to |signals|
      invariant |w| == |out| == n && Tallies(c.parent, vars, w, out, signals[..k], [])
    {
      var s: u32 := signals[k];
      ghost var col: seq<Contribution> := [];
      if s < known {
        assert HasSlice(c.off, c.weights, s);
        ghost var words := c.weights[c.off[s]..c.off[s + 1]];
        for j := c.off[s] to c.off[s + 1]
          invariant |w| == |out| == n
          invariant col == Decoded(s, words[..j - c.off[s]])
          invariant Tallies(c.parent, vars, w, out, signals[..k], col)
        {
          var word: u32 := c.weights[j];
          var scope: u32 := if word < NEGATIVE then word else word - NEGATIVE;
          assert Decode(0, word).scope == scope && words[j - c.off[s]] == word;
          ghost var e := Decode(s, word);
          TallyEntry(c.parent, vars, w, out, signals[..k], col, e);
          out := out[scope := if word < NEGATIVE then WrappingAdd(out[scope], 1) else WrappingSub(out[scope], 1)];
          w := w[scope := w[scope] + if e.gain then 1 else -1];
          assert words[..j + 1 - c.off[s]] == words[..j - c.off[s]] + [word];
          col := col + [e];
        }
        assert words[..c.off[s + 1] - c.off[s]] == words;
      }
      TallySignal(c, vars, w, out, signals, k, col);
    }
    assert signals[..|signals|] == signals;
    ghost var tallied := out;
    TalliesAreWords(c.parent, vars, w, out, signals);
    for i := n downto 0
      invariant |out| == n && RolledUp(c.parent, w, out, i)
    {
      RollUpStep(c.parent, w, out, i);
      var p: u32 := c.parent[i];
      if p != NONE {
        out := out[p := WrappingAdd(out[p], out[i])];
      }
    }
    TalliesRollUp(c.parent, vars, w, tallied, out, signals);
  }

  lemma {:induction false} TalliesAreWords(parent: seq<u32>, vars: seq<seq<u32>>, w: seq<int>, out: seq<u32>, list: seq<u32>)
    requires Tallies(parent, vars, w, out, list, [])
    ensures RolledUp(parent, w, out, |parent|)
    ensures forall i :: 0 <= i < |parent| ==> parent[i] == NONE || parent[i] < |parent|
  {
    RollUpStart(parent, w, out);
  }
}
