/**
 * The scope census: how many distinct signals, variables and scopes each scope holds, subscopes
 * included, found online with a union-find and one weight a scope and without building any set.
 */
module ScopeCensus {
  import opened Options
  import opened Words
  import opened ScopeForest
  import opened UnionFind
  import opened SignalLog
  import opened CensusInvariant
  import opened ContributionTable

  /** What `finish` hands back. */
  datatype ScopeSizes = ScopeSizes(parent: seq<u32>, signals: seq<u32>, variables: seq<u32>, scopes: seq<u32>)

  function Lengths(vars: seq<seq<u32>>): (r: seq<int>)
    ensures |r| == |vars|
  {
    seq(|vars|, i requires 0 <= i < |vars| => |vars[i]|)
  }

  function Ones(n: nat): (r: seq<int>) {
    seq(n, i => 1)
  }

  /** `sizes` answers every question about the declared scopes, in 32-bit words. */
  ghost predicate Measures(sizes: ScopeSizes, parent: seq<u32>, vars: seq<seq<u32>>) {
    && Forest(parent) && |vars| == |parent|
    && sizes.parent == parent
    && |sizes.signals| == |sizes.variables| == |sizes.scopes| == |parent|
    && forall v :: 0 <= v < |parent| ==> MeasuresAt(sizes, parent, vars, v)
  }

  ghost predicate MeasuresAt(sizes: ScopeSizes, parent: seq<u32>, vars: seq<seq<u32>>, v: int)
    requires Forest(parent) && |vars| == |parent| && 0 <= v < |parent|
    requires |sizes.signals| == |sizes.variables| == |sizes.scopes| == |parent|
  {
    && sizes.signals[v] == Wrap(|Signals(parent, vars, v)|)
    && sizes.variables[v] == Wrap(SubtreeSum(parent, Lengths(vars), v))
    && sizes.scopes[v] == |Members(parent, v)|
  }

  lemma {:induction false} RolledUpMeasures(f: Fields, m: Meaning, sizes: ScopeSizes)
    requires Invariant(f, m) && sizes.parent == f.parent
    requires |m.shape.vars| == |f.parent|
    requires RolledUp(f.parent, m.weights, sizes.signals, 0)
    requires RolledUp(f.parent, Lengths(m.shape.vars), sizes.variables, 0)
    requires RolledUp(f.parent, Ones(|f.parent|), sizes.scopes, 0)
    ensures Measures(sizes, f.parent, m.shape.vars)
  {
    forall v | 0 <= v < |f.parent|
      ensures MeasuresAt(sizes, f.parent, m.shape.vars, v)
    {
      assert RolledUpAt(f.parent, m.weights, sizes.signals, 0, v);
      assert WeighsSignalsAt(f.parent, m.shape.vars, m.weights, v);
      assert RolledUpAt(f.parent, Lengths(m.shape.vars), sizes.variables, 0, v);
      assert RolledUpAt(f.parent, Ones(|f.parent|), sizes.scopes, 0, v);
      GatherCountsMembers(f.parent, Ones(|f.parent|), v, |f.parent|);
    }
  }

  lemma {:induction false} RollUpsStart(f: Fields, m: Meaning, scopes: seq<u32>)
    requires Invariant(f, m) && |scopes| == |f.parent| && forall v :: 0 <= v < |scopes| ==> scopes[v] == 1
    ensures |m.shape.vars| == |f.parent|
    ensures RolledUp(f.parent, m.weights, f.signals, |f.parent|)
    ensures RolledUp(f.parent, Lengths(m.shape.vars), f.variables, |f.parent|)
    ensures RolledUp(f.parent, Ones(|f.parent|), scopes, |f.parent|)
  {
    RollUpStart(f.parent, m.weights, f.signals);
    RollUpStart(f.parent, Lengths(m.shape.vars), f.variables);
    RollUpStart(f.parent, Ones(|f.parent|), scopes);
  }

  class Census {
    var parent: seq<u32>
    var uf: seq<u32>
    var anc: seq<u32>
    var signals: seq<u32>
    var variables: seq<u32>
    var last: seq<u32>
    var open: seq<u32>
    var record: Option<seq<(u32, u32)>>

    ghost var meaning: Meaning

    ghost function Values(): Fields
      reads this
    {
      Fields(parent, uf, anc, signals, variables, last, open, record)
    }

    ghost predicate Valid()
      reads this
    {
      Invariant(Values(), meaning)
    }

    /** Every call made on this census so far. */
    ghost function Run(): seq<Step>
      reads this
    {
      meaning.run
    }

    constructor (recording: bool)
      ensures Valid() && Run() == [] && record.Some? == recording
    {
      parent, uf, anc, signals, variables, last, open := [], [], [], [], [], [], [];
      record := if recording then Some([]) else None;
      meaning := Meaning([], EMPTY, [], []);
    }

    method Enter() returns (i: u32)
      requires Valid() && |parent| < Limit(record)
      modifies this
      ensures Valid() && Run() == old(Run()) + [ScopeForest.Enter] && record.Some? == old(record.Some?)
      ensures i == |old(parent)|
    {
      hide Invariant;
      meaning := EnterKeeps(Values(), meaning);
      i := |parent|;
      parent := parent + [if open == [] then NONE else open[|open| - 1]];
      uf := uf + [i];
      anc := anc + [i];
      signals := signals + [0];
      variables := variables + [0];
      open := open + [i];
    }

    method Find(x0: u32) returns (r: u32)
      requires Links(uf) && x0 < |uf|
      modifies this`uf
      ensures SameRoots(old(uf), uf) && r == Root(uf, x0)
    {
      var x: u32 := x0;
      r := x;
      while uf[r] != r
        invariant r < |uf| && Root(uf, r) == Root(uf, x0)
        decreases r
      {
        r := uf[r];
      }
      SameRootsRefl(uf);
      while uf[x] != r
        invariant SameRoots(old(uf), uf) && x < |uf| && x0 < |uf| && r < |uf|
        invariant Root(uf, x) == r && Root(uf, x0) == r
        decreases x
      {
        var n := uf[x];
        CompressStep(old(uf), uf, x);
        RootAfterCompress(uf, x, n);
        RootAfterCompress(uf, x, x0);
        uf := uf[x := r];
        x := n;
      }
    }

    /** Takes one back from the deepest open scope around the scope that declared `signal` last. */
    method Repay(signal: u32, prev: u32, ghost f: Fields)
      requires Invariant(f, meaning) && uf == f.uf && anc == f.anc && |signals| == |f.parent|
      requires prev == NONE || prev < |f.parent|
      modifies `uf, `signals, `record
      ensures Forest(f.parent) && SameRoots(old(uf), uf)
      ensures var l := Payer(f.parent, f.open, prev);
        && (l == NONE || l < |f.parent|)
        && signals == SignalsPaid(old(signals), l)
        && record == if l == NONE then old(record) else Noted(old(record), signal, Signed(l))
    {
      hide Invariant, SameRoots, Forest;
      InvariantShapes(f, meaning);
      if prev != NONE {
        var root := Find(prev);
        LookUp(f, meaning, uf, prev);
        var l: u32 := anc[root];
        if l != NONE {
          signals := signals[l := WrappingSub(signals[l], 1)];
          record := Noted(record, signal, Signed(l));
        }
      } else {
        SameRootsRefl(uf);
      }
    }

    /** Declares a variable that refers to `signal` in the innermost open scope. */
    method Var(signal: u32)
      requires Valid() && open != []
      modifies this
      ensures Valid() && Run() == old(Run()) + [ScopeForest.Var(signal)] && record.Some? == old(record.Some?)
    {
      hide Invariant, Forest, OpenChain, SameRoots, Links, Payer, SignalsPaid, Noted;
      InvariantShapes(Values(), meaning);
      var i: u32 := open[|open| - 1];
      variables := variables[i := WrappingAdd(variables[i], 1)];
      if signal >= |last| {
        last := last + seq(signal + 1 - |last|, _ => NONE);
      }
      assert last == Grown(old(last), signal);
      var prev: u32 := last[signal];
      if prev == i {
        assert last == old(last);
        meaning := RepeatKeepsAll(old(Values()), meaning, signal);
        return;
      }
      signals := signals[i := WrappingAdd(signals[i], 1)];
      record := Noted(record, signal, i);
      Repay(signal, prev, old(Values()));
      last := last[signal := i];
      ghost var l := Payer(parent, open, prev);
      meaning := VarKeeps(old(Values()), meaning, signal, uf);
      assert Values() == Declared(old(Values()), signal, uf, i, l);
    }

    /** Closes the innermost open scope. */
    method Leave()
      requires Valid() && open != []
      modifies this
      ensures Valid() && Run() == old(Run()) + [ScopeForest.Leave] && record.Some? == old(record.Some?)
      ensures open == old(open)[..|old(open)| - 1] && parent == old(parent)
      ensures meaning.shape.vars == old(meaning.shape.vars) && meaning.log == old(meaning.log) && record == old(record)
    {
      hide Invariant, Forest, SameRoots, Links, OpenChain;
      InnermostFacts(Values(), meaning);
      var i: u32 := open[|open| - 1];
      var p: u32 := parent[i];
      open := open[..|open| - 1];
      var b := Find(i);
      ghost var f := old(Values()).(uf := uf);
      FindKeeps(old(Values()), meaning, uf);
      InnermostFacts(f, meaning);
      if p == NONE {
        anc := anc[b := NONE];
      } else {
        var a := Find(p);
        FindKeeps(f, meaning, uf);
        f := f.(uf := uf);
        InnermostFacts(f, meaning);
        uf := uf[b := a];
        anc := anc[a := p];
      }
      meaning := LeaveKeeps(f, meaning);
    }

    method Finish() returns (sizes: ScopeSizes)
      requires Valid()
      modifies this
      ensures var declared := ShapeOf(old(Run())); Measures(sizes, declared.parent, declared.vars)
    {
      hide Invariant, Follows, Forest, OpenChain, Links, RolledUp, Measures, WellBracketed, ShapeOf, Ones, Lengths;
      InvariantFollows(Values(), meaning);
      while open != []
        invariant Valid()
        invariant parent == old(parent) && meaning.shape.vars == old(meaning.shape.vars)
        decreases |open|
      {
        Leave();
      }
      ghost var f, vars := Values(), meaning.shape.vars;
      InvariantShapes(f, meaning);
      var n := |parent|;
      var scopes: seq<u32> := seq(n, _ => 1);
      RollUpsStart(f, meaning, scopes);
      for i := n downto 0
        invariant Invariant(f, meaning) && parent == f.parent && n == |f.parent| && meaning.shape.vars == vars && |vars| == n
        invariant |signals| == |variables| == |scopes| == n
        invariant RolledUp(parent, meaning.weights, signals, i)
        invariant RolledUp(parent, Lengths(vars), variables, i)
        invariant RolledUp(parent, Ones(n), scopes, i)
      {
        ForestAt(parent, f, meaning, i);
        RollUpStep(parent, meaning.weights, signals, i);
        RollUpStep(parent, Lengths(vars), variables, i);
        RollUpStep(parent, Ones(n), scopes, i);
        var p: u32 := parent[i];
        if p != NONE {
          signals := signals[p := WrappingAdd(signals[p], signals[i])];
          variables := variables[p := WrappingAdd(variables[p], variables[i])];
          scopes := scopes[p := WrappingAdd(scopes[p], scopes[i])];
        }
      }
      sizes := ScopeSizes(parent, signals, variables, scopes);
      RolledUpMeasures(f, meaning, sizes);
    }

    /** Finishes a recording census; the entries are offset by 32-bit words, so there are fewer than 2^32. */
    method FinishRecorded() returns (sizes: ScopeSizes, contributions: Contributions)
      requires Valid()
      requires record.Some? ==> |record.value| < TWO_32
      modifies this
      ensures var declared := ShapeOf(old(Run()));
        && Measures(sizes, declared.parent, declared.vars)
        && (old(record.Some?) ==> Answers(contributions, declared.parent, declared.vars))
    {
      hide Invariant, Measures, Answers, Groups, Balanced, IsRecordOf, ShapeOf;
      var entries: seq<(u32, u32)> := match record case None => [] case Some(e) => e;
      ghost var log := RecordedLog(Values(), meaning);
      var off, weights := GroupBySignal(entries, log);
      ghost var f, vars := Values(), meaning.shape.vars;
      InvariantFollows(f, meaning);
      sizes := Finish();
      SizesParent(sizes, f.parent, vars);
      contributions := Contributions(sizes.parent, off, weights);
      if f.record.Some? {
        RecordedAnswers(contributions, f, old(meaning), log);
      }
    }
  }

  lemma {:induction false} SizesParent(sizes: ScopeSizes, parent: seq<u32>, vars: seq<seq<u32>>)
    requires Measures(sizes, parent, vars)
    ensures sizes.parent == parent
  {
  }

  lemma {:induction false} RecordedLog(f: Fields, m: Meaning) returns (log: seq<Contribution>)
    requires Invariant(f, m)
    ensures log == if f.record.Some? then m.log else []
    ensures IsRecordOf(if f.record.Some? then f.record.value else [], log)
  {
    log := if f.record.Some? then m.log else [];
  }

  lemma {:induction false} RecordedAnswers(c: Contributions, f: Fields, m: Meaning, log: seq<Contribution>)
    requires Invariant(f, m) && f.record.Some? && log == m.log
    requires c.parent == f.parent && Groups(c.off, c.weights, log)
    ensures Answers(c, f.parent, m.shape.vars)
  {
    GroupsAnswer(c, f.parent, m.shape.vars, log);
  }

  /** Counting every declared signal once gives the sizes themselves. */
  lemma {:induction false} CountOfAllIsSize(sizes: ScopeSizes, out: seq<u32>, parent: seq<u32>, vars: seq<seq<u32>>, list: seq<u32>)
    requires Measures(sizes, parent, vars) && CountsHits(out, parent, vars, list)
    requires NoDuplicates(list)
    requires forall j, s {:trigger s in vars[j]} :: 0 <= j < |parent| && s in vars[j] ==> s in list
    ensures out == sizes.signals
  {
    forall v | 0 <= v < |parent|
      ensures out[v] == sizes.signals[v]
    {
      assert MeasuresAt(sizes, parent, vars, v);
      HitsOfDistinct(list, Signals(parent, vars, v));
      assert Elements(list) * Signals(parent, vars, v) == Signals(parent, vars, v);
    }
  }

  /** A count below 2^32 is kept exactly. */
  lemma {:induction false} MeasuresExactly(sizes: ScopeSizes, parent: seq<u32>, vars: seq<seq<u32>>, v: int)
    requires Measures(sizes, parent, vars) && 0 <= v < |parent|
    ensures |Signals(parent, vars, v)| < TWO_32 ==> sizes.signals[v] == |Signals(parent, vars, v)|
    ensures 0 <= SubtreeSum(parent, Lengths(vars), v) < TWO_32 ==> sizes.variables[v] == SubtreeSum(parent, Lengths(vars), v)
    ensures sizes.scopes[v] == |Members(parent, v)|
  {
    assert MeasuresAt(sizes, parent, vars, v);
  }
}
