/**
 * What the fields of the census mean, and why every call keeps that meaning. Each predicate is about
 * the values of a few fields; `Census` keeps all of them true.
 */
module CensusInvariant {
  import opened Options
  import opened Words
  import opened ScopeForest
  import opened UnionFind
  import opened SignalLog

  // ---------------------------------------------------------------- the meaning of the fields

  /** `shape` is what the run of calls declares. */
  ghost predicate Follows(run: seq<Step>, shape: Shape) {
    WellBracketed(run) && shape == ShapeOf(run) && shape.Ok()
  }

  ghost predicate CountsVariables(vars: seq<seq<u32>>, variables: seq<u32>) {
    && |variables| == |vars|
    && forall i :: 0 <= i < |vars| ==> variables[i] == Wrap(|vars[i]|)
  }

  /** The look-up the count rests on: the ancestor kept by a representative is the deepest open scope. */
  ghost predicate FindsDeepest(parent: seq<u32>, open: seq<u32>, uf: seq<u32>, anc: seq<u32>) {
    && Forest(parent) && OpenChain(parent, open)
    && |uf| == |anc| == |parent| && Links(uf)
    && (forall k :: 0 <= k < |open| ==> uf[open[k]] == open[k])
    && forall x: u32 :: x < |parent| ==> FindsDeepestAt(parent, open, uf, anc, x)
  }

  ghost predicate FindsDeepestAt(parent: seq<u32>, open: seq<u32>, uf: seq<u32>, anc: seq<u32>, x: u32)
    requires Forest(parent) && |uf| == |anc| == |parent| && Links(uf) && x < |parent|
  {
    var d := Deepest(parent, open, x);
    anc[Root(uf, x)] == d && (d != NONE ==> Root(uf, x) == d)
  }

  /** `last` knows a declaring scope for exactly the signals declared, inside every open scope that has it. */
  ghost predicate RemembersLast(parent: seq<u32>, open: seq<u32>, vars: seq<seq<u32>>, last: seq<u32>) {
    && Forest(parent) && |vars| == |parent|
    && (forall g :: 0 <= g < |last| && last[g] != NONE ==> last[g] < |parent| && g in vars[last[g]])
    && (forall j, g {:trigger g in vars[j]} :: 0 <= j < |parent| && g in vars[j] ==> g < |last| && last[g] != NONE)
    && forall v: u32, g: u32 :: LastInsideAt(parent, open, vars, last, v, g)
  }

  ghost predicate LastInsideAt(parent: seq<u32>, open: seq<u32>, vars: seq<seq<u32>>, last: seq<u32>, v: u32, g: u32)
    requires Forest(parent) && |vars| == |parent|
  {
    v in open && g in Signals(parent, vars, v) ==>
      g < |last| && last[g] < |parent| && Inside(parent, last[g], v)
  }

  /** The words keep integers modulo 2^32 that add up, over a subtree, to its number of distinct signals. */
  ghost predicate WeighsSignals(parent: seq<u32>, vars: seq<seq<u32>>, weights: seq<int>, signals: seq<u32>) {
    && Forest(parent) && |vars| == |weights| == |signals| == |parent|
    && (forall i :: 0 <= i < |weights| ==> signals[i] == Wrap(weights[i]))
    && forall v :: 0 <= v < |parent| ==> WeighsSignalsAt(parent, vars, weights, v)
  }

  ghost predicate WeighsSignalsAt(parent: seq<u32>, vars: seq<seq<u32>>, weights: seq<int>, v: int)
    requires Forest(parent) && |vars| == |weights| == |parent|
  {
    SubtreeSum(parent, weights, v) == |Signals(parent, vars, v)|
  }

  // ---------------------------------------------------------------- entering a scope

  lemma {:induction false} EnterKeepsShape(run: seq<Step>, shape: Shape)
    requires Follows(run, shape) && |shape.parent| < NONE
    ensures Follows(run + [Enter], Shape(shape.parent + [shape.Top()], shape.open + [|shape.parent|], shape.vars + [[]]))
    ensures Forest(shape.parent + [shape.Top()])
  {
    ShapeOfExtended(run, Enter);
  }

  lemma {:induction false} EnterCounts(vars: seq<seq<u32>>, variables: seq<u32>)
    requires CountsVariables(vars, variables)
    ensures CountsVariables(vars + [[]], variables + [0])
  {
  }

  lemma {:induction false} EnterKeepsForest(parent: seq<u32>, open: seq<u32>, p: u32, uf: seq<u32>, anc: seq<u32>)
    requires FindsDeepest(parent, open, uf, anc) && |parent| < NONE
    requires p == if open == [] then NONE else open[|open| - 1]
    ensures OpenChain(parent, open)
    ensures FindsDeepest(parent + [p], open + [|parent|], uf + [|parent|], anc + [|parent|])
  {
    var i: u32 := |parent|;
    forall x: u32 | x < |parent| + 1
      ensures FindsDeepestAt(parent + [p], open + [i], uf + [i], anc + [i], x)
    {
      if x < |parent| {
        assert FindsDeepestAt(parent, open, uf, anc, x);
        RootAfterAppend(uf, i, x);
        DeepestAfterEnter(parent, open, p, x);
      } else {
        assert (open + [i])[|open|] == i;
      }
    }
  }

  lemma {:induction false} EnterKeepsLast(parent: seq<u32>, open: seq<u32>, vars: seq<seq<u32>>, p: u32, last: seq<u32>)
    requires RemembersLast(parent, open, vars, last) && Forest(parent + [p]) && OpenChain(parent, open)
    ensures RemembersLast(parent + [p], open + [|parent|], vars + [[]], last)
  {
    var i: u32 := |parent|;
    forall j, g | 0 <= j < |parent| + 1 && g in (vars + [[]])[j]
      ensures g < |last| && last[g] != NONE
    {
      assert j < |parent| && g in vars[j];
    }
    forall v: u32, g: u32
      ensures LastInsideAt(parent + [p], open + [i], vars + [[]], last, v, g)
    {
      if v in open + [i] && g in Signals(parent + [p], vars + [[]], v) {
        SignalsAfterEnter(parent, p, vars, v);
        assert v in open && LastInsideAt(parent, open, vars, last, v, g);
        ReachAfterEnter(parent, p, v, last[g], 0);
      }
    }
  }

  lemma {:induction false} EnterKeepsWeights(parent: seq<u32>, vars: seq<seq<u32>>, p: u32, weights: seq<int>, signals: seq<u32>)
    requires Forest(parent + [p]) && WeighsSignals(parent, vars, weights, signals)
    ensures WeighsSignals(parent + [p], vars + [[]], weights + [0], signals + [0])
  {
    forall v | 0 <= v < |parent| + 1
      ensures WeighsSignalsAt(parent + [p], vars + [[]], weights + [0], v)
    {
      if v < |parent| {
        assert WeighsSignalsAt(parent, vars, weights, v);
      }
      SignalsAfterEnter(parent, p, vars, v);
      GatherAfterEnter(parent, p, weights, v, |parent|);
      assert SubtreeSum(parent + [p], weights + [0], v)
          == Gather(parent + [p], weights + [0], v, 0, |parent|);
    }
  }

  lemma {:induction false} EnterKeepsLog(parent: seq<u32>, vars: seq<seq<u32>>, p: u32, log: seq<Contribution>)
    requires Forest(parent + [p]) && Balanced(parent, vars, log)
    ensures Balanced(parent + [p], vars + [[]], log)
  {
    forall s: u32, v: int | 0 <= v < |parent + [p]|
      ensures BalancedAt(parent + [p], vars + [[]], log, s, v)
    {
      ColumnInForest(parent, log, s);
      SignalsAfterEnter(parent, p, vars, v);
      NetAfterEnter(parent, p, Column(log, s), v);
      if v < |parent| {
        assert BalancedAt(parent, vars, log, s, v);
      }
    }
  }

  // ---------------------------------------------------------------- leaving a scope

  lemma {:induction false} LeaveKeepsShape(run: seq<Step>, shape: Shape)
    requires Follows(run, shape) && shape.open != []
    ensures Follows(run + [Leave], shape.(open := shape.open[..|shape.open| - 1]))
  {
    ShapeOfExtended(run, Leave);
  }

  /** Two different open scopes have different representatives, and a parent's is the smaller. */
  lemma {:induction false} LeaveKeepsForest(parent: seq<u32>, open: seq<u32>, uf: seq<u32>, anc: seq<u32>)
    requires FindsDeepest(parent, open, uf, anc) && open != []
    ensures var i := open[|open| - 1];
      var p := parent[i];
      && Root(uf, i) == i
      && (p == NONE ==> FindsDeepest(parent, open[..|open| - 1], uf, anc[i := NONE]))
      && (p != NONE ==> Root(uf, p) == p)
      && (p != NONE ==> FindsDeepest(parent, open[..|open| - 1], uf[i := p], anc[p := p]))
  {
    var n := |open| - 1;
    var i := open[n];
    var p := parent[i];
    var rest := open[..n];
    assert Root(uf, i) == i;
    if n > 0 {
      assert parent[open[n]] == open[n - 1];
      assert p == open[n - 1] && uf[p] == p;
    }
    var uf' := if p == NONE then uf else uf[i := p];
    var anc' := if p == NONE then anc[i := NONE] else anc[p := p];
    forall k | 0 <= k < n
      ensures uf'[rest[k]] == rest[k]
    {
      OpenIncreasing(parent, open, k, n);
    }
    forall x: u32 | x < |parent|
      ensures Links(uf') && FindsDeepestAt(parent, rest, uf', anc', x)
    {
      LeaveKeepsForestAt(parent, open, uf, anc, x);
    }
    forall k | 0 < k < n
      ensures parent[rest[k]] == rest[k - 1]
    {
      assert parent[open[k]] == open[k - 1];
    }
  }

  lemma {:induction false} LeaveKeepsForestAt(parent: seq<u32>, open: seq<u32>, uf: seq<u32>, anc: seq<u32>, x: u32)
    requires FindsDeepest(parent, open, uf, anc) && open != [] && x < |parent|
    ensures var i := open[|open| - 1];
      var p := parent[i];
      var rest := open[..|open| - 1];
      && (p == NONE ==> FindsDeepestAt(parent, rest, uf, anc[i := NONE], x))
      && (p != NONE ==> Links(uf[i := p]) && FindsDeepestAt(parent, rest, uf[i := p], anc[p := p], x))
  {
    var n := |open| - 1;
    var i := open[n];
    var p := parent[i];
    DeepestAfterLeave(parent, open, x);
    assert FindsDeepestAt(parent, open, uf, anc, x);
    assert FindsDeepestAt(parent, open, uf, anc, i) && i in open && Root(uf, i) == i;
    if p != NONE {
      assert n > 0 && parent[open[n]] == open[n - 1];
      assert p == open[n - 1] && uf[p] == p;
      assert FindsDeepestAt(parent, open, uf, anc, p) && p in open && Root(uf, p) == p;
      RootAfterLink(uf, p, i, x);
    }
  }

  lemma {:induction false} LeaveKeepsLast(parent: seq<u32>, open: seq<u32>, vars: seq<seq<u32>>, last: seq<u32>)
    requires RemembersLast(parent, open, vars, last) && open != []
    ensures RemembersLast(parent, open[..|open| - 1], vars, last)
  {
    var rest := open[..|open| - 1];
    forall v: u32, g: u32
      ensures LastInsideAt(parent, rest, vars, last, v, g)
    {
      assert LastInsideAt(parent, open, vars, last, v, g);
    }
  }

  // ---------------------------------------------------------------- declaring a variable

  /** The scope that gives a signal back when it is declared again: the deepest open scope around its last one. */
  ghost function Payer(parent: seq<u32>, open: seq<u32>, prev: u32): (l: u32)
    requires Forest(parent) && (prev == NONE || prev < |parent|)
    ensures prev == NONE ==> l == NONE
  {
    if prev == NONE then NONE else Deepest(parent, open, prev)
  }

  ghost function LastOf(last: seq<u32>, s: u32): u32 {
    if s < |last| then last[s] else NONE
  }

  /** `last` grown to hold signal `s`, as `resize` grows it. */
  function Grown(last: seq<u32>, s: u32): (r: seq<u32>)
    ensures |r| > s && |r| >= |last|
  {
    if s < |last| then last else last + seq(s + 1 - |last|, _ => NONE)
  }

  /**
   * The heart of the count. Declaring `s` in the innermost scope gives that scope one and takes one
   * back from the payer; over the subtree of `v` that is plus one exactly when `s` is new there.
   */
  lemma {:induction false} GainMinusPayback(parent: seq<u32>, open: seq<u32>, vars: seq<seq<u32>>, last: seq<u32>, s: u32, v: int)
    requires OpenChain(parent, open) && open != []
    requires RemembersLast(parent, open, vars, last) && 0 <= v < |parent|
    ensures var i := open[|open| - 1];
      var prev := LastOf(last, s);
      && (prev == NONE || prev < |parent|)
      && var l := Payer(parent, open, prev);
      && (l == NONE || l < |parent|)
      && Bit(Inside(parent, i, v)) - Bit(l != NONE && Inside(parent, l, v))
         == Bit(Inside(parent, i, v) && s !in Signals(parent, vars, v))
  {
    var n := |open| - 1;
    var i := open[n];
    var prev := LastOf(last, s);
    var l := Payer(parent, open, prev);
    if prev != NONE {
      DeepestIsDeepest(parent, open, prev);
    }
    if Inside(parent, i, v) {
      OpenAncestors(parent, open, n, v);
      assert v in open;
      assert LastInsideAt(parent, open, vars, last, v, s);
      if l != NONE && Inside(parent, l, v) {
        InsideTransitive(parent, prev, l, v);
        assert s in vars[prev];
      }
    } else if l != NONE && Inside(parent, l, v) {
      var k :| 0 <= k < |open| && open[k] == l;
      OpenAncestors(parent, open, n, l);
      InsideTransitive(parent, i, l, v);
    }
  }

  lemma {:induction false} VarKeepsShape(run: seq<Step>, shape: Shape, s: u32)
    requires Follows(run, shape) && shape.open != []
    ensures var i := shape.open[|shape.open| - 1];
      && i < |shape.vars|
      && Follows(run + [Var(s)], shape.(vars := shape.vars[i := shape.vars[i] + [s]]))
  {
    ShapeOfExtended(run, Var(s));
  }

  lemma {:induction false} VarCounts(vars: seq<seq<u32>>, variables: seq<u32>, i: u32, s: u32)
    requires CountsVariables(vars, variables) && i < |vars|
    ensures |variables| == |vars|
    ensures CountsVariables(vars[i := vars[i] + [s]], variables[i := WrappingAdd(variables[i], 1)])
  {
    WrapOfSum(|vars[i]|, 1);
  }

  /** A signal declared again in the scope that declared it last changes nothing but the variable count. */
  lemma {:induction false} RepeatKeeps(parent: seq<u32>, open: seq<u32>, vars: seq<seq<u32>>, last: seq<u32>,
        weights: seq<int>, signals: seq<u32>, log: seq<Contribution>, i: u32, s: u32)
    requires RemembersLast(parent, open, vars, last) && WeighsSignals(parent, vars, weights, signals)
    requires Balanced(parent, vars, log)
    requires i < |parent| && s < |last| && last[s] == i
    ensures var vars' := vars[i := vars[i] + [s]];
      && RemembersLast(parent, open, vars', last)
      && WeighsSignals(parent, vars', weights, signals)
      && Balanced(parent, vars', log)
  {
    var vars' := vars[i := vars[i] + [s]];
    forall v: int
      ensures Signals(parent, vars', v) == Signals(parent, vars, v)
    {
      SignalsAfterVar(parent, vars, i, s, v);
      assert s in vars[i];
    }
    forall v: u32, g: u32
      ensures LastInsideAt(parent, open, vars', last, v, g)
    {
      assert LastInsideAt(parent, open, vars, last, v, g);
    }
    forall v | 0 <= v < |parent|
      ensures WeighsSignalsAt(parent, vars', weights, v)
    {
      assert WeighsSignalsAt(parent, vars, weights, v);
    }
    forall g: u32, v: int | 0 <= v < |parent|
      ensures BalancedAt(parent, vars', log, g, v)
    {
      assert BalancedAt(parent, vars, log, g, v);
    }
  }

  lemma {:induction false} VarKeepsLast(parent: seq<u32>, open: seq<u32>, vars: seq<seq<u32>>, last: seq<u32>, s: u32)
    requires OpenChain(parent, open) && open != []
    requires RemembersLast(parent, open, vars, last)
    ensures var i := open[|open| - 1];
      RemembersLast(parent, open, vars[i := vars[i] + [s]], Grown(last, s)[s := i])
  {
    var n := |open| - 1;
    var i := open[n];
    var vars' := vars[i := vars[i] + [s]];
    var last' := Grown(last, s)[s := i];
    forall v: u32, g: u32
      ensures LastInsideAt(parent, open, vars', last', v, g)
    {
      SignalsAfterVar(parent, vars, i, s, v);
      assert LastInsideAt(parent, open, vars, last, v, g);
      if v in open {
        var k :| 0 <= k < |open| && open[k] == v;
        OpenAncestors(parent, open, n, v);
      }
    }
  }

  lemma {:induction false} VarKeepsWeights(parent: seq<u32>, open: seq<u32>, vars: seq<seq<u32>>, last: seq<u32>,
        weights: seq<int>, signals: seq<u32>, s: u32)
    requires OpenChain(parent, open) && open != []
    requires RemembersLast(parent, open, vars, last) && WeighsSignals(parent, vars, weights, signals)
    ensures var i := open[|open| - 1];
      var prev := LastOf(last, s);
      && (prev == NONE || prev < |parent|)
      && var l := Payer(parent, open, prev);
      && (l == NONE || l < |parent|)
      && WeighsSignals(parent, vars[i := vars[i] + [s]], Paid(Gained(weights, i), l), SignalsPaid(SignalsGained(signals, i), l))
  {
    hide SubtreeSum, Signals;
    var i := open[|open| - 1];
    GainMinusPayback(parent, open, vars, last, s, 0);
    var l := Payer(parent, open, LastOf(last, s));
    var vars', weights' := vars[i := vars[i] + [s]], Paid(Gained(weights, i), l);
    WordsAfterVar(weights, signals, i, l);
    forall v | 0 <= v < |parent|
      ensures WeighsSignalsAt(parent, vars', weights', v)
    {
      assert WeighsSignalsAt(parent, vars, weights, v);
      GainMinusPayback(parent, open, vars, last, s, v);
      SumAfterVar(parent, weights, i, l, v);
      CountAfterVar(parent, vars, i, s, v);
    }
  }

  lemma {:induction false} WordsAfterVar(weights: seq<int>, signals: seq<u32>, i: u32, l: u32)
    requires |signals| == |weights| && forall k :: 0 <= k < |weights| ==> signals[k] == Wrap(weights[k])
    requires i < |weights| && (l == NONE || l < |weights|)
    ensures var weights', signals' := Paid(Gained(weights, i), l), SignalsPaid(SignalsGained(signals, i), l);
      |signals'| == |weights'| && forall k :: 0 <= k < |weights'| ==> signals'[k] == Wrap(weights'[k])
  {
    WrapOfSum(weights[i], 1);
    if l != NONE {
      WrapOfSum(Gained(weights, i)[l], 1);
    }
  }

  lemma {:induction false} SumAfterVar(parent: seq<u32>, weights: seq<int>, i: u32, l: u32, v: int)
    requires Forest(parent) && |weights| == |parent| && i < |parent| && (l == NONE || l < |parent|)
    ensures SubtreeSum(parent, Paid(Gained(weights, i), l), v)
         == SubtreeSum(parent, weights, v) + Bit(Inside(parent, i, v)) - Bit(l != NONE && Inside(parent, l, v))
  {
    GatherAfterUpdate(parent, weights, v, 0, |parent|, i, 1);
    if l != NONE {
      GatherAfterUpdate(parent, Gained(weights, i), v, 0, |parent|, l, -1);
    }
  }

  lemma {:induction false} CountAfterVar(parent: seq<u32>, vars: seq<seq<u32>>, i: u32, s: u32, v: int)
    requires Forest(parent) && |vars| == |parent| && i < |parent|
    ensures |Signals(parent, vars[i := vars[i] + [s]], v)|
         == |Signals(parent, vars, v)| + Bit(Inside(parent, i, v) && s !in Signals(parent, vars, v))
  {
    SignalsAfterVar(parent, vars, i, s, v);
    var before := Signals(parent, vars, v);
    if s in before {
      assert before + {s} == before;
    }
  }

  ghost function Gained(weights: seq<int>, i: u32): (r: seq<int>)
    requires i < |weights|
    ensures |r| == |weights|
  {
    weights[i := weights[i] + 1]
  }

  ghost function Paid(weights: seq<int>, l: u32): (r: seq<int>)
    requires l == NONE || l < |weights|
    ensures |r| == |weights|
  {
    if l == NONE then weights else weights[l := weights[l] - 1]
  }

  ghost function SignalsGained(signals: seq<u32>, i: u32): seq<u32>
    requires i < |signals|
  {
    signals[i := WrappingAdd(signals[i], 1)]
  }

  ghost function SignalsPaid(signals: seq<u32>, l: u32): (r: seq<u32>)
    requires l == NONE || l < |signals|
    ensures |r| == |signals|
  {
    if l == NONE then signals else signals[l := WrappingSub(signals[l], 1)]
  }

  /** The entries a declaration of `s` adds to the log. */
  ghost function Entries(s: u32, i: u32, l: u32): seq<Contribution> {
    [Contribution(s, i, true)] + if l == NONE then [] else [Contribution(s, l, false)]
  }

  lemma {:induction false} VarKeepsLog(parent: seq<u32>, open: seq<u32>, vars: seq<seq<u32>>, last: seq<u32>,
        log: seq<Contribution>, s: u32)
    requires OpenChain(parent, open) && open != []
    requires RemembersLast(parent, open, vars, last) && Balanced(parent, vars, log)
    ensures var i := open[|open| - 1];
      var prev := LastOf(last, s);
      && (prev == NONE || prev < |parent|)
      && Balanced(parent, vars[i := vars[i] + [s]], log + Entries(s, i, Payer(parent, open, prev)))
  {
    var i := open[|open| - 1];
    GainMinusPayback(parent, open, vars, last, s, 0);
    var l := Payer(parent, open, LastOf(last, s));
    var vars' := vars[i := vars[i] + [s]];
    forall g: u32, v: int | 0 <= v < |parent|
      ensures BalancedAt(parent, vars', log + Entries(s, i, l), g, v)
    {
      assert BalancedAt(parent, vars, log, g, v);
      GainMinusPayback(parent, open, vars, last, s, v);
      SignalsAfterVar(parent, vars, i, s, v);
      NetAfterVar(parent, log, s, i, l, g, v);
    }
  }

  lemma {:induction false} NetAfterVar(parent: seq<u32>, log: seq<Contribution>, s: u32, i: u32, l: u32, g: u32, v: int)
    requires Forest(parent) && InForest(parent, Column(log, g))
    requires i < |parent| && (l == NONE || l < |parent|)
    ensures var log' := log + Entries(s, i, l);
      && InForest(parent, Column(log', g))
      && Net(parent, Column(log', g), v) == Net(parent, Column(log, g), v)
           + (if g == s then Bit(Inside(parent, i, v)) - Bit(l != NONE && Inside(parent, l, v)) else 0)
  {
    hide Forest, InForest, Column, Net, Inside;
    var gain, pay := Contribution(s, i, true), Contribution(s, l, false);
    NetOfEntry(parent, log, gain, g, v);
    if l == NONE {
      assert log + Entries(s, i, l) == log + [gain];
    } else {
      NetOfEntry(parent, log + [gain], pay, g, v);
      assert log + Entries(s, i, l) == log + [gain] + [pay];
    }
  }

  lemma {:induction false} CompressKeeps(parent: seq<u32>, open: seq<u32>, uf: seq<u32>, uf': seq<u32>, anc: seq<u32>)
    requires FindsDeepest(parent, open, uf, anc) && SameRoots(uf, uf')
    ensures FindsDeepest(parent, open, uf', anc)
  {
    forall k | 0 <= k < |open|
      ensures uf'[open[k]] == open[k]
    {
      assert Root(uf, open[k]) == open[k];
      assert SameRootAt(uf, uf', open[k]);
    }
    forall x: u32 | x < |parent|
      ensures FindsDeepestAt(parent, open, uf', anc, x)
    {
      assert SameRootAt(uf, uf', x) && FindsDeepestAt(parent, open, uf, anc, x);
    }
  }

  // ---------------------------------------------------------------- the reverse pass

  /** The words a reverse pass holds once it has handled every scope from `i` on. */
  ghost predicate RolledUp(parent: seq<u32>, w: seq<int>, words: seq<u32>, i: nat) {
    && Forest(parent) && |w| == |words| == |parent|
    && forall v :: 0 <= v < |parent| ==> RolledUpAt(parent, w, words, i, v)
  }

  ghost predicate RolledUpAt(parent: seq<u32>, w: seq<int>, words: seq<u32>, i: nat, v: int)
    requires Forest(parent) && |w| == |words| == |parent| && 0 <= v < |parent|
  {
    words[v] == Wrap(Gather(parent, w, v, i, |parent|))
  }

  lemma {:induction false} RollUpStart(parent: seq<u32>, w: seq<int>, words: seq<u32>)
    requires Forest(parent) && |w| == |words| == |parent|
    requires forall v :: 0 <= v < |words| ==> words[v] == Wrap(w[v])
    ensures RolledUp(parent, w, words, |parent|)
  {
    forall v | 0 <= v < |parent|
      ensures RolledUpAt(parent, w, words, |parent|, v)
    {
      GatherAtStart(parent, w, v, |parent|);
    }
  }

  lemma {:induction false} RollUpStep(parent: seq<u32>, w: seq<int>, words: seq<u32>, i: nat)
    requires RolledUp(parent, w, words, i + 1) && i < |parent|
    ensures RolledUp(parent, w, Pushed(parent, words, i), i)
  {
    var p := parent[i];
    forall v | 0 <= v < |parent|
      ensures RolledUpAt(parent, w, Pushed(parent, words, i), i, v)
    {
      GatherStep(parent, w, v, i, |parent|);
      assert RolledUpAt(parent, w, words, i + 1, v);
      assert RolledUpAt(parent, w, words, i + 1, i);
      WrapOfSum(Gather(parent, w, v, i + 1, |parent|), Gather(parent, w, i, i + 1, |parent|));
    }
  }

  /** One step of the pass: scope `i` adds what it holds to its parent. */
  function Pushed(parent: seq<u32>, words: seq<u32>, i: nat): (r: seq<u32>)
    requires |words| == |parent| && i < |parent| && (parent[i] == NONE || parent[i] < |parent|)
    ensures |r| == |words|
  {
    if parent[i] == NONE then words
    else words[parent[i] := WrappingAdd(words[parent[i]], words[i])]
  }

  // ---------------------------------------------------------------- the whole invariant

  /** The values of the census's fields. */
  datatype Fields = Fields(parent: seq<u32>, uf: seq<u32>, anc: seq<u32>, signals: seq<u32>, variables: seq<u32>,
                           last: seq<u32>, open: seq<u32>, record: Option<seq<(u32, u32)>>)

  /**
   * What a census stands for: the calls made, the scopes they declare, the integers that `signals`
   * keeps modulo 2^32, and the contributions that are recorded, or would be.
   */
  datatype Meaning = Meaning(run: seq<Step>, shape: Shape, weights: seq<int>, log: seq<Contribution>)

  /** Scope numbers share a word with a sign bit when the contributions are recorded. */
  function Limit(record: Option<seq<(u32, u32)>>): int {
    if record.Some? then TWO_31 else NONE
  }

  ghost predicate Invariant(f: Fields, m: Meaning) {
    && Follows(m.run, m.shape)
    && m.shape.parent == f.parent && m.shape.open == f.open
    && |f.parent| <= Limit(f.record)
    && CountsVariables(m.shape.vars, f.variables)
    && FindsDeepest(f.parent, f.open, f.uf, f.anc)
    && RemembersLast(f.parent, f.open, m.shape.vars, f.last)
    && WeighsSignals(f.parent, m.shape.vars, m.weights, f.signals)
    && Balanced(f.parent, m.shape.vars, m.log)
    && (f.record.Some? ==> IsRecordOf(f.record.value, m.log))
  }

  lemma {:induction false} InvariantShapes(f: Fields, m: Meaning)
    requires Invariant(f, m)
    ensures Forest(f.parent) && OpenChain(f.parent, f.open) && |f.parent| <= NONE
    ensures |f.uf| == |f.anc| == |f.signals| == |f.variables| == |f.parent| && Links(f.uf)
    ensures f.open != [] ==> f.open[|f.open| - 1] < |f.parent|
    ensures forall g :: 0 <= g < |f.last| ==> f.last[g] == NONE || f.last[g] < |f.parent|
  {
  }

  lemma {:induction false} ForestAt(parent: seq<u32>, f: Fields, m: Meaning, i: nat)
    requires Invariant(f, m) && parent == f.parent && i < |parent|
    ensures parent[i] == NONE || parent[i] < |parent|
  {
  }

  lemma {:induction false} InvariantFollows(f: Fields, m: Meaning)
    requires Invariant(f, m)
    ensures WellBracketed(m.run) && m.shape == ShapeOf(m.run)
    ensures m.shape.parent == f.parent && |m.shape.vars| == |f.parent| && Forest(f.parent)
  {
  }

  ghost function Entered(f: Fields, p: u32): Fields
    requires |f.parent| < NONE
  {
    var i: u32 := |f.parent|;
    Fields(f.parent + [p], f.uf + [i], f.anc + [i], f.signals + [0], f.variables + [0], f.last, f.open + [i], f.record)
  }

  lemma {:induction false} EnterKeeps(f: Fields, m: Meaning) returns (m': Meaning)
    requires Invariant(f, m) && |f.parent| < Limit(f.record)
    ensures m'.run == m.run + [Enter]
    ensures Invariant(Entered(f, if f.open == [] then NONE else f.open[|f.open| - 1]), m')
  {
    hide Follows, FindsDeepest, RemembersLast, WeighsSignals, Balanced, IsRecordOf, CountsVariables;
    var i: u32 := |f.parent|;
    var p: u32 := m.shape.Top();
    EnterKeepsShape(m.run, m.shape);
    EnterCounts(m.shape.vars, f.variables);
    EnterKeepsForest(f.parent, f.open, p, f.uf, f.anc);
    EnterKeepsLast(f.parent, f.open, m.shape.vars, p, f.last);
    EnterKeepsWeights(f.parent, m.shape.vars, p, m.weights, f.signals);
    EnterKeepsLog(f.parent, m.shape.vars, p, m.log);
    m' := Meaning(m.run + [Enter], Shape(f.parent + [p], f.open + [i], m.shape.vars + [[]]), m.weights + [0], m.log);
  }

  /** What a census holds once it has counted a variable and looked the signal up. */
  ghost function Declared(f: Fields, s: u32, uf: seq<u32>, i: u32, l: u32): Fields
    requires i < |f.signals| == |f.variables| && (l == NONE || l < |f.signals|)
  {
    var gained := Noted(f.record, s, i);
    f.(uf := uf, signals := SignalsPaid(SignalsGained(f.signals, i), l),
       variables := f.variables[i := WrappingAdd(f.variables[i], 1)], last := Grown(f.last, s)[s := i],
       record := if l == NONE then gained else Noted(gained, s, Signed(l)))
  }

  lemma {:induction false} VarKeeps(f: Fields, m: Meaning, s: u32, uf': seq<u32>) returns (m': Meaning)
    requires Invariant(f, m) && f.open != [] && SameRoots(f.uf, uf')
    ensures m'.run == m.run + [Var(s)]
    ensures var i := f.open[|f.open| - 1];
      var prev := LastOf(f.last, s);
      && Forest(f.parent) && (prev == NONE || prev < |f.parent|)
      && var l := Payer(f.parent, f.open, prev);
      && i < |f.signals| == |f.variables| && (l == NONE || l < |f.signals|)
      && Invariant(Declared(f, s, uf', i, l), m')
  {
    InvariantShapes(f, m);
    var vars := m.shape.vars;
    var i := f.open[|f.open| - 1];
    VarKeepsShape(m.run, m.shape, s);
    VarCounts(vars, f.variables, i, s);
    CompressKeeps(f.parent, f.open, f.uf, uf', f.anc);
    VarKeepsLast(f.parent, f.open, vars, f.last, s);
    VarKeepsWeights(f.parent, f.open, vars, f.last, m.weights, f.signals, s);
    VarKeepsLog(f.parent, f.open, vars, f.last, m.log, s);
    var l := Payer(f.parent, f.open, LastOf(f.last, s));
    RecordGrows(f.record, m.log, s, i, l);
    hide Follows, FindsDeepest, RemembersLast, WeighsSignals, Balanced, IsRecordOf, CountsVariables;
    m' := Meaning(m.run + [Var(s)], m.shape.(vars := vars[i := vars[i] + [s]]),
                  Paid(Gained(m.weights, i), l), m.log + Entries(s, i, l));
  }

  lemma {:induction false} RepeatKeepsAll(f: Fields, m: Meaning, s: u32) returns (m': Meaning)
    requires Invariant(f, m) && f.open != []
    requires LastOf(f.last, s) == f.open[|f.open| - 1]
    ensures m'.run == m.run + [Var(s)]
    ensures var i := f.open[|f.open| - 1];
      && i < |f.variables|
      && Invariant(f.(variables := f.variables[i := WrappingAdd(f.variables[i], 1)]), m')
  {
    InvariantShapes(f, m);
    var vars := m.shape.vars;
    var i := f.open[|f.open| - 1];
    VarKeepsShape(m.run, m.shape, s);
    VarCounts(vars, f.variables, i, s);
    RepeatKeeps(f.parent, f.open, vars, f.last, m.weights, f.signals, m.log, i, s);
    hide Follows, FindsDeepest, RemembersLast, WeighsSignals, Balanced, IsRecordOf, CountsVariables;
    m' := m.(run := m.run + [Var(s)], shape := m.shape.(vars := vars[i := vars[i] + [s]]));
  }

  /** What looking up the last declaring scope finds: the payer. */
  lemma {:induction false} LookUp(f: Fields, m: Meaning, uf': seq<u32>, x: u32)
    requires Invariant(f, m) && SameRoots(f.uf, uf') && x < |f.parent|
    ensures Forest(f.parent) && |uf'| == |f.anc| && Links(uf') && x < |uf'|
    ensures f.anc[Root(uf', x)] == Payer(f.parent, f.open, x)
    ensures var l := Payer(f.parent, f.open, x); l == NONE || l < |f.signals|
  {
    DeepestIsDeepest(f.parent, f.open, x);
    CompressKeeps(f.parent, f.open, f.uf, uf', f.anc);
    assert FindsDeepestAt(f.parent, f.open, uf', f.anc, x);
  }

  /** Looking a scope up keeps the invariant, whatever links it compresses. */
  lemma {:induction false} FindKeeps(f: Fields, m: Meaning, uf': seq<u32>)
    requires Invariant(f, m) && SameRoots(f.uf, uf')
    ensures Invariant(f.(uf := uf'), m)
  {
    CompressKeeps(f.parent, f.open, f.uf, uf', f.anc);
  }

  /** What a census holds once it has closed its innermost scope, whose representative is itself. */
  ghost function Left(f: Fields): Fields
    requires f.open != []
    requires var i := f.open[|f.open| - 1];
      i < |f.parent| == |f.uf| == |f.anc| && (f.parent[i] == NONE || f.parent[i] < |f.parent|)
  {
    var i := f.open[|f.open| - 1];
    var p := f.parent[i];
    var rest := f.open[..|f.open| - 1];
    if p == NONE then f.(open := rest, anc := f.anc[i := NONE])
    else f.(open := rest, uf := f.uf[i := p], anc := f.anc[p := p])
  }

  lemma {:induction false} InnermostFacts(f: Fields, m: Meaning)
    requires Invariant(f, m) && f.open != []
    ensures var i := f.open[|f.open| - 1];
      && i < |f.parent| == |f.uf| == |f.anc| && Links(f.uf) && Root(f.uf, i) == i
      && var p := f.parent[i];
      && (p == NONE || (p < |f.parent| && Root(f.uf, p) == p))
  {
    LeaveKeepsForest(f.parent, f.open, f.uf, f.anc);
  }

  lemma {:induction false} LeaveKeeps(f: Fields, m: Meaning) returns (m': Meaning)
    requires Invariant(f, m) && f.open != []
    ensures var i := f.open[|f.open| - 1];
      i < |f.parent| == |f.uf| == |f.anc| && (f.parent[i] == NONE || f.parent[i] < |f.parent|)
    ensures m' == m.(run := m.run + [Leave], shape := m.shape.(open := f.open[..|f.open| - 1]))
    ensures Invariant(Left(f), m')
  {
    InnermostFacts(f, m);
    LeaveKeepsShape(m.run, m.shape);
    LeaveKeepsForest(f.parent, f.open, f.uf, f.anc);
    LeaveKeepsLast(f.parent, f.open, m.shape.vars, f.last);
    hide Follows, FindsDeepest, RemembersLast, WeighsSignals, Balanced, IsRecordOf, CountsVariables;
    m' := m.(run := m.run + [Leave], shape := m.shape.(open := f.open[..|f.open| - 1]));
  }

  /** The record with one more entry, when there is a record. */
  function Noted(record: Option<seq<(u32, u32)>>, s: u32, word: u32): (r: Option<seq<(u32, u32)>>)
    ensures r.Some? == record.Some?
  {
    match record
    case None => None
    case Some(entries) => Some(entries + [(s, word)])
  }

  lemma {:induction false} RecordGrows(before: Option<seq<(u32, u32)>>, log: seq<Contribution>, s: u32, i: u32, l: u32)
    requires before.Some? ==> IsRecordOf(before.value, log) && i < TWO_31 && (l == NONE || l < TWO_31)
    ensures var gained := Noted(before, s, i);
      var after := if l == NONE then gained else Noted(gained, s, Signed(l));
      && after.Some? == before.Some?
      && (after.Some? ==> IsRecordOf(after.value, log + Entries(s, i, l)))
  {
  }
}
