/**
 * What a census of scopes is meant to count, without any of the census's own state: the run of
 * calls that declares the scopes, the forest that run describes, and sums over its subtrees.
 */
module ScopeForest {
  import opened Words

  /** One call on the census. */
  datatype Step = Enter | Var(signal: u32) | Leave

  /** The scopes declared so far: parents, the stack of open scopes, and the variables of each scope. */
  datatype Shape = Shape(parent: seq<u32>, open: seq<u32>, vars: seq<seq<u32>>) {
    function Top(): u32 {
      if open == [] then NONE else open[|open| - 1]
    }

    ghost predicate Ok() {
      && Forest(parent)
      && |vars| == |parent|
      && OpenChain(parent, open)
    }

    /** A call is allowed when the source does not panic on it. */
    predicate Allows(step: Step) {
      match step
      case Enter => |parent| < NONE
      case Var(_) => open != []
      case Leave => open != []
    }

    function After(step: Step): Shape
      requires Ok() && Allows(step)
    {
      match step
      case Enter => Shape(parent + [Top()], open + [|parent|], vars + [[]])
      case Var(s) => this.(vars := vars[Top() := vars[Top()] + [s]])
      case Leave => this.(open := open[..|open| - 1])
    }
  }

  /** Scopes are numbered in the order they are entered, so a parent comes before its children. */
  ghost predicate Forest(parent: seq<u32>) {
    && |parent| <= NONE
    && forall i :: 0 <= i < |parent| ==> parent[i] == NONE || parent[i] < i
  }

  /** The open scopes form one chain of parents from a root to the innermost scope. */
  ghost predicate OpenChain(parent: seq<u32>, open: seq<u32>) {
    && (forall k :: 0 <= k < |open| ==> open[k] < |parent|)
    && (open != [] ==> parent[open[0]] == NONE)
    && (forall k {:trigger parent[open[k]]} :: 0 < k < |open| ==> parent[open[k]] == open[k - 1])
  }

  const EMPTY := Shape([], [], [])

  /** The run never leaves, or declares a variable, with no scope open. */
  ghost predicate WellBracketed(run: seq<Step>) {
    run == [] || (
      var before := run[..|run| - 1];
      WellBracketed(before) && ShapeOf(before).Ok() && ShapeOf(before).Allows(run[|run| - 1]))
  }

  ghost function ShapeOf(run: seq<Step>): Shape {
    if run == [] then EMPTY
    else
      var before := ShapeOf(run[..|run| - 1]);
      var step := run[|run| - 1];
      if before.Ok() && before.Allows(step) then before.After(step) else EMPTY
  }

  lemma {:induction false} ShapeIsOk(run: seq<Step>)
    requires WellBracketed(run)
    ensures ShapeOf(run).Ok()
  {
    if run != [] {
      ShapeIsOk(run[..|run| - 1]);
    }
  }

  lemma {:induction false} ShapeOfExtended(run: seq<Step>, step: Step)
    requires WellBracketed(run) && ShapeOf(run).Allows(step)
    ensures ShapeOf(run).Ok()
    ensures WellBracketed(run + [step])
    ensures ShapeOf(run + [step]) == ShapeOf(run).After(step)
    ensures ShapeOf(run + [step]).Ok()
  {
    ShapeIsOk(run);
    assert (run + [step])[..|run + [step]| - 1] == run;
    ShapeIsOk(run + [step]);
  }

  // ---------------------------------------------------------------- subtrees

  /** Walking up from `j`, and only through scopes numbered `i` or more, meets `v`. */
  ghost predicate Reach(parent: seq<u32>, v: int, j: int, i: int)
    requires Forest(parent) && 0 <= j < |parent|
    decreases j
  {
    v == j || (j >= i && parent[j] != NONE && Reach(parent, v, parent[j], i))
  }

  /** Scope `j` lies in the subtree of scope `v`. */
  ghost predicate Inside(parent: seq<u32>, j: int, v: int)
    requires Forest(parent) && 0 <= j < |parent|
  {
    Reach(parent, v, j, 0)
  }

  /** The distinct signals declared anywhere in the subtree of `v`. */
  ghost function Signals(parent: seq<u32>, vars: seq<seq<u32>>, v: int): set<u32>
    requires Forest(parent) && |vars| == |parent|
  {
    set j, s | 0 <= j < |parent| && s in vars[j] && Inside(parent, j, v) :: s
  }

  /** The scopes in the subtree of `v`, itself included. */
  ghost function Members(parent: seq<u32>, v: int): set<int>
    requires Forest(parent)
  {
    set j | 0 <= j < |parent| && Inside(parent, j, v)
  }

  /** The weights below `k` that reach `v` through scopes numbered `i` or more. */
  ghost function Gather(parent: seq<u32>, w: seq<int>, v: int, i: int, k: nat): int
    requires Forest(parent) && |w| == |parent| && k <= |parent|
  {
    if k == 0 then 0
    else Gather(parent, w, v, i, k - 1) + if Reach(parent, v, k - 1, i) then w[k - 1] else 0
  }

  /** The total weight of the subtree of `v`. */
  ghost function SubtreeSum(parent: seq<u32>, w: seq<int>, v: int): int
    requires Forest(parent) && |w| == |parent|
  {
    Gather(parent, w, v, 0, |parent|)
  }

  lemma {:induction false} InsideTransitive(parent: seq<u32>, j: int, u: int, v: int)
    requires Forest(parent) && 0 <= j < |parent| && 0 <= u < |parent|
    requires Inside(parent, j, u) && Inside(parent, u, v)
    ensures Inside(parent, j, v)
    decreases j
  {
    if j != u {
      InsideTransitive(parent, parent[j], u, v);
    }
  }

  lemma {:induction false} ReachDescends(parent: seq<u32>, v: int, j: int, i: int)
    requires Forest(parent) && 0 <= j < |parent| && Reach(parent, v, j, i)
    ensures 0 <= v <= j
    decreases j
  {
    if v != j {
      ReachDescends(parent, v, parent[j], i);
    }
  }

  // ---------------------------------------------------------------- open scopes

  lemma {:induction false} OpenIncreasing(parent: seq<u32>, open: seq<u32>, k: int, l: int)
    requires Forest(parent) && OpenChain(parent, open) && 0 <= k < l < |open|
    ensures open[k] < open[l]
    decreases l
  {
    assert parent[open[l]] == open[l - 1];
    if k < l - 1 {
      OpenIncreasing(parent, open, k, l - 1);
    }
  }

  lemma {:induction false} OpenAncestors(parent: seq<u32>, open: seq<u32>, k: int, v: int)
    requires Forest(parent) && OpenChain(parent, open) && 0 <= k < |open|
    ensures Inside(parent, open[k], v) <==> exists l :: 0 <= l <= k && open[l] == v
    decreases k
  {
    if v != open[k] && k > 0 {
      assert Inside(parent, open[k], v) == Inside(parent, open[k - 1], v);
      OpenAncestors(parent, open, k - 1, v);
    }
  }

  /** The deepest open scope whose subtree holds `x`, or NONE: what the census's union-find looks up. */
  ghost function Deepest(parent: seq<u32>, open: seq<u32>, x: u32): u32
    requires Forest(parent) && x < |parent|
    decreases x
  {
    if x in open then x else if parent[x] == NONE then NONE else Deepest(parent, open, parent[x])
  }

  /** `Deepest` is what its name says: an open scope around `x`, inside every other open scope around `x`. */
  lemma {:induction false} DeepestIsDeepest(parent: seq<u32>, open: seq<u32>, x: u32)
    requires Forest(parent) && OpenChain(parent, open) && x < |parent|
    ensures var d := Deepest(parent, open, x);
      d != NONE ==> d in open && Inside(parent, x, d)
    ensures var d := Deepest(parent, open, x);
      forall v :: v in open && Inside(parent, x, v) ==> d != NONE && Inside(parent, d, v)
    decreases x
  {
    if x !in open && parent[x] != NONE {
      DeepestIsDeepest(parent, open, parent[x]);
    }
  }

  lemma {:induction false} DeepestAfterEnter(parent: seq<u32>, open: seq<u32>, p: u32, x: u32)
    requires Forest(parent) && Forest(parent + [p]) && x < |parent|
    requires OpenChain(parent, open)
    ensures Deepest(parent + [p], open + [|parent|], x) == Deepest(parent, open, x)
    decreases x
  {
    if x !in open && parent[x] != NONE {
      DeepestAfterEnter(parent, open, p, parent[x]);
    }
  }

  lemma {:induction false} DeepestAfterLeave(parent: seq<u32>, open: seq<u32>, x: u32)
    requires Forest(parent) && OpenChain(parent, open) && open != [] && x < |parent|
    ensures var n := |open| - 1;
      var d := Deepest(parent, open, x);
      Deepest(parent, open[..n], x) == if d == open[n] then parent[d] else d
    decreases x
  {
    var n := |open| - 1;
    var rest := open[..n];
    assert open == rest + [open[n]];
    if x == open[n] {
      forall k | 0 <= k < n
        ensures rest[k] != x
      {
        OpenIncreasing(parent, open, k, n);
      }
      if n > 0 {
        assert parent[open[n]] == open[n - 1];
        assert rest[n - 1] == open[n - 1];
      }
    } else if x !in open && parent[x] != NONE {
      DeepestAfterLeave(parent, open, parent[x]);
    } else if x in open {
      assert x in rest;
    }
  }

  // ---------------------------------------------------------------- how the sums move

  lemma {:induction false} ReachAfterEnter(parent: seq<u32>, p: u32, v: int, j: int, i: int)
    requires Forest(parent) && Forest(parent + [p]) && 0 <= j < |parent|
    ensures Reach(parent + [p], v, j, i) == Reach(parent, v, j, i)
    decreases j
  {
    if v != j && j >= i && parent[j] != NONE {
      ReachAfterEnter(parent, p, v, parent[j], i);
    }
  }

  lemma {:induction false} GatherAfterEnter(parent: seq<u32>, p: u32, w: seq<int>, v: int, k: nat)
    requires Forest(parent) && Forest(parent + [p]) && |w| == |parent| && k <= |parent|
    ensures Gather(parent + [p], w + [0], v, 0, k) == Gather(parent, w, v, 0, k)
    ensures v >= |parent| ==> Gather(parent + [p], w + [0], v, 0, k) == 0
  {
    if k > 0 {
      GatherAfterEnter(parent, p, w, v, k - 1);
      ReachAfterEnter(parent, p, v, k - 1, 0);
      if Reach(parent, v, k - 1, 0) {
        ReachDescends(parent, v, k - 1, 0);
      }
    }
  }

  lemma {:induction false} GatherAfterUpdate(parent: seq<u32>, w: seq<int>, v: int, i: int, k: nat, j: nat, d: int)
    requires Forest(parent) && |w| == |parent| && k <= |parent| && j < |parent|
    ensures Gather(parent, w[j := w[j] + d], v, i, k)
         == Gather(parent, w, v, i, k) + if j < k && Reach(parent, v, j, i) then d else 0
  {
    if k > 0 {
      GatherAfterUpdate(parent, w, v, i, k - 1, j, d);
    }
  }

  lemma {:induction false} SignalsAfterEnter(parent: seq<u32>, p: u32, vars: seq<seq<u32>>, v: int)
    requires Forest(parent) && Forest(parent + [p]) && |vars| == |parent|
    ensures Signals(parent + [p], vars + [[]], v) == Signals(parent, vars, v)
    ensures v >= |parent| ==> Signals(parent, vars, v) == {}
  {
    forall j | 0 <= j < |parent|
      ensures Inside(parent + [p], j, v) == Inside(parent, j, v)
      ensures Inside(parent, j, v) ==> v < |parent|
    {
      ReachAfterEnter(parent, p, v, j, 0);
      if Inside(parent, j, v) {
        ReachDescends(parent, v, j, 0);
      }
    }
    var after := Signals(parent + [p], vars + [[]], v);
    forall s | s in after
      ensures s in Signals(parent, vars, v)
    {
      var j :| 0 <= j < |parent| + 1 && s in (vars + [[]])[j] && Inside(parent + [p], j, v);
      assert j < |parent| && s in vars[j];
    }
    forall s | s in Signals(parent, vars, v)
      ensures s in after
    {
      var j :| 0 <= j < |parent| && s in vars[j] && Inside(parent, j, v);
      assert s in (vars + [[]])[j];
    }
  }

  lemma {:induction false} SignalsAfterVar(parent: seq<u32>, vars: seq<seq<u32>>, i: nat, s: u32, v: int)
    requires Forest(parent) && |vars| == |parent| && i < |parent|
    ensures Signals(parent, vars[i := vars[i] + [s]], v)
         == Signals(parent, vars, v) + if Inside(parent, i, v) then {s} else {}
  {
    var vars' := vars[i := vars[i] + [s]];
    var want := Signals(parent, vars, v) + if Inside(parent, i, v) then {s} else {};
    forall x | x in Signals(parent, vars', v)
      ensures x in want
    {
      var j :| 0 <= j < |parent| && x in vars'[j] && Inside(parent, j, v);
      if x !in vars[j] {
        assert j == i && x == s;
      }
    }
    forall x | x in want
      ensures x in Signals(parent, vars', v)
    {
      if x == s && Inside(parent, i, v) {
        assert s in vars'[i];
      } else {
        var j :| 0 <= j < |parent| && x in vars[j] && Inside(parent, j, v);
        assert x in vars'[j];
      }
    }
  }

  // ---------------------------------------------------------------- the reverse pass

  /** Before the reverse pass every scope holds its own weight only. */
  lemma {:induction false} GatherAtStart(parent: seq<u32>, w: seq<int>, v: nat, k: nat)
    requires Forest(parent) && |w| == |parent| && k <= |parent| && v < |parent|
    ensures Gather(parent, w, v, |parent|, k) == if v < k then w[v] else 0
  {
    if k > 0 {
      GatherAtStart(parent, w, v, k - 1);
    }
  }

  /** Letting walks pass through one more scope `i` gives its parent everything `i` held. */
  lemma {:induction false} ReachStep(parent: seq<u32>, v: int, j: int, i: nat)
    requires Forest(parent) && 0 <= j < |parent| && i < |parent|
    ensures Reach(parent, v, j, i) <==>
      Reach(parent, v, j, i + 1) || (parent[i] != NONE && v == parent[i] && Reach(parent, i, j, i + 1))
    ensures parent[i] != NONE && Reach(parent, i, j, i + 1) ==> !Reach(parent, parent[i], j, i + 1)
    decreases j
  {
    if parent[j] == NONE {
    } else if j < i {
    } else if j == i {
      var p := parent[i];
      assert Reach(parent, v, p, i) == (v == p);
    } else {
      ReachStep(parent, v, parent[j], i);
    }
  }

  lemma {:induction false} GatherStep(parent: seq<u32>, w: seq<int>, v: int, i: nat, k: nat)
    requires Forest(parent) && |w| == |parent| && k <= |parent| && i < |parent|
    ensures Gather(parent, w, v, i, k) == Gather(parent, w, v, i + 1, k)
      + if parent[i] != NONE && v == parent[i] then Gather(parent, w, i, i + 1, k) else 0
  {
    if k > 0 {
      GatherStep(parent, w, v, i, k - 1);
      ReachStep(parent, v, k - 1, i);
    }
  }

  /** A subtree's sum of ones is its number of scopes. */
  lemma {:induction false} GatherCountsMembers(parent: seq<u32>, w: seq<int>, v: int, k: nat)
    requires Forest(parent) && |w| == |parent| && k <= |parent|
    requires forall j :: 0 <= j < |w| ==> w[j] == 1
    ensures Gather(parent, w, v, 0, k) == |set j | 0 <= j < k && Inside(parent, j, v)| <= k
  {
    if k > 0 {
      GatherCountsMembers(parent, w, v, k - 1);
      var before := set j | 0 <= j < k - 1 && Inside(parent, j, v);
      var now := set j | 0 <= j < k && Inside(parent, j, v);
      if Inside(parent, k - 1, v) {
        assert now == before + {k - 1};
      } else {
        assert now == before;
      }
    }
  }
}
