/**
 * The record of contributions: for every signal the scopes that gained or lost one, so that a
 * subset of the signals can be counted later.
 */
module SignalLog {
  import opened Words
  import opened ScopeForest

  const NEGATIVE: u32 := 0x8000_0000

  /** `scope | NEGATIVE`. */
  function Signed(scope: u32): u32 {
    if scope < NEGATIVE then scope + NEGATIVE else scope
  }

  /** One entry: a scope gains one for this signal, or gives one back. */
  datatype Contribution = Contribution(signal: u32, scope: u32, gain: bool)

  /** The recorded word: the scope, with the sign in bit 31. */
  function Word(c: Contribution): u32
    requires c.scope < TWO_31
  {
    if c.gain then c.scope else Signed(c.scope)
  }

  ghost predicate IsRecordOf(record: seq<(u32, u32)>, log: seq<Contribution>) {
    && |record| == |log|
    && forall k :: 0 <= k < |log| ==> log[k].scope < TWO_31 && record[k] == (log[k].signal, Word(log[k]))
  }

  /** The entries of one signal, in order. */
  ghost function Column(log: seq<Contribution>, s: int): seq<Contribution> {
    if log == [] then []
    else
      var before := Column(log[..|log| - 1], s);
      var e := log[|log| - 1];
      if e.signal == s then before + [e] else before
  }

  ghost predicate InForest(parent: seq<u32>, log: seq<Contribution>) {
    forall k :: 0 <= k < |log| ==> log[k].scope < |parent|
  }

  /** What the entries add up to over the subtree of `v`. */
  ghost function Net(parent: seq<u32>, col: seq<Contribution>, v: int): int
    requires Forest(parent) && InForest(parent, col)
  {
    if col == [] then 0
    else
      var e := col[|col| - 1];
      Net(parent, col[..|col| - 1], v)
        + (if !Inside(parent, e.scope, v) then 0 else if e.gain then 1 else -1)
  }

  function Bit(b: bool): int {
    if b then 1 else 0
  }

  /** Over every subtree, the entries of a signal add up to one if it occurs there and to zero if not. */
  ghost predicate Balanced(parent: seq<u32>, vars: seq<seq<u32>>, log: seq<Contribution>) {
    && Forest(parent) && |vars| == |parent| && InForest(parent, log)
    && forall s: u32, v: int :: 0 <= v < |parent| ==> BalancedAt(parent, vars, log, s, v)
  }

  ghost predicate BalancedAt(parent: seq<u32>, vars: seq<seq<u32>>, log: seq<Contribution>, s: u32, v: int)
    requires Forest(parent) && |vars| == |parent|
  {
    && InForest(parent, Column(log, s))
    && Net(parent, Column(log, s), v) == Bit(s in Signals(parent, vars, v))
  }

  lemma {:induction false} ColumnInForest(parent: seq<u32>, log: seq<Contribution>, s: int)
    requires InForest(parent, log)
    ensures InForest(parent, Column(log, s))
  {
    if log != [] {
      ColumnInForest(parent, log[..|log| - 1], s);
    }
  }

  lemma {:induction false} ColumnOfAppend(log: seq<Contribution>, e: Contribution, s: int)
    ensures Column(log + [e], s) == Column(log, s) + if e.signal == s then [e] else []
  {
    assert (log + [e])[..|log + [e]| - 1] == log;
  }

  lemma {:induction false} NetOfAppend(parent: seq<u32>, col: seq<Contribution>, e: Contribution, v: int)
    requires Forest(parent) && InForest(parent, col) && e.scope < |parent|
    ensures Net(parent, col + [e], v) == Net(parent, col, v)
      + (if !Inside(parent, e.scope, v) then 0 else if e.gain then 1 else -1)
  {
    assert (col + [e])[..|col + [e]| - 1] == col;
  }

  /** One more entry moves the net of its own signal only, and only around its own scope. */
  lemma {:induction false} NetOfEntry(parent: seq<u32>, log: seq<Contribution>, e: Contribution, g: int, v: int)
    requires Forest(parent) && InForest(parent, Column(log, g)) && e.scope < |parent|
    ensures InForest(parent, Column(log + [e], g))
    ensures Net(parent, Column(log + [e], g), v) == Net(parent, Column(log, g), v)
      + (if e.signal != g || !Inside(parent, e.scope, v) then 0 else if e.gain then 1 else -1)
  {
    ColumnOfAppend(log, e, g);
    if e.signal == g {
      NetOfAppend(parent, Column(log, g), e, v);
    }
  }

  lemma {:induction false} NetAfterEnter(parent: seq<u32>, p: u32, col: seq<Contribution>, v: int)
    requires Forest(parent) && Forest(parent + [p]) && InForest(parent, col)
    ensures Net(parent + [p], col, v) == Net(parent, col, v)
    ensures v >= |parent| ==> Net(parent, col, v) == 0
  {
    if col != [] {
      var e := col[|col| - 1];
      NetAfterEnter(parent, p, col[..|col| - 1], v);
      ReachAfterEnter(parent, p, v, e.scope, 0);
      if Inside(parent, e.scope, v) {
        ReachDescends(parent, v, e.scope, 0);
      }
    }
  }
}
