/** Record numbers from one shared counter: different, never zero, and never past the end of the counter's range. */
module RecordIds {

  /** The largest value of the counter, how many calls may run at once, and the first number. */
  datatype Range = Range(largest: nat, concurrent: nat, first: nat)

  predicate RangeOk(g: Range) {
    0 < g.concurrent < g.largest / 2 && 0 < g.first <= Exhausted(g)
  }

  function Exhausted(g: Range): int {
    g.largest - g.concurrent
  }

  /** The counter; calls that are about to add one; calls that saw the end and are about to reset; and what was given out. */
  datatype State = State(next: nat, calling: nat, resetting: nat, issued: seq<nat>, refused: nat)

  ghost predicate Init(g: Range, s: State) {
    s == State(g.first, 0, 0, [], 0)
  }

  /** A call begins, while fewer than the allowed number run. */
  ghost predicate Call(g: Range, s: State, s': State) {
    s.calling + s.resetting < g.concurrent && s' == s.(calling := s.calling + 1)
  }

  /** `fetch_add`, wrapping; a number below the end is given out, anything else goes on to the reset. */
  ghost predicate Fetch(g: Range, s: State, s': State) {
    && s.calling > 0
    && var next := (s.next + 1) % (g.largest + 1);
       if s.next < Exhausted(g) then s' == s.(next := next, calling := s.calling - 1, issued := s.issued + [s.next])
       else s' == s.(next := next, calling := s.calling - 1, resetting := s.resetting + 1)
  }

  /** The reset, and the answer zero. */
  ghost predicate Reset(g: Range, s: State, s': State) {
    && s.resetting > 0 && Exhausted(g) >= 0
    && s' == s.(next := Exhausted(g), resetting := s.resetting - 1, refused := s.refused + 1)
  }

  ghost predicate Step(g: Range, s: State, s': State) {
    Call(g, s, s') || Fetch(g, s, s') || Reset(g, s, s')
  }

  ghost predicate Run(g: Range, states: seq<State>) {
    && states != [] && Init(g, states[0])
    && forall i :: 0 <= i < |states| - 1 ==> Step(g, states[i], states[i + 1])
  }

  /** Numbers are given out one after the other; past the end the counter is ahead by no more than the calls that will reset it. */
  ghost predicate Inv(g: Range, s: State) {
    && s.calling + s.resetting <= g.concurrent
    && s.next <= Exhausted(g) + s.resetting
    && |s.issued| == (if s.next < Exhausted(g) then s.next else Exhausted(g)) - g.first
    && (forall i :: 0 <= i < |s.issued| ==> s.issued[i] == g.first + i)
    && (s.refused > 0 || s.resetting > 0 ==> s.next >= Exhausted(g))
  }

  lemma {:induction false} StepKeeps(g: Range, s: State, s': State)
    requires RangeOk(g) && Inv(g, s) && Step(g, s, s')
    ensures Inv(g, s')
  {
    hide Fetch, RangeOk;
    RangeFacts(g);
    if Fetch(g, s, s') {
      FetchKeeps(g, s, s');
    }
  }

  lemma {:induction false} RangeFacts(g: Range)
    requires RangeOk(g)
    ensures 0 < g.concurrent < g.largest && 0 < g.first <= Exhausted(g)
  {
  }

  lemma {:induction false} FetchKeeps(g: Range, s: State, s': State)
    requires 0 < g.concurrent < g.largest && 0 < g.first <= Exhausted(g) && Inv(g, s) && Fetch(g, s, s')
    ensures Inv(g, s')
  {
    NoWrap(s.next + 1, g.largest + 1);
  }

  lemma {:induction false} NoWrap(x: nat, m: nat)
    requires x < m
    ensures x % m == x
  {
  }

  lemma {:induction false} RunKeeps(g: Range, states: seq<State>)
    requires RangeOk(g) && Run(g, states)
    ensures Inv(g, states[|states| - 1])
  {
    if |states| > 1 {
      var front := states[..|states| - 1];
      RunKeeps(g, front);
      StepKeeps(g, front[|front| - 1], states[|states| - 1]);
    }
  }

  /** In every interleaving of at most so many calls, the numbers given out are different, nonzero and below the end. */
  lemma {:induction false} NumbersAreUnique(g: Range, states: seq<State>)
    requires RangeOk(g) && Run(g, states)
    ensures var issued := states[|states| - 1].issued;
      && (forall i :: 0 <= i < |issued| ==> 0 < issued[i] < Exhausted(g))
      && forall i, j :: 0 <= i < j < |issued| ==> issued[i] != issued[j]
  {
    RunKeeps(g, states);
  }

  /** A call that adds one finds room for it and for every other call that is about to. */
  lemma {:induction false} RoomForAll(g: Range, s: State)
    requires RangeOk(g) && Inv(g, s)
    ensures s.next + s.calling <= g.largest
  {
    hide RangeOk;
    RangeFacts(g);
  }

  /** The counter never wraps: every addition in every run adds exactly one. Zero is answered only when every number was given out. */
  lemma {:induction false} NeverWraps(g: Range, states: seq<State>)
    requires RangeOk(g) && Run(g, states)
    ensures forall i :: 0 <= i < |states| ==> states[i].next + states[i].calling <= g.largest
    ensures forall i :: 0 <= i < |states| - 1 && Fetch(g, states[i], states[i + 1]) ==> states[i + 1].next == states[i].next + 1
    ensures var s := states[|states| - 1]; s.refused > 0 ==> |s.issued| == Exhausted(g) - g.first
  {
    hide Inv, RangeOk, Fetch, Init, Step;
    forall i | 0 <= i < |states|
      ensures Inv(g, states[i]) && states[i].next + states[i].calling <= g.largest
    {
      RunKeeps(g, states[..i + 1]);
      RoomForAll(g, states[i]);
    }
    forall i | 0 <= i < |states| - 1 && Fetch(g, states[i], states[i + 1])
      ensures states[i + 1].next == states[i].next + 1
    {
      FetchAddsOne(g, states[i], states[i + 1]);
    }
    if states[|states| - 1].refused > 0 {
      RefusedAfterAll(g, states[|states| - 1]);
    }
  }

  lemma {:induction false} FetchAddsOne(g: Range, s: State, s': State)
    requires s.next + s.calling <= g.largest && Fetch(g, s, s')
    ensures s'.next == s.next + 1
  {
    NoWrap(s.next + 1, g.largest + 1);
  }

  lemma {:induction false} RefusedAfterAll(g: Range, s: State)
    requires Inv(g, s) && s.refused > 0
    ensures |s.issued| == Exhausted(g) - g.first
  {
  }
}
