/**
 * The encoding hand-off always finishes: without new calls every run comes to rest after a bounded number of steps, however the threads
 * are scheduled. Each compare-exchange that fails without a reason and each throw of the sink adds a constant to the bound.
 */
module HandoffProgress {
  import opened HandoffState
  import opened HandoffInvariant
  import opened HandoffSteps
  import opened Handoff

  // ---------------------------------------------------------------- what is left to do

  /** The step begins no new call. */
  predicate Goes(s: State, m: Move) {
    m.i < |s.threads| && !s.threads[m.i].pc.Idle?
  }

  /** A compare-exchange fails although it found what it expected, or the sink throws. */
  predicate Setback(s: State, m: Move)
    requires Goes(s, m)
  {
    match s.threads[m.i].pc
    case Reserve(_, current) => m.c.spurious && s.g.budget == current
    case Claim(t) => m.c.spurious && s.g.nextEncode == t
    case Write(_) => m.c.throws
    case _ => false
  }

  /** What a thread still owes: its own ticket when it will take one, a notification, and what follows a failure. */
  function Weight(pc: Pc): nat {
    match pc
    case Snap(goal) => if goal.Room? then 66 else 0
    case Check(goal, _) => if goal.Room? then 66 else 0
    case Look(goal, _) => if goal.Room? then 66 else 0
    case Wait(goal, _) => if goal.Room? then 66 else 0
    case Reserve(_, _) => 66
    case Take(_) => 65
    case Run(_) => 5
    case FailClaim => 4
    case FailFlag => 3
    case FailStop => 2
    case PublishNotify => 1
    case FinishNotify => 1
    case CountNotify => 1
    case FailNotify => 1
    case _ => 0
  }

  function Weights(threads: seq<Thread>): nat {
    if threads == [] then 0 else Weight(threads[0].pc) + Weights(threads[1..])
  }

  function PhaseLeft(phase: nat): nat {
    if phase < COUNTED then 7 * (COUNTED - phase) else 0
  }

  function PhasesLeft(phases: seq<nat>): nat {
    if phases == [] then 0 else PhaseLeft(phases[0]) + PhasesLeft(phases[1..])
  }

  /** Changes of shared state that can still come. */
  function Owed(g: Shared, threads: seq<Thread>): nat {
    Weights(threads) + PhasesLeft(g.phase) + if g.nextEncode < g.accepted then g.accepted - g.nextEncode else 0
  }

  /** How many steps a thread can make before it sleeps or changes shared state, when nobody else does. */
  function Rank(g: Shared, pc: Pc): nat {
    match pc
    case Snap(_) => 4
    case Check(_, seen) => if seen == g.progress then 3 else 8
    case Look(_, seen) => if seen == g.progress then 2 else 7
    case Compare(seen, t) => if seen == g.progress && t == g.nextEncode then 1 else 6
    case Wait(_, seen) => if seen == g.progress then 0 else 5
    case Claim(t) => if t == g.nextEncode then 0 else 5
    case Reserve(_, current) => if current == g.budget then 0 else 5
    case FailClaim => 5
    case _ => 0
  }

  function Ranks(g: Shared, threads: seq<Thread>): (n: nat)
    ensures n <= 8 * |threads|
  {
    if threads == [] then 0 else Rank(g, threads[0].pc) + Ranks(g, threads[1..])
  }

  /** A bound on the steps to come. */
  function Bound(s: State): nat {
    Owed(s.g, s.threads) * (8 * |s.threads| + 1) + Ranks(s.g, s.threads)
  }

  lemma {:induction false} ThreadChanges(g: Shared, threads: seq<Thread>, i: nat, th: Thread)
    requires i < |threads|
    ensures Weights(threads[i := th]) == Weights(threads) - Weight(threads[i].pc) + Weight(th.pc)
    ensures Ranks(g, threads[i := th]) == Ranks(g, threads) - Rank(g, threads[i].pc) + Rank(g, th.pc)
  {
    hide Weight, Rank;
    if i == 0 {
      assert threads[i := th][1..] == threads[1..];
    } else {
      ThreadChanges(g, threads[1..], i - 1, th);
      assert threads[i := th][1..] == threads[1..][i - 1 := th];
    }
  }

  lemma {:induction false} PhaseChanges(phases: seq<nat>, t: nat, phase: nat)
    requires t < |phases|
    ensures PhasesLeft(phases[t := phase]) == PhasesLeft(phases) - PhaseLeft(phases[t]) + PhaseLeft(phase)
  {
    hide PhaseLeft;
    if t == 0 {
      assert phases[t := phase][1..] == phases[1..];
    } else {
      PhaseChanges(phases[1..], t - 1, phase);
      assert phases[t := phase][1..] == phases[1..][t - 1 := phase];
    }
  }

  lemma {:induction false} PhaseAdded(phases: seq<nat>, phase: nat)
    ensures PhasesLeft(phases + [phase]) == PhasesLeft(phases) + PhaseLeft(phase)
  {
    hide PhaseLeft;
    if phases == [] {
      assert [phase][1..] == [];
    } else {
      assert (phases + [phase])[1..] == phases[1..] + [phase];
      PhaseAdded(phases[1..], phase);
    }
  }

  // ---------------------------------------------------------------- every step takes something off

  /** A step that changes no shared state brings the thread closer to sleep or to one that does. */
  lemma {:induction false} LocalAdvances(o: Settings, g: Shared, th: Thread, c: Choice)
    requires InRange(o, g) && Named(g, th.pc) && Enabled(g, th) && !th.pc.Idle?
    requires Local(o, g, th.pc, c)
    ensures var pc := LocalStep(o, g, th.role, th.pc, c);
      && Weight(pc) <= Weight(th.pc)
      && Rank(g, pc) < Rank(g, th.pc) + if c.spurious && (th.pc == Claim(g.nextEncode) || (th.pc.Reserve? && th.pc.current == g.budget)) then 5 else 0
  {
    match th.pc
    case Look(goal, seen) =>
    case _ =>
  }

  /** What a step that changes shared state leaves owed. */
  ghost predicate Pays(g: Shared, g': Shared, pc: Pc, pc': Pc) {
    && PhasesLeft(g'.phase) + Weight(pc') + (if g'.nextEncode < g'.accepted then g'.accepted - g'.nextEncode else 0)
       < PhasesLeft(g.phase) + Weight(pc) + (if g.nextEncode < g.accepted then g.accepted - g.nextEncode else 0)
  }

  lemma {:induction false} AdmitPays(o: Settings, s: State, m: Move)
    requires Inv(o, s) && Possible(o, s, m) && Goes(s, m) && !Local(o, s.g, s.threads[m.i].pc, m.c)
    requires s.threads[m.i].pc.Reserve? || s.threads[m.i].pc.Take? || s.threads[m.i].pc.Claim?
    ensures var pc := s.threads[m.i].pc; var (g', pc') := AdmitStep(o, s.g, m.i, pc); Pays(s.g, g', pc, pc')
  {
    hide Inv, ThreadOk, PhasesLeft;
    PhaseAdded(s.g.phase, TAKEN);
  }

  lemma {:induction false} RetirePays(o: Settings, s: State, m: Move)
    requires Inv(o, s) && Possible(o, s, m) && Goes(s, m)
    requires s.threads[m.i].pc.Vacate? || s.threads[m.i].pc.Release? || s.threads[m.i].pc.Count?
    ensures var pc := s.threads[m.i].pc; var (g', pc') := RetireStep(o, s.g, pc); Pays(s.g, g', pc, pc')
  {
    hide Inv, PhasesLeft;
    ThreadFact(o, s, m.i);
    var t := s.threads[m.i].pc.ticket;
    PhaseChanges(s.g.phase, t, RetireStep(o, s.g, s.threads[m.i].pc).0.phase[t]);
  }

  lemma {:induction false} MovePays(o: Settings, s: State, m: Move)
    requires Inv(o, s) && Possible(o, s, m) && Goes(s, m) && !Setback(s, m)
    requires var pc := s.threads[m.i].pc; pc.Fill? || pc.Publish? || pc.Mark? || pc.Run? || pc.Finish? || pc.Write?
    ensures var pc := s.threads[m.i].pc; var (g', pc') := MoveStep(o, s.g, m.i, pc, m.c); Pays(s.g, g', pc, pc')
  {
    hide Inv, PhasesLeft, Enabled, Named, Weights, MoveStep, GoalOk;
    ThreadFact(o, s, m.i);
    var pc := s.threads[m.i].pc;
    PhaseOfMove(o, s, m);
    MoveOwes(o, s.g, m.i, pc, m.c);
  }

  lemma {:induction false} PhaseOfMove(o: Settings, s: State, m: Move)
    requires m.i < |s.threads| && InRange(o, s.g) && ThreadOk(o, s.g, m.i, s.threads[m.i])
    requires var pc := s.threads[m.i].pc; pc.Fill? || pc.Publish? || pc.Mark? || pc.Run? || pc.Finish? || pc.Write?
    ensures MovePhase(s.g, s.threads[m.i].pc)
  {
  }

  /** The phase of a ticket that is about to be moved on. */
  ghost predicate MovePhase(g: Shared, pc: Pc) {
    match pc
    case Fill(_, t) => t < |g.phase| && g.phase[t] == TAKEN
    case Publish(t) => t < |g.phase| && g.phase[t] == FILLED
    case Mark(t) => t < |g.phase| && g.phase[t] <= QUEUED
    case Run(t) => t < |g.phase| && g.phase[t] == ENCODING
    case Finish(t) => t < |g.phase| && g.phase[t] == ENCODED
    case Write(t) => t < |g.phase| && g.phase[t] == READY
    case _ => true
  }

  lemma {:induction false} MoveOwes(o: Settings, g: Shared, i: nat, pc: Pc, c: Choice)
    requires InRange(o, g) && Named(g, pc) && MovePhase(g, pc) && (pc.Write? ==> !c.throws)
    requires pc.Fill? || pc.Publish? || pc.Mark? || pc.Run? || pc.Finish? || pc.Write?
    ensures var (g', pc') := MoveStep(o, g, i, pc, c); Pays(g, g', pc, pc')
  {
    hide PhasesLeft, SlotOf, PhaseLeft, Weight;
    var t := pc.ticket;
    var (g', pc') := MoveStep(o, g, i, pc, c);
    PhaseChanges(g.phase, t, g'.phase[t]);
    assert g'.phase == g.phase[t := g'.phase[t]];
    MoveOwesLess(o, g, i, pc, c);
  }

  lemma {:induction false} MoveOwesLess(o: Settings, g: Shared, i: nat, pc: Pc, c: Choice)
    requires InRange(o, g) && Named(g, pc) && MovePhase(g, pc) && (pc.Write? ==> !c.throws)
    requires pc.Fill? || pc.Publish? || pc.Mark? || pc.Run? || pc.Finish? || pc.Write?
    ensures var (g', pc') := MoveStep(o, g, i, pc, c);
      PhaseLeft(g'.phase[pc.ticket]) + Weight(pc') < PhaseLeft(g.phase[pc.ticket]) + Weight(pc)
  {
    hide SlotOf;
  }

  lemma {:induction false} RestPays(o: Settings, g: Shared, i: nat, th: Thread, c: Choice)
    requires InRange(o, g) && Named(g, th.pc) && Enabled(g, th) && !Local(o, g, th.pc, c)
    requires th.pc.PublishNotify? || th.pc.FinishNotify? || th.pc.CountNotify? || th.pc.FailNotify?
             || th.pc.FailClaim? || th.pc.FailFlag? || th.pc.FailStop?
    ensures var (g', pc') := SharedStep(o, g, i, th.role, th.pc, c); Pays(g, g', th.pc, pc')
  {
    hide AdmitStep, RetireStep, MoveStep, PhasesLeft;
  }

  lemma {:induction false} EveryoneCanStep(s: State, m: Move)
    requires m.i < |s.threads| && Enabled(s.g, s.threads[m.i])
    ensures !s.threads[m.i].pc.Exited?
  {
  }

  /** A step that changes shared state leaves less owed. */
  lemma {:induction false} SharedPays(o: Settings, s: State, m: Move)
    requires Inv(o, s) && Possible(o, s, m) && Goes(s, m) && !Local(o, s.g, s.threads[m.i].pc, m.c) && !Setback(s, m)
    ensures var (g', pc') := SharedStep(o, s.g, m.i, s.threads[m.i].role, s.threads[m.i].pc, m.c);
      Pays(s.g, g', s.threads[m.i].pc, pc')
  {
    hide Inv, Local, Enabled, Named, Weight, PhasesLeft, Pays, Setback;
    var th := s.threads[m.i];
    EveryoneCanStep(s, m);
    if th.pc.Reserve? || th.pc.Take? || th.pc.Claim? {
      AdmitPays(o, s, m);
    } else if th.pc.Vacate? || th.pc.Release? || th.pc.Count? {
      RetirePays(o, s, m);
    } else if th.pc.Fill? || th.pc.Publish? || th.pc.Mark? || th.pc.Run? || th.pc.Finish? || th.pc.Write? {
      MovePays(o, s, m);
    } else {
      SharedKind(o, s.g, th.pc, m.c);
      RestPays(o, s.g, m.i, th, m.c);
    }
  }

  lemma {:induction false} SharedKind(o: Settings, g: Shared, pc: Pc, c: Choice)
    requires !Local(o, g, pc, c) && !pc.Exited?
    requires !(pc.Reserve? || pc.Take? || pc.Claim? || pc.Vacate? || pc.Release? || pc.Count?)
    requires !(pc.Fill? || pc.Publish? || pc.Mark? || pc.Run? || pc.Finish? || pc.Write?)
    ensures pc.PublishNotify? || pc.FinishNotify? || pc.CountNotify? || pc.FailNotify? || pc.FailClaim? || pc.FailFlag? || pc.FailStop?
  {
  }

  /** What a setback can add to the bound. */
  function Penalty(n: nat): nat {
    4 * (8 * n + 1) + 9
  }

  /** Every other step lowers the bound. */
  lemma {:induction false} StepAdvances(o: Settings, s: State, m: Move)
    requires Inv(o, s) && Possible(o, s, m) && Goes(s, m)
    ensures Bound(Next(o, s, m)) < Bound(s) + if Setback(s, m) then Penalty(|s.threads|) else 0
  {
    hide Inv, LocalStep, SharedStep, Local, Enabled, Named, PhasesLeft, Weight, Rank, Weights, Ranks;
    var th, n := s.threads[m.i], 8 * |s.threads| + 1;
    var next := Next(o, s, m);
    ThreadChanges(next.g, s.threads, m.i, next.threads[m.i]);
    if Local(o, s.g, th.pc, m.c) {
      LocalAdvances(o, s.g, th, m.c);
      Scale(Owed(next.g, next.threads), Owed(s.g, s.threads), n);
    } else if Setback(s, m) {
      SetbackCosts(o, s, m);
      Scale(Owed(next.g, next.threads), Owed(s.g, s.threads) + 4, n);
      assert (Owed(s.g, s.threads) + 4) * n == Owed(s.g, s.threads) * n + 4 * n;
    } else {
      SharedPays(o, s, m);
      Scale(Owed(next.g, next.threads) + 1, Owed(s.g, s.threads), n);
      Scale(Owed(next.g, next.threads), Owed(s.g, s.threads), n);
    }
  }

  /** After the sink threw, what follows a failure is owed. */
  lemma {:induction false} SetbackCosts(o: Settings, s: State, m: Move)
    requires Inv(o, s) && Possible(o, s, m) && Goes(s, m) && Setback(s, m) && !Local(o, s.g, s.threads[m.i].pc, m.c)
    ensures Owed(Next(o, s, m).g, Next(o, s, m).threads) == Owed(s.g, s.threads) + 4
    ensures Ranks(Next(o, s, m).g, Next(o, s, m).threads) <= Ranks(s.g, s.threads) + 5
  {
    hide Inv, Named, PhasesLeft, Weights, Ranks;
    var next := Next(o, s, m);
    ThreadChanges(next.g, s.threads, m.i, next.threads[m.i]);
    SameRanks(s.g, next.g, s.threads);
  }

  lemma {:induction false} SameRanks(g: Shared, g': Shared, threads: seq<Thread>)
    requires g'.progress == g.progress && g'.nextEncode == g.nextEncode && g'.budget == g.budget
    ensures Ranks(g', threads) == Ranks(g, threads)
  {
    if threads != [] {
      SameRanks(g, g', threads[1..]);
    }
  }

  lemma {:induction false} Scale(a: nat, b: nat, n: nat)
    requires a <= b
    ensures a * n <= b * n && (a + 1) * n == a * n + n
  {
  }

  // ---------------------------------------------------------------- runs

  /** No new calls. */
  ghost predicate Continues(o: Settings, s: State, moves: seq<Move>)
    requires CanRun(o, s, moves)
    decreases |moves|
  {
    moves == [] || (Goes(s, moves[0]) && Continues(o, Next(o, s, moves[0]), moves[1..]))
  }

  /** How many of the steps are setbacks. */
  ghost function Setbacks(o: Settings, s: State, moves: seq<Move>): nat
    requires CanRun(o, s, moves) && Continues(o, s, moves)
    decreases |moves|
  {
    if moves == [] then 0 else (if Setback(s, moves[0]) then 1 else 0) + Setbacks(o, Next(o, s, moves[0]), moves[1..])
  }

  lemma {:induction false} RunAdvances(o: Settings, s: State, moves: seq<Move>)
    requires Inv(o, s) && CanRun(o, s, moves) && Continues(o, s, moves)
    ensures |moves| + Bound(After(o, s, moves)) <= Bound(s) + Setbacks(o, s, moves) * Penalty(|s.threads|)
    decreases |moves|
  {
    hide Inv, Next, Possible, Bound, Goes, Setback, Penalty;
    if moves != [] {
      var next := Next(o, s, moves[0]);
      StepAdvances(o, s, moves[0]);
      StepKeeps(o, s, moves[0]);
      SameThreads(o, s, moves[0]);
      RunAdvances(o, next, moves[1..]);
      var rest, p := Setbacks(o, next, moves[1..]), Penalty(|s.threads|);
      assert (1 + rest) * p == p + rest * p;
    }
  }

  lemma {:induction false} SameThreads(o: Settings, s: State, m: Move)
    requires Possible(o, s, m)
    ensures |Next(o, s, m).threads| == |s.threads|
  {
    hide LocalStep, SharedStep, Local, Named, Enabled;
  }

  lemma {:induction false} RunReaches(o: Settings, s: State, moves: seq<Move>)
    requires Reachable(o, s) && CanRun(o, s, moves)
    ensures Reachable(o, After(o, s, moves))
    decreases |moves|
  {
    hide Reachable, Next, Inv, Named, Enabled;
    if moves != [] {
      ReachableKeeps(o, s);
      AwakeCanMove(o, s, moves[0].i, moves[0].c);
      assert moves[0] == Move(moves[0].i, moves[0].c);
      RunReaches(o, Next(o, s, moves[0]), moves[1..]);
    }
  }

  /**
   * However the threads are scheduled, without new calls a run has at most `Bound(s)` steps, and a constant more for every setback. Where
   * it cannot go on, everything accepted is written and every call has returned, or the pipeline was stopped and nobody is left asleep.
   */
  lemma {:induction false} EveryRunFinishes(o: Settings, s: State, moves: seq<Move>)
    requires Reachable(o, s) && CanRun(o, s, moves) && Continues(o, s, moves)
    ensures |moves| <= Bound(s) + Setbacks(o, s, moves) * Penalty(|s.threads|)
    ensures var end := After(o, s, moves); AtRest(end) ==> if end.g.stopped then AllGone(end) else AllDone(o, end)
  {
    hide Reachable, Inv, Bound, AtRest, AllGone, AllDone, Penalty;
    ReachableKeeps(o, s);
    RunAdvances(o, s, moves);
    RunReaches(o, s, moves);
    if AtRest(After(o, s, moves)) {
      RestIsDone(o, After(o, s, moves));
    }
  }

  /** Whatever was done so far, some run leads to rest: every `submit` and `drain` can return. */
  lemma {:induction false} CanFinish(o: Settings, s: State) returns (moves: seq<Move>)
    requires Reachable(o, s)
    ensures CanRun(o, s, moves) && Continues(o, s, moves) && AtRest(After(o, s, moves))
    decreases Bound(s)
  {
    hide Reachable, Inv, Bound, Next, Named, Enabled;
    if AtRest(s) {
      moves := [];
    } else {
      var i :| 0 <= i < |s.threads| && !RestsAt(s, i);
      var m := Move(i, Choice(Drain, false, false));
      ReachableKeeps(o, s);
      AwakeCanMove(o, s, i, m.c);
      StepAdvances(o, s, m);
      var rest := CanFinish(o, Next(o, s, m));
      moves := [m] + rest;
      assert moves[1..] == rest;
    }
  }

  /** Unless the pipeline stops, every ticket that was accepted gets written. */
  lemma {:induction false} EveryTicketIsWritten(o: Settings, s: State, moves: seq<Move>, t: nat)
    requires Reachable(o, s) && CanRun(o, s, moves) && AtRest(After(o, s, moves))
    requires t < s.g.accepted && !After(o, s, moves).g.stopped
    ensures |s.g.jobs| == s.g.accepted
    ensures var end := After(o, s, moves); t < |end.g.output| && WritesTicket(end.g.output[t], s.g.jobs[t])
  {
    hide Reachable, Inv, AtRest, WritesTicket;
    RunReaches(o, s, moves);
    RestIsDone(o, After(o, s, moves));
    HistoryGrows(o, s, moves);
    OutputIsPrefix(o, s);
    var end := After(o, s, moves);
    assert s.g.jobs <= end.g.jobs;
    assert end.g.jobs[t] == s.g.jobs[t];
  }

  // ---------------------------------------------------------------- when nothing throws

  /** The job of a call on its way to a ticket does not throw. */
  ghost predicate Willing(pc: Pc) {
    match pc
    case Snap(goal) => goal.Room? ==> goal.job.encode.Yields?
    case Check(goal, _) => goal.Room? ==> goal.job.encode.Yields?
    case Look(goal, _) => goal.Room? ==> goal.job.encode.Yields?
    case Wait(goal, _) => goal.Room? ==> goal.job.encode.Yields?
    case Reserve(job, _) => job.encode.Yields?
    case Take(job) => job.encode.Yields?
    case _ => true
  }

  /** Nothing has failed, and no encoder of a job that was submitted is about to. */
  ghost predicate NothingThrows(s: State) {
    && !s.g.broken && (forall t :: 0 <= t < |s.g.jobs| ==> s.g.jobs[t].encode.Yields?)
    && forall i :: 0 <= i < |s.threads| ==> Willing(s.threads[i].pc)
  }

  lemma {:induction false} LocalStaysWilling(o: Settings, g: Shared, th: Thread, c: Choice)
    requires InRange(o, g) && Named(g, th.pc) && Local(o, g, th.pc, c) && Willing(th.pc) && !th.pc.Idle?
    ensures Willing(LocalStep(o, g, th.role, th.pc, c))
  {
  }

  ghost predicate StillWilling(g: Shared, pc: Pc) {
    !g.broken && Willing(pc) && forall t :: 0 <= t < |g.jobs| ==> g.jobs[t].encode.Yields?
  }

  lemma {:induction false} MoveStaysWilling(o: Settings, g: Shared, i: nat, pc: Pc, c: Choice)
    requires InRange(o, g) && Named(g, pc) && StillWilling(g, pc) && !c.throws
    requires pc.Fill? || pc.Publish? || pc.Mark? || pc.Run? || pc.Finish? || pc.Write?
    requires pc.Run? ==> g.slots[SlotOf(o, pc.ticket)].encode.Yields?
    ensures StillWilling(MoveStep(o, g, i, pc, c).0, MoveStep(o, g, i, pc, c).1)
  {
    hide SlotOf;
  }

  lemma {:induction false} OtherStaysWilling(o: Settings, g: Shared, i: nat, th: Thread, c: Choice)
    requires InRange(o, g) && Named(g, th.pc) && StillWilling(g, th.pc) && !Local(o, g, th.pc, c) && !th.pc.Exited?
    requires var pc := th.pc; !(pc.Fill? || pc.Publish? || pc.Mark? || pc.Run? || pc.Finish? || pc.Write?)
    ensures var (g', pc') := SharedStep(o, g, i, th.role, th.pc, c); StillWilling(g', pc')
  {
    hide SlotOf, MoveStep;
  }

  lemma {:induction false} SharedStaysWilling(o: Settings, s: State, m: Move)
    requires Inv(o, s) && Possible(o, s, m) && Goes(s, m) && !m.c.throws && NothingThrows(s) && !Local(o, s.g, s.threads[m.i].pc, m.c)
    ensures var (g', pc') := SharedStep(o, s.g, m.i, s.threads[m.i].role, s.threads[m.i].pc, m.c); StillWilling(g', pc')
  {
    hide Inv, Enabled, Local, Weights, Willing, MoveStep, AdmitStep, RetireStep, Named, FailStep, AfterNotify;
    EveryoneCanStep(s, m);
    var pc := s.threads[m.i].pc;
    if pc.Run? {
      RunYields(o, s, m.i);
    }
    if pc.Fill? || pc.Publish? || pc.Mark? || pc.Run? || pc.Finish? || pc.Write? {
      MoveStaysWilling(o, s.g, m.i, pc, m.c);
    } else {
      OtherStaysWilling(o, s.g, m.i, s.threads[m.i], m.c);
    }
  }

  lemma {:induction false} RunYields(o: Settings, s: State, i: nat)
    requires Inv(o, s) && i < |s.threads| && s.threads[i].pc.Run? && NothingThrows(s)
    ensures InRange(o, s.g) && s.g.slots[SlotOf(o, s.threads[i].pc.ticket)].encode.Yields?
  {
    hide NotifyPending, AllAwakeOk, AllCarried, BudgetOk, FailureOk, SlotsOk;
    ThreadFact(o, s, i);
    assert TicketOk(o, s.g, s.threads[i].pc.ticket);
  }

  lemma {:induction false} StepStaysWilling(o: Settings, s: State, m: Move)
    requires Inv(o, s) && Possible(o, s, m) && Goes(s, m) && !m.c.throws && NothingThrows(s)
    ensures NothingThrows(Next(o, s, m))
  {
    hide Inv, LocalStep, SharedStep, Local, Enabled, Named, Willing;
    if Local(o, s.g, s.threads[m.i].pc, m.c) {
      LocalStaysWilling(o, s.g, s.threads[m.i], m.c);
    } else {
      SharedStaysWilling(o, s, m);
    }
  }

  lemma {:induction false} RunStaysWilling(o: Settings, s: State, moves: seq<Move>)
    requires Inv(o, s) && CanRun(o, s, moves) && Continues(o, s, moves) && NothingThrows(s)
    requires forall k :: 0 <= k < |moves| ==> !moves[k].c.throws
    ensures NothingThrows(After(o, s, moves))
    decreases |moves|
  {
    hide Inv, Next, Possible, NothingThrows, Goes;
    if moves != [] {
      StepStaysWilling(o, s, moves[0]);
      StepKeeps(o, s, moves[0]);
      RunStaysWilling(o, Next(o, s, moves[0]), moves[1..]);
    }
  }

  /** When no encoder and no sink throws, every run without new calls ends with everything written and every call returned. */
  lemma {:induction false} AllIsWritten(o: Settings, s: State, moves: seq<Move>)
    requires Reachable(o, s) && NothingThrows(s) && CanRun(o, s, moves) && Continues(o, s, moves) && AtRest(After(o, s, moves))
    requires forall k :: 0 <= k < |moves| ==> !moves[k].c.throws
    ensures AllDone(o, After(o, s, moves)) && s.g.jobs <= After(o, s, moves).g.jobs
  {
    hide Reachable, Inv, AtRest, AllDone, AllGone, NothingThrows, Bound;
    ReachableKeeps(o, s);
    EveryRunFinishes(o, s, moves);
    HistoryGrows(o, s, moves);
    RunStaysWilling(o, s, moves);
    RunKeeps(o, s, moves);
    UnbrokenGoesOn(o, After(o, s, moves));
  }

  lemma {:induction false} UnbrokenGoesOn(o: Settings, s: State)
    requires Inv(o, s) && NothingThrows(s)
    ensures !s.g.stopped
  {
    hide TicketsOk, SlotsOk, ThreadsOk, AllCarried, AllAwakeOk, BudgetOk;
  }
}
