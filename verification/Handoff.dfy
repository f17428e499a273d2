/** What holds after every run of the encoding hand-off, whatever the interleaving. */
module Handoff {
  import opened HandoffState
  import opened HandoffInvariant
  import opened HandoffSteps

  /** `s` can be reached from a start with some threads. */
  ghost predicate Reaches(o: Settings, start: State, moves: seq<Move>, s: State) {
    Initial(o, start) && CanRun(o, start, moves) && s == After(o, start, moves)
  }

  ghost predicate Reachable(o: Settings, s: State) {
    exists start, moves :: Reaches(o, start, moves, s)
  }

  // ---------------------------------------------------------------- the invariant over runs

  lemma {:induction false} StartsWell(o: Settings, s: State)
    requires Initial(o, s)
    ensures Inv(o, s)
  {
    NothingHeldYet(s.threads);
    assert s.g.jobs[s.g.released..] == [];
    forall i | 0 <= i < |s.threads|
      ensures ThreadOk(o, s.g, i, s.threads[i])
      ensures AwakeOk(o, s.g, NotifyPending(s.threads), s.threads[i].pc)
    {
      assert RoleFits(o, i, s.threads[i].role);
    }
    forall k | 0 <= k < |s.g.slots|
      ensures SlotOk(o, s.g, k)
    {
    }
  }

  lemma {:induction false} NothingHeldYet(threads: seq<Thread>)
    requires forall i :: 0 <= i < |threads| ==> !threads[i].pc.Take?
    ensures HeldCount(threads) == 0 && HeldCharge(threads) == 0
  {
    if threads != [] {
      NothingHeldYet(threads[1..]);
    }
  }

  lemma {:induction false} RunKeeps(o: Settings, s: State, moves: seq<Move>)
    requires Inv(o, s) && CanRun(o, s, moves)
    ensures Inv(o, After(o, s, moves))
    decreases |moves|
  {
    hide Inv, Next, Possible;
    if moves != [] {
      StepKeeps(o, s, moves[0]);
      RunKeeps(o, Next(o, s, moves[0]), moves[1..]);
    }
  }

  lemma {:induction false} ReachableKeeps(o: Settings, s: State)
    requires Reachable(o, s)
    ensures Inv(o, s)
  {
    hide Inv, Initial, CanRun, After;
    var start, moves :| Reaches(o, start, moves, s);
    StartsWell(o, start);
    RunKeeps(o, start, moves);
  }

  /** A thread that is neither asleep nor gone can always make its move. */
  lemma {:induction false} AwakeCanMove(o: Settings, s: State, i: nat, c: Choice)
    requires Reachable(o, s) && i < |s.threads| && Enabled(s.g, s.threads[i])
    ensures Possible(o, s, Move(i, c)) && Reachable(o, Next(o, s, Move(i, c)))
  {
    hide Inv, Initial, CanRun, After, Next;
    ReachableKeeps(o, s);
    OwnNamed(o, s, i);
    var m := Move(i, c);
    var start, moves :| Reaches(o, start, moves, s);
    RunLonger(o, start, moves, m);
    assert Reaches(o, start, moves + [m], Next(o, s, m));
  }

  lemma {:induction false} OwnNamed(o: Settings, s: State, i: nat)
    requires Inv(o, s) && i < |s.threads|
    ensures InRange(o, s.g) && Named(s.g, s.threads[i].pc)
  {
    hide Inv, Initial, CanRun, After, Next, Reachable;
    ThreadFact(o, s, i);
  }

  lemma {:induction false} RunLonger(o: Settings, s: State, moves: seq<Move>, m: Move)
    requires CanRun(o, s, moves) && Possible(o, After(o, s, moves), m)
    ensures CanRun(o, s, moves + [m]) && After(o, s, moves + [m]) == Next(o, After(o, s, moves), m)
    decreases |moves|
  {
    hide Possible, Next;
    if moves == [] {
      assert [m][1..] == [];
    } else {
      assert (moves + [m])[1..] == moves[1..] + [m];
      RunLonger(o, Next(o, s, moves[0]), moves[1..], m);
    }
  }

  // ---------------------------------------------------------------- what is written

  /** The sink was given the first tickets' own sections and bytes, in ticket order, and nothing else. */
  ghost predicate WritesTicketsInOrder(g: Shared) {
    && |g.output| <= |g.jobs|
    && forall t :: 0 <= t < |g.output| ==> WritesTicket(g.output[t], g.jobs[t])
  }

  ghost predicate WritesTicket(written: (int, seq<int>), job: Job) {
    job.encode == Yields(written.1) && written.0 == job.section
  }

  /** In every interleaving, failed or not, the output is a prefix of the tickets, each written once. */
  lemma {:induction false} OutputIsPrefix(o: Settings, s: State)
    requires Reachable(o, s)
    ensures WritesTicketsInOrder(s.g)
    ensures s.g.accepted == |s.g.jobs| && s.g.written <= |s.g.output| <= s.g.written + 1
  {
    hide Reachable, Inv;
    ReachableKeeps(o, s);
    NumbersFact(o, s);
    forall t | 0 <= t < |s.g.output|
      ensures WritesTicket(s.g.output[t], s.g.jobs[t])
    {
      TicketFact(o, s, t);
    }
  }

  lemma {:induction false} TicketFact(o: Settings, s: State, t: nat)
    requires Inv(o, s) && t < |s.g.output|
    ensures InRange(o, s.g) && t < s.g.accepted && TicketOk(o, s.g, t)
  {
  }

  lemma {:induction false} NumbersFact(o: Settings, s: State)
    requires Inv(o, s)
    ensures InRange(o, s.g) && s.g.written <= s.g.released <= |s.g.output| <= s.g.accepted
    ensures |s.g.output| <= s.g.written + 1 && s.g.accepted - s.g.released <= o.jobs && Acceptable(o)
  {
  }

  /** What was written and what was submitted is never taken back. */
  lemma {:induction false} HistoryGrows(o: Settings, s: State, moves: seq<Move>)
    requires CanRun(o, s, moves)
    ensures s.g.output <= After(o, s, moves).g.output && s.g.jobs <= After(o, s, moves).g.jobs
    decreases |moves|
  {
    hide Possible, Next;
    if moves != [] {
      StepGrows(o, s, moves[0]);
      HistoryGrows(o, Next(o, s, moves[0]), moves[1..]);
    }
  }

  lemma {:induction false} StepGrows(o: Settings, s: State, m: Move)
    requires Possible(o, s, m)
    ensures s.g.output <= Next(o, s, m).g.output && s.g.jobs <= Next(o, s, m).g.jobs
  {
    hide LocalStep, SharedStep;
    var th := s.threads[m.i];
    if !Local(o, s.g, th.pc, m.c) {
      SharedGrows(o, s.g, m.i, th.role, th.pc, m.c);
    }
  }

  lemma {:induction false} SharedGrows(o: Settings, g: Shared, i: nat, role: Role, pc: Pc, c: Choice)
    requires InRange(o, g) && Named(g, pc) && !Local(o, g, pc, c) && !pc.Exited?
    ensures var g' := SharedStep(o, g, i, role, pc, c).0; g.output <= g'.output && g.jobs <= g'.jobs
  {
    hide AfterNotify, MoveStep, AdmitStep, RetireStep;
    if pc.Reserve? || pc.Take? || pc.Claim? {
      AdmitGrows(o, g, i, pc);
    } else if pc.Vacate? || pc.Release? || pc.Count? {
      RetireMoves(o, g, pc);
      RetireGrows(o, g, pc);
    } else if pc.Fill? || pc.Publish? || pc.Mark? || pc.Run? || pc.Finish? || pc.Write? {
      MoveGrows(o, g, i, pc, c);
    }
  }

  lemma {:induction false} AdmitGrows(o: Settings, g: Shared, i: nat, pc: Pc)
    requires InRange(o, g) && Named(g, pc) && (pc.Reserve? || pc.Take? || pc.Claim?)
    ensures var g' := AdmitStep(o, g, i, pc).0; g.output == g'.output && g.jobs <= g'.jobs
  {
  }

  lemma {:induction false} RetireGrows(o: Settings, g: Shared, pc: Pc)
    requires InRange(o, g) && Named(g, pc) && (pc.Vacate? || pc.Release? || pc.Count?)
    ensures RetireStep(o, g, pc).0.output == g.output
  {
  }

  lemma {:induction false} MoveGrows(o: Settings, g: Shared, i: nat, pc: Pc, c: Choice)
    requires InRange(o, g) && Named(g, pc)
    requires pc.Fill? || pc.Publish? || pc.Mark? || pc.Run? || pc.Finish? || pc.Write?
    ensures var g' := MoveStep(o, g, i, pc, c).0; g.output <= g'.output && g.jobs == g'.jobs
  {
  }

  /** A `drain` that returns normally returns after every ticket accepted before it was called is written. */
  lemma {:induction false} DrainedIsWritten(o: Settings, s: State, i: nat, seen: nat, target: nat, c: Choice)
    requires Reachable(o, s) && i < |s.threads| && s.threads[i].pc == Look(Drained(target), seen)
    requires Possible(o, s, Move(i, c)) && Next(o, s, Move(i, c)).threads[i].pc == Idle
    ensures target <= |s.g.output| && WritesTicketsInOrder(s.g)
  {
    OutputIsPrefix(o, s);
  }

  // ---------------------------------------------------------------- slots

  /** The slot of a ticket just taken is always found empty: nobody ever waits for it. */
  lemma {:induction false} SlotIsFree(o: Settings, s: State, i: nat)
    requires Reachable(o, s) && i < |s.threads|
    ensures InRange(o, s.g)
    ensures match s.threads[i].pc
            case Look(EmptySlot(_, t), _) => s.g.slots[SlotOf(o, t)].state == Empty
            case Wait(EmptySlot(_, _), _) => false
            case _ => true
  {
    hide Reachable, Inv;
    ReachableKeeps(o, s);
    ThreadFact(o, s, i);
    match s.threads[i].pc
    case Look(EmptySlot(_, t), _) => Known(o, s, i, t);
    case _ =>
  }

  /** No slot serves two tickets that are not released. */
  lemma {:induction false} SlotsAreExclusive(o: Settings, s: State, t: nat, u: nat)
    requires Reachable(o, s) && s.g.released <= t < u < s.g.accepted
    ensures SlotOf(o, t) != SlotOf(o, u)
  {
    hide Reachable, Inv;
    ReachableKeeps(o, s);
    NumbersFact(o, s);
    SlotsDiffer(o, t, u);
  }

  // ---------------------------------------------------------------- the budget word

  /** The two fields of the word are the number and the total charge of what is in flight; neither carries over. */
  lemma {:induction false} BudgetIsExact(o: Settings, s: State)
    requires Reachable(o, s)
    ensures s.g.released <= |s.g.jobs|
    ensures s.g.budget / COUNT_UNIT == InFlight(s.g, s.threads) <= o.jobs
    ensures s.g.budget % COUNT_UNIT == BytesInFlight(s.g, s.threads)
    ensures BytesInFlight(s.g, s.threads) > o.bytes ==> InFlight(s.g, s.threads) == 1
    ensures 0 <= s.g.budget < 0x1_0000_0000_0000_0000
  {
    hide Reachable, Inv, Charges, HeldCount, HeldCharge;
    ReachableKeeps(o, s);
    NumbersFact(o, s);
    BudgetFact(o, s);
    var jobs, bytes := InFlight(s.g, s.threads), BytesInFlight(s.g, s.threads);
    Unpacked(jobs, bytes);
  }

  lemma {:induction false} BudgetFact(o: Settings, s: State)
    requires Inv(o, s)
    ensures s.g.released <= |s.g.jobs|
    ensures Packs(o, s.g.budget, InFlight(s.g, s.threads), BytesInFlight(s.g, s.threads))
  {
  }

  // ---------------------------------------------------------------- sleeping and waking

  ghost predicate Asleep(g: Shared, pc: Pc) {
    pc.Wait? && pc.seen == g.progress
  }

  /** Whoever sleeps although its goal is met, or the pipeline stopped, is about to be woken by another thread. */
  lemma {:induction false} NoLostWakeup(o: Settings, s: State, i: nat)
    requires Reachable(o, s) && i < |s.threads| && Asleep(s.g, s.threads[i].pc)
    ensures InRange(o, s.g)
    ensures s.g.stopped || Met(o, s.g, s.threads[i].pc.goal) ==> NotifyPending(s.threads)
  {
    hide Reachable, Inv, Met, NotifyPending;
    ReachableKeeps(o, s);
    AwakeFact(o, s, i);
  }

  lemma {:induction false} AwakeFact(o: Settings, s: State, i: nat)
    requires Inv(o, s) && i < |s.threads|
    ensures InRange(o, s.g) && AwakeOk(o, s.g, NotifyPending(s.threads), s.threads[i].pc)
  {
  }

  /** Nobody can move, except callers that could call again. */
  ghost predicate AtRest(s: State) {
    forall i :: 0 <= i < |s.threads| ==> RestsAt(s, i)
  }

  ghost predicate RestsAt(s: State, i: nat)
    requires i < |s.threads|
  {
    s.threads[i].pc.Idle? || !Enabled(s.g, s.threads[i])
  }

  lemma {:induction false} RestIsQuiet(o: Settings, s: State)
    requires Inv(o, s) && AtRest(s)
    ensures !NotifyPending(s.threads) && (!s.g.stopped ==> !s.g.broken)
  {
    hide Inv, AtRest;
    if NotifyPending(s.threads) {
      var i :| 0 <= i < |s.threads| && WillNotify(s.threads[i].pc);
      RestAt(s, i);
    }
    FailureFact(o, s);
    if !s.g.stopped && s.g.broken {
      RestAt(s, if s.g.claimed then s.g.claimer else s.g.breaker);
    }
  }

  lemma {:induction false} RestAt(s: State, i: nat)
    requires AtRest(s) && i < |s.threads|
    ensures RestsAt(s, i)
  {
  }

  lemma {:induction false} FailureFact(o: Settings, s: State)
    requires Inv(o, s)
    ensures FailureOk(s.g, s.threads)
  {
  }

  /** At rest a thread is idle, gone because of a stop, or asleep over something that has not happened. */
  lemma {:induction false} RestingThread(o: Settings, s: State, i: nat)
    requires Inv(o, s) && AtRest(s) && i < |s.threads|
    ensures InRange(o, s.g) && ThreadOk(o, s.g, i, s.threads[i])
    ensures var pc := s.threads[i].pc;
      || pc.Idle? || (pc.Exited? && s.g.stopped)
      || (pc.Wait? && !s.g.stopped && !Met(o, s.g, pc.goal) && !pc.goal.EmptySlot?)
  {
    hide Inv, Met, NotifyPending, AtRest;
    RestIsQuiet(o, s);
    ThreadFact(o, s, i);
    AwakeFact(o, s, i);
    RestAt(s, i);
  }

  /** The ticket the writer is due cannot be stuck while nothing failed. */
  lemma {:induction false} DueTicketMoves(o: Settings, s: State)
    requires Inv(o, s) && AtRest(s) && !s.g.stopped
    ensures s.g.written >= s.g.accepted
  {
    hide Inv, AtRest, NotifyPending, Met;
    var t := s.g.written;
    if t < s.g.accepted {
      RestIsQuiet(o, s);
      DueFact(o, s);
      CarriedDueMoves(o, s, t);
      UncarriedDueMoves(o, s, t);
    }
  }

  lemma {:induction false} DueFact(o: Settings, s: State)
    requires Inv(o, s) && s.g.written < s.g.accepted
    ensures InRange(o, s.g) && TicketOk(o, s.g, s.g.written) && CarriedUnlessBroken(o, s, s.g.written)
    ensures o.workers > 0 ==> o.workers < |s.threads|
  {
  }

  lemma {:induction false} CarriedDueMoves(o: Settings, s: State, t: nat)
    requires Inv(o, s) && AtRest(s) && !s.g.stopped && !s.g.broken && t == s.g.written < s.g.accepted
    ensures InRange(o, s.g) && Carrier(o, s.g, t).None?
  {
    hide Inv, AtRest, NotifyPending, Carried, SlotsOk;
    DueFact(o, s);
    if Carrier(o, s.g, t).Some? {
      var i := Carrier(o, s.g, t).value;
      PartOf(o, s, i, t);
      RestingThread(o, s, i);
    }
  }

  lemma {:induction false} UncarriedDueMoves(o: Settings, s: State, t: nat)
    requires Inv(o, s) && AtRest(s) && !s.g.stopped && !s.g.broken && t == s.g.written < s.g.accepted
    ensures InRange(o, s.g) && Carrier(o, s.g, t).Some?
  {
    hide Inv, AtRest, NotifyPending, Carried, SlotsOk;
    DueFact(o, s);
    if s.g.phase[t] == READY && o.workers > 0 {
      RestingThread(o, s, 0);
    } else if s.g.phase[t] == QUEUED && t >= s.g.nextEncode {
      RestingThread(o, s, 1);
      WorkIsDue(o, s, t);
      if s.threads[1].pc.goal.QueuedSlot? {
        Known(o, s, 1, s.threads[1].pc.goal.ticket);
      }
    }
  }

  lemma {:induction false} WorkIsDue(o: Settings, s: State, t: nat)
    requires InRange(o, s.g) && s.g.nextEncode <= t < s.g.accepted && s.g.phase[t] == QUEUED
    ensures Met(o, s.g, Work)
  {
    assert WorkAt(o, s.g, t);
  }

  /** Everything accepted is written, nothing is in flight, and every caller has returned. */
  ghost predicate AllDone(o: Settings, s: State) {
    && |s.g.output| == s.g.written == s.g.accepted == |s.g.jobs| && s.g.budget == 0
    && WritesTicketsInOrder(s.g)
    && forall i :: 0 <= i < |s.threads| ==> HasReturned(s.threads[i])
  }

  ghost predicate HasReturned(th: Thread) {
    match th.role
    case Encoder => th.pc.Wait? && th.pc.goal == Work
    case Output => th.pc.Wait? && th.pc.goal == ReadySlot
    case _ => th.pc.Idle?
  }

  /** Every caller has returned and every worker is gone. */
  ghost predicate AllGone(s: State) {
    forall i :: 0 <= i < |s.threads| ==> s.threads[i].pc.Idle? || s.threads[i].pc.Exited?
  }

  /**
   * No deadlock: when nobody can move, either the pipeline was stopped and nobody is left asleep, or
   * everything accepted is written and every `submit` and `drain` has returned.
   */
  lemma {:induction false} RestIsDone(o: Settings, s: State)
    requires Reachable(o, s) && AtRest(s)
    ensures if s.g.stopped then AllGone(s) else AllDone(o, s)
  {
    hide Reachable, Inv, AtRest, NotifyPending, Met, Packs, WritesTicketsInOrder;
    ReachableKeeps(o, s);
    if s.g.stopped {
      forall i | 0 <= i < |s.threads|
        ensures s.threads[i].pc.Idle? || s.threads[i].pc.Exited?
      {
        RestingThread(o, s, i);
      }
    } else {
      DueTicketMoves(o, s);
      OutputIsPrefix(o, s);
      NumbersFact(o, s);
      RestHoldsNothing(o, s);
      forall i | 0 <= i < |s.threads|
        ensures HasReturned(s.threads[i])
      {
        RestingReturned(o, s, i);
      }
    }
  }

  lemma {:induction false} RestHoldsNothing(o: Settings, s: State)
    requires Inv(o, s) && AtRest(s) && s.g.released == s.g.accepted
    ensures s.g.budget == 0
  {
    hide Inv, Met, NotifyPending;
    forall i | 0 <= i < |s.threads|
      ensures !s.threads[i].pc.Take?
    {
      RestingThread(o, s, i);
    }
    NothingHeldYet(s.threads);
    NumbersFact(o, s);
    BudgetFact(o, s);
  }

  lemma {:induction false} RestingReturned(o: Settings, s: State, i: nat)
    requires Inv(o, s) && AtRest(s) && i < |s.threads| && !s.g.stopped
    requires s.g.written == s.g.accepted && s.g.budget == 0
    ensures HasReturned(s.threads[i])
  {
    hide Inv, AtRest, NotifyPending;
    RestingThread(o, s, i);
    NumbersFact(o, s);
    var pc := s.threads[i].pc;
    if pc.Wait? {
      match pc.goal
      case Turn(t) => Known(o, s, i, t);
      case QueuedSlot(t) => Known(o, s, i, t);
      case _ =>
    }
  }
}
