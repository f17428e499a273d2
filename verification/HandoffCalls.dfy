/** What callers of the encoding hand-off get: which ticket a `submit` takes and when a `drain` may return. */
module HandoffCalls {
  import opened Options
  import opened HandoffState
  import opened HandoffInvariant
  import opened HandoffSteps
  import opened Handoff
  import opened HandoffProgress

  // ---------------------------------------------------------------- runs in parts

  lemma {:induction false} RunSplit(o: Settings, s: State, moves: seq<Move>, k: nat)
    requires CanRun(o, s, moves) && k <= |moves|
    ensures CanRun(o, s, moves[..k]) && CanRun(o, After(o, s, moves[..k]), moves[k..])
    ensures After(o, s, moves) == After(o, After(o, s, moves[..k]), moves[k..])
    decreases |moves|
  {
    hide Possible, Next;
    if k == 0 {
      assert moves[..0] == [] && moves[0..] == moves;
    } else {
      RunSplit(o, Next(o, s, moves[0]), moves[1..], k - 1);
      assert moves[..k][1..] == moves[1..][..k - 1] && moves[1..][k - 1..] == moves[k..];
    }
  }

  /** Thread `i` is in a call in every state of the run but perhaps the last. */
  ghost predicate StaysBusy(o: Settings, s: State, moves: seq<Move>, i: nat)
    requires CanRun(o, s, moves)
    decreases |moves|
  {
    moves == [] || (i < |s.threads| && !s.threads[i].pc.Idle? && StaysBusy(o, Next(o, s, moves[0]), moves[1..], i))
  }

  /** The run is a call of thread `i`, from its first step to its return or as far as it has come. */
  ghost predicate IsCall(o: Settings, s: State, moves: seq<Move>, i: nat, role: Role) {
    && moves != [] && CanRun(o, s, moves) && moves[0].i == i < |s.threads|
    && s.threads[i].role == role && s.threads[i].pc.Idle?
    && StaysBusy(o, Next(o, s, moves[0]), moves[1..], i)
  }

  /** It is a call of `submit` with that job. */
  ghost predicate IsSubmit(o: Settings, s: State, moves: seq<Move>, i: nat, job: Job) {
    IsCall(o, s, moves, i, Submitter) && moves[0].c.call == Submit(job)
  }

  // ---------------------------------------------------------------- what a step does to the tickets

  /** Only a thread about to take a ticket takes one, for the job it is about to take it for. */
  lemma {:induction false} StepTakes(o: Settings, s: State, m: Move)
    requires Possible(o, s, m)
    ensures var g, g' := s.g, Next(o, s, m).g;
      if s.threads[m.i].pc.Take? then
        && g'.accepted == g.accepted + 1 && g'.jobs == g.jobs + [s.threads[m.i].pc.job] && g'.submitter == g.submitter + [m.i]
      else g'.accepted == g.accepted && g'.jobs == g.jobs && g'.submitter == g.submitter
    ensures s.g.broken ==> Next(o, s, m).g.broken
    ensures s.g.written <= Next(o, s, m).g.written
  {
    hide LocalStep, SharedStep;
    var th := s.threads[m.i];
    if !Local(o, s.g, th.pc, m.c) {
      SharedTakes(o, s.g, m.i, th.role, th.pc, m.c);
    }
  }

  lemma {:induction false} SharedTakes(o: Settings, g: Shared, i: nat, role: Role, pc: Pc, c: Choice)
    requires InRange(o, g) && Named(g, pc) && !Local(o, g, pc, c) && !pc.Exited?
    ensures var g' := SharedStep(o, g, i, role, pc, c).0;
      && (g.broken ==> g'.broken) && g.written <= g'.written
      && if pc.Take? then g'.accepted == g.accepted + 1 && g'.jobs == g.jobs + [pc.job] && g'.submitter == g.submitter + [i]
         else g'.accepted == g.accepted && g'.jobs == g.jobs && g'.submitter == g.submitter
  {
    hide AfterNotify, MoveStep;
    if pc.Fill? || pc.Publish? || pc.Mark? || pc.Run? || pc.Finish? || pc.Write? {
      MoveTakes(o, g, i, pc, c);
    }
  }

  lemma {:induction false} MoveTakes(o: Settings, g: Shared, i: nat, pc: Pc, c: Choice)
    requires InRange(o, g) && Named(g, pc)
    requires pc.Fill? || pc.Publish? || pc.Mark? || pc.Run? || pc.Finish? || pc.Write?
    ensures var g' := MoveStep(o, g, i, pc, c).0;
      && g'.accepted == g.accepted && g'.jobs == g.jobs && g'.submitter == g.submitter && g'.written == g.written && (g.broken ==> g'.broken)
  {
  }

  lemma {:induction false} OtherStays(o: Settings, s: State, m: Move, i: nat)
    requires Possible(o, s, m) && i < |s.threads| && m.i != i
    ensures i < |Next(o, s, m).threads| && Next(o, s, m).threads[i] == s.threads[i]
  {
    hide LocalStep, SharedStep, Local, Named, Enabled;
  }

  lemma {:induction false} RoleStays(o: Settings, s: State, m: Move, i: nat)
    requires Possible(o, s, m) && i < |s.threads|
    ensures i < |Next(o, s, m).threads| && Next(o, s, m).threads[i].role == s.threads[i].role
  {
    hide LocalStep, SharedStep, Local, Named, Enabled;
  }

  // ---------------------------------------------------------------- submit

  /** Of the tickets from `from` on none is thread `i`'s. */
  ghost predicate NoneTaken(g: Shared, from: nat, i: nat) {
    && |g.jobs| == |g.submitter| == g.accepted
    && forall t :: from <= t < g.accepted ==> g.submitter[t] != i
  }

  /** Of the tickets from `from` on exactly `t` is thread `i`'s, and it is for that job. */
  ghost predicate OneTaken(g: Shared, from: nat, i: nat, t: nat, job: Job) {
    && |g.jobs| == |g.submitter| == g.accepted
    && from <= t < g.accepted && g.submitter[t] == i && g.jobs[t] == job
    && forall u :: from <= u < g.accepted && u != t ==> g.submitter[u] != i
  }

  /** On the way to a ticket for `job`. */
  predicate Seeks(pc: Pc, job: Job) {
    match pc
    case Snap(goal) => goal == Room(job)
    case Check(goal, _) => goal == Room(job)
    case Look(goal, _) => goal == Room(job)
    case Wait(goal, _) => goal == Room(job)
    case Reserve(other, _) => other == job
    case Take(other) => other == job
    case _ => false
  }

  /** On the way from ticket `t` to the end of the call. */
  ghost predicate Serves(o: Settings, g: Shared, pc: Pc, t: nat) {
    match pc
    case Snap(goal) => (goal.EmptySlot? || goal.Turn?) && goal.ticket == t
    case Check(goal, _) => (goal.EmptySlot? || goal.Turn?) && goal.ticket == t
    case Look(goal, _) => (goal.EmptySlot? || goal.Turn?) && goal.ticket == t
    case Wait(goal, _) => (goal.EmptySlot? || goal.Turn?) && goal.ticket == t
    case Fill(_, u) => u == t
    case Publish(u) => u == t
    case PublishNotify => o.workers > 0
    case Mark(u) => u == t
    case Run(u) => u == t
    case Finish(u) => u == t
    case Write(u) => u == t
    case Vacate(u) => u == t
    case Release(u, _) => u == t
    case Count(u) => u == t
    case CountNotify => t < g.written
    case FailClaim => g.broken
    case FailFlag => g.broken
    case FailStop => g.broken
    case FailNotify => g.broken
    case Idle => g.broken || o.workers > 0 || t < g.written
    case _ => false
  }

  /** How far a call has come that began with `from` tickets taken. */
  ghost predicate InCall(o: Settings, g: Shared, pc: Pc, from: nat, i: nat, job: Job, ticket: Option<nat>) {
    match ticket
    case None => NoneTaken(g, from, i) && (Seeks(pc, job) || (pc.Idle? && g.broken))
    case Some(t) => OneTaken(g, from, i, t, job) && Serves(o, g, pc, t)
  }

  /** Once the pipeline is stopped or failed, some callback threw. */
  lemma {:induction false} StopIsBroken(o: Settings, s: State)
    requires Inv(o, s)
    ensures s.g.stopped || s.g.failed ==> s.g.broken
  {
  }

  lemma {:induction false} LocalSeeks(o: Settings, g: Shared, role: Role, pc: Pc, c: Choice, job: Job)
    requires InRange(o, g) && Named(g, pc) && Local(o, g, pc, c) && role.Submitter? && Seeks(pc, job)
    ensures var next := LocalStep(o, g, role, pc, c); Seeks(next, job) || (next.Idle? && (g.stopped || g.failed))
  {
  }

  lemma {:induction false} SeekStep(o: Settings, s: State, m: Move, job: Job)
    requires Inv(o, s) && Possible(o, s, m) && s.threads[m.i].role.Submitter? && Seeks(s.threads[m.i].pc, job)
    ensures var next := Next(o, s, m); var pc := next.threads[m.i].pc;
      if s.threads[m.i].pc.Take? then pc == Snap(EmptySlot(job, s.g.accepted))
      else Seeks(pc, job) || (pc.Idle? && next.g.broken)
  {
    hide Inv, LocalStep, Fits;
    StopIsBroken(o, s);
    StepTakes(o, s, m);
    var th := s.threads[m.i];
    if Local(o, s.g, th.pc, m.c) {
      LocalSeeks(o, s.g, th.role, th.pc, m.c, job);
    }
  }

  lemma {:induction false} LocalServes(o: Settings, g: Shared, role: Role, pc: Pc, c: Choice, t: nat)
    requires InRange(o, g) && Named(g, pc) && Local(o, g, pc, c) && role.Submitter? && Serves(o, g, pc, t) && !pc.Idle?
    requires g.stopped || g.failed ==> g.broken
    ensures Serves(o, g, LocalStep(o, g, role, pc, c), t)
  {
  }

  lemma {:induction false} MoveServes(o: Settings, g: Shared, i: nat, th: Thread, c: Choice, t: nat)
    requires InRange(o, g) && Named(g, th.pc) && th.role.Submitter? && Serves(o, g, th.pc, t) && ThreadOk(o, g, i, th)
    requires th.pc.Fill? || th.pc.Publish? || th.pc.Mark? || th.pc.Run? || th.pc.Finish? || th.pc.Write?
    ensures var (g', pc') := MoveStep(o, g, i, th.pc, c); Serves(o, g', pc', t)
  {
    hide GoalOk, Fits;
  }

  lemma {:induction false} SharedServes(o: Settings, g: Shared, i: nat, th: Thread, c: Choice, t: nat)
    requires InRange(o, g) && Named(g, th.pc) && !Local(o, g, th.pc, c) && th.role.Submitter? && Serves(o, g, th.pc, t) && !th.pc.Idle?
    requires ThreadOk(o, g, i, th)
    ensures var (g', pc') := SharedStep(o, g, i, th.role, th.pc, c); Serves(o, g', pc', t)
  {
    hide TakeTicket, Fits, MoveStep, GoalOk;
    if th.pc.Fill? || th.pc.Publish? || th.pc.Mark? || th.pc.Run? || th.pc.Finish? || th.pc.Write? {
      MoveServes(o, g, i, th, c, t);
    }
  }

  lemma {:induction false} ServeStep(o: Settings, s: State, m: Move, t: nat)
    requires Inv(o, s) && Possible(o, s, m) && s.threads[m.i].role.Submitter? && Serves(o, s.g, s.threads[m.i].pc, t)
    requires !s.threads[m.i].pc.Idle?
    ensures Serves(o, Next(o, s, m).g, Next(o, s, m).threads[m.i].pc, t)
  {
    hide Inv, LocalStep, SharedStep, Serves, Local, Named, Enabled;
    StopIsBroken(o, s);
    ThreadFact(o, s, m.i);
    var th := s.threads[m.i];
    if Local(o, s.g, th.pc, m.c) {
      LocalServes(o, s.g, th.role, th.pc, m.c, t);
    } else {
      SharedServes(o, s.g, m.i, th, m.c, t);
    }
  }

  /** Another thread's step changes nothing about a call. */
  lemma {:induction false} OtherInCall(o: Settings, s: State, m: Move, from: nat, i: nat, job: Job, ticket: Option<nat>)
    requires Inv(o, s) && Possible(o, s, m) && i < |s.threads| && m.i != i
    requires InCall(o, s.g, s.threads[i].pc, from, i, job, ticket)
    ensures InCall(o, Next(o, s, m).g, s.threads[i].pc, from, i, job, ticket)
  {
    hide Inv, Next, Possible, Seeks;
    StepTakes(o, s, m);
  }

  lemma {:induction false} CallStep(o: Settings, s: State, m: Move, from: nat, i: nat, job: Job, ticket: Option<nat>) returns (ticket': Option<nat>)
    requires Inv(o, s) && Possible(o, s, m) && i < |s.threads| && s.threads[i].role.Submitter? && !s.threads[i].pc.Idle?
    requires from <= s.g.accepted && InCall(o, s.g, s.threads[i].pc, from, i, job, ticket)
    ensures i < |Next(o, s, m).threads| && InCall(o, Next(o, s, m).g, Next(o, s, m).threads[i].pc, from, i, job, ticket')
  {
    hide Inv, Next, Possible, Seeks, Serves;
    ticket' := ticket;
    if m.i != i {
      OtherInCall(o, s, m, from, i, job, ticket);
      OtherStays(o, s, m, i);
    } else {
      StepTakes(o, s, m);
      RoleStays(o, s, m, i);
      match ticket
      case None =>
        SeekStep(o, s, m, job);
        if s.threads[i].pc.Take? {
          TakesThat(s.threads[i].pc, job);
          ticket' := Some(s.g.accepted);
          ServesNew(o, Next(o, s, m).g, job, s.g.accepted);
        }
      case Some(t) =>
        ServeStep(o, s, m, t);
        ServesNoTake(o, s.g, s.threads[i].pc, t);
    }
  }

  lemma {:induction false} TakesThat(pc: Pc, job: Job)
    requires pc.Take? && Seeks(pc, job)
    ensures pc.job == job
  {
  }

  lemma {:induction false} ServesNew(o: Settings, g: Shared, job: Job, t: nat)
    ensures Serves(o, g, Snap(EmptySlot(job, t)), t)
  {
  }

  lemma {:induction false} ServesNoTake(o: Settings, g: Shared, pc: Pc, t: nat)
    requires Serves(o, g, pc, t)
    ensures !pc.Take?
  {
  }

  lemma {:induction false} CallRuns(o: Settings, s: State, moves: seq<Move>, from: nat, i: nat, job: Job, ticket: Option<nat>) returns (ticket': Option<nat>)
    requires Inv(o, s) && CanRun(o, s, moves) && StaysBusy(o, s, moves, i) && i < |s.threads| && s.threads[i].role.Submitter?
    requires from <= s.g.accepted && InCall(o, s.g, s.threads[i].pc, from, i, job, ticket)
    ensures i < |After(o, s, moves).threads| && InCall(o, After(o, s, moves).g, After(o, s, moves).threads[i].pc, from, i, job, ticket')
    decreases |moves|
  {
    hide Inv, Next, Possible, InCall;
    ticket' := ticket;
    if moves != [] {
      ticket' := CallStep(o, s, moves[0], from, i, job, ticket);
      StepKeeps(o, s, moves[0]);
      StepTakes(o, s, moves[0]);
      RoleStays(o, s, moves[0], i);
      ticket' := CallRuns(o, Next(o, s, moves[0]), moves[1..], from, i, job, ticket');
    }
  }

  /** A job that may not be submitted is turned away in one step; any other is on its way. */
  lemma {:induction false} SubmitBegins(o: Settings, s: State, m: Move, job: Job)
    requires Possible(o, s, m) && s.threads[m.i].role.Submitter? && s.threads[m.i].pc.Idle? && m.c.call == Submit(job)
    ensures Next(o, s, m).g == s.g && m.i < |Next(o, s, m).threads|
    ensures var pc := Next(o, s, m).threads[m.i].pc;
      if !job.encode.Unset? && 0 < job.charge <= BYTE_MASK then Seeks(pc, job) else pc.Idle?
  {
  }

  /**
   * A `submit` with a callback and a charge that 48 bits can say takes at most one ticket, for its own job; when it returns and no callback
   * has thrown, it took one, and without workers its bytes are written.
   */
  lemma {:induction false} SubmitTakesOwnTicket(o: Settings, s: State, moves: seq<Move>, i: nat, job: Job) returns (ticket: Option<nat>)
    requires Reachable(o, s) && IsSubmit(o, s, moves, i, job) && !job.encode.Unset? && 0 < job.charge <= BYTE_MASK
    ensures i < |After(o, s, moves).threads|
    ensures var g := After(o, s, moves).g;
      match ticket
      case None => NoneTaken(g, s.g.accepted, i)
      case Some(t) => OneTaken(g, s.g.accepted, i, t, job)
    ensures var end := After(o, s, moves);
      end.threads[i].pc.Idle? && !end.g.broken ==> ticket.Some? && (o.workers == 0 ==> ticket.value < |end.g.output|)
  {
    hide Reachable, Inv, Next, Possible, Seeks;
    ReachableKeeps(o, s);
    SubmitBegins(o, s, moves[0], job);
    StepKeeps(o, s, moves[0]);
    RoleStays(o, s, moves[0], i);
    InRangeFact(o, s);
    var next := Next(o, s, moves[0]);
    ticket := CallRuns(o, next, moves[1..], s.g.accepted, i, job, None);
    RunReaches(o, s, moves);
    OutputIsPrefix(o, After(o, s, moves));
    IdleSeeksNothing(job);
  }

  lemma {:induction false} InRangeFact(o: Settings, s: State)
    requires Inv(o, s)
    ensures InRange(o, s.g)
  {
  }

  lemma {:induction false} IdleSeeksNothing(job: Job)
    ensures !Seeks(Idle, job)
  {
  }

  /**
   * A job is admitted exactly when there is room for one more: jobs in flight below the limit, and its bytes within what is left of
   * theirs, or nothing in flight for a job that is larger than all of it.
   */
  lemma {:induction false} AdmittedIff(o: Settings, s: State, i: nat, job: Job, seen: nat, c: Choice)
    requires Reachable(o, s) && i < |s.threads| && s.threads[i].pc == Look(Room(job), seen) && Possible(o, s, Move(i, c))
    ensures s.g.released <= |s.g.jobs| && i < |Next(o, s, Move(i, c)).threads|
    ensures Next(o, s, Move(i, c)).threads[i].pc == Reserve(job, s.g.budget) <==>
              && InFlight(s.g, s.threads) < o.jobs
              && if job.charge > o.bytes then InFlight(s.g, s.threads) == 0 else BytesInFlight(s.g, s.threads) + job.charge <= o.bytes
  {
    hide Reachable, Inv, InFlight, BytesInFlight;
    ReachableKeeps(o, s);
    BudgetIsExact(o, s);
    ThreadFact(o, s, i);
  }

  // ---------------------------------------------------------------- every call, every ticket

  lemma {:induction false} RunLeavesBroken(o: Settings, s: State, moves: seq<Move>)
    requires CanRun(o, s, moves)
    ensures s.g.broken ==> After(o, s, moves).g.broken
    ensures s.g.submitter <= After(o, s, moves).g.submitter && s.g.accepted <= After(o, s, moves).g.accepted
    ensures s.g.written <= After(o, s, moves).g.written
    decreases |moves|
  {
    hide Possible, Next;
    if moves != [] {
      StepTakes(o, s, moves[0]);
      RunLeavesBroken(o, Next(o, s, moves[0]), moves[1..]);
    }
  }

  /** A call that is over by the end of the run was over after some first steps of it. */
  lemma {:induction false} FirstReturn(o: Settings, s: State, moves: seq<Move>, i: nat) returns (k: nat)
    requires CanRun(o, s, moves) && i < |s.threads|
    requires i < |After(o, s, moves).threads| && After(o, s, moves).threads[i].pc.Idle?
    ensures k <= |moves| && CanRun(o, s, moves[..k]) && StaysBusy(o, s, moves[..k], i)
    ensures i < |After(o, s, moves[..k]).threads| && After(o, s, moves[..k]).threads[i].pc.Idle?
    decreases |moves|
  {
    hide Possible, Next;
    if s.threads[i].pc.Idle? {
      k := 0;
      assert moves[..0] == [];
    } else {
      RoleStays(o, s, moves[0], i);
      var rest := FirstReturn(o, Next(o, s, moves[0]), moves[1..], i);
      k := rest + 1;
      assert moves[..k][1..] == moves[1..][..rest];
    }
  }

  /** A job that is submitted is written, with its own section and bytes, by when nobody can move, unless the pipeline stopped. */
  lemma {:induction false} SubmittedIsWritten(o: Settings, s: State, moves: seq<Move>, i: nat, job: Job) returns (t: nat)
    requires Reachable(o, s) && CanRun(o, s, moves) && moves != [] && moves[0].i == i < |s.threads|
    requires s.threads[i].role == Submitter && s.threads[i].pc.Idle? && moves[0].c.call == Submit(job)
    requires !job.encode.Unset? && 0 < job.charge <= BYTE_MASK
    requires AtRest(After(o, s, moves)) && !After(o, s, moves).g.stopped
    ensures var end := After(o, s, moves).g;
      && s.g.accepted <= t < |end.output| && t < |end.submitter| && end.submitter[t] == i
      && job.encode == Yields(end.output[t].1) && end.output[t].0 == job.section
  {
    hide Reachable, Inv, Next, Possible, AtRest, AllDone, StaysBusy;
    var end, next := After(o, s, moves), Next(o, s, moves[0]);
    RunReaches(o, s, moves);
    RestIsDone(o, end);
    ReachableKeeps(o, end);
    RestIsQuiet(o, end);
    RunKeepsRole(o, s, moves, i);
    SubmitterReturned(o, end, i);
    RoleStays(o, s, moves[0], i);
    var k := FirstReturn(o, next, moves[1..], i);
    var call := moves[..k + 1];
    RunSplit(o, s, moves, k + 1);
    assert call[1..] == moves[1..][..k];
    assert IsSubmit(o, s, call, i, job);
    RunLeavesBroken(o, After(o, s, call), moves[k + 1..]);
    var ticket := SubmitTakesOwnTicket(o, s, call, i, job);
    t := ticket.value;
    RunReaches(o, s, call);
    EveryTicketIsWritten(o, After(o, s, call), moves[k + 1..], t);
  }

  lemma {:induction false} SubmitterReturned(o: Settings, s: State, i: nat)
    requires AllDone(o, s) && i < |s.threads| && s.threads[i].role.Submitter?
    ensures s.threads[i].pc.Idle?
  {
    assert HasReturned(s.threads[i]);
  }

  lemma {:induction false} RunKeepsRole(o: Settings, s: State, moves: seq<Move>, i: nat)
    requires CanRun(o, s, moves) && i < |s.threads|
    ensures i < |After(o, s, moves).threads| && After(o, s, moves).threads[i].role == s.threads[i].role
    decreases |moves|
  {
    hide Possible, Next;
    if moves != [] {
      RoleStays(o, s, moves[0], i);
      RunKeepsRole(o, Next(o, s, moves[0]), moves[1..], i);
    }
  }

  lemma {:induction false} BusyLonger(o: Settings, s: State, moves: seq<Move>, m: Move, i: nat)
    requires CanRun(o, s, moves + [m]) && CanRun(o, s, moves) && StaysBusy(o, s, moves, i)
    requires i < |After(o, s, moves).threads| && !After(o, s, moves).threads[i].pc.Idle?
    ensures StaysBusy(o, s, moves + [m], i)
    decreases |moves|
  {
    hide Possible, Next;
    if moves == [] {
      assert (moves + [m])[1..] == [];
    } else {
      assert (moves + [m])[1..] == moves[1..] + [m];
      BusyLonger(o, Next(o, s, moves[0]), moves[1..], m, i);
    }
  }

  lemma {:induction false} SubmitLonger(o: Settings, s: State, moves: seq<Move>, m: Move, i: nat, job: Job)
    requires IsSubmit(o, s, moves, i, job) && CanRun(o, s, moves + [m])
    requires i < |After(o, s, moves).threads| && !After(o, s, moves).threads[i].pc.Idle?
    ensures IsSubmit(o, s, moves + [m], i, job)
  {
    hide Possible, Next, StaysBusy;
    assert (moves + [m])[1..] == moves[1..] + [m];
    BusyLonger(o, Next(o, s, moves[0]), moves[1..], m, i);
  }

  /** Whoever is on its way to a ticket came from a call for that job, or was so before. */
  lemma {:induction false} SeeksBefore(o: Settings, s: State, m: Move, job: Job)
    requires Possible(o, s, m) && m.i < |Next(o, s, m).threads| && Seeks(Next(o, s, m).threads[m.i].pc, job)
    ensures if s.threads[m.i].pc.Idle? then s.threads[m.i].role.Submitter? && m.c.call == Submit(job) else Seeks(s.threads[m.i].pc, job)
    ensures !s.threads[m.i].pc.Take?
  {
    hide SharedStep, Fits;
    var th := s.threads[m.i];
    if !Local(o, s.g, th.pc, m.c) {
      SharedSeeksNothing(o, s.g, m.i, th.role, th.pc, m.c, job);
    }
  }

  lemma {:induction false} SharedSeeksNothing(o: Settings, g: Shared, i: nat, role: Role, pc: Pc, c: Choice, job: Job)
    requires InRange(o, g) && Named(g, pc) && !Local(o, g, pc, c) && !pc.Exited?
    requires Seeks(SharedStep(o, g, i, role, pc, c).1, job)
    ensures pc == Reserve(job, g.budget)
  {
    hide TakeTicket, Advance, Broken;
  }

  lemma {:induction false} SeekerHasCall(o: Settings, start: State, moves: seq<Move>, i: nat, job: Job) returns (k: nat)
    requires Initial(o, start) && CanRun(o, start, moves) && i < |After(o, start, moves).threads|
    requires Seeks(After(o, start, moves).threads[i].pc, job)
    ensures k < |moves| && CanRun(o, start, moves[..k]) && IsSubmit(o, After(o, start, moves[..k]), moves[k..], i, job)
    decreases |moves|
  {
    hide Possible, Next, Seeks, IsSubmit;
    StartSeeksNothing(o, start, i, job, moves);
    var n := |moves| - 1;
    var front, last := moves[..n], moves[n];
    LastMove(o, start, moves);
    var before := After(o, start, front);
    SameThreads(o, before, last);
    if last.i == i {
      SeeksBefore(o, before, last, job);
    } else {
      OtherStays(o, before, last, i);
    }
    if last.i == i && before.threads[i].pc.Idle? {
      k := n;
      CallBegins(o, before, last, job);
      assert moves[n..] == [last];
    } else {
      k := SeekerHasCall(o, start, front, i, job);
      RunSplit(o, start, front, k);
      RunSplit(o, start, moves, k);
      assert front[..k] == moves[..k] && moves[k..] == front[k..] + [last];
      SeekerIsBusy(before.threads[i].pc, job);
      SubmitLonger(o, After(o, start, moves[..k]), front[k..], last, i, job);
    }
  }

  lemma {:induction false} SeekerIsBusy(pc: Pc, job: Job)
    requires Seeks(pc, job)
    ensures !pc.Idle?
  {
  }

  lemma {:induction false} CallBegins(o: Settings, s: State, m: Move, job: Job)
    requires Possible(o, s, m) && s.threads[m.i].role.Submitter? && s.threads[m.i].pc.Idle? && m.c.call == Submit(job)
    ensures IsSubmit(o, s, [m], m.i, job)
  {
    hide Possible, Next;
    PossibleThread(o, s, m);
    assert [m][1..] == [];
    assert CanRun(o, Next(o, s, m), [m][1..]);
    assert StaysBusy(o, Next(o, s, m), [m][1..], m.i);
  }

  lemma {:induction false} StartSeeksNothing(o: Settings, start: State, i: nat, job: Job, moves: seq<Move>)
    requires Initial(o, start) && CanRun(o, start, moves) && i < |After(o, start, moves).threads|
    requires Seeks(After(o, start, moves).threads[i].pc, job)
    ensures moves != []
  {
    hide Possible, Next;
    assert moves == [] ==> start.threads[i].pc == FirstPc(start.threads[i].role);
  }

  lemma {:induction false} LastMove(o: Settings, s: State, moves: seq<Move>)
    requires CanRun(o, s, moves) && moves != []
    ensures var n := |moves| - 1;
      && CanRun(o, s, moves[..n]) && Possible(o, After(o, s, moves[..n]), moves[n])
      && After(o, s, moves) == Next(o, After(o, s, moves[..n]), moves[n])
  {
    hide Possible, Next;
    var n := |moves| - 1;
    RunSplit(o, s, moves, n);
    assert moves[n..] == [moves[n]] && moves[n..][1..] == [];
  }

  /**
   * Every ticket was taken in a call of `submit` of its submitter for exactly its job. As a call takes at most one ticket, tickets and the
   * calls that took one correspond.
   */
  lemma {:induction false} TicketHasCall(o: Settings, start: State, moves: seq<Move>, t: nat) returns (k: nat, n: nat)
    requires Initial(o, start) && CanRun(o, start, moves) && t < After(o, start, moves).g.accepted
    ensures var g := After(o, start, moves).g;
      && |g.jobs| == |g.submitter| == g.accepted && k < n <= |moves| && CanRun(o, start, moves[..k])
      && var s, call := After(o, start, moves[..k]), moves[k..n];
         && IsSubmit(o, s, call, g.submitter[t], g.jobs[t]) && s.g.accepted <= t < After(o, s, call).g.accepted
    decreases |moves|
  {
    hide Possible, Next, Seeks, IsSubmit, Inv, Initial;
    StartsWell(o, start);
    RunKeeps(o, start, moves);
    InRangeFact(o, After(o, start, moves));
    NothingTaken(o, start, moves, t);
    var last := |moves| - 1;
    var front, m := moves[..last], moves[last];
    LastMove(o, start, moves);
    var before := After(o, start, front);
    RunKeeps(o, start, front);
    InRangeFact(o, before);
    StepTakes(o, before, m);
    if t < before.g.accepted {
      k, n := TicketHasCall(o, start, front, t);
      assert front[..k] == moves[..k] && front[k..n] == moves[k..n];
    } else {
      var i := m.i;
      PossibleThread(o, before, m);
      TakeSeeks(before.threads[i].pc);
      var job := before.threads[i].pc.job;
      k := SeekerHasCall(o, start, front, i, job);
      n := |moves|;
      RunSplit(o, start, front, k);
      RunSplit(o, start, moves, k);
      assert front[..k] == moves[..k] && moves[k..n] == moves[k..] == front[k..] + [m];
      SubmitLonger(o, After(o, start, moves[..k]), front[k..], m, i, job);
      RunLeavesBroken(o, After(o, start, front[..k]), front[k..]);
    }
  }

  lemma {:induction false} PossibleThread(o: Settings, s: State, m: Move)
    requires Possible(o, s, m)
    ensures m.i < |s.threads|
  {
  }

  lemma {:induction false} TakeSeeks(pc: Pc)
    requires pc.Take?
    ensures Seeks(pc, pc.job)
  {
  }

  lemma {:induction false} NothingTaken(o: Settings, start: State, moves: seq<Move>, t: nat)
    requires Initial(o, start) && CanRun(o, start, moves) && t < After(o, start, moves).g.accepted
    ensures moves != []
  {
    hide Possible, Next;
  }

  // ---------------------------------------------------------------- drain

  /** In a `drain` that waits for `target` tickets. */
  predicate Drains(pc: Pc, target: nat) {
    match pc
    case Snap(goal) => goal == Drained(target)
    case Check(goal, _) => goal == Drained(target)
    case Look(goal, _) => goal == Drained(target)
    case Wait(goal, _) => goal == Drained(target)
    case _ => false
  }

  /** A step of a thread that drains: it returns because everything is written, or because the pipeline stopped or failed. */
  lemma {:induction false} DrainStep(o: Settings, s: State, m: Move, target: nat)
    requires Possible(o, s, m) && s.threads[m.i].role.Drainer? && Drains(s.threads[m.i].pc, target)
    ensures m.i < |Next(o, s, m).threads| && Next(o, s, m).g == s.g
    ensures var pc := Next(o, s, m).threads[m.i].pc;
      || Drains(pc, target)
      || (pc.Idle? && if s.threads[m.i].pc.Look? then target <= s.g.written else s.g.stopped || s.g.failed)
  {
  }

  lemma {:induction false} DrainBegins(o: Settings, s: State, m: Move)
    requires Possible(o, s, m) && s.threads[m.i].role.Drainer? && s.threads[m.i].pc.Idle?
    ensures m.i < |Next(o, s, m).threads| && Drains(Next(o, s, m).threads[m.i].pc, s.g.accepted) && Next(o, s, m).g == s.g
  {
  }

  lemma {:induction false} DrainRuns(o: Settings, s: State, moves: seq<Move>, i: nat, target: nat)
    requires Inv(o, s) && CanRun(o, s, moves) && StaysBusy(o, s, moves, i) && i < |s.threads| && s.threads[i].role.Drainer?
    requires Drains(s.threads[i].pc, target)
    ensures var end := After(o, s, moves);
      && i < |end.threads|
      && (Drains(end.threads[i].pc, target) || (end.threads[i].pc.Idle? && (target <= end.g.written || end.g.broken)))
    ensures moves != [] && After(o, s, moves).threads[i].pc.Idle? ==>
              && CanRun(o, s, moves[..|moves| - 1])
              && var before := After(o, s, moves[..|moves| - 1]);
                 i < |before.threads| && (before.threads[i].pc.Look? ==> target <= After(o, s, moves).g.written)
    decreases |moves|
  {
    hide Inv, Next, Possible, Drains;
    if moves == [] {
      DrainerIsBusy(s.threads[i].pc, target);
    } else {
      var next := Next(o, s, moves[0]);
      StepKeeps(o, s, moves[0]);
      RoleStays(o, s, moves[0], i);
      if moves[0].i == i {
        DrainStep(o, s, moves[0], target);
        StopIsBroken(o, s);
      } else {
        OtherStays(o, s, moves[0], i);
      }
      if Drains(next.threads[i].pc, target) {
        DrainRuns(o, next, moves[1..], i, target);
        DrainerIsBusy(next.threads[i].pc, target);
        var n := |moves| - 1;
        assert moves[1..] != [] ==> moves[..n][1..] == moves[1..][..n - 1] && n > 0;
        assert moves[1..] == [] ==> After(o, s, moves) == next;
      } else {
        assert moves[1..] == [] && moves[..|moves| - 1] == [];
      }
    }
  }

  lemma {:induction false} DrainerIsBusy(pc: Pc, target: nat)
    requires Drains(pc, target)
    ensures !pc.Idle?
  {
  }

  /**
   * A `drain` that returns, unless a callback has thrown, returns when every ticket accepted before the call is written; and one that
   * returns from its test of what is written, not from a check that failed, does so whatever else failed.
   */
  lemma {:induction false} DrainReturnsWritten(o: Settings, s: State, moves: seq<Move>, i: nat)
    requires Reachable(o, s) && IsCall(o, s, moves, i, Drainer)
    requires i < |After(o, s, moves).threads| && After(o, s, moves).threads[i].pc.Idle?
    ensures CanRun(o, s, moves[..|moves| - 1]) && i < |After(o, s, moves[..|moves| - 1]).threads|
    ensures var before, end := After(o, s, moves[..|moves| - 1]), After(o, s, moves);
      !end.g.broken || before.threads[i].pc.Look? ==> s.g.accepted <= |end.g.output|
    ensures WritesTicketsInOrder(After(o, s, moves).g)
  {
    hide Reachable, Inv, Next, Possible, Drains, WritesTicketsInOrder;
    ReachableKeeps(o, s);
    DrainBegins(o, s, moves[0]);
    StepKeeps(o, s, moves[0]);
    RoleStays(o, s, moves[0], i);
    var next := Next(o, s, moves[0]);
    DrainRuns(o, next, moves[1..], i, s.g.accepted);
    DrainerIsBusy(next.threads[i].pc, s.g.accepted);
    var n := |moves| - 1;
    assert moves[..n][1..] == moves[1..][..n - 1] && moves[..n][0] == moves[0];
    assert After(o, s, moves[..n]) == After(o, next, moves[1..][..n - 1]);
    RunReaches(o, s, moves);
    OutputIsPrefix(o, After(o, s, moves));
    if Drains(After(o, s, moves).threads[i].pc, s.g.accepted) {
      DrainerIsBusy(After(o, s, moves).threads[i].pc, s.g.accepted);
    }
  }
}
