/** What every step of the encoding hand-off keeps. */
module HandoffInvariant {
  import opened Options
  import opened HandoffState

  // ---------------------------------------------------------------- tickets and slots

  /** Tickets are written, vacated, released and counted strictly in order, one at a time. */
  ghost predicate TicketsOk(o: Settings, g: Shared) {
    && InRange(o, g)
    && g.written <= g.released <= |g.output| <= g.accepted
    && |g.output| <= g.written + 1
    && g.nextEncode <= g.accepted
    && g.accepted - g.released <= o.jobs
    && forall t :: 0 <= t < g.accepted ==> TicketOk(o, g, t)
  }

  ghost predicate TicketOk(o: Settings, g: Shared, t: nat)
    requires InRange(o, g) && t < g.accepted
  {
    && Submittable(g.jobs[t])
    && g.phase[t] <= COUNTED
    && (g.phase[t] >= WRITTEN <==> t < |g.output|)
    && (g.phase[t] >= RELEASED <==> t < g.released)
    && (g.phase[t] == COUNTED <==> t < g.written)
    && (o.workers > 0 && g.phase[t] >= ENCODING ==> t < g.nextEncode)
    && (o.workers > 0 ==> (g.encoder[t].Some? <==> t < g.nextEncode))
    && (o.workers == 0 ==> g.phase[t] != QUEUED && (g.phase[t] <= FILLED <==> g.encoder[t].None?))
    && (g.phase[t] < VACATED ==> g.holder[SlotOf(o, t)] == Some(t) && SlotHolds(g.slots[SlotOf(o, t)], g.jobs[t], g.phase[t]))
    && (g.phase[t] >= ENCODED ==> g.jobs[t].encode.Yields?)
    && (t < |g.output| ==> g.jobs[t].encode.Yields? && g.output[t] == (g.jobs[t].section, g.jobs[t].encode.bytes))
  }

  /** A slot's state says how far its ticket has come, and it holds that ticket's own job and bytes. */
  ghost predicate SlotHolds(slot: Slot, job: Job, phase: nat) {
    && slot.state == (if phase <= FILLED then Empty else if phase == QUEUED then Queued
                      else if phase <= ENCODED then Encoding else Ready)
    && (phase >= FILLED ==> slot.section == job.section && slot.charge == job.charge)
    && (FILLED <= phase <= ENCODING ==> slot.encode == job.encode)
    && (phase == ENCODED || phase == READY ==> job.encode.Yields? && slot.bytes == job.encode.bytes)
  }

  /** A slot without a ticket is empty; a slot with one holds a ticket that is not vacated yet. */
  ghost predicate SlotsOk(o: Settings, g: Shared)
    requires InRange(o, g)
  {
    forall k :: 0 <= k < |g.slots| ==> SlotOk(o, g, k)
  }

  ghost predicate SlotOk(o: Settings, g: Shared, k: nat)
    requires InRange(o, g) && k < |g.slots|
  {
    match g.holder[k]
    case None => g.slots[k].state == Empty
    case Some(t) => t < g.accepted && SlotOf(o, t) == k && g.phase[t] < VACATED
  }

  // ---------------------------------------------------------------- threads

  /** The thread that alone may write ticket `t`. */
  ghost function WriterOf(o: Settings, g: Shared, t: nat): nat
    requires InRange(o, g) && t < g.accepted
  {
    if o.workers > 0 then 0 else g.submitter[t]
  }

  ghost predicate GoalOk(o: Settings, g: Shared, i: nat, role: Role, goal: Goal)
    requires InRange(o, g)
  {
    match goal
    case Room(job) => role.Submitter? && Submittable(job)
    case EmptySlot(job, t) => role.Submitter? && t < g.accepted && g.submitter[t] == i && g.jobs[t] == job && g.phase[t] == TAKEN
    case Turn(t) => role.Submitter? && o.workers == 0 && t < g.accepted && g.submitter[t] == i && g.phase[t] == FILLED
    case Work => role.Encoder?
    case QueuedSlot(t) => role.Encoder? && t < g.accepted && g.encoder[t] == Some(i) && g.phase[t] <= QUEUED
    case ReadySlot => role.Output?
    case Drained(target) => role.Drainer? && target <= g.accepted
  }

  /** What a thread may rely on at its program counter. */
  ghost predicate ThreadOk(o: Settings, g: Shared, i: nat, th: Thread)
    requires InRange(o, g)
  {
    && RoleFits(o, i, th.role)
    && match th.pc
       case Idle => !th.role.Encoder? && !th.role.Output?
       case Exited => g.stopped
       case Snap(goal) => GoalOk(o, g, i, th.role, goal)
       case Check(goal, seen) => GoalOk(o, g, i, th.role, goal) && seen <= g.progress
       case Look(goal, seen) => GoalOk(o, g, i, th.role, goal) && seen <= g.progress
       case Wait(goal, seen) => GoalOk(o, g, i, th.role, goal) && seen <= g.progress && !goal.EmptySlot?
       case Reserve(job, current) => th.role.Submitter? && Submittable(job) && Fits(o, current, job.charge)
       case Take(job) => th.role.Submitter? && Submittable(job)
       case Fill(job, t) => GoalOk(o, g, i, th.role, EmptySlot(job, t))
       case Publish(t) => th.role.Submitter? && o.workers > 0 && t < g.accepted && g.submitter[t] == i && g.phase[t] == FILLED
       case PublishNotify => th.role.Submitter?
       case Compare(seen, t) => th.role.Encoder? && seen <= g.progress && t <= g.nextEncode
       case Claim(t) => th.role.Encoder? && t < g.accepted
       case Mark(t) => t < g.accepted &&
         if o.workers > 0 then th.role.Encoder? && g.encoder[t] == Some(i) && g.phase[t] == QUEUED
         else th.role.Submitter? && g.submitter[t] == i && g.phase[t] == FILLED && t == g.written
       case Run(t) => Encodes(o, g, i, th.role, t) && g.phase[t] == ENCODING
       case Finish(t) => Encodes(o, g, i, th.role, t) && g.phase[t] == ENCODED
       case FinishNotify => th.role.Encoder?
       case Write(t) => Writes(o, g, i, th.role, t) && g.phase[t] == READY
       case Vacate(t) => Writes(o, g, i, th.role, t) && g.phase[t] == WRITTEN
       case Release(t, charge) => Writes(o, g, i, th.role, t) && g.phase[t] == VACATED && charge == g.jobs[t].charge
       case Count(t) => Writes(o, g, i, th.role, t) && g.phase[t] == RELEASED
       case CountNotify => th.role.Output? || th.role.Submitter?
       case FailClaim => g.broken
       case FailFlag => g.claimed
       case FailStop => g.failed
       case FailNotify => g.stopped
  }

  ghost predicate Encodes(o: Settings, g: Shared, i: nat, role: Role, t: nat)
    requires InRange(o, g)
  {
    && t < g.accepted && g.encoder[t] == Some(i)
    && if o.workers > 0 then role.Encoder? else role.Submitter? && g.submitter[t] == i && t == g.written
  }

  ghost predicate Writes(o: Settings, g: Shared, i: nat, role: Role, t: nat)
    requires InRange(o, g)
  {
    && t < g.accepted && t == g.written && WriterOf(o, g, t) == i
    && if o.workers > 0 then role.Output? else role.Submitter?
  }

  ghost predicate ThreadsOk(o: Settings, s: State)
    requires InRange(o, s.g)
  {
    forall i :: 0 <= i < |s.threads| ==> ThreadOk(o, s.g, i, s.threads[i])
  }

  // ---------------------------------------------------------------- who carries a ticket

  /** The thread whose move is next for ticket `t`. */
  ghost function Carrier(o: Settings, g: Shared, t: nat): (r: Option<nat>)
    requires InRange(o, g) && t < g.accepted
  {
    var phase := g.phase[t];
    if phase <= FILLED then Some(g.submitter[t])
    else if phase <= ENCODED then (if phase == QUEUED && t >= g.nextEncode then None else g.encoder[t])
    else if phase == READY then (if o.workers > 0 then None else Some(g.submitter[t]))
    else if phase < COUNTED then Some(WriterOf(o, g, t))
    else None
  }

  /** The program counter is where ticket `t`, as far as it has come, is moved on. */
  ghost predicate Carries(o: Settings, g: Shared, pc: Pc, t: nat)
    requires InRange(o, g) && t < g.accepted
  {
    var phase := g.phase[t];
    if phase == TAKEN then HasGoal(pc, EmptySlot(g.jobs[t], t)) || pc == Fill(g.jobs[t], t)
    else if phase == FILLED then pc == Publish(t) || HasGoal(pc, Turn(t)) || pc == Mark(t)
    else if phase == QUEUED then HasGoal(pc, QueuedSlot(t)) || pc == Mark(t)
    else if phase == ENCODING then pc == Run(t)
    else if phase == ENCODED then pc == Finish(t)
    else if phase == READY then pc == Write(t)
    else if phase == WRITTEN then pc == Vacate(t)
    else if phase == VACATED then pc == Release(t, g.jobs[t].charge)
    else pc == Count(t)
  }

  ghost predicate HasGoal(pc: Pc, goal: Goal) {
    match pc
    case Snap(other) => other == goal
    case Check(other, _) => other == goal
    case Look(other, _) => other == goal
    case Wait(other, _) => other == goal
    case _ => false
  }

  /** Thread `i`'s part in ticket `t`: to stand where it moves it on, or to wait until it is queued. */
  ghost predicate Part(o: Settings, g: Shared, i: nat, pc: Pc, t: nat)
    requires InRange(o, g) && t < g.accepted
  {
    && (Carrier(o, g, t) == Some(i) ==> Carries(o, g, pc, t))
    && (o.workers > 0 && g.phase[t] < QUEUED && g.encoder[t] == Some(i) ==> HasGoal(pc, QueuedSlot(t)))
  }

  ghost predicate Carried(o: Settings, g: Shared, threads: seq<Thread>, t: nat)
    requires InRange(o, g) && t < g.accepted
  {
    forall i :: 0 <= i < |threads| ==> Part(o, g, i, threads[i].pc, t)
  }

  ghost predicate Indexed(o: Settings, g: Shared, n: nat, t: nat)
    requires InRange(o, g) && t < g.accepted
  {
    g.submitter[t] < n && WriterOf(o, g, t) < n && (g.encoder[t].Some? ==> g.encoder[t].value < n)
  }

  /** A callback that throws strands its ticket, but nothing comes between writing a ticket and counting it. */
  ghost predicate CarriedUnlessBroken(o: Settings, s: State, t: nat)
    requires InRange(o, s.g) && t < s.g.accepted
  {
    && Indexed(o, s.g, |s.threads|, t)
    && (!s.g.broken || s.g.phase[t] >= WRITTEN ==> Carried(o, s.g, s.threads, t))
  }

  ghost predicate AllCarried(o: Settings, s: State)
    requires InRange(o, s.g)
  {
    forall t :: 0 <= t < s.g.accepted ==> CarriedUnlessBroken(o, s, t)
  }

  // ---------------------------------------------------------------- sleeping

  ghost predicate WillNotify(pc: Pc) {
    pc.PublishNotify? || pc.FinishNotify? || pc.Count? || pc.CountNotify? || pc.FailNotify?
  }

  ghost predicate NotifyPending(threads: seq<Thread>) {
    exists i :: 0 <= i < |threads| && WillNotify(threads[i].pc)
  }

  /** What a goal waits for has happened. */
  ghost predicate Met(o: Settings, g: Shared, goal: Goal)
    requires InRange(o, g)
  {
    match goal
    case Room(job) => Fits(o, g.budget, job.charge)
    case EmptySlot(_, t) => t < g.accepted && g.slots[SlotOf(o, t)].state == Empty
    case Turn(t) => g.written == t
    case Work => exists t :: WorkAt(o, g, t)
    case QueuedSlot(t) => t < g.accepted && g.slots[SlotOf(o, t)].state == Queued
    case ReadySlot => g.slots[SlotOf(o, g.written)].state == Ready
    case Drained(target) => g.written >= target
  }

  ghost predicate WorkAt(o: Settings, g: Shared, t: nat)
    requires InRange(o, g)
  {
    g.nextEncode <= t < g.accepted && g.phase[t] >= QUEUED
  }

  /** A thread asleep on the current event count sleeps for a reason, or is about to be woken. */
  ghost predicate AwakeOk(o: Settings, g: Shared, pending: bool, pc: Pc)
    requires InRange(o, g)
  {
    match pc
    case Look(goal, seen) => seen == g.progress && g.stopped ==> pending
    case Compare(seen, t) => seen == g.progress && g.stopped ==> pending
    case Wait(goal, seen) => seen == g.progress && (g.stopped || Met(o, g, goal)) ==> pending
    case _ => true
  }

  ghost predicate AllAwakeOk(o: Settings, s: State)
    requires InRange(o, s.g)
  {
    forall i :: 0 <= i < |s.threads| ==> AwakeOk(o, s.g, NotifyPending(s.threads), s.threads[i].pc)
  }

  // ---------------------------------------------------------------- failing

  ghost predicate FailureOk(g: Shared, threads: seq<Thread>) {
    && (g.stopped ==> g.failed) && (g.failed ==> g.claimed) && (g.claimed ==> g.broken)
    && (g.broken && !g.claimed ==> g.breaker < |threads| && threads[g.breaker].pc == FailClaim)
    && (g.claimed && !g.stopped ==>
          g.claimer < |threads| && (threads[g.claimer].pc == FailFlag || threads[g.claimer].pc == FailStop))
  }

  // ---------------------------------------------------------------- the budget word

  ghost function Charges(jobs: seq<Job>): int {
    if jobs == [] then 0 else jobs[0].charge + Charges(jobs[1..])
  }

  /** The number and the total charge of the reservations whose ticket is still to be taken. */
  ghost function HeldCount(threads: seq<Thread>): nat {
    if threads == [] then 0
    else HeldCount(threads[1..]) + if threads[0].pc.Take? then 1 else 0
  }

  ghost function HeldCharge(threads: seq<Thread>): int {
    if threads == [] then 0
    else HeldCharge(threads[1..]) + if threads[0].pc.Take? then threads[0].pc.job.charge else 0
  }

  /** Reservations not given back: those still without a ticket, and the tickets not released. */
  ghost function InFlight(g: Shared, threads: seq<Thread>): int {
    HeldCount(threads) + g.accepted - g.released
  }

  ghost function BytesInFlight(g: Shared, threads: seq<Thread>): int
    requires g.released <= |g.jobs|
  {
    HeldCharge(threads) + Charges(g.jobs[g.released..])
  }

  /** The word packs the number and the total charge of the reservations in flight, within the limits. */
  ghost predicate BudgetOk(o: Settings, g: Shared, threads: seq<Thread>)
    requires g.released <= |g.jobs|
  {
    Packs(o, g.budget, InFlight(g, threads), BytesInFlight(g, threads))
  }

  /** Never more jobs than allowed; never more bytes than allowed, except for one oversized job alone. */
  ghost predicate Packs(o: Settings, budget: int, jobs: int, bytes: int) {
    && budget == jobs * COUNT_UNIT + bytes
    && 0 <= jobs <= o.jobs
    && 0 <= bytes <= BYTE_MASK
    && (bytes <= o.bytes || jobs == 1)
    && (jobs == 0 ==> bytes == 0)
  }

  ghost predicate Inv(o: Settings, s: State) {
    && Acceptable(o)
    && (o.workers > 0 ==> o.workers < |s.threads|)
    && TicketsOk(o, s.g) && SlotsOk(o, s.g)
    && ThreadsOk(o, s) && AllCarried(o, s) && AllAwakeOk(o, s)
    && FailureOk(s.g, s.threads)
    && BudgetOk(o, s.g, s.threads)
  }

  // ---------------------------------------------------------------- what a step of thread `i` may do

  /** Thread `i` moves only tickets it carries, and takes nothing away from the other threads. */
  ghost predicate Shift(o: Settings, g: Shared, g': Shared, i: nat) {
    && InRange(o, g) && InRange(o, g')
    && g.accepted <= g'.accepted && g.nextEncode <= g'.nextEncode && g.progress <= g'.progress
    && (g.broken ==> g'.broken) && (g.claimed ==> g'.claimed) && (g.failed ==> g'.failed) && (g.stopped ==> g'.stopped)
    && (g'.written == g.written || (g.written < g.accepted && WriterOf(o, g, g.written) == i))
    && forall t :: 0 <= t < g.accepted ==> ShiftAt(o, g, g', i, t)
  }

  ghost predicate ShiftAt(o: Settings, g: Shared, g': Shared, i: nat, t: nat)
    requires InRange(o, g) && InRange(o, g') && t < g.accepted <= g'.accepted
  {
    && g'.jobs[t] == g.jobs[t] && g'.submitter[t] == g.submitter[t]
    && (g.encoder[t].Some? ==> g'.encoder[t] == g.encoder[t])
    && (g'.phase[t] == g.phase[t] || MovedBy(o, g, g', i, t))
  }

  ghost predicate MovedBy(o: Settings, g: Shared, g': Shared, i: nat, t: nat)
    requires InRange(o, g) && InRange(o, g') && t < g.accepted <= g'.accepted
  {
    var phase := g.phase[t];
    if phase <= FILLED then g.submitter[t] == i && (o.workers > 0 ==> g'.phase[t] <= QUEUED)
    else if phase <= ENCODED then g.encoder[t] == Some(i)
    else WriterOf(o, g, t) == i
  }

  lemma {:induction false} OthersKeep(o: Settings, g: Shared, g': Shared, i: nat, j: nat, th: Thread)
    requires Shift(o, g, g', i) && ThreadOk(o, g, j, th) && j != i
    ensures ThreadOk(o, g', j, th)
  {
    hide Shift, ThreadOk;
    match th.pc
    case Snap(goal) => WaitingKeeps(o, g, g', i, j, th, goal);
    case Check(goal, seen) => WaitingKeeps(o, g, g', i, j, th, goal);
    case Look(goal, seen) => WaitingKeeps(o, g, g', i, j, th, goal);
    case Wait(goal, seen) => WaitingKeeps(o, g, g', i, j, th, goal);
    case Fill(job, t) => SubmittingKeeps(o, g, g', i, j, th, t);
    case Publish(t) => SubmittingKeeps(o, g, g', i, j, th, t);
    case Mark(t) => EncodingKeeps(o, g, g', i, j, th, t);
    case Run(t) => EncodingKeeps(o, g, g', i, j, th, t);
    case Finish(t) => EncodingKeeps(o, g, g', i, j, th, t);
    case Write(t) => WritingKeeps(o, g, g', i, j, th, t);
    case Vacate(t) => WritingKeeps(o, g, g', i, j, th, t);
    case Release(t, _) => WritingKeeps(o, g, g', i, j, th, t);
    case Count(t) => WritingKeeps(o, g, g', i, j, th, t);
    case _ => RestingKeeps(o, g, g', i, j, th);
  }

  lemma {:induction false} RestingKeeps(o: Settings, g: Shared, g': Shared, i: nat, j: nat, th: Thread)
    requires Shift(o, g, g', i) && ThreadOk(o, g, j, th) && j != i
    requires !(th.pc.Snap? || th.pc.Check? || th.pc.Look? || th.pc.Wait? || th.pc.Fill? || th.pc.Publish?)
    requires !(th.pc.Mark? || th.pc.Run? || th.pc.Finish? || th.pc.Write? || th.pc.Vacate? || th.pc.Release? || th.pc.Count?)
    ensures ThreadOk(o, g', j, th)
  {
  }

  lemma {:induction false} WaitingKeeps(o: Settings, g: Shared, g': Shared, i: nat, j: nat, th: Thread, goal: Goal)
    requires Shift(o, g, g', i) && ThreadOk(o, g, j, th) && j != i
    requires th.pc.Snap? || th.pc.Check? || th.pc.Look? || th.pc.Wait?
    requires goal == th.pc.goal
    ensures ThreadOk(o, g', j, th)
  {
    GoalKeeps(o, g, g', i, j, th.role, goal);
  }

  lemma {:induction false} SubmittingKeeps(o: Settings, g: Shared, g': Shared, i: nat, j: nat, th: Thread, t: nat)
    requires Shift(o, g, g', i) && ThreadOk(o, g, j, th) && j != i
    requires (th.pc.Fill? || th.pc.Publish?) && th.pc.ticket == t
    ensures ThreadOk(o, g', j, th)
  {
    assert ShiftAt(o, g, g', i, t);
  }

  lemma {:induction false} EncodingKeeps(o: Settings, g: Shared, g': Shared, i: nat, j: nat, th: Thread, t: nat)
    requires Shift(o, g, g', i) && ThreadOk(o, g, j, th) && j != i
    requires (th.pc.Mark? || th.pc.Run? || th.pc.Finish?) && th.pc.ticket == t
    ensures ThreadOk(o, g', j, th)
  {
    assert ShiftAt(o, g, g', i, t);
  }

  lemma {:induction false} WritingKeeps(o: Settings, g: Shared, g': Shared, i: nat, j: nat, th: Thread, t: nat)
    requires Shift(o, g, g', i) && ThreadOk(o, g, j, th) && j != i
    requires (th.pc.Write? || th.pc.Vacate? || th.pc.Release? || th.pc.Count?) && th.pc.ticket == t
    ensures ThreadOk(o, g', j, th)
  {
    assert ShiftAt(o, g, g', i, t);
  }

  lemma {:induction false} GoalKeeps(o: Settings, g: Shared, g': Shared, i: nat, j: nat, role: Role, goal: Goal)
    requires Shift(o, g, g', i) && GoalOk(o, g, j, role, goal) && RoleFits(o, j, role) && j != i
    ensures GoalOk(o, g', j, role, goal)
  {
    match goal
    case EmptySlot(_, t) => assert ShiftAt(o, g, g', i, t);
    case Turn(t) => assert ShiftAt(o, g, g', i, t);
    case QueuedSlot(t) => assert ShiftAt(o, g, g', i, t);
    case _ =>
  }
}
