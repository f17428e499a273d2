/**
 * The encoding hand-off: submitters reserve room and take tickets, encoders encode the tickets'
 * jobs, and one output thread writes them in ticket order. Every thread is a program counter; one
 * step of one thread makes at most one access to the shared atomics.
 */
module HandoffState {
  import opened Options

  const COUNT_UNIT: int := 0x1_0000_0000_0000
  const BYTE_MASK: int := COUNT_UNIT - 1

  datatype Settings = Settings(workers: nat, jobs: nat, bytes: nat)

  /** The options the constructor accepts. */
  predicate Acceptable(o: Settings) {
    0 < o.jobs <= 65535 && 0 < o.bytes <= BYTE_MASK
  }

  /** `std::bit_ceil`: the first of `power`, `2 * power`, ... that is at least `n`. */
  function BitCeil(n: nat, power: nat): (c: nat)
    requires power > 0
    ensures c >= n && c >= power && (c == power || (c % 2 == 0 && c / 2 < n))
    decreases n - power
  {
    if power >= n then power else BitCeil(n, 2 * power)
  }

  function Capacity(o: Settings): (c: nat)
    ensures c >= o.jobs && c > 0
  {
    BitCeil(o.jobs, 1)
  }

  /** An encoding callback: not set, or set and about to return bytes, or about to throw. */
  datatype Encode = Unset | Yields(bytes: seq<int>) | Throws

  datatype Job = Job(section: int, charge: int, encode: Encode)

  /** The jobs `submit` does not turn away before reserving anything. */
  predicate Submittable(job: Job) {
    !job.encode.Unset? && 0 < job.charge <= BYTE_MASK
  }

  datatype SlotState = Empty | Queued | Encoding | Ready

  datatype Slot = Slot(state: SlotState, section: int, charge: int, encode: Encode, bytes: seq<int>)

  /** What a thread waits for in one of the snapshot, check, look, sleep loops. */
  datatype Goal =
    | Room(job: Job)
    | EmptySlot(job: Job, ticket: nat)
    | Turn(ticket: nat)
    | Work
    | QueuedSlot(ticket: nat)
    | ReadySlot
    | Drained(target: nat)

  datatype Pc =
    | Idle
    | Exited
    | Snap(goal: Goal)                          // load `progress`
    | Check(goal: Goal, seen: nat)              // test `stopped` (and `failed`)
    | Look(goal: Goal, seen: nat)               // test what is waited for
    | Wait(goal: Goal, seen: nat)               // sleep until `progress` differs from `seen`
    | Reserve(job: Job, current: int)           // compare-exchange `budget`
    | Take(job: Job)                            // fetch-add `accepted`
    | Fill(job: Job, ticket: nat)               // write section, charge and callback
    | Publish(ticket: nat)                      // store `queued`
    | PublishNotify
    | Compare(seen: nat, ticket: nat)           // load `accepted` after `next_encode`
    | Claim(ticket: nat)                        // compare-exchange `next_encode`
    | Mark(ticket: nat)                         // store `encoding`
    | Run(ticket: nat)                          // call the encoder
    | Finish(ticket: nat)                       // store `ready`
    | FinishNotify
    | Write(ticket: nat)                        // call the sink
    | Vacate(ticket: nat)                       // store `empty`
    | Release(ticket: nat, charge: int)         // fetch-sub `budget`
    | Count(ticket: nat)                        // fetch-add `written`
    | CountNotify
    | FailClaim                                 // test-and-set `failure_claim`
    | FailFlag                                  // store `failed`
    | FailStop                                  // store `stopped`
    | FailNotify

  datatype Role = Output | Encoder | Submitter | Drainer

  datatype Thread = Thread(role: Role, pc: Pc)

  // How far a ticket has come.
  const TAKEN: nat := 0
  const FILLED: nat := 1
  const QUEUED: nat := 2
  const ENCODING: nat := 3
  const ENCODED: nat := 4
  const READY: nat := 5
  const WRITTEN: nat := 6
  const VACATED: nat := 7
  const RELEASED: nat := 8
  const COUNTED: nat := 9

  /**
   * The shared state. The fields from `jobs` on are history: steps write them and never read them.
   * By ticket: the job, how far it has come, its submitter and its encoder; by slot: the ticket
   * in it; then how many tickets gave their budget back, and who failed first.
   */
  datatype Shared = Shared(
    budget: int, accepted: nat, nextEncode: nat, written: nat, progress: nat,
    claimed: bool, failed: bool, stopped: bool,
    slots: seq<Slot>,
    output: seq<(int, seq<int>)>,
    jobs: seq<Job>, phase: seq<nat>, submitter: seq<nat>, encoder: seq<Option<nat>>,
    holder: seq<Option<nat>>, released: nat, broken: bool, breaker: nat, claimer: nat)

  datatype State = State(g: Shared, threads: seq<Thread>)

  /** The choices a step leaves open: what an idle caller calls, a spurious compare-exchange failure, a throwing sink. */
  datatype Choice = Choice(call: Call, spurious: bool, throws: bool)

  datatype Call = Submit(job: Job) | Drain

  /** `reserve`'s admission test on the packed budget word. */
  predicate Fits(o: Settings, current: int, charge: int) {
    var jobs, bytes := current / COUNT_UNIT, current % COUNT_UNIT;
    jobs < o.jobs && if charge > o.bytes then jobs == 0 else bytes <= o.bytes && charge <= o.bytes - bytes
  }

  function SlotOf(o: Settings, ticket: nat): nat {
    ticket % Capacity(o)
  }

  predicate Enabled(g: Shared, th: Thread) {
    match th.pc
    case Exited => false
    case Wait(_, seen) => seen != g.progress
    case _ => true
  }

  function AfterFailure(role: Role): Pc {
    match role
    case Encoder => Snap(Work)
    case Output => Snap(ReadySlot)
    case _ => Idle
  }

  function AfterWrite(role: Role): Pc {
    if role.Output? then Snap(ReadySlot) else Idle
  }

  /** A callback threw in thread `i`. */
  function Broken(g: Shared, i: nat): Shared {
    if g.broken then g else g.(broken := true, breaker := i)
  }

  predicate InRange(o: Settings, g: Shared) {
    && |g.slots| == |g.holder| == Capacity(o)
    && |g.jobs| == |g.phase| == |g.submitter| == |g.encoder| == g.accepted
  }

  /** The tickets a program counter names have been taken. */
  predicate Named(g: Shared, pc: Pc) {
    match pc
    case Snap(goal) => NamedGoal(g, goal)
    case Check(goal, _) => NamedGoal(g, goal)
    case Look(goal, _) => NamedGoal(g, goal)
    case Wait(goal, _) => NamedGoal(g, goal)
    case Fill(_, t) => t < g.accepted
    case Publish(t) => t < g.accepted
    case Mark(t) => t < g.accepted
    case Run(t) => t < g.accepted
    case Finish(t) => t < g.accepted
    case Write(t) => t < g.accepted
    case Vacate(t) => t < g.accepted
    case Release(t, _) => t < g.accepted
    case Count(t) => t < g.accepted
    case Claim(t) => t < g.accepted
    case _ => true
  }

  predicate NamedGoal(g: Shared, goal: Goal) {
    match goal
    case EmptySlot(_, t) => t < g.accepted
    case Turn(t) => t < g.accepted
    case QueuedSlot(t) => t < g.accepted
    case _ => true
  }

  /** The test a loop makes once it has checked that nothing stopped; `Work` continues in `Compare`. */
  function LookAt(o: Settings, g: Shared, goal: Goal, seen: nat): Pc
    requires InRange(o, g) && NamedGoal(g, goal)
  {
    match goal
    case Room(job) => if Fits(o, g.budget, job.charge) then Reserve(job, g.budget) else Wait(goal, seen)
    case EmptySlot(job, t) => if g.slots[SlotOf(o, t)].state == Empty then Fill(job, t) else Wait(goal, seen)
    case Turn(t) => if g.written == t then Mark(t) else Wait(goal, seen)
    case Work => Compare(seen, g.nextEncode)
    case QueuedSlot(t) => if g.slots[SlotOf(o, t)].state == Queued then Mark(t) else Wait(goal, seen)
    case ReadySlot => if g.slots[SlotOf(o, g.written)].state == Ready then Write(g.written) else Wait(goal, seen)
    case Drained(target) => if g.written >= target then Idle else Wait(goal, seen)
  }

  /** One step of a thread that changes no shared variable: its next program counter. */
  function LocalStep(o: Settings, g: Shared, role: Role, pc: Pc, c: Choice): Pc
    requires InRange(o, g) && Named(g, pc) && Local(o, g, pc, c)
  {
    match pc
    case Idle =>
      (match role
       case Submitter => (match c.call
                          case Submit(job) => if Submittable(job) then Snap(Room(job)) else Idle
                          case Drain => Idle)
       case Drainer => Snap(Drained(g.accepted))
       case _ => Idle)
    case Snap(goal) => Check(goal, g.progress)
    case Check(goal, seen) =>
      if role.Encoder? || role.Output? then (if g.stopped then Exited else Look(goal, seen))
      else if g.stopped || g.failed then Idle else Look(goal, seen)
    case Look(goal, seen) => LookAt(o, g, goal, seen)
    case Wait(goal, _) => Snap(goal)
    case Reserve(job, _) => Snap(Room(job))
    case Compare(seen, t) => if t >= g.accepted then Wait(Work, seen) else Claim(t)
    case Claim(_) => Snap(Work)
    case FailClaim => AfterFailure(role)
    case _ => pc
  }

  predicate Local(o: Settings, g: Shared, pc: Pc, c: Choice) {
    match pc
    case Idle => true
    case Snap(_) => true
    case Check(_, _) => true
    case Look(_, _) => true
    case Wait(_, _) => true
    case Reserve(_, current) => c.spurious || g.budget != current
    case Compare(_, _) => true
    case Claim(t) => c.spurious || g.nextEncode != t
    case FailClaim => g.claimed
    case _ => false
  }

  function TakeTicket(o: Settings, g: Shared, i: nat, job: Job): Shared
    requires InRange(o, g)
  {
    var t := g.accepted;
    g.(accepted := t + 1,
       jobs := g.jobs + [job], phase := g.phase + [TAKEN], submitter := g.submitter + [i],
       encoder := g.encoder + [None], holder := g.holder[SlotOf(o, t) := Some(t)])
  }

  function Advance(o: Settings, g: Shared, t: nat, slot: Slot, phase: nat): Shared
    requires InRange(o, g) && t < g.accepted
  {
    g.(slots := g.slots[SlotOf(o, t) := slot], phase := g.phase[t := phase])
  }

  /** Reserving, taking a ticket, claiming one to encode. */
  function AdmitStep(o: Settings, g: Shared, i: nat, pc: Pc): (Shared, Pc)
    requires InRange(o, g) && Named(g, pc) && (pc.Reserve? || pc.Take? || pc.Claim?)
  {
    match pc
    case Reserve(job, current) => (g.(budget := current + COUNT_UNIT + job.charge), Take(job))
    case Take(job) => (TakeTicket(o, g, i, job), Snap(EmptySlot(job, g.accepted)))
    case Claim(t) => (g.(nextEncode := t + 1, encoder := g.encoder[t := Some(i)]), Snap(QueuedSlot(t)))
  }

  /** Moving a ticket on within its slot. */
  function MoveStep(o: Settings, g: Shared, i: nat, pc: Pc, c: Choice): (Shared, Pc)
    requires InRange(o, g) && Named(g, pc)
    requires pc.Fill? || pc.Publish? || pc.Mark? || pc.Run? || pc.Finish? || pc.Write?
  {
    match pc
    case Fill(job, t) =>
      var slot := g.slots[SlotOf(o, t)].(section := job.section, charge := job.charge, encode := job.encode);
      (Advance(o, g, t, slot, FILLED), if o.workers > 0 then Publish(t) else Snap(Turn(t)))
    case Publish(t) => (Advance(o, g, t, g.slots[SlotOf(o, t)].(state := Queued), QUEUED), PublishNotify)
    case Mark(t) =>
      (Advance(o, g, t, g.slots[SlotOf(o, t)].(state := Encoding), ENCODING).(encoder := g.encoder[t := Some(i)]), Run(t))
    case Run(t) =>
      var slot := g.slots[SlotOf(o, t)];
      if slot.encode.Yields? then (Advance(o, g, t, slot.(bytes := slot.encode.bytes, encode := Unset), ENCODED), Finish(t))
      else (Broken(g, i), FailClaim)
    case Finish(t) =>
      (Advance(o, g, t, g.slots[SlotOf(o, t)].(state := Ready), READY), if o.workers > 0 then FinishNotify else Write(t))
    case Write(t) =>
      var slot := g.slots[SlotOf(o, t)];
      if c.throws then (Broken(g, i), FailClaim)
      else (Advance(o, g, t, slot.(bytes := []), WRITTEN).(output := g.output + [(slot.section, slot.bytes)]), Vacate(t))
  }

  /** Giving slot, budget and turn back once a ticket is written. */
  function RetireStep(o: Settings, g: Shared, pc: Pc): (Shared, Pc)
    requires InRange(o, g) && Named(g, pc) && (pc.Vacate? || pc.Release? || pc.Count?)
  {
    match pc
    case Vacate(t) =>
      var slot := g.slots[SlotOf(o, t)];
      (Advance(o, g, t, slot.(state := Empty), VACATED).(holder := g.holder[SlotOf(o, t) := None]), Release(t, slot.charge))
    case Release(t, charge) =>
      (g.(budget := g.budget - (COUNT_UNIT + charge), phase := g.phase[t := RELEASED], released := g.released + 1), Count(t))
    case Count(t) => (g.(written := g.written + 1, phase := g.phase[t := COUNTED]), CountNotify)
  }

  /** Where a thread goes on once it has notified. */
  function AfterNotify(role: Role, pc: Pc): Pc
    requires pc.PublishNotify? || pc.FinishNotify? || pc.CountNotify? || pc.FailNotify?
  {
    match pc
    case PublishNotify => Idle
    case FinishNotify => Snap(Work)
    case CountNotify => AfterWrite(role)
    case FailNotify => AfterFailure(role)
  }

  /** Recording the first failure and stopping everything. */
  function FailStep(g: Shared, i: nat, pc: Pc): (Shared, Pc)
    requires pc.FailClaim? || pc.FailFlag? || pc.FailStop?
  {
    match pc
    case FailClaim => (g.(claimed := true, claimer := i), FailFlag)
    case FailFlag => (g.(failed := true), FailStop)
    case FailStop => (g.(stopped := true), FailNotify)
  }

  /** One step of a thread that changes shared state: the new state and program counter. */
  function SharedStep(o: Settings, g: Shared, i: nat, role: Role, pc: Pc, c: Choice): (r: (Shared, Pc))
    requires InRange(o, g) && Named(g, pc) && !Local(o, g, pc, c) && !pc.Exited?
  {
    if pc.Reserve? || pc.Take? || pc.Claim? then AdmitStep(o, g, i, pc)
    else if pc.Vacate? || pc.Release? || pc.Count? then RetireStep(o, g, pc)
    else if pc.PublishNotify? || pc.FinishNotify? || pc.CountNotify? || pc.FailNotify? then
      (g.(progress := g.progress + 1), AfterNotify(role, pc))
    else if pc.FailClaim? || pc.FailFlag? || pc.FailStop? then FailStep(g, i, pc)
    else MoveStep(o, g, i, pc, c)
  }

  /** A move: which thread steps, and how it resolves what is left open. */
  datatype Move = Move(i: nat, c: Choice)

  predicate Possible(o: Settings, s: State, m: Move) {
    && m.i < |s.threads| && InRange(o, s.g)
    && Named(s.g, s.threads[m.i].pc) && Enabled(s.g, s.threads[m.i])
  }

  function Next(o: Settings, s: State, m: Move): State
    requires Possible(o, s, m)
  {
    var th := s.threads[m.i];
    if Local(o, s.g, th.pc, m.c) then
      s.(threads := s.threads[m.i := th.(pc := LocalStep(o, s.g, th.role, th.pc, m.c))])
    else
      var (g, pc) := SharedStep(o, s.g, m.i, th.role, th.pc, m.c);
      State(g, s.threads[m.i := th.(pc := pc)])
  }

  // ---------------------------------------------------------------- runs

  /** Thread 0 writes and the next `workers` threads encode, when there are workers; the rest call in. */
  predicate RoleFits(o: Settings, i: nat, role: Role) {
    && (role.Output? <==> o.workers > 0 && i == 0)
    && (role.Encoder? <==> o.workers > 0 && 1 <= i <= o.workers)
  }

  function FirstPc(role: Role): Pc {
    match role
    case Output => Snap(ReadySlot)
    case Encoder => Snap(Work)
    case _ => Idle
  }

  predicate Initial(o: Settings, s: State) {
    && Acceptable(o)
    && s.g == Shared(0, 0, 0, 0, 0, false, false, false,
                     seq(Capacity(o), _ => Slot(Empty, 0, 0, Unset, [])), [],
                     [], [], [], [], seq(Capacity(o), _ => None), 0, false, 0, 0)
    && (o.workers > 0 ==> o.workers < |s.threads|)
    && forall i :: 0 <= i < |s.threads| ==>
         RoleFits(o, i, s.threads[i].role) && s.threads[i].pc == FirstPc(s.threads[i].role)
  }

  /** The moves can be made one after the other from `s`. */
  predicate CanRun(o: Settings, s: State, moves: seq<Move>)
    decreases |moves|
  {
    moves == [] || (Possible(o, s, moves[0]) && CanRun(o, Next(o, s, moves[0]), moves[1..]))
  }

  function After(o: Settings, s: State, moves: seq<Move>): State
    requires CanRun(o, s, moves)
    decreases |moves|
  {
    if moves == [] then s else After(o, Next(o, s, moves[0]), moves[1..])
  }
}
