/** Every step of the encoding hand-off keeps its invariant, one kind of step at a time. */
module HandoffSteps {
  import opened Arithmetic
  import opened Options
  import opened HandoffState
  import opened HandoffInvariant

  // ---------------------------------------------------------------- putting a step together

  lemma {:induction false} HeldUpdate(threads: seq<Thread>, i: nat, th: Thread)
    requires i < |threads|
    ensures HeldCount(threads[i := th]) == HeldCount(threads)
      - (if threads[i].pc.Take? then 1 else 0) + (if th.pc.Take? then 1 else 0)
    ensures HeldCharge(threads[i := th]) == HeldCharge(threads)
      - (if threads[i].pc.Take? then threads[i].pc.job.charge else 0) + (if th.pc.Take? then th.pc.job.charge else 0)
  {
    if i == 0 {
      assert threads[i := th][1..] == threads[1..];
    } else {
      HeldUpdate(threads[1..], i - 1, th);
      assert threads[i := th][1..] == threads[1..][i - 1 := th];
    }
  }

  /** A step that does not reserve, take, or release leaves the budget account alone. */
  lemma {:induction false} BudgetKeeps(o: Settings, s: State, i: nat, g': Shared, th: Thread)
    requires i < |s.threads| && s.g.released <= |s.g.jobs| && BudgetOk(o, s.g, s.threads)
    requires !s.threads[i].pc.Take? && !th.pc.Take?
    requires g'.budget == s.g.budget && g'.accepted == s.g.accepted && g'.released == s.g.released && g'.jobs == s.g.jobs
    ensures BudgetOk(o, g', s.threads[i := th])
  {
    HeldUpdate(s.threads, i, th);
  }

  /** Nothing a sleeper waits for has happened in this step, and no pending notification was lost. */
  ghost predicate Unmet(o: Settings, s: State, g': Shared, threads': seq<Thread>)
    requires InRange(o, s.g) && InRange(o, g')
  {
    && g'.progress == s.g.progress && g'.stopped == s.g.stopped
    && (NotifyPending(s.threads) ==> NotifyPending(threads'))
    && forall j :: 0 <= j < |s.threads| ==> UnmetAt(o, s.g, g', s.threads[j].pc)
  }

  ghost predicate UnmetAt(o: Settings, g: Shared, g': Shared, pc: Pc)
    requires InRange(o, g) && InRange(o, g')
  {
    pc.Wait? && Met(o, g', pc.goal) ==> Met(o, g, pc.goal)
  }

  ghost predicate Awakens(o: Settings, s: State, g': Shared, threads': seq<Thread>)
    requires InRange(o, s.g) && InRange(o, g')
  {
    g'.progress > s.g.progress || NotifyPending(threads') || Unmet(o, s, g', threads')
  }

  lemma {:induction false} AwakeKeeps(o: Settings, s: State, g': Shared, threads': seq<Thread>, j: nat)
    requires InRange(o, s.g) && InRange(o, g') && j < |s.threads|
    requires ThreadOk(o, s.g, j, s.threads[j]) && AwakeOk(o, s.g, NotifyPending(s.threads), s.threads[j].pc)
    requires Awakens(o, s, g', threads')
    ensures AwakeOk(o, g', NotifyPending(threads'), s.threads[j].pc)
  {
    if Unmet(o, s, g', threads') {
      assert UnmetAt(o, s.g, g', s.threads[j].pc);
    }
  }

  lemma {:induction false} Assemble(o: Settings, s: State, i: nat, g': Shared, pc': Pc)
    requires Inv(o, s) && i < |s.threads|
    requires TicketsOk(o, g') && SlotsOk(o, g')
    requires Shift(o, s.g, g', i)
    requires ThreadOk(o, g', i, s.threads[i].(pc := pc'))
    requires AllCarried(o, State(g', s.threads[i := s.threads[i].(pc := pc')]))
    requires Awakens(o, s, g', s.threads[i := s.threads[i].(pc := pc')])
    requires AwakeOk(o, g', NotifyPending(s.threads[i := s.threads[i].(pc := pc')]), pc')
    requires FailureOk(g', s.threads[i := s.threads[i].(pc := pc')])
    requires BudgetOk(o, g', s.threads[i := s.threads[i].(pc := pc')])
    ensures Inv(o, State(g', s.threads[i := s.threads[i].(pc := pc')]))
  {
    var threads' := s.threads[i := s.threads[i].(pc := pc')];
    var s' := State(g', threads');
    hide TicketsOk, SlotsOk, Carried, FailureOk, BudgetOk, Shift, ThreadOk, AwakeOk, Awakens, AllCarried, NotifyPending;
    forall j | 0 <= j < |threads'|
      ensures ThreadOk(o, g', j, threads'[j])
      ensures AwakeOk(o, g', NotifyPending(threads'), threads'[j].pc)
    {
      if j != i {
        assert ThreadOk(o, s.g, j, s.threads[j]);
        OthersKeep(o, s.g, g', i, j, s.threads[j]);
        AwakeKeeps(o, s, g', threads', j);
      }
    }
  }

  /** A ticket the step does not move keeps its carriers. */
  lemma {:induction false} CarriedKeeps(o: Settings, s: State, i: nat, g': Shared, th: Thread, t: nat)
    requires i < |s.threads| && Shift(o, s.g, g', i)
    requires t < s.g.accepted && Carried(o, s.g, s.threads, t)
    requires g'.phase[t] == s.g.phase[t] && (t < g'.nextEncode <==> t < s.g.nextEncode)
    requires s.g.encoder[t] == g'.encoder[t]
    requires Part(o, s.g, i, s.threads[i].pc, t) ==> Part(o, g', i, th.pc, t)
    ensures Carried(o, g', s.threads[i := th], t)
  {
    var threads' := s.threads[i := th];
    assert ShiftAt(o, s.g, g', i, t);
    forall j | 0 <= j < |threads'|
      ensures Part(o, g', j, threads'[j].pc, t)
    {
      assert Part(o, s.g, j, s.threads[j].pc, t);
    }
  }

  // ---------------------------------------------------------------- steps that change no shared variable

  lemma {:induction false} RemaindersDiffer(a: nat, b: nat, c: nat)
    requires c > 0 && a < b < a + c
    ensures a % c != b % c
  {
    var d := b / c - a / c;
    assert b - a == c * d + (b % c - a % c);
    Scaled(d, c);
    assert c * d == d * c;
  }

  lemma {:induction false} SlotsDiffer(o: Settings, a: nat, b: nat)
    requires a < b < a + Capacity(o)
    ensures SlotOf(o, a) != SlotOf(o, b)
  {
    RemaindersDiffer(a, b, Capacity(o));
  }

  /** While the output thread looks for work, nothing is half written. */
  lemma {:induction false} OutputIsDue(o: Settings, s: State, i: nat, seen: nat)
    requires Inv(o, s) && i < |s.threads| && s.threads[i].pc == Look(ReadySlot, seen)
    ensures |s.g.output| == s.g.written
  {
    assert ThreadOk(o, s.g, i, s.threads[i]);
    var t := s.g.written;
    if t < s.g.accepted {
      assert TicketOk(o, s.g, t);
      PartOf(o, s, i, t);
    }
  }

  lemma {:induction false} PartOf(o: Settings, s: State, i: nat, t: nat)
    requires Inv(o, s) && i < |s.threads| && t < s.g.accepted
    ensures !s.g.broken || s.g.phase[t] >= WRITTEN ==> Part(o, s.g, i, s.threads[i].pc, t)
  {
    assert CarriedUnlessBroken(o, s, t);
  }

  /** A ready slot at the writer's place holds the ticket the writer is due. */
  lemma {:induction false} ReadyTicket(o: Settings, g: Shared)
    requires TicketsOk(o, g) && SlotsOk(o, g) && |g.output| == g.written
    requires g.slots[SlotOf(o, g.written)].state == Ready
    ensures g.written < g.accepted && g.phase[g.written] == READY
  {
    var k := SlotOf(o, g.written);
    assert SlotOk(o, g, k);
    var t := g.holder[k].value;
    assert TicketOk(o, g, t);
    if t > g.written {
      SlotsDiffer(o, g.written, t);
    }
  }

  lemma {:induction false} LookKeepsThread(o: Settings, s: State, i: nat)
    requires Inv(o, s) && i < |s.threads| && s.threads[i].pc.Look?
    ensures var th := s.threads[i];
      InRange(o, s.g) && NamedGoal(s.g, th.pc.goal) && ThreadOk(o, s.g, i, Thread(th.role, LookAt(o, s.g, th.pc.goal, th.pc.seen)))
  {
    hide Inv, TicketOk, CarriedUnlessBroken;
    var th := s.threads[i];
    ThreadFact(o, s, i);
    match th.pc.goal
    case EmptySlot(_, t) => LookEmpty(o, s, i, t);
    case QueuedSlot(t) => LookQueued(o, s, i, t);
    case ReadySlot =>
      OutputIsDue(o, s, i, th.pc.seen);
      TicketsFact(o, s);
      if s.g.slots[SlotOf(o, s.g.written)].state == Ready {
        ReadyTicket(o, s.g);
      }
    case _ =>
  }

  lemma {:induction false} TicketsFact(o: Settings, s: State)
    requires Inv(o, s)
    ensures TicketsOk(o, s.g) && SlotsOk(o, s.g)
  {
  }

  /** A ticket just taken finds its slot empty. */
  lemma {:induction false} LookEmpty(o: Settings, s: State, i: nat, t: nat)
    requires Inv(o, s) && i < |s.threads| && t < s.g.accepted
    ensures InRange(o, s.g) && (s.g.phase[t] == TAKEN ==> s.g.slots[SlotOf(o, t)].state == Empty)
  {
    hide Inv, CarriedUnlessBroken, ThreadOk;
    Known(o, s, i, t);
  }

  /** A slot found queued by the ticket's encoder holds that ticket, queued. */
  lemma {:induction false} LookQueued(o: Settings, s: State, i: nat, t: nat)
    requires Inv(o, s) && i < |s.threads| && t < s.g.accepted
    ensures InRange(o, s.g)
    ensures s.g.phase[t] <= QUEUED && s.g.slots[SlotOf(o, t)].state == Queued ==> s.g.phase[t] == QUEUED
  {
    hide Inv, CarriedUnlessBroken, ThreadOk;
    Known(o, s, i, t);
  }

  /** The thread at `i` of `s`, one local step on. */
  ghost predicate StepsLocally(o: Settings, s: State, m: Move)
  {
    && Inv(o, s) && Possible(o, s, m) && Local(o, s.g, s.threads[m.i].pc, m.c)
  }

  ghost function LocalPc(o: Settings, s: State, m: Move): Pc
    requires StepsLocally(o, s, m)
  {
    LocalStep(o, s.g, s.threads[m.i].role, s.threads[m.i].pc, m.c)
  }

  lemma {:induction false} LocalThread(o: Settings, s: State, m: Move)
    requires StepsLocally(o, s, m)
    ensures ThreadOk(o, s.g, m.i, s.threads[m.i].(pc := LocalPc(o, s, m)))
  {
    assert ThreadOk(o, s.g, m.i, s.threads[m.i]);
    if s.threads[m.i].pc.Look? {
      LookKeepsThread(o, s, m.i);
    }
  }

  lemma {:induction false} LocalPart(o: Settings, s: State, m: Move, t: nat)
    requires StepsLocally(o, s, m) && t < s.g.accepted
    requires Part(o, s.g, m.i, s.threads[m.i].pc, t) && (s.g.phase[t] >= WRITTEN || (!s.g.stopped && !s.g.failed))
    ensures Part(o, s.g, m.i, LocalPc(o, s, m), t)
  {
    assert TicketOk(o, s.g, t);
  }

  lemma {:induction false} LocalCarried(o: Settings, s: State, m: Move)
    requires StepsLocally(o, s, m)
    ensures AllCarried(o, s.(threads := s.threads[m.i := s.threads[m.i].(pc := LocalPc(o, s, m))]))
  {
    var th := s.threads[m.i].(pc := LocalPc(o, s, m));
    var s' := s.(threads := s.threads[m.i := th]);
    LocalShift(o, s.g, m.i);
    forall t | 0 <= t < s.g.accepted
      ensures CarriedUnlessBroken(o, s', t)
    {
      assert CarriedUnlessBroken(o, s, t);
      if !s.g.broken || s.g.phase[t] >= WRITTEN {
        assert Part(o, s.g, m.i, s.threads[m.i].pc, t);
        LocalPart(o, s, m, t);
        hide TicketsOk, TicketOk, SlotsOk, ThreadsOk, AllCarried, AllAwakeOk, FailureOk, BudgetOk, Local, LocalPc, Carries, Part, Shift;
        CarriedKeeps(o, s, m.i, s.g, th, t);
      }
    }
  }

  lemma {:induction false} LocalShift(o: Settings, g: Shared, i: nat)
    requires InRange(o, g)
    ensures Shift(o, g, g, i)
  {
    assert forall t :: 0 <= t < g.accepted ==> ShiftAt(o, g, g, i, t);
  }

  /** A pending notification outlives a step of a thread that is not about to make it. */
  lemma {:induction false} PendingKeeps(threads: seq<Thread>, i: nat, th: Thread)
    requires i < |threads| && !WillNotify(threads[i].pc)
    ensures NotifyPending(threads) ==> NotifyPending(threads[i := th])
    ensures !WillNotify(th.pc) ==> (NotifyPending(threads) <==> NotifyPending(threads[i := th]))
  {
    var threads' := threads[i := th];
    if NotifyPending(threads) {
      var j :| 0 <= j < |threads| && WillNotify(threads[j].pc);
      assert WillNotify(threads'[j].pc);
    }
    if NotifyPending(threads') && !WillNotify(th.pc) {
      var j :| 0 <= j < |threads'| && WillNotify(threads'[j].pc);
      assert WillNotify(threads[j].pc);
    }
  }

  lemma {:induction false} LocalAwake(o: Settings, s: State, m: Move)
    requires StepsLocally(o, s, m)
    ensures var threads' := s.threads[m.i := s.threads[m.i].(pc := LocalPc(o, s, m))];
      && Awakens(o, s, s.g, threads')
      && AwakeOk(o, s.g, NotifyPending(threads'), LocalPc(o, s, m))
  {
    var pc' := LocalPc(o, s, m);
    PendingKeeps(s.threads, m.i, s.threads[m.i].(pc := pc'));
    assert AwakeOk(o, s.g, NotifyPending(s.threads), s.threads[m.i].pc);
    assert ThreadOk(o, s.g, m.i, s.threads[m.i]);
  }

  lemma {:induction false} LocalFailure(o: Settings, s: State, m: Move)
    requires StepsLocally(o, s, m)
    ensures FailureOk(s.g, s.threads[m.i := s.threads[m.i].(pc := LocalPc(o, s, m))])
  {
  }

  lemma {:induction false} LocalKeeps(o: Settings, s: State, m: Move)
    requires StepsLocally(o, s, m)
    ensures Inv(o, Next(o, s, m))
  {
    LocalThread(o, s, m);
    LocalCarried(o, s, m);
    LocalAwake(o, s, m);
    LocalFailure(o, s, m);
    LocalShift(o, s.g, m.i);
    var pc' := LocalPc(o, s, m);
    BudgetKeeps(o, s, m.i, s.g, s.threads[m.i].(pc := pc'));
    hide TicketsOk, SlotsOk, ThreadsOk, AllCarried, AllAwakeOk, FailureOk, BudgetOk, Shift, ThreadOk, AwakeOk, Awakens, Local, LocalStep;
    Assemble(o, s, m.i, s.g, pc');
  }

  // ---------------------------------------------------------------- moving one ticket on

  /** The state once the step of thread `i` has led to `g'` and `pc'`. */
  ghost function Led(s: State, i: nat, g': Shared, pc': Pc): State
    requires i < |s.threads|
  {
    State(g', s.threads[i := s.threads[i].(pc := pc')])
  }

  /** Nothing but ticket `t`'s phase and encoder changes among the tickets. */
  ghost predicate OnlyMoves(g: Shared, g': Shared, t: nat) {
    && g'.accepted == g.accepted && g'.nextEncode == g.nextEncode && g'.jobs == g.jobs && g'.submitter == g.submitter
    && |g'.phase| == |g.phase| && |g'.encoder| == |g.encoder|
    && (forall u :: 0 <= u < |g.phase| && u != t ==> g'.phase[u] == g.phase[u])
    && (forall u :: 0 <= u < |g.encoder| && u != t ==> g'.encoder[u] == g.encoder[u])
    && (g.broken ==> g'.broken)
  }

  /** The program counter plays no part in ticket `u`. */
  ghost predicate NoPart(o: Settings, g: Shared, pc: Pc, u: nat)
    requires InRange(o, g) && u < g.accepted
  {
    !Carries(o, g, pc, u) && !HasGoal(pc, QueuedSlot(u))
  }

  lemma {:induction false} NoPartKeeps(o: Settings, g: Shared, g': Shared, i: nat, pc: Pc, pc': Pc, u: nat)
    requires InRange(o, g) && InRange(o, g') && u < g.accepted <= g'.accepted
    requires NoPart(o, g, pc, u) && Part(o, g, i, pc, u)
    requires g'.phase[u] == g.phase[u] && (u < g'.nextEncode <==> u < g.nextEncode) && g'.encoder[u] == g.encoder[u]
    requires g'.submitter[u] == g.submitter[u]
    ensures Part(o, g', i, pc', u)
  {
  }

  lemma {:induction false} MoveCarried(o: Settings, s: State, i: nat, g': Shared, pc': Pc, t: nat)
    requires Inv(o, s) && i < |s.threads| && Shift(o, s.g, g', i) && OnlyMoves(s.g, g', t)
    requires forall u :: 0 <= u < s.g.accepted && u != t ==> NoPart(o, s.g, s.threads[i].pc, u)
    requires t < s.g.accepted ==> CarriedUnlessBroken(o, Led(s, i, g', pc'), t)
    ensures AllCarried(o, Led(s, i, g', pc'))
  {
    var s' := Led(s, i, g', pc');
    forall u | 0 <= u < g'.accepted
      ensures CarriedUnlessBroken(o, s', u)
    {
      assert CarriedUnlessBroken(o, s, u);
      if u != t && (!g'.broken || g'.phase[u] >= WRITTEN) {
        assert ShiftAt(o, s.g, g', i, u);
        assert Part(o, s.g, i, s.threads[i].pc, u);
        NoPartKeeps(o, s.g, g', i, s.threads[i].pc, pc', u);
        hide TicketsOk, SlotsOk, ThreadsOk, AllCarried, AllAwakeOk, FailureOk, BudgetOk, Carries, ShiftAt, Shift, Part, NoPart;
        CarriedKeeps(o, s, i, g', s'.threads[i], u);
      }
    }
  }

  /** A ticket that is in its slot moves on, together with that slot. */
  lemma {:induction false} AdvanceTickets(o: Settings, g: Shared, g': Shared, t: nat)
    requires TicketsOk(o, g) && SlotsOk(o, g) && InRange(o, g') && t < g.accepted
    requires OnlyMoves(g, g', t) && g.phase[t] < VACATED && g'.phase[t] < VACATED
    requires g'.written == g.written && g'.released == g.released && g'.holder == g.holder
    requires |g.output| <= |g'.output| <= g.written + 1 && |g'.output| <= g.accepted && g.output == g'.output[..|g.output|]
    requires |g'.output| == |g.output| || (|g'.output| == |g.output| + 1 && t == |g.output|)
    requires forall k :: 0 <= k < |g.slots| && k != SlotOf(o, t) ==> g'.slots[k] == g.slots[k]
    requires TicketOk(o, g', t)
    ensures TicketsOk(o, g') && SlotsOk(o, g')
  {
    assert TicketOk(o, g, t);
    forall u | 0 <= u < g'.accepted
      ensures TicketOk(o, g', u)
    {
      assert TicketOk(o, g, u);
      if u != t && g.phase[u] < VACATED {
        assert g.holder[SlotOf(o, u)] == Some(u);
        assert SlotOf(o, u) != SlotOf(o, t);
      }
    }
    forall k | 0 <= k < |g'.slots|
      ensures SlotOk(o, g', k)
    {
      assert SlotOk(o, g, k);
    }
  }

  /** Moving ticket `t` on wakes nobody who must not sleep, unless a notification follows. */
  lemma {:induction false} AdvanceUnmet(o: Settings, s: State, i: nat, g': Shared, pc': Pc, t: nat)
    requires Inv(o, s) && i < |s.threads| && InRange(o, g') && OnlyMoves(s.g, g', t) && t < s.g.accepted
    requires g'.budget == s.g.budget && g'.written == s.g.written && g'.progress == s.g.progress && g'.stopped == s.g.stopped
    requires forall k :: 0 <= k < |s.g.slots| && k != SlotOf(o, t) ==> g'.slots[k] == s.g.slots[k]
    requires var k := SlotOf(o, t);
      && (g'.slots[k].state == Queued ==> s.g.slots[k].state == Queued)
      && (g'.slots[k].state == Ready ==> s.g.slots[k].state == Ready || o.workers == 0)
    requires g'.phase[t] >= QUEUED ==> s.g.phase[t] >= QUEUED || o.workers == 0
    requires !WillNotify(s.threads[i].pc)
    ensures Awakens(o, s, g', Led(s, i, g', pc').threads)
  {
    var threads' := Led(s, i, g', pc').threads;
    PendingKeeps(s.threads, i, threads'[i]);
    forall j | 0 <= j < |s.threads|
      ensures UnmetAt(o, s.g, g', s.threads[j].pc)
    {
      assert ThreadOk(o, s.g, j, s.threads[j]);
      if s.threads[j].pc.Wait? && Met(o, g', s.threads[j].pc.goal) {
        AdvanceUnmetGoal(o, s.g, g', t, j, s.threads[j].role, s.threads[j].pc.goal);
      }
    }
  }

  lemma {:induction false} AdvanceUnmetGoal(o: Settings, g: Shared, g': Shared, t: nat, j: nat, role: Role, goal: Goal)
    requires InRange(o, g) && InRange(o, g') && OnlyMoves(g, g', t) && t < g.accepted
    requires g'.budget == g.budget && g'.written == g.written
    requires forall k :: 0 <= k < |g.slots| && k != SlotOf(o, t) ==> g'.slots[k] == g.slots[k]
    requires var k := SlotOf(o, t);
      && (g'.slots[k].state == Queued ==> g.slots[k].state == Queued)
      && (g'.slots[k].state == Ready ==> g.slots[k].state == Ready || o.workers == 0)
    requires g'.phase[t] >= QUEUED ==> g.phase[t] >= QUEUED || o.workers == 0
    requires RoleFits(o, j, role) && GoalOk(o, g, j, role, goal) && !goal.EmptySlot?
    requires Met(o, g', goal)
    ensures Met(o, g, goal)
  {
    if goal.Work? {
      var u :| WorkAt(o, g', u);
      assert WorkAt(o, g, u);
    }
  }

  /** A failing thread still fails, whatever another thread does. */
  lemma {:induction false} FailureKeeps(g: Shared, g': Shared, threads: seq<Thread>, i: nat, th: Thread)
    requires FailureOk(g, threads) && i < |threads|
    requires g'.claimed == g.claimed && g'.failed == g.failed && g'.stopped == g.stopped
    requires g'.broken == g.broken && g'.breaker == g.breaker && g'.claimer == g.claimer
    requires !threads[i].pc.FailClaim? && !threads[i].pc.FailFlag? && !threads[i].pc.FailStop?
    ensures FailureOk(g', threads[i := th])
  {
  }

  /**
   * Thread `i` moves ticket `t`, which is in its slot, on to `g'` and `pc'`: what the step must show
   * about that ticket, that slot and that thread alone.
   */
  ghost predicate Advances(o: Settings, s: State, i: nat, g': Shared, pc': Pc, t: nat)
    requires Inv(o, s) && i < |s.threads|
  {
    && InRange(o, g') && OnlyMoves(s.g, g', t) && t < s.g.accepted
    && OnlySlot(o, s.g, g', t)
    && s.g.phase[t] < VACATED && g'.phase[t] < VACATED
    && TicketOk(o, g', t) && ShiftAt(o, s.g, g', i, t)
    && (forall u :: 0 <= u < s.g.accepted && u != t ==> NoPart(o, s.g, s.threads[i].pc, u))
    && ThreadOk(o, g', i, s.threads[i].(pc := pc'))
    && CarriedUnlessBroken(o, Led(s, i, g', pc'), t)
    && !pc'.Look? && !pc'.Wait? && !pc'.Compare? && !pc'.Take?
    && PlainPc(s.threads[i].pc)
  }

  /** Apart from the slot of ticket `t` and the output, nothing outside the tickets changes. */
  ghost predicate OnlySlot(o: Settings, g: Shared, g': Shared, t: nat)
    requires InRange(o, g) && InRange(o, g')
  {
    && g'.budget == g.budget && g'.written == g.written && g'.released == g.released && g'.progress == g.progress
    && g'.holder == g.holder
    && (forall k :: 0 <= k < |g.slots| && k != SlotOf(o, t) ==> g'.slots[k] == g.slots[k])
    && SameFailure(g, g')
    && (g'.output == g.output || (t == |g.output| == g.written && |g'.output| == |g.output| + 1 && g.output == g'.output[..|g.output|]))
  }

  ghost predicate SameFailure(g: Shared, g': Shared) {
    && g'.claimed == g.claimed && g'.failed == g.failed && g'.stopped == g.stopped
    && g'.broken == g.broken && g'.breaker == g.breaker && g'.claimer == g.claimer
  }

  /** Neither about to notify, nor holding a reservation, nor failing. */
  ghost predicate PlainPc(pc: Pc) {
    !WillNotify(pc) && !pc.Take? && !pc.FailClaim? && !pc.FailFlag? && !pc.FailStop?
  }

  /** The step makes no sleeper's wish come true. */
  ghost predicate Quiet(o: Settings, g: Shared, g': Shared, t: nat)
    requires InRange(o, g) && InRange(o, g') && t < g.accepted == g'.accepted
  {
    var k := SlotOf(o, t);
    && (g'.slots[k].state == Queued ==> g.slots[k].state == Queued)
    && (g'.slots[k].state == Ready ==> g.slots[k].state == Ready || o.workers == 0)
    && (g'.phase[t] >= QUEUED ==> g.phase[t] >= QUEUED || o.workers == 0)
  }

  lemma {:induction false} AdvanceShift(o: Settings, g: Shared, g': Shared, i: nat, t: nat)
    requires InRange(o, g) && InRange(o, g') && OnlyMoves(g, g', t) && OnlySlot(o, g, g', t) && t < g.accepted
    requires ShiftAt(o, g, g', i, t)
    ensures Shift(o, g, g', i)
  {
    forall u | 0 <= u < g.accepted
      ensures ShiftAt(o, g, g', i, u)
    {
    }
  }

  lemma {:induction false} AdvanceKeeps(o: Settings, s: State, i: nat, g': Shared, pc': Pc, t: nat)
    requires Inv(o, s) && i < |s.threads| && Advances(o, s, i, g', pc', t)
    requires WillNotify(pc') || Quiet(o, s.g, g', t)
    ensures Inv(o, Led(s, i, g', pc'))
  {
    var threads' := Led(s, i, g', pc').threads;
    assert TicketOk(o, s.g, t);
    AdvanceTickets(o, s.g, g', t);
    AdvanceShift(o, s.g, g', i, t);
    MoveCarried(o, s, i, g', pc', t);
    if WillNotify(pc') {
      assert WillNotify(threads'[i].pc);
    } else {
      AdvanceUnmet(o, s, i, g', pc', t);
    }
    FailureKeeps(s.g, g', s.threads, i, threads'[i]);
    BudgetKeeps(o, s, i, g', threads'[i]);
    hide TicketsOk, SlotsOk, ThreadsOk, AllCarried, AllAwakeOk, FailureOk, BudgetOk, Shift, TicketOk, SlotOk, ThreadOk, CarriedUnlessBroken;
    Assemble(o, s, i, g', pc');
  }

  // ---------------------------------------------------------------- the steps of one ticket

  lemma {:induction false} ThreadFact(o: Settings, s: State, i: nat)
    requires Inv(o, s) && i < |s.threads|
    ensures InRange(o, s.g) && ThreadOk(o, s.g, i, s.threads[i]) && FailureOk(s.g, s.threads)
    ensures s.g.released <= |s.g.jobs| && BudgetOk(o, s.g, s.threads)
  {
  }

  /** What is known about the thread that steps and the ticket it names. */
  lemma {:induction false} Known(o: Settings, s: State, i: nat, t: nat)
    requires Inv(o, s) && i < |s.threads| && t < s.g.accepted
    ensures InRange(o, s.g) && s.g.written <= |s.g.output| <= s.g.accepted
    ensures ThreadOk(o, s.g, i, s.threads[i]) && TicketOk(o, s.g, t) && CarriedUnlessBroken(o, s, t)
  {
  }

  /** The steps that move a ticket on within its slot. */
  ghost predicate Moving(o: Settings, s: State, m: Move) {
    && Inv(o, s) && Possible(o, s, m)
    && match s.threads[m.i].pc
       case Fill(_, _) => true
       case Publish(_) => true
       case Mark(_) => true
       case Run(t) => s.g.slots[SlotOf(o, t)].encode.Yields?
       case Finish(_) => true
       case Write(_) => !m.c.throws
       case _ => false
  }

  ghost function Moved(o: Settings, s: State, m: Move): (Shared, Pc)
    requires Moving(o, s, m)
  {
    SharedStep(o, s.g, m.i, s.threads[m.i].role, s.threads[m.i].pc, m.c)
  }

  /** The moved ticket is in order. */
  ghost predicate MovesTicket(o: Settings, s: State, m: Move)
    requires Moving(o, s, m)
  {
    var t := s.threads[m.i].pc.ticket;
    var (g', pc') := Moved(o, s, m);
    && InRange(o, g') && OnlyMoves(s.g, g', t) && OnlySlot(o, s.g, g', t) && t < s.g.accepted
    && s.g.phase[t] < VACATED && g'.phase[t] < VACATED && ShiftAt(o, s.g, g', m.i, t)
    && TicketOk(o, g', t)
  }

  /** The thread that moved it is in order. */
  ghost predicate MovesThread(o: Settings, s: State, m: Move)
    requires Moving(o, s, m)
  {
    var t := s.threads[m.i].pc.ticket;
    var (g', pc') := Moved(o, s, m);
    && InRange(o, g') && t < s.g.accepted == g'.accepted
    && ThreadOk(o, g', m.i, s.threads[m.i].(pc := pc'))
    && !pc'.Look? && !pc'.Wait? && !pc'.Compare? && !pc'.Take? && PlainPc(s.threads[m.i].pc)
    && (WillNotify(pc') || Quiet(o, s.g, g', t))
  }

  lemma {:induction false} FillMovesTicket(o: Settings, s: State, m: Move)
    requires Moving(o, s, m) && s.threads[m.i].pc.Fill?
    ensures MovesTicket(o, s, m)
  {
    hide Inv, TicketsOk, SlotsOk, ThreadsOk, AllCarried, AllAwakeOk, FailureOk, BudgetOk, Acceptable, CarriedUnlessBroken, AdmitStep, RetireStep,
         FailStep, AfterNotify;
    Known(o, s, m.i, s.threads[m.i].pc.ticket);
  }

  lemma {:induction false} FillMovesThread(o: Settings, s: State, m: Move)
    requires Moving(o, s, m) && s.threads[m.i].pc.Fill?
    ensures MovesThread(o, s, m)
  {
    hide Inv, TicketsOk, SlotsOk, ThreadsOk, AllCarried, AllAwakeOk, FailureOk, BudgetOk, Acceptable, CarriedUnlessBroken, AdmitStep, RetireStep,
         FailStep, AfterNotify, OnlyMoves, OnlySlot;
    Known(o, s, m.i, s.threads[m.i].pc.ticket);
  }

  lemma {:induction false} PublishMovesTicket(o: Settings, s: State, m: Move)
    requires Moving(o, s, m) && s.threads[m.i].pc.Publish?
    ensures MovesTicket(o, s, m)
  {
    hide Inv, TicketsOk, SlotsOk, ThreadsOk, AllCarried, AllAwakeOk, FailureOk, BudgetOk, Acceptable, CarriedUnlessBroken, AdmitStep, RetireStep,
         FailStep, AfterNotify;
    Known(o, s, m.i, s.threads[m.i].pc.ticket);
  }

  lemma {:induction false} PublishMovesThread(o: Settings, s: State, m: Move)
    requires Moving(o, s, m) && s.threads[m.i].pc.Publish?
    ensures MovesThread(o, s, m)
  {
    hide Inv, TicketsOk, SlotsOk, ThreadsOk, AllCarried, AllAwakeOk, FailureOk, BudgetOk, Acceptable, CarriedUnlessBroken, AdmitStep, RetireStep,
         FailStep, AfterNotify, OnlyMoves, OnlySlot;
    Known(o, s, m.i, s.threads[m.i].pc.ticket);
  }

  lemma {:induction false} MarkMovesTicket(o: Settings, s: State, m: Move)
    requires Moving(o, s, m) && s.threads[m.i].pc.Mark?
    ensures MovesTicket(o, s, m)
  {
    hide Inv, TicketsOk, SlotsOk, ThreadsOk, AllCarried, AllAwakeOk, FailureOk, BudgetOk, Acceptable, CarriedUnlessBroken, AdmitStep, RetireStep,
         FailStep, AfterNotify;
    Known(o, s, m.i, s.threads[m.i].pc.ticket);
  }

  lemma {:induction false} MarkMovesThread(o: Settings, s: State, m: Move)
    requires Moving(o, s, m) && s.threads[m.i].pc.Mark?
    ensures MovesThread(o, s, m)
  {
    hide Inv, TicketsOk, SlotsOk, ThreadsOk, AllCarried, AllAwakeOk, FailureOk, BudgetOk, Acceptable, CarriedUnlessBroken, AdmitStep, RetireStep,
         FailStep, AfterNotify, OnlyMoves, OnlySlot;
    Known(o, s, m.i, s.threads[m.i].pc.ticket);
  }

  lemma {:induction false} RunMovesTicket(o: Settings, s: State, m: Move)
    requires Moving(o, s, m) && s.threads[m.i].pc.Run?
    ensures MovesTicket(o, s, m)
  {
    hide Inv, TicketsOk, SlotsOk, ThreadsOk, AllCarried, AllAwakeOk, FailureOk, BudgetOk, Acceptable, CarriedUnlessBroken, AdmitStep, RetireStep,
         FailStep, AfterNotify;
    Known(o, s, m.i, s.threads[m.i].pc.ticket);
  }

  lemma {:induction false} RunMovesThread(o: Settings, s: State, m: Move)
    requires Moving(o, s, m) && s.threads[m.i].pc.Run?
    ensures MovesThread(o, s, m)
  {
    hide Inv, TicketsOk, SlotsOk, ThreadsOk, AllCarried, AllAwakeOk, FailureOk, BudgetOk, Acceptable, CarriedUnlessBroken, AdmitStep, RetireStep,
         FailStep, AfterNotify, OnlyMoves, OnlySlot;
    Known(o, s, m.i, s.threads[m.i].pc.ticket);
  }

  lemma {:induction false} FinishMovesTicket(o: Settings, s: State, m: Move)
    requires Moving(o, s, m) && s.threads[m.i].pc.Finish?
    ensures MovesTicket(o, s, m)
  {
    hide Inv, TicketsOk, SlotsOk, ThreadsOk, AllCarried, AllAwakeOk, FailureOk, BudgetOk, Acceptable, CarriedUnlessBroken, AdmitStep, RetireStep,
         FailStep, AfterNotify;
    Known(o, s, m.i, s.threads[m.i].pc.ticket);
  }

  lemma {:induction false} FinishMovesThread(o: Settings, s: State, m: Move)
    requires Moving(o, s, m) && s.threads[m.i].pc.Finish?
    ensures MovesThread(o, s, m)
  {
    hide Inv, TicketsOk, SlotsOk, ThreadsOk, AllCarried, AllAwakeOk, FailureOk, BudgetOk, Acceptable, CarriedUnlessBroken, AdmitStep, RetireStep,
         FailStep, AfterNotify, OnlyMoves, OnlySlot;
    Known(o, s, m.i, s.threads[m.i].pc.ticket);
  }

  lemma {:induction false} WriteMovesTicket(o: Settings, s: State, m: Move)
    requires Moving(o, s, m) && s.threads[m.i].pc.Write?
    ensures MovesTicket(o, s, m)
  {
    hide Inv, TicketsOk, SlotsOk, ThreadsOk, AllCarried, AllAwakeOk, FailureOk, BudgetOk, Acceptable, CarriedUnlessBroken, AdmitStep, RetireStep,
         FailStep, AfterNotify;
    Known(o, s, m.i, s.threads[m.i].pc.ticket);
  }

  lemma {:induction false} WriteMovesThread(o: Settings, s: State, m: Move)
    requires Moving(o, s, m) && s.threads[m.i].pc.Write?
    ensures MovesThread(o, s, m)
  {
    hide Inv, TicketsOk, SlotsOk, ThreadsOk, AllCarried, AllAwakeOk, FailureOk, BudgetOk, Acceptable, CarriedUnlessBroken, AdmitStep, RetireStep,
         FailStep, AfterNotify, OnlyMoves, OnlySlot;
    Known(o, s, m.i, s.threads[m.i].pc.ticket);
  }

  lemma {:induction false} AllMoveWell(o: Settings, s: State, m: Move)
    requires Moving(o, s, m)
    ensures MovesTicket(o, s, m) && MovesThread(o, s, m)
  {
    hide MovesTicket, MovesThread, Inv;
    match s.threads[m.i].pc
    case Fill(_, _) =>
      FillMovesTicket(o, s, m);
      FillMovesThread(o, s, m);
    case Publish(_) =>
      PublishMovesTicket(o, s, m);
      PublishMovesThread(o, s, m);
    case Mark(_) =>
      MarkMovesTicket(o, s, m);
      MarkMovesThread(o, s, m);
    case Run(_) =>
      RunMovesTicket(o, s, m);
      RunMovesThread(o, s, m);
    case Finish(_) =>
      FinishMovesTicket(o, s, m);
      FinishMovesThread(o, s, m);
    case Write(_) =>
      WriteMovesTicket(o, s, m);
      WriteMovesThread(o, s, m);
  }

  lemma {:induction false} EarlyMoverPart(o: Settings, s: State, m: Move, j: nat)
    requires Moving(o, s, m) && MovesTicket(o, s, m) && j < |s.threads| && j == m.i
    requires s.threads[m.i].pc.Fill? || s.threads[m.i].pc.Publish? || s.threads[m.i].pc.Mark?
    ensures var t := s.threads[m.i].pc.ticket;
      var (g', pc') := Moved(o, s, m);
      var threads' := Led(s, m.i, g', pc').threads;
      t < s.g.accepted && InRange(o, s.g) && (!g'.broken || g'.phase[t] >= WRITTEN ==> Part(o, g', j, threads'[j].pc, t))
  {
    hide Inv, TicketsOk, SlotsOk, ThreadsOk, AllCarried, AllAwakeOk, FailureOk, BudgetOk, Acceptable, TicketOk, OnlySlot, ShiftAt, Quiet, AdmitStep,
         RetireStep, FailStep, AfterNotify;
    var t := s.threads[m.i].pc.ticket;
    PartOf(o, s, j, t);
    Known(o, s, m.i, t);
  }

  lemma {:induction false} LateMoverPart(o: Settings, s: State, m: Move, j: nat)
    requires Moving(o, s, m) && MovesTicket(o, s, m) && j < |s.threads| && j == m.i
    requires s.threads[m.i].pc.Run? || s.threads[m.i].pc.Finish? || s.threads[m.i].pc.Write?
    ensures var t := s.threads[m.i].pc.ticket;
      var (g', pc') := Moved(o, s, m);
      var threads' := Led(s, m.i, g', pc').threads;
      t < s.g.accepted && InRange(o, s.g) && (!g'.broken || g'.phase[t] >= WRITTEN ==> Part(o, g', j, threads'[j].pc, t))
  {
    hide Inv, TicketsOk, SlotsOk, ThreadsOk, AllCarried, AllAwakeOk, FailureOk, BudgetOk, Acceptable, TicketOk, OnlySlot, ShiftAt, Quiet, AdmitStep,
         RetireStep, FailStep, AfterNotify;
    var t := s.threads[m.i].pc.ticket;
    PartOf(o, s, j, t);
    Known(o, s, m.i, t);
  }

  /** The thread that moved the ticket stands where it moves it on. */
  lemma {:induction false} MoverPart(o: Settings, s: State, m: Move, j: nat)
    requires Moving(o, s, m) && MovesTicket(o, s, m) && j < |s.threads| && j == m.i
    ensures var t := s.threads[m.i].pc.ticket;
      var (g', pc') := Moved(o, s, m);
      var threads' := Led(s, m.i, g', pc').threads;
      t < s.g.accepted && InRange(o, s.g) && (!g'.broken || g'.phase[t] >= WRITTEN ==> Part(o, g', j, threads'[j].pc, t))
  {
    hide Inv, MovesTicket, Part, Moved;
    if s.threads[m.i].pc.Fill? || s.threads[m.i].pc.Publish? || s.threads[m.i].pc.Mark? {
      EarlyMoverPart(o, s, m, j);
    } else {
      LateMoverPart(o, s, m, j);
    }
  }

  /** The moved ticket is carried on by its mover, by nobody yet, or by the encoder waiting for it to be queued. */
  ghost predicate Passes(o: Settings, g: Shared, g': Shared, i: nat, t: nat)
    requires InRange(o, g) && InRange(o, g') && t < g.accepted == g'.accepted
  {
    && (Carrier(o, g', t) == Some(i) || Carrier(o, g', t) == None
        || (o.workers > 0 && g.phase[t] < QUEUED && g'.phase[t] == QUEUED && g'.encoder[t] == g.encoder[t]))
    && (g'.phase[t] < QUEUED ==> g.phase[t] < QUEUED && g'.encoder[t] == g.encoder[t])
  }

  lemma {:induction false} EarlyMovesPass(o: Settings, s: State, m: Move)
    requires Moving(o, s, m) && MovesTicket(o, s, m)
    requires s.threads[m.i].pc.Fill? || s.threads[m.i].pc.Publish? || s.threads[m.i].pc.Mark?
    ensures var t := s.threads[m.i].pc.ticket;
      t < s.g.accepted && InRange(o, s.g) && Passes(o, s.g, Moved(o, s, m).0, m.i, t)
  {
    hide Inv, TicketsOk, SlotsOk, ThreadsOk, AllCarried, AllAwakeOk, FailureOk, BudgetOk, Acceptable, TicketOk, OnlySlot, ShiftAt, Quiet,
         CarriedUnlessBroken, Enabled, Local, AdmitStep, RetireStep, FailStep, AfterNotify, Part;
    Known(o, s, m.i, s.threads[m.i].pc.ticket);
  }

  lemma {:induction false} EncodeMovesPass(o: Settings, s: State, m: Move)
    requires Moving(o, s, m) && MovesTicket(o, s, m)
    requires s.threads[m.i].pc.Run? || s.threads[m.i].pc.Finish?
    ensures var t := s.threads[m.i].pc.ticket;
      t < s.g.accepted && InRange(o, s.g) && Passes(o, s.g, Moved(o, s, m).0, m.i, t)
  {
    hide Inv, TicketsOk, SlotsOk, ThreadsOk, AllCarried, AllAwakeOk, FailureOk, BudgetOk, Acceptable, TicketOk, OnlySlot, ShiftAt, Quiet,
         CarriedUnlessBroken, Enabled, Local, AdmitStep, RetireStep, FailStep, AfterNotify, Part;
    Known(o, s, m.i, s.threads[m.i].pc.ticket);
  }

  lemma {:induction false} WriteMovesPass(o: Settings, s: State, m: Move)
    requires Moving(o, s, m) && MovesTicket(o, s, m)
    requires s.threads[m.i].pc.Write?
    ensures var t := s.threads[m.i].pc.ticket;
      t < s.g.accepted && InRange(o, s.g) && Passes(o, s.g, Moved(o, s, m).0, m.i, t)
  {
    hide Inv, TicketsOk, SlotsOk, ThreadsOk, AllCarried, AllAwakeOk, FailureOk, BudgetOk, Acceptable, TicketOk, OnlySlot, ShiftAt, Quiet,
         CarriedUnlessBroken, Enabled, Local, AdmitStep, RetireStep, FailStep, AfterNotify, Part;
    Known(o, s, m.i, s.threads[m.i].pc.ticket);
  }

  lemma {:induction false} MovesPass(o: Settings, s: State, m: Move)
    requires Moving(o, s, m) && MovesTicket(o, s, m)
    ensures var t := s.threads[m.i].pc.ticket;
      t < s.g.accepted && InRange(o, s.g) && Passes(o, s.g, Moved(o, s, m).0, m.i, t)
  {
    hide Inv, MovesTicket, Passes, Moved;
    if s.threads[m.i].pc.Fill? || s.threads[m.i].pc.Publish? || s.threads[m.i].pc.Mark? {
      EarlyMovesPass(o, s, m);
    } else if s.threads[m.i].pc.Write? {
      WriteMovesPass(o, s, m);
    } else {
      EncodeMovesPass(o, s, m);
    }
  }

  lemma {:induction false} BystanderKeeps(o: Settings, g: Shared, g': Shared, i: nat, j: nat, pc: Pc, t: nat)
    requires InRange(o, g) && InRange(o, g') && t < g.accepted == g'.accepted && i != j
    requires Passes(o, g, g', i, t) && (Part(o, g, j, pc, t) || g'.phase[t] >= WRITTEN)
    ensures Part(o, g', j, pc, t)
  {
  }

  /** The other threads have no business with the moved ticket, before or after. */
  lemma {:induction false} BystanderPart(o: Settings, s: State, m: Move, j: nat)
    requires Moving(o, s, m) && MovesTicket(o, s, m) && j < |s.threads| && j != m.i
    ensures var t := s.threads[m.i].pc.ticket;
      var g' := Moved(o, s, m).0;
      t < s.g.accepted && InRange(o, s.g) && (!g'.broken || g'.phase[t] >= WRITTEN ==> Part(o, g', j, s.threads[j].pc, t))
  {
    hide Inv, Part, Moved, Passes, TicketOk, ShiftAt;
    var t := s.threads[m.i].pc.ticket;
    var g' := Moved(o, s, m).0;
    MovesPass(o, s, m);
    PartOf(o, s, j, t);
    if !g'.broken || g'.phase[t] >= WRITTEN {
      BystanderKeeps(o, s.g, g', m.i, j, s.threads[j].pc, t);
    }
  }

  lemma {:induction false} MovedPart(o: Settings, s: State, m: Move, j: nat)
    requires Moving(o, s, m) && MovesTicket(o, s, m) && j < |s.threads|
    ensures var t := s.threads[m.i].pc.ticket;
      var (g', pc') := Moved(o, s, m);
      var threads' := Led(s, m.i, g', pc').threads;
      t < s.g.accepted && InRange(o, s.g) && (!g'.broken || g'.phase[t] >= WRITTEN ==> Part(o, g', j, threads'[j].pc, t))
  {
    hide Inv, Part, MovesTicket, Moved;
    if j == m.i {
      MoverPart(o, s, m, j);
    } else {
      BystanderPart(o, s, m, j);
    }
  }

  lemma {:induction false} MovedCarried(o: Settings, s: State, m: Move)
    requires Moving(o, s, m) && MovesTicket(o, s, m)
    ensures var t := s.threads[m.i].pc.ticket;
      var (g', pc') := Moved(o, s, m);
      && InRange(o, g') && t < g'.accepted && CarriedUnlessBroken(o, Led(s, m.i, g', pc'), t)
      && forall u :: 0 <= u < s.g.accepted && u != t ==> NoPart(o, s.g, s.threads[m.i].pc, u)
  {
    hide Inv, TicketsOk, SlotsOk, ThreadsOk, AllCarried, AllAwakeOk, FailureOk, BudgetOk, Acceptable, TicketOk, ThreadOk, OnlySlot, Quiet, Part;
    var t := s.threads[m.i].pc.ticket;
    var (g', pc') := Moved(o, s, m);
    var threads' := Led(s, m.i, g', pc').threads;
    Known(o, s, m.i, t);
    if !g'.broken || g'.phase[t] >= WRITTEN {
      forall j | 0 <= j < |threads'|
        ensures Part(o, g', j, threads'[j].pc, t)
      {
        MovedPart(o, s, m, j);
      }
    }
  }

  lemma {:induction false} MovingKeeps(o: Settings, s: State, m: Move)
    requires Moving(o, s, m)
    ensures Inv(o, Next(o, s, m))
  {
    AllMoveWell(o, s, m);
    MovedCarried(o, s, m);
    var (g', pc') := Moved(o, s, m);
    hide TicketsOk, SlotsOk, ThreadsOk, AllCarried, AllAwakeOk, FailureOk, BudgetOk, TicketOk, ShiftAt, ThreadOk, CarriedUnlessBroken, NoPart,
         OnlyMoves, OnlySlot;
    AdvanceKeeps(o, s, m.i, g', pc', s.threads[m.i].pc.ticket);
  }

  // ---------------------------------------------------------------- steps that leave tickets and slots alone

  /** Only the budget, the event count and the failure flags may change. */
  ghost predicate SameWork(g: Shared, g': Shared) {
    g' == g.(budget := g'.budget, progress := g'.progress, claimed := g'.claimed, failed := g'.failed,
             stopped := g'.stopped, broken := g'.broken, breaker := g'.breaker, claimer := g'.claimer)
  }

  lemma {:induction false} SameWorkKeeps(o: Settings, g: Shared, g': Shared, i: nat)
    requires TicketsOk(o, g) && SlotsOk(o, g) && SameWork(g, g')
    requires g.progress <= g'.progress
    requires (g.broken ==> g'.broken) && (g.claimed ==> g'.claimed) && (g.failed ==> g'.failed) && (g.stopped ==> g'.stopped)
    ensures TicketsOk(o, g') && SlotsOk(o, g') && Shift(o, g, g', i)
  {
    forall t | 0 <= t < g.accepted
      ensures TicketOk(o, g', t) && ShiftAt(o, g, g', i, t)
    {
      assert TicketOk(o, g, t);
    }
    forall k | 0 <= k < |g.slots|
      ensures SlotOk(o, g', k)
    {
      assert SlotOk(o, g, k);
    }
  }

  /** A thread with no part in any ticket, or stranding its ticket by failing, may go anywhere. */
  lemma {:induction false} SameWorkCarried(o: Settings, s: State, i: nat, g': Shared, pc': Pc)
    requires Inv(o, s) && i < |s.threads| && SameWork(s.g, g') && (s.g.broken ==> g'.broken)
    requires forall u :: 0 <= u < s.g.accepted ==> NoPart(o, s.g, s.threads[i].pc, u) || (g'.broken && s.g.phase[u] < WRITTEN)
    ensures AllCarried(o, Led(s, i, g', pc'))
  {
    var s' := Led(s, i, g', pc');
    assert InRange(o, g');
    forall u | 0 <= u < g'.accepted
      ensures CarriedUnlessBroken(o, s', u)
    {
      assert CarriedUnlessBroken(o, s, u);
      if !g'.broken || g'.phase[u] >= WRITTEN {
        hide TicketsOk, SlotsOk, ThreadsOk, AllCarried, AllAwakeOk, FailureOk, BudgetOk, NoPart, Part;
        forall j | 0 <= j < |s'.threads|
          ensures Part(o, g', j, s'.threads[j].pc, u)
        {
          assert Part(o, s.g, j, s.threads[j].pc, u);
          SameWorkPart(o, s.g, g', j, s.threads[j].pc, u);
          if j == i {
            NoPartKeeps(o, s.g, g', i, s.threads[i].pc, pc', u);
          }
        }
      }
    }
  }

  lemma {:induction false} SameWorkPart(o: Settings, g: Shared, g': Shared, j: nat, pc: Pc, u: nat)
    requires InRange(o, g) && SameWork(g, g') && u < g.accepted
    ensures InRange(o, g') && Part(o, g', j, pc, u) == Part(o, g, j, pc, u)
  {
  }

  /** What a step that leaves tickets and slots alone must show about its own thread. */
  ghost predicate Stays(o: Settings, s: State, i: nat, g': Shared, pc': Pc)
    requires Inv(o, s) && i < |s.threads|
  {
    && SameWork(s.g, g') && s.g.progress <= g'.progress
    && (s.g.broken ==> g'.broken) && (s.g.claimed ==> g'.claimed) && (s.g.failed ==> g'.failed) && (s.g.stopped ==> g'.stopped)
    && (forall u :: 0 <= u < s.g.accepted ==> NoPart(o, s.g, s.threads[i].pc, u) || (g'.broken && s.g.phase[u] < WRITTEN))
    && InRange(o, g') && ThreadOk(o, g', i, s.threads[i].(pc := pc'))
    && !pc'.Look? && !pc'.Wait? && !pc'.Compare?
  }

  lemma {:induction false} StaysKeeps(o: Settings, s: State, i: nat, g': Shared, pc': Pc)
    requires Inv(o, s) && i < |s.threads| && Stays(o, s, i, g', pc')
    requires FailureOk(g', Led(s, i, g', pc').threads)
    requires BudgetOk(o, g', Led(s, i, g', pc').threads)
    requires Awakens(o, s, g', Led(s, i, g', pc').threads)
    ensures Inv(o, Led(s, i, g', pc'))
  {
    hide TicketsOk, SlotsOk, ThreadsOk, AllCarried, AllAwakeOk, FailureOk, BudgetOk, Shift, Awakens, ThreadOk, NoPart, SameWork;
    SameWorkKeeps(o, s.g, g', i);
    SameWorkCarried(o, s, i, g', pc');
    Assemble(o, s, i, g', pc');
  }

  lemma {:induction false} SameWorkUnmet(o: Settings, s: State, g': Shared, threads': seq<Thread>)
    requires InRange(o, s.g) && SameWork(s.g, g') && g'.budget == s.g.budget
    requires g'.progress == s.g.progress && g'.stopped == s.g.stopped
    requires NotifyPending(s.threads) ==> NotifyPending(threads')
    ensures InRange(o, g') && Awakens(o, s, g', threads')
  {
    forall j | 0 <= j < |s.threads|
      ensures UnmetAt(o, s.g, g', s.threads[j].pc)
    {
      SameWorkMet(o, s.g, g', s.threads[j].pc);
    }
  }

  lemma {:induction false} SameWorkMet(o: Settings, g: Shared, g': Shared, pc: Pc)
    requires InRange(o, g) && InRange(o, g') && SameWork(g, g') && g'.budget == g.budget
    ensures UnmetAt(o, g, g', pc)
  {
    if pc.Wait? && pc.goal.Work? && Met(o, g', pc.goal) {
      var u :| WorkAt(o, g', u);
      assert WorkAt(o, g, u);
    }
  }

  ghost predicate Notifies(pc: Pc) {
    pc.PublishNotify? || pc.FinishNotify? || pc.CountNotify? || pc.FailNotify?
  }

  ghost predicate Throwing(o: Settings, s: State, m: Move)
    requires Possible(o, s, m)
  {
    match s.threads[m.i].pc
    case Run(t) => !s.g.slots[SlotOf(o, t)].encode.Yields?
    case Write(t) => m.c.throws
    case _ => false
  }

  /** The steps that notify, throw, or record a failure. */
  ghost predicate Staying(o: Settings, s: State, m: Move)
  {
    && Inv(o, s) && Possible(o, s, m) && !Local(o, s.g, s.threads[m.i].pc, m.c)
    && var pc := s.threads[m.i].pc;
       Notifies(pc) || Throwing(o, s, m) || pc.FailClaim? || pc.FailFlag? || pc.FailStop?
  }

  ghost function Stayed(o: Settings, s: State, m: Move): (Shared, Pc)
    requires Staying(o, s, m)
  {
    SharedStep(o, s.g, m.i, s.threads[m.i].role, s.threads[m.i].pc, m.c)
  }

  lemma {:induction false} NotifyStays(o: Settings, s: State, m: Move)
    requires Staying(o, s, m) && Notifies(s.threads[m.i].pc)
    ensures var (g', pc') := Stayed(o, s, m); Stays(o, s, m.i, g', pc')
  {
    hide Inv, TicketsOk, SlotsOk, ThreadsOk, AllCarried, AllAwakeOk, FailureOk, BudgetOk, Acceptable, AdmitStep, RetireStep, LocalStep, MoveStep,
         FailStep;
    ThreadFact(o, s, m.i);
  }

  lemma {:induction false} ThrowStays(o: Settings, s: State, m: Move)
    requires Staying(o, s, m) && Throwing(o, s, m)
    ensures var (g', pc') := Stayed(o, s, m); Stays(o, s, m.i, g', pc')
  {
    hide Inv, TicketsOk, SlotsOk, ThreadsOk, AllCarried, AllAwakeOk, FailureOk, BudgetOk, Acceptable, AdmitStep, RetireStep, LocalStep, FailStep,
         AfterNotify;
    ThreadFact(o, s, m.i);
  }

  lemma {:induction false} FailStays(o: Settings, s: State, m: Move)
    requires Staying(o, s, m) && (var pc := s.threads[m.i].pc; pc.FailClaim? || pc.FailFlag? || pc.FailStop?)
    ensures var (g', pc') := Stayed(o, s, m); Stays(o, s, m.i, g', pc')
  {
    hide Inv, TicketsOk, SlotsOk, ThreadsOk, AllCarried, AllAwakeOk, FailureOk, BudgetOk, Acceptable, AdmitStep, RetireStep, LocalStep, MoveStep,
         AfterNotify;
    ThreadFact(o, s, m.i);
  }

  lemma {:induction false} StayingStays(o: Settings, s: State, m: Move)
    requires Staying(o, s, m)
    ensures var (g', pc') := Stayed(o, s, m); Stays(o, s, m.i, g', pc')
  {
    hide Inv, Stays, Stayed;
    var pc := s.threads[m.i].pc;
    if Notifies(pc) {
      NotifyStays(o, s, m);
    } else if Throwing(o, s, m) {
      ThrowStays(o, s, m);
    } else {
      FailStays(o, s, m);
    }
  }

  lemma {:induction false} StayingFailure(o: Settings, s: State, m: Move)
    requires Staying(o, s, m)
    ensures var (g', pc') := Stayed(o, s, m); FailureOk(g', Led(s, m.i, g', pc').threads)
  {
    hide Inv, TicketsOk, SlotsOk, ThreadsOk, AllCarried, AllAwakeOk, BudgetOk, Acceptable, AdmitStep, RetireStep;
    ThreadFact(o, s, m.i);
  }

  /** What these steps change of the numbers, and whether a notification follows. */
  lemma {:induction false} StayingNumbers(o: Settings, s: State, m: Move)
    requires Staying(o, s, m)
    ensures var (g', pc') := Stayed(o, s, m);
      && g'.budget == s.g.budget && g'.accepted == s.g.accepted && g'.released == s.g.released && g'.jobs == s.g.jobs
      && !s.threads[m.i].pc.Take? && !pc'.Take?
      && (g'.progress > s.g.progress || WillNotify(pc') ||
           (!WillNotify(s.threads[m.i].pc) && g'.progress == s.g.progress && g'.stopped == s.g.stopped))
  {
    hide Inv, AdmitStep, RetireStep;
  }

  lemma {:induction false} StayingKeeps(o: Settings, s: State, m: Move)
    requires Staying(o, s, m)
    ensures Inv(o, Next(o, s, m))
  {
    var (g', pc') := Stayed(o, s, m);
    var th' := s.threads[m.i].(pc := pc');
    StayingStays(o, s, m);
    StayingFailure(o, s, m);
    StayingNumbers(o, s, m);
    hide TicketsOk, SlotsOk, ThreadsOk, AllCarried, AllAwakeOk, FailureOk, BudgetOk, Acceptable, ThreadOk, NoPart, Notifies, Throwing;
    BudgetKeeps(o, s, m.i, g', th');
    if WillNotify(pc') {
      assert WillNotify(s.threads[m.i := th'][m.i].pc);
    } else if g'.progress == s.g.progress {
      PendingKeeps(s.threads, m.i, th');
      SameWorkUnmet(o, s, g', s.threads[m.i := th']);
    }
    StaysKeeps(o, s, m.i, g', pc');
  }

  // ---------------------------------------------------------------- the packed budget word

  lemma {:induction false} Unpacked(jobs: nat, bytes: nat)
    requires bytes <= BYTE_MASK
    ensures (jobs * COUNT_UNIT + bytes) / COUNT_UNIT == jobs && (jobs * COUNT_UNIT + bytes) % COUNT_UNIT == bytes
  {
  }

  /** An admitted reservation leaves the word packed and the limits kept. */
  lemma {:induction false} AdmitPacks(o: Settings, budget: int, jobs: int, bytes: int, charge: int)
    requires Acceptable(o) && Packs(o, budget, jobs, bytes) && 0 < charge <= BYTE_MASK && Fits(o, budget, charge)
    ensures Packs(o, budget + COUNT_UNIT + charge, jobs + 1, bytes + charge)
  {
    Unpacked(jobs, bytes);
  }

  /** Reserving never makes room for a job that did not fit before. */
  lemma {:induction false} AdmitShrinks(o: Settings, budget: int, jobs: int, bytes: int, charge: int, other: int)
    requires Acceptable(o) && Packs(o, budget, jobs, bytes) && 0 < charge <= BYTE_MASK && Fits(o, budget, charge)
    requires Fits(o, budget + COUNT_UNIT + charge, other)
    ensures Fits(o, budget, other)
  {
    AdmitPacks(o, budget, jobs, bytes, charge);
    Unpacked(jobs, bytes);
    Unpacked(jobs + 1, bytes + charge);
  }

  lemma {:induction false} ChargesOfAppend(jobs: seq<Job>, job: Job)
    ensures Charges(jobs + [job]) == Charges(jobs) + job.charge
  {
    if jobs != [] {
      assert (jobs + [job])[1..] == jobs[1..] + [job];
      ChargesOfAppend(jobs[1..], job);
    }
  }

  lemma {:induction false} HeldPositive(threads: seq<Thread>, i: nat)
    requires i < |threads| && threads[i].pc.Take?
    ensures HeldCount(threads) >= 1
  {
    if i > 0 {
      HeldPositive(threads[1..], i - 1);
    }
  }

  // ---------------------------------------------------------------- reserving

  lemma {:induction false} ReserveStays(o: Settings, s: State, m: Move)
    requires Inv(o, s) && Possible(o, s, m) && s.threads[m.i].pc.Reserve? && !Local(o, s.g, s.threads[m.i].pc, m.c)
    ensures var (g', pc') := SharedStep(o, s.g, m.i, s.threads[m.i].role, s.threads[m.i].pc, m.c);
      && Stays(o, s, m.i, g', pc') && FailureOk(g', Led(s, m.i, g', pc').threads)
  {
    hide Inv, TicketsOk, SlotsOk, ThreadsOk, AllCarried, AllAwakeOk, Acceptable, CarriedUnlessBroken, MoveStep, FailStep, AfterNotify, LocalStep;
    ThreadFact(o, s, m.i);
  }

  lemma {:induction false} ReserveUnmet(o: Settings, s: State, m: Move, g': Shared, pc': Pc)
    requires Inv(o, s) && m.i < |s.threads| && s.threads[m.i].pc.Reserve? && pc'.Take?
    requires var job := s.threads[m.i].pc.job;
      Fits(o, s.g.budget, job.charge) && Submittable(job) && g' == s.g.(budget := s.g.budget + COUNT_UNIT + job.charge)
    ensures InRange(o, g') && Awakens(o, s, g', Led(s, m.i, g', pc').threads)
  {
    var threads' := Led(s, m.i, g', pc').threads;
    PendingKeeps(s.threads, m.i, threads'[m.i]);
    forall j | 0 <= j < |s.threads|
      ensures UnmetAt(o, s.g, g', s.threads[j].pc)
    {
      var pc := s.threads[j].pc;
      if pc.Wait? && Met(o, g', pc.goal) {
        if pc.goal.Room? {
          AdmitShrinks(o, s.g.budget, InFlight(s.g, s.threads), BytesInFlight(s.g, s.threads),
                       s.threads[m.i].pc.job.charge, pc.goal.job.charge);
        } else if pc.goal.Work? {
          var u :| WorkAt(o, g', u);
          assert WorkAt(o, s.g, u);
        }
      }
    }
  }

  lemma {:induction false} ReserveKeeps(o: Settings, s: State, m: Move)
    requires Inv(o, s) && Possible(o, s, m) && s.threads[m.i].pc.Reserve? && !Local(o, s.g, s.threads[m.i].pc, m.c)
    ensures Inv(o, Next(o, s, m))
  {
    hide TicketsOk, SlotsOk, ThreadsOk, AllCarried, AllAwakeOk, CarriedUnlessBroken, MoveStep, RetireStep, FailStep, AfterNotify, LocalStep, Stays,
         Awakens, FailureOk, Packs, TakeTicket;
    var th := s.threads[m.i];
    var (g', pc') := SharedStep(o, s.g, m.i, th.role, th.pc, m.c);
    ThreadFact(o, s, m.i);
    ReserveStays(o, s, m);
    ReserveUnmet(o, s, m, g', pc');
    HeldUpdate(s.threads, m.i, th.(pc := pc'));
    AdmitPacks(o, s.g.budget, InFlight(s.g, s.threads), BytesInFlight(s.g, s.threads), th.pc.job.charge);
    StaysKeeps(o, s, m.i, g', pc');
  }

  // ---------------------------------------------------------------- taking a ticket

  lemma {:induction false} TakeTickets(o: Settings, g: Shared, i: nat, job: Job)
    requires TicketsOk(o, g) && SlotsOk(o, g) && Submittable(job) && g.accepted - g.released < o.jobs
    ensures var g' := TakeTicket(o, g, i, job);
      && TicketsOk(o, g') && SlotsOk(o, g') && Shift(o, g, g', i)
  {
    var g' := TakeTicket(o, g, i, job);
    var t, k := g.accepted, SlotOf(o, g.accepted);
    assert InRange(o, g');
    assert SlotOk(o, g, k);
    if g.holder[k].Some? {
      var u := g.holder[k].value;
      if u < g.accepted {
        assert TicketOk(o, g, u);
        SlotsDiffer(o, u, t);
      }
    }
    forall u | 0 <= u < g'.accepted
      ensures TicketOk(o, g', u)
      ensures u < g.accepted ==> ShiftAt(o, g, g', i, u)
    {
      if u < g.accepted {
        assert TicketOk(o, g, u);
        if g.phase[u] < VACATED {
          SlotsDiffer(o, u, t);
        }
      }
    }
    forall j | 0 <= j < |g'.slots|
      ensures SlotOk(o, g', j)
    {
      assert SlotOk(o, g, j);
    }
  }

  lemma {:induction false} TakeCarried(o: Settings, s: State, i: nat)
    requires Inv(o, s) && i < |s.threads| && s.threads[i].pc.Take?
    requires Shift(o, s.g, TakeTicket(o, s.g, i, s.threads[i].pc.job), i)
    ensures var job := s.threads[i].pc.job;
      AllCarried(o, Led(s, i, TakeTicket(o, s.g, i, job), Snap(EmptySlot(job, s.g.accepted))))
  {
    var job := s.threads[i].pc.job;
    var g', pc' := TakeTicket(o, s.g, i, job), Snap(EmptySlot(job, s.g.accepted));
    var s' := Led(s, i, g', pc');
    forall u | 0 <= u < g'.accepted
      ensures CarriedUnlessBroken(o, s', u)
    {
      if u < s.g.accepted {
        assert CarriedUnlessBroken(o, s, u);
        if !g'.broken || g'.phase[u] >= WRITTEN {
          PartOf(o, s, i, u);
          TakePart(o, s.g, g', i, job, pc', u);
          CarriedKeeps(o, s, i, g', s'.threads[i], u);
        }
      }
    }
  }

  lemma {:induction false} TakePart(o: Settings, g: Shared, g': Shared, i: nat, job: Job, pc': Pc, u: nat)
    requires InRange(o, g) && u < g.accepted && g' == TakeTicket(o, g, i, job)
    requires Part(o, g, i, Take(job), u)
    ensures InRange(o, g') && Part(o, g', i, pc', u)
  {
  }

  lemma {:induction false} TakeUnmet(o: Settings, s: State, i: nat)
    requires Inv(o, s) && i < |s.threads| && s.threads[i].pc.Take?
    ensures var job := s.threads[i].pc.job;
      var g', pc' := TakeTicket(o, s.g, i, job), Snap(EmptySlot(job, s.g.accepted));
      InRange(o, g') && Awakens(o, s, g', Led(s, i, g', pc').threads)
  {
    var job := s.threads[i].pc.job;
    var g', pc' := TakeTicket(o, s.g, i, job), Snap(EmptySlot(job, s.g.accepted));
    var threads' := Led(s, i, g', pc').threads;
    PendingKeeps(s.threads, i, threads'[i]);
    forall j | 0 <= j < |s.threads|
      ensures UnmetAt(o, s.g, g', s.threads[j].pc)
    {
      assert ThreadOk(o, s.g, j, s.threads[j]);
      var pc := s.threads[j].pc;
      if pc.Wait? && pc.goal.Work? && Met(o, g', pc.goal) {
        var u :| WorkAt(o, g', u);
        assert WorkAt(o, s.g, u);
      }
    }
  }

  lemma {:induction false} TakeBudget(o: Settings, s: State, i: nat)
    requires Inv(o, s) && i < |s.threads| && s.threads[i].pc.Take?
    ensures s.g.accepted - s.g.released < o.jobs
    ensures var job := s.threads[i].pc.job;
      var g', pc' := TakeTicket(o, s.g, i, job), Snap(EmptySlot(job, s.g.accepted));
      BudgetOk(o, g', Led(s, i, g', pc').threads)
  {
    var job := s.threads[i].pc.job;
    HeldPositive(s.threads, i);
    HeldUpdate(s.threads, i, s.threads[i].(pc := Snap(EmptySlot(job, s.g.accepted))));
    ChargesOfAppend(s.g.jobs[s.g.released..], job);
    assert (s.g.jobs + [job])[s.g.released..] == s.g.jobs[s.g.released..] + [job];
  }

  lemma {:induction false} TakeKeeps(o: Settings, s: State, m: Move)
    requires Inv(o, s) && Possible(o, s, m) && s.threads[m.i].pc.Take?
    ensures Inv(o, Next(o, s, m))
  {
    hide TicketsOk, SlotsOk, ThreadsOk, AllCarried, AllAwakeOk, CarriedUnlessBroken, MoveStep, RetireStep, FailStep, AfterNotify, LocalStep,
         Awakens, FailureOk, BudgetOk, Shift;
    var th := s.threads[m.i];
    var (g', pc') := SharedStep(o, s.g, m.i, th.role, th.pc, m.c);
    ThreadFact(o, s, m.i);
    TakeBudget(o, s, m.i);
    TakeTickets(o, s.g, m.i, th.pc.job);
    TakeCarried(o, s, m.i);
    TakeUnmet(o, s, m.i);
    FailureKeeps(s.g, g', s.threads, m.i, th.(pc := pc'));
    Assemble(o, s, m.i, g', pc');
  }

  // ---------------------------------------------------------------- claiming a ticket

  ghost function ClaimTicket(g: Shared, i: nat, t: nat): Shared
    requires t < |g.encoder|
  {
    g.(nextEncode := t + 1, encoder := g.encoder[t := Some(i)])
  }

  lemma {:induction false} ClaimTickets(o: Settings, g: Shared, i: nat, t: nat)
    requires TicketsOk(o, g) && SlotsOk(o, g) && o.workers > 0 && t == g.nextEncode < g.accepted
    ensures var g' := ClaimTicket(g, i, t);
      && TicketsOk(o, g') && SlotsOk(o, g') && Shift(o, g, g', i) && g'.phase[t] <= QUEUED && g.encoder[t].None?
  {
    var g' := ClaimTicket(g, i, t);
    forall u | 0 <= u < g.accepted
      ensures TicketOk(o, g', u) && ShiftAt(o, g, g', i, u)
    {
      assert TicketOk(o, g, u);
    }
    assert TicketOk(o, g, t);
    forall j | 0 <= j < |g'.slots|
      ensures SlotOk(o, g', j)
    {
      assert SlotOk(o, g, j);
    }
  }

  lemma {:induction false} ClaimPart(o: Settings, g: Shared, i: nat, t: nat, j: nat, pc: Pc, pc': Pc, u: nat)
    requires InRange(o, g) && o.workers > 0 && t == g.nextEncode < g.accepted && u < g.accepted
    requires g.encoder[t].None? && g.phase[t] <= QUEUED
    requires Part(o, g, j, pc, u)
    requires if j == i then pc == Claim(t) && pc' == Snap(QueuedSlot(t)) else pc' == pc
    ensures var g' := ClaimTicket(g, i, t); InRange(o, g') && Part(o, g', j, pc', u)
  {
  }

  lemma {:induction false} ClaimCarried(o: Settings, s: State, i: nat, t: nat)
    requires Inv(o, s) && i < |s.threads| && s.threads[i].pc == Claim(t)
    requires o.workers > 0 && t == s.g.nextEncode < s.g.accepted && s.g.encoder[t].None? && s.g.phase[t] <= QUEUED
    ensures AllCarried(o, Led(s, i, ClaimTicket(s.g, i, t), Snap(QueuedSlot(t))))
  {
    var g', pc' := ClaimTicket(s.g, i, t), Snap(QueuedSlot(t));
    var s' := Led(s, i, g', pc');
    forall u | 0 <= u < g'.accepted
      ensures CarriedUnlessBroken(o, s', u)
    {
      assert CarriedUnlessBroken(o, s, u);
      if !g'.broken || g'.phase[u] >= WRITTEN {
        forall j | 0 <= j < |s'.threads|
          ensures Part(o, g', j, s'.threads[j].pc, u)
        {
          PartOf(o, s, j, u);
          ClaimPart(o, s.g, i, t, j, s.threads[j].pc, s'.threads[j].pc, u);
        }
      }
    }
  }

  lemma {:induction false} ClaimUnmet(o: Settings, s: State, i: nat, t: nat)
    requires Inv(o, s) && i < |s.threads| && s.threads[i].pc == Claim(t) && t == s.g.nextEncode < s.g.accepted
    ensures var g', pc' := ClaimTicket(s.g, i, t), Snap(QueuedSlot(t));
      InRange(o, g') && Awakens(o, s, g', Led(s, i, g', pc').threads)
  {
    var g', pc' := ClaimTicket(s.g, i, t), Snap(QueuedSlot(t));
    var threads' := Led(s, i, g', pc').threads;
    PendingKeeps(s.threads, i, threads'[i]);
    forall j | 0 <= j < |s.threads|
      ensures UnmetAt(o, s.g, g', s.threads[j].pc)
    {
      var pc := s.threads[j].pc;
      if pc.Wait? && pc.goal.Work? && Met(o, g', pc.goal) {
        var u :| WorkAt(o, g', u);
        assert WorkAt(o, s.g, u);
      }
    }
  }

  lemma {:induction false} ClaimKeeps(o: Settings, s: State, m: Move)
    requires Inv(o, s) && Possible(o, s, m) && s.threads[m.i].pc.Claim? && !Local(o, s.g, s.threads[m.i].pc, m.c)
    ensures Inv(o, Next(o, s, m))
  {
    hide TicketsOk, SlotsOk, ThreadsOk, AllCarried, AllAwakeOk, CarriedUnlessBroken, MoveStep, RetireStep, FailStep, AfterNotify, LocalStep,
         Awakens, FailureOk, BudgetOk, Shift;
    var th := s.threads[m.i];
    var t := th.pc.ticket;
    var (g', pc') := SharedStep(o, s.g, m.i, th.role, th.pc, m.c);
    ThreadFact(o, s, m.i);
    ClaimTickets(o, s.g, m.i, t);
    ClaimCarried(o, s, m.i, t);
    ClaimUnmet(o, s, m.i, t);
    FailureKeeps(s.g, g', s.threads, m.i, th.(pc := pc'));
    BudgetKeeps(o, s, m.i, g', th.(pc := pc'));
    Assemble(o, s, m.i, g', pc');
  }

  // ---------------------------------------------------------------- vacating, releasing, counting

  ghost predicate Retiring(o: Settings, s: State, m: Move) {
    && Inv(o, s) && Possible(o, s, m)
    && (s.threads[m.i].pc.Vacate? || s.threads[m.i].pc.Release? || s.threads[m.i].pc.Count?)
  }

  ghost function Retired(o: Settings, s: State, m: Move): (Shared, Pc)
    requires Retiring(o, s, m)
  {
    RetireStep(o, s.g, s.threads[m.i].pc)
  }

  lemma {:induction false} VacateTickets(o: Settings, s: State, m: Move)
    requires Retiring(o, s, m) && s.threads[m.i].pc.Vacate?
    ensures var g' := Retired(o, s, m).0; TicketsOk(o, g') && SlotsOk(o, g')
  {
    hide ThreadsOk, AllCarried, AllAwakeOk, BudgetOk, FailureOk, TicketOk, SlotOk;
    var g' := Retired(o, s, m).0;
    var t := s.threads[m.i].pc.ticket;
    Known(o, s, m.i, t);
    forall u | 0 <= u < g'.accepted
      ensures TicketOk(o, g', u)
    {
      VacateTicket(o, s.g, t, u);
    }
    forall k | 0 <= k < |g'.slots|
      ensures SlotOk(o, g', k)
    {
      VacateSlot(o, s.g, t, k);
    }
  }

  lemma {:induction false} VacateTicket(o: Settings, g: Shared, t: nat, u: nat)
    requires InRange(o, g) && t < g.accepted && u < g.accepted && TicketOk(o, g, t) && TicketOk(o, g, u) && g.phase[t] == WRITTEN
    ensures var g' := RetireStep(o, g, Vacate(t)).0; InRange(o, g') && TicketOk(o, g', u)
  {
    hide Submittable, SlotHolds;
    assert u != t && g.phase[u] < VACATED ==> SlotOf(o, u) != SlotOf(o, t);
  }

  lemma {:induction false} VacateSlot(o: Settings, g: Shared, t: nat, k: nat)
    requires InRange(o, g) && t < g.accepted && k < |g.slots| && TicketOk(o, g, t) && SlotOk(o, g, k) && g.phase[t] == WRITTEN
    ensures var g' := RetireStep(o, g, Vacate(t)).0; InRange(o, g') && SlotOk(o, g', k)
  {
    hide Submittable, SlotHolds;
  }

  lemma {:induction false} LateTickets(o: Settings, s: State, m: Move)
    requires Retiring(o, s, m) && !s.threads[m.i].pc.Vacate?
    ensures var g' := Retired(o, s, m).0; TicketsOk(o, g') && SlotsOk(o, g')
    ensures s.threads[m.i].pc.Release? ==> s.g.released == s.threads[m.i].pc.ticket
  {
    var g' := Retired(o, s, m).0;
    var t := s.threads[m.i].pc.ticket;
    assert ThreadOk(o, s.g, m.i, s.threads[m.i]);
    assert TicketOk(o, s.g, t);
    forall u | 0 <= u < g'.accepted
      ensures TicketOk(o, g', u)
    {
      assert TicketOk(o, s.g, u);
    }
    forall k | 0 <= k < |g'.slots|
      ensures SlotOk(o, g', k)
    {
      assert SlotOk(o, s.g, k);
    }
  }

  /** The shared state after a retiring step, as far as the other tickets and threads are concerned. */
  ghost predicate RetiresTicket(o: Settings, s: State, m: Move)
    requires Retiring(o, s, m)
  {
    var t := s.threads[m.i].pc.ticket;
    var g' := Retired(o, s, m).0;
    && InRange(o, g') && OnlyMoves(s.g, g', t) && t < s.g.accepted && ShiftAt(o, s.g, g', m.i, t)
    && (g'.written == s.g.written || (t == s.g.written && WriterOf(o, s.g, t) == m.i))
    && g'.progress == s.g.progress && SameFailure(s.g, g')
  }

  ghost predicate RetiresThread(o: Settings, s: State, m: Move)
    requires Retiring(o, s, m)
  {
    var th := s.threads[m.i];
    var (g', pc') := Retired(o, s, m);
    && InRange(o, g') && ThreadOk(o, g', m.i, th.(pc := pc'))
    && (if th.pc.Vacate? then !WillNotify(th.pc) else WillNotify(pc'))
    && !th.pc.Take? && !th.pc.FailClaim? && !th.pc.FailFlag? && !th.pc.FailStop?
    && !pc'.Look? && !pc'.Wait? && !pc'.Compare? && !pc'.Take?
  }

  /** What a retiring step does to the shared state, whatever else holds. */
  lemma {:induction false} RetireMoves(o: Settings, g: Shared, pc: Pc)
    requires InRange(o, g) && Named(g, pc) && (pc.Vacate? || pc.Release? || pc.Count?)
    ensures var g' := RetireStep(o, g, pc).0;
      && InRange(o, g') && OnlyMoves(g, g', pc.ticket) && pc.ticket < g.accepted
      && g'.encoder == g.encoder && g'.progress == g.progress && SameFailure(g, g')
      && g'.written == (if pc.Count? then g.written + 1 else g.written)
  {
  }

  lemma {:induction false} RetiringTicket(o: Settings, s: State, m: Move)
    requires Retiring(o, s, m)
    ensures RetiresTicket(o, s, m)
  {
    hide Inv, RetireStep, OnlyMoves, SameFailure, FailureOk, BudgetOk, TicketOk, CarriedUnlessBroken, ThreadOk, ShiftAt;
    Known(o, s, m.i, s.threads[m.i].pc.ticket);
    RetireMoves(o, s.g, s.threads[m.i].pc);
    RetiringShifts(o, s.g, Retired(o, s, m).0, m.i, s.threads[m.i]);
  }

  lemma {:induction false} RetiringShifts(o: Settings, g: Shared, g': Shared, i: nat, th: Thread)
    requires InRange(o, g) && InRange(o, g') && ThreadOk(o, g, i, th) && (th.pc.Vacate? || th.pc.Release? || th.pc.Count?)
    requires OnlyMoves(g, g', th.pc.ticket) && g'.encoder == g.encoder
    ensures th.pc.ticket == g.written && WriterOf(o, g, g.written) == i && ShiftAt(o, g, g', i, th.pc.ticket)
  {
  }

  lemma {:induction false} RetiringThread(o: Settings, s: State, m: Move)
    requires Retiring(o, s, m)
    ensures RetiresThread(o, s, m)
  {
    hide Inv, RetireStep, TicketOk, ThreadOk, ShiftAt, OnlyMoves, FailureOk, BudgetOk, CarriedUnlessBroken;
    Known(o, s, m.i, s.threads[m.i].pc.ticket);
    RetireMoves(o, s.g, s.threads[m.i].pc);
    RetireStands(o, s.g, m.i, s.threads[m.i]);
  }

  /** Where a retiring step leads, and that the thread may stand there. */
  lemma {:induction false} RetireStands(o: Settings, g: Shared, i: nat, th: Thread)
    requires InRange(o, g) && ThreadOk(o, g, i, th) && (th.pc.Vacate? || th.pc.Release? || th.pc.Count?)
    requires TicketOk(o, g, th.pc.ticket)
    ensures Named(g, th.pc)
    ensures var (g', pc') := RetireStep(o, g, th.pc);
      && InRange(o, g') && ThreadOk(o, g', i, th.(pc := pc'))
      && pc' == match th.pc case Vacate(t) => Release(t, g.jobs[t].charge) case Release(t, _) => Count(t) case _ => CountNotify
  {
  }

  lemma {:induction false} RetiredShift(o: Settings, s: State, m: Move)
    requires Retiring(o, s, m)
    ensures Shift(o, s.g, Retired(o, s, m).0, m.i)
  {
    hide Inv, ThreadOk, RetireStep;
    RetiringTicket(o, s, m);
    var g' := Retired(o, s, m).0;
    forall u | 0 <= u < s.g.accepted
      ensures ShiftAt(o, s.g, g', m.i, u)
    {
    }
  }

  lemma {:induction false} RetiredPart(o: Settings, s: State, m: Move, j: nat)
    requires Retiring(o, s, m) && j < |s.threads|
    ensures var t := s.threads[m.i].pc.ticket;
      var (g', pc') := Retired(o, s, m);
      InRange(o, g') && t < g'.accepted && Part(o, g', j, Led(s, m.i, g', pc').threads[j].pc, t)
  {
    hide Inv, TicketsOk, SlotsOk, ThreadsOk, AllCarried, AllAwakeOk, Acceptable, CarriedUnlessBroken, MoveStep, FailStep, AfterNotify, LocalStep,
         AdmitStep;
    Known(o, s, m.i, s.threads[m.i].pc.ticket);
    PartOf(o, s, j, s.threads[m.i].pc.ticket);
  }

  lemma {:induction false} RetiredIndexed(o: Settings, s: State, m: Move)
    requires Retiring(o, s, m)
    ensures var t := s.threads[m.i].pc.ticket;
      var g' := Retired(o, s, m).0;
      InRange(o, g') && t < g'.accepted == s.g.accepted && Indexed(o, g', |s.threads|, t)
  {
    hide Inv, RetireStep, TicketOk, ThreadOk, SameFailure, FailureOk, BudgetOk;
    Known(o, s, m.i, s.threads[m.i].pc.ticket);
    RetireMoves(o, s.g, s.threads[m.i].pc);
  }

  lemma {:induction false} RetiredCarried(o: Settings, s: State, m: Move)
    requires Retiring(o, s, m)
    ensures var (g', pc') := Retired(o, s, m);
      InRange(o, g') && AllCarried(o, Led(s, m.i, g', pc'))
  {
    hide TicketsOk, SlotsOk, ThreadsOk, AllCarried, AllAwakeOk, Acceptable, RetireStep, Shift, Part, BudgetOk, FailureOk, ThreadOk, Indexed;
    var t := s.threads[m.i].pc.ticket;
    var (g', pc') := Retired(o, s, m);
    var s' := Led(s, m.i, g', pc');
    RetiringTicket(o, s, m);
    RetiredShift(o, s, m);
    RetiredIndexed(o, s, m);
    forall j | 0 <= j < |s'.threads|
      ensures Part(o, g', j, s'.threads[j].pc, t)
    {
      RetiredPart(o, s, m, j);
    }
    assert CarriedUnlessBroken(o, s', t);
    RetiringAlone(o, s, m);
    MoveCarried(o, s, m.i, g', pc', t);
  }

  lemma {:induction false} RetiringAlone(o: Settings, s: State, m: Move)
    requires Retiring(o, s, m)
    ensures forall u :: 0 <= u < s.g.accepted && u != s.threads[m.i].pc.ticket ==> NoPart(o, s.g, s.threads[m.i].pc, u)
  {
  }

  lemma {:induction false} VacateUnmet(o: Settings, s: State, m: Move)
    requires Retiring(o, s, m) && s.threads[m.i].pc.Vacate?
    ensures var (g', pc') := Retired(o, s, m);
      InRange(o, g') && Awakens(o, s, g', Led(s, m.i, g', pc').threads)
  {
    hide TicketsOk, SlotsOk, AllCarried, AllAwakeOk, Acceptable, BudgetOk, FailureOk;
    Known(o, s, m.i, s.threads[m.i].pc.ticket);
    var (g', pc') := Retired(o, s, m);
    AdvanceUnmet(o, s, m.i, g', pc', s.threads[m.i].pc.ticket);
  }

  lemma {:induction false} ReleaseBudget(o: Settings, s: State, m: Move)
    requires Retiring(o, s, m) && s.threads[m.i].pc.Release?
    ensures var (g', pc') := Retired(o, s, m);
      g'.released <= |g'.jobs| && BudgetOk(o, g', Led(s, m.i, g', pc').threads)
  {
    var (g', pc') := Retired(o, s, m);
    LateTickets(o, s, m);
    ThreadFact(o, s, m.i);
    HeldUpdate(s.threads, m.i, s.threads[m.i].(pc := pc'));
    var rest := s.g.jobs[s.g.released..];
    assert rest[1..] == s.g.jobs[g'.released..];
    var threads' := Led(s, m.i, g', pc').threads;
    assert TicketOk(o, s.g, s.g.released);
    forall k | 0 <= k < |g'.jobs|
      ensures g'.jobs[k].charge >= 0
    {
      assert TicketOk(o, s.g, k);
    }
    forall j | 0 <= j < |threads'| && threads'[j].pc.Take?
      ensures threads'[j].pc.job.charge >= 0
    {
      assert ThreadOk(o, s.g, j, s.threads[j]);
    }
    NothingHeld(g', threads');
  }

  /** With nothing in flight no bytes are in flight. */
  lemma {:induction false} NothingHeld(g': Shared, threads: seq<Thread>)
    requires g'.released <= |g'.jobs| == g'.accepted
    requires forall k :: 0 <= k < |g'.jobs| ==> g'.jobs[k].charge >= 0
    requires forall j :: 0 <= j < |threads| && threads[j].pc.Take? ==> threads[j].pc.job.charge >= 0
    ensures BytesInFlight(g', threads) >= 0
    ensures InFlight(g', threads) == 0 ==> BytesInFlight(g', threads) == 0
  {
    ChargesNonNegative(g'.jobs[g'.released..]);
    HeldNonNegative(threads);
  }

  lemma {:induction false} ChargesNonNegative(jobs: seq<Job>)
    requires forall k :: 0 <= k < |jobs| ==> jobs[k].charge >= 0
    ensures Charges(jobs) >= 0
  {
    if jobs != [] {
      ChargesNonNegative(jobs[1..]);
    }
  }

  lemma {:induction false} HeldNonNegative(threads: seq<Thread>)
    requires forall j :: 0 <= j < |threads| && threads[j].pc.Take? ==> threads[j].pc.job.charge >= 0
    ensures HeldCharge(threads) >= 0 && (HeldCount(threads) == 0 ==> HeldCharge(threads) == 0)
  {
    if threads != [] {
      HeldNonNegative(threads[1..]);
    }
  }

  lemma {:induction false} RetiredBudget(o: Settings, s: State, m: Move)
    requires Retiring(o, s, m)
    ensures var (g', pc') := Retired(o, s, m);
      g'.released <= |g'.jobs| && BudgetOk(o, g', Led(s, m.i, g', pc').threads)
  {
    hide Inv, BudgetOk;
    var (g', pc') := Retired(o, s, m);
    if s.threads[m.i].pc.Release? {
      ReleaseBudget(o, s, m);
    } else {
      ThreadFact(o, s, m.i);
      BudgetKeeps(o, s, m.i, g', s.threads[m.i].(pc := pc'));
    }
  }

  lemma {:induction false} RetiredAwakens(o: Settings, s: State, m: Move)
    requires Retiring(o, s, m)
    ensures var (g', pc') := Retired(o, s, m);
      InRange(o, g') && Awakens(o, s, g', Led(s, m.i, g', pc').threads)
  {
    hide Inv, Unmet, ThreadOk, RetireStep;
    var (g', pc') := Retired(o, s, m);
    RetiringThread(o, s, m);
    if s.threads[m.i].pc.Vacate? {
      VacateUnmet(o, s, m);
    } else {
      assert WillNotify(Led(s, m.i, g', pc').threads[m.i].pc);
    }
  }

  lemma {:induction false} RetiringKeeps(o: Settings, s: State, m: Move)
    requires Retiring(o, s, m)
    ensures Inv(o, Next(o, s, m))
  {
    hide TicketsOk, SlotsOk, ThreadsOk, AllCarried, AllAwakeOk, FailureOk, BudgetOk, Shift, ThreadOk, Awakens, Acceptable, RetireStep, OnlyMoves,
         ShiftAt;
    var th := s.threads[m.i];
    var (g', pc') := Retired(o, s, m);
    if th.pc.Vacate? {
      VacateTickets(o, s, m);
    } else {
      LateTickets(o, s, m);
    }
    RetiredShift(o, s, m);
    RetiringTicket(o, s, m);
    RetiringThread(o, s, m);
    RetiredCarried(o, s, m);
    RetiredAwakens(o, s, m);
    ThreadFact(o, s, m.i);
    FailureKeeps(s.g, g', s.threads, m.i, th.(pc := pc'));
    RetiredBudget(o, s, m);
    Assemble(o, s, m.i, g', pc');
  }

  // ---------------------------------------------------------------- every step

  lemma {:induction false} StepKeeps(o: Settings, s: State, m: Move)
    requires Inv(o, s) && Possible(o, s, m)
    ensures Inv(o, Next(o, s, m))
  {
    hide Inv, SharedStep, LocalStep, AdmitStep, MoveStep, RetireStep, FailStep, AfterNotify, Next;
    var pc := s.threads[m.i].pc;
    if Local(o, s.g, pc, m.c) {
      LocalKeeps(o, s, m);
    } else if pc.Reserve? {
      ReserveKeeps(o, s, m);
    } else if pc.Take? {
      TakeKeeps(o, s, m);
    } else if pc.Claim? {
      ClaimKeeps(o, s, m);
    } else if pc.Vacate? || pc.Release? || pc.Count? {
      RetiringKeeps(o, s, m);
    } else if Staying(o, s, m) {
      StayingKeeps(o, s, m);
    } else {
      MovingKeeps(o, s, m);
    }
  }
}
