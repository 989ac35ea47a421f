/** Budgets: what a thread is charged between two resets of its budget. */
module SchedBudget {
  import opened SchedSpec
  import opened SchedCore
  import opened SchedLaws
  import opened SchedRuns
  import opened SchedTime

  /** Something is ready to take over at the end of this tick. */
  ghost predicate Contended<T>(s: Sched<T>) {
    s.ready != [] || exists u | u in s.waiting :: Due(s, u)
  }

  /** The running thread's next tick ends a full quantum but not its budget. */
  ghost predicate EndsQuantum<T>(s: Sched<T>) {
    Elapsed(s) + 1 == 100 < Get(s, s.curr).budget
  }

  /** Only the timer takes the processor from `t`, its budget is not set, and another thread is ready whenever
      its quantum ends. */
  ghost predicate TimerOnly<T>(s: Sched<T>, e: Event<T>, t: T) {
    && !(e.BudgetCall? && e.thread == t)
    && (s.curr == t ==>
        && !e.Reschedule? && !e.SleepCall? && !e.YieldCall? && !e.BlockCall?
        && (e.TimerTick? && EndsQuantum(s) ==> Contended(s)))
  }

  ghost predicate TimerOnlyRun<T>(s: Sched<T>, es: seq<Event<T>>, t: T)
    decreases |es|
  {
    es == [] || (TimerOnly(s, es[0], t) && TimerOnlyRun(Step(s, es[0]), es[1..], t))
  }

  /** Timer ticks that found `t` running. */
  ghost function Charged<T>(s: Sched<T>, es: seq<Event<T>>, t: T): nat
    decreases |es|
  {
    if es == [] then 0 else ChargedNow(s, es[0], t) + Charged(Step(s, es[0]), es[1..], t)
  }

  ghost function ChargedNow<T>(s: Sched<T>, e: Event<T>, t: T): nat {
    if e.TimerTick? && s.curr == t then 1 else 0
  }

  /** How often `t` was given the processor. */
  ghost function Dispatches<T>(s: Sched<T>, es: seq<Event<T>>, t: T): nat
    decreases |es|
  {
    if es == [] then 0 else DispatchedNow(s, Step(s, es[0]), t) + Dispatches(Step(s, es[0]), es[1..], t)
  }

  ghost function DispatchedNow<T>(s: Sched<T>, r: Sched<T>, t: T): nat {
    if s.curr != t && r.curr == t then 1 else 0
  }

  /** The block of a thread that a switch preempts. The quantum is subtracted only if another thread was ready. */
  lemma ScheduleSelf<T>(s: Sched<T>)
    requires s.switchCounter == 0 && s.curr != s.idle && s.curr !in s.ready && Get(s, s.curr).state == Running
    ensures var r, b := Schedule(s), Get(s, s.curr);
      && r.curr != s.curr && s.curr in r.ready && Get(r, s.curr).totalRuntime == b.totalRuntime
      && Get(r, s.curr).budget ==
        if !s.quantumPast || (s.ready != [] && b.budget == 100) then 6 else if s.ready == [] then b.budget else LessQuantum(b.budget)
  {
    if s.ready == [] {
      PreemptedBlock(s, s.idle);
      hide SwitchTask;
    } else {
      var next := s.ready[0];
      assert next in s.ready;
      var s1 := Put(Charge(s), next, Get(Charge(s), next).(state := Running)).(ready := s.ready[1..]);
      PreemptedBlock(s1, next);
      hide SwitchTask;
    }
  }

  lemma PreemptedBlock<T>(s: Sched<T>, next: T)
    requires s.curr != s.idle && s.curr != next && Get(s, s.curr).state == Running
    ensures var r, b := SwitchTask(s, next), Get(s, s.curr);
      && r.curr == next && s.curr in r.ready && Get(r, s.curr).totalRuntime == b.totalRuntime
      && Get(r, s.curr).budget == if s.quantumPast then b.budget else 6
  {
    SwitchIs(s, next);
  }

  /** Charging: what one tick does to the thread it finds running. */
  ghost predicate TickCharges<T>(s: Sched<T>, r: Sched<T>) {
    var t, b, slice := s.curr, Get(s, s.curr), Elapsed(s) + 1;
    && Get(r, t).totalRuntime == b.totalRuntime + 1
    && (if slice >= b.budget then r.curr != t && t in r.ready && Get(r, t).budget == 6
        else if slice == 100 then r.curr != t && t in r.ready && Get(r, t).budget == b.budget - if Contended(s) then 100 else 0
        else r.curr == t && Get(r, t).budget == b.budget && Elapsed(r) == slice)
  }

  lemma ExpiredCharges<T>(s: Sched<T>, t: T, b: nat, slice: int)
    requires Rooted(s) && s.curr == t != s.idle && t !in s.ready && Get(s, t).state == Running && !s.quantumPast
    requires Get(s, t).budget == b && Elapsed(s) == slice
    ensures var r := Expire(s);
      && Get(r, t).totalRuntime == Get(s, t).totalRuntime
      && (if slice >= b then r.curr != t && t in r.ready && Get(r, t).budget == 6
          else if slice == 100 then r.curr != t && t in r.ready && Get(r, t).budget == b - if s.ready == [] then 0 else 100
          else r.curr == t && Get(r, t).budget == b && Elapsed(r) == slice)
  {
    hide Schedule;
    ScheduleSelf(s);
    ScheduleSelf(s.(quantumPast := true));
  }

  /** While a thread runs, a tick wakes only others, and they queue up behind. */
  lemma DrainedRunning<T>(s: Sched<T>)
    requires Rooted(s) && Drainable(s) && s.curr != s.idle && s.curr !in s.ready
    ensures var d := Drained(s, s.waiting);
      && d.curr == s.curr && Get(d, s.curr) == Get(s, s.curr) && d.curr !in d.ready
      && (d.ready == [] <==> s.ready == [] && forall u | u in s.waiting :: !Due(s, u))
  {
    DrainedIs(s, |s.waiting|);
    FullSlice(s.waiting);
    var woken := Woken(s, s.waiting);
    PartsOf(s, s.waiting, s.curr);
    forall u | u in s.waiting ensures Due(s, u) <==> u in woken { PartsOf(s, s.waiting, u); }
    hide Drained, Woken, Kept, Once, Due, Get, Occurs;
    if woken != [] {
      assert woken[0] in woken;
      PartsOf(s, s.waiting, woken[0]);
    }
  }

  lemma EnteredDue<T>(s: Sched<T>, frame: IrqFrame)
    requires s.curr !in s.waiting
    ensures forall u | u in s.waiting :: Due(Entered(s, frame), u) == Due(s, u)
  {
  }

  lemma TickIsCharged<T>(s: Sched<T>, frame: IrqFrame)
    requires Tidy(s) && Sound(s) && s.curr != s.idle
    ensures TickCharges(s, Ticked(s, frame))
  {
    var s1 := Entered(s, frame);
    var s2, t, b, slice := Drained(s1, s1.waiting), s.curr, Get(s, s.curr).budget, Elapsed(s) + 1;
    var r := Expire(s2);
    assert Ticked(s, frame) == r.(interrupts := true);
    EnteredRunning(s, frame);
    hide *;
    DrainedRunning(s1);
    DrainedRooted(s1);
    SameSlice(s1, s2);
    SoundDrained(s1, s2);
    ExpiredCharges(s2, t, b, slice);
    OnBlock(r, t);
    ChargesFrom(s, r.(interrupts := true), s2.ready == []);
  }

  lemma EnteredRunning<T>(s: Sched<T>, frame: IrqFrame)
    requires Tidy(s) && Sound(s) && s.curr != s.idle
    ensures var s1 := Entered(s, frame);
      && Rooted(s1) && Drainable(s1) && s1.curr == s.curr && s1.idle == s.idle && s1.curr !in s1.ready && !s1.quantumPast
      && Get(s1, s.curr).state == Running && Get(s1, s.curr).budget == Get(s, s.curr).budget
      && Get(s1, s.curr).totalRuntime == Get(s, s.curr).totalRuntime + 1 && Elapsed(s1) == Elapsed(s) + 1
      && (Contended(s) <==> !(s1.ready == [] && forall u | u in s1.waiting :: !Due(s1, u)))
  {
    NotQueued(s);
    EnteredIs(s, frame);
    EnteredDue(s, frame);
    hide Tidy, Rooted, Drainable, Places, Due, Elapsed;
  }

  lemma SoundDrained<T>(s: Sched<T>, d: Sched<T>)
    requires s.curr == d.curr && Get(d, s.curr) == Get(s, s.curr) && d.idle == s.idle && d.quantumPast == s.quantumPast
    ensures Get(d, d.curr).state == Get(s, s.curr).state && Get(d, d.curr).totalRuntime == Get(s, s.curr).totalRuntime
    ensures Get(d, d.curr).budget == Get(s, s.curr).budget
  {
  }

  lemma ChargesFrom<T>(s: Sched<T>, r: Sched<T>, alone: bool)
    requires Contended(s) <==> !alone
    requires var t, b, slice := s.curr, Get(s, s.curr), Elapsed(s) + 1;
      && Get(r, t).totalRuntime == b.totalRuntime + 1
      && (if slice >= b.budget then r.curr != t && t in r.ready && Get(r, t).budget == 6
          else if slice == 100 then r.curr != t && t in r.ready && Get(r, t).budget == b.budget - if alone then 0 else 100
          else r.curr == t && Get(r, t).budget == b.budget && Elapsed(r) == slice)
    ensures TickCharges(s, r)
  {
    hide Get, Elapsed, Contended;
  }

  lemma SameSlice<T>(s: Sched<T>, d: Sched<T>)
    requires Rooted(s) && s.curr != s.idle && (if TakesOver(s, Woken(s, s.waiting)) then Elapsed(d) == 0 else Elapsed(d) == Elapsed(s))
    ensures Elapsed(d) == Elapsed(s)
  {
  }

  lemma OnBlock<T>(s: Sched<T>, t: T)
    ensures Get(s.(interrupts := true), t) == Get(s, t) && Elapsed(s.(interrupts := true)) == Elapsed(s)
  {
  }

  /** Between ticks nothing that `TimerOnly` allows touches the running thread. */
  lemma RunningKept<T>(s: Sched<T>, e: Event<T>)
    requires Tidy(s) && Legal(s, e) && s.curr != s.idle && TimerOnly(s, e, s.curr) && !e.TimerTick?
    ensures var r := Step(s, e); r.curr == s.curr && Get(r, s.curr) == Get(s, s.curr) && r.now == s.now
  {
    TidyRooted(s);
    StepIs(s, e);
    NotQueued(s);
    hide Tidy, Step, Schedule, Wake, Ticked, Parked, Requeued, Rooted, Contended, EndsQuantum;
    match e {
      case AddThread(u) => assert Places(s, s.curr) > 0;
      case UnblockCall(u) =>
        WakeIs(s, u);
        WakeTcb(s, u, s.curr);
      case _ =>
    }
  }

  /** `t` had budget `full` when it was last reset or set; `c` ticks and `d` dispatches later it has this much left. */
  ghost predicate Ledger<T>(s: Sched<T>, t: T, full: nat, c: nat, d: nat) {
    && t in s.tcb && t != s.idle && c < full
    && if s.curr == t then d >= 1 && c == 100 * (d - 1) + Elapsed(s) && Get(s, t).budget == full - 100 * (d - 1)
       else t in s.ready && c == 100 * d && Get(s, t).budget == full - 100 * d
  }

  /** The budget was used up after exactly `full` ticks in `d` dispatches, and is the default again. */
  ghost predicate Spent<T>(s: Sched<T>, t: T, full: nat, d: nat) {
    t in s.ready && s.curr != t && Get(s, t).budget == 6 && d == (full + 99) / 100
  }

  lemma LedgerTick<T>(s: Sched<T>, frame: IrqFrame, t: T, full: nat, c: nat, c': nat, d: nat)
    requires Tidy(s) && Sound(s) && s.curr == t && Ledger(s, t, full, c, d) && TimerOnly(s, TimerTick(frame), t) && c' == c + 1
    ensures LedgerOrSpent(Ticked(s, frame), t, full, c', d)
  {
    LedgerPlace(s, t, full, c, d);
    TidySlice(s);
    hide *;
    TickIsCharged(s, frame);
    TickTidies(s, frame);
    TickIdle(s, frame);
    LedgerFrom(s, Ticked(s, frame), frame, t, full, c, c', d);
  }

  lemma LedgerFrom<T>(s: Sched<T>, r: Sched<T>, frame: IrqFrame, t: T, full: nat, c: nat, c': nat, d: nat)
    requires TickCharges(s, r) && s.curr == t && Ledger(s, t, full, c, d) && TimerOnly(s, TimerTick(frame), t) && c' == c + 1
    requires 0 <= Elapsed(s) < 100 && t in r.tcb && t != r.idle
    ensures LedgerOrSpent(r, t, full, c', d)
  {
    hide Get, Elapsed, Contended;
  }

  lemma TickIdle<T>(s: Sched<T>, frame: IrqFrame)
    requires Tidy(s)
    ensures Ticked(s, frame).idle == s.idle
  {
    var s1 := Entered(s, frame);
    var s2 := Drained(s1, s1.waiting);
    EnteredIs(s, frame);
    DrainedRooted(s1);
    hide Entered, Drained, Tidy, Schedule, Woken;
    ScheduleIs(s2);
    ScheduleIs(s2.(quantumPast := true));
  }

  lemma LedgerReady<T>(s: Sched<T>, e: Event<T>, t: T, full: nat, c: nat, d: nat, d': nat)
    requires Tidy(s) && Legal(s, e) && Ledger(s, t, full, c, d) && s.curr != t && TimerOnly(s, e, t)
    requires d' == d + DispatchedNow(s, Step(s, e), t)
    ensures Ledger(Step(s, e), t, full, c, d')
  {
    var r := Step(s, e);
    LedgerPlace(s, t, full, c, d);
    assert !(e.BudgetCall? && e.thread == t) && s.ready != [];
    hide *;
    StepKeepsReady(s, e, t);
    StepAdvances(s, e);
    StepKeepsTidy(s, e);
    StepIdle(s, e);
    Dispatched(s, r, t);
    LedgerMoves(s, r, t, full, c, d, d');
  }

  lemma LedgerMoves<T>(s: Sched<T>, r: Sched<T>, t: T, full: nat, c: nat, d: nat, d': nat)
    requires Ledger(s, t, full, c, d) && s.curr != t && t in r.tcb && r.idle == s.idle && d' == d + DispatchedNow(s, r, t)
    requires r.curr == t ==> Elapsed(r) == 0
    requires Get(r, t).budget == Get(s, t).budget && (r.curr == t || t in r.ready)
    ensures Ledger(r, t, full, c, d')
  {
  }

  lemma Dispatched<T>(s: Sched<T>, r: Sched<T>, t: T)
    requires s.ready != [] && ReadyKept(s, r, t) && s.curr != t && (Advances(s, r, 0) || Advances(s, r, 1))
    ensures r.curr == t ==> Elapsed(r) == 0
    ensures Get(r, t).budget == Get(s, t).budget && (r.curr == t || t in r.ready)
  {
  }

  lemma StepIdle<T>(s: Sched<T>, e: Event<T>)
    requires Tidy(s) && Legal(s, e)
    ensures Step(s, e).idle == s.idle
  {
    TidyRooted(s);
    StepIs(s, e);
    hide Step, Schedule, Wake, Ticked, Places;
    match e {
      case TimerTick(frame) => TickIdle(s, frame);
      case Reschedule => ScheduleIs(s);
      case SleepCall(ms) => ScheduleIs(Parked(s, Get(s, s.curr).(sleepTime := ms, state := Sleep)));
      case YieldCall => ScheduleIs(Requeued(s));
      case BlockCall => ScheduleIs(Parked(s, Get(s, s.curr).(state := Blocked)));
      case UnblockCall(u) => WakeIs(s, u);
      case _ =>
    }
  }

  ghost predicate LedgerOrSpent<T>(s: Sched<T>, t: T, full: nat, c: nat, d: nat) {
    if c < full then Ledger(s, t, full, c, d) else Spent(s, t, full, d)
  }

  lemma LedgerStep<T>(s: Sched<T>, e: Event<T>, t: T, full: nat, c: nat, d: nat, c': nat, d': nat)
    requires Tidy(s) && Sound(s) && Legal(s, e) && Ledger(s, t, full, c, d) && TimerOnly(s, e, t)
    requires c' == c + ChargedNow(s, e, t) && d' == d + DispatchedNow(s, Step(s, e), t)
    ensures LedgerOrSpent(Step(s, e), t, full, c', d')
  {
    if s.curr != t {
      assert c' == c && c < full;
      hide *;
      LedgerReady(s, e, t, full, c, d, d');
      FromLedger(Step(s, e), t, full, c, d');
    } else if e.TimerTick? {
      StepIs(s, e) by { TidyRooted(s); }
      assert c' == c + 1 && d' == d && CoreStep(s, e) == Ticked(s, e.frame);
      hide *;
      LedgerTick(s, e.frame, t, full, c, c', d);
    } else {
      assert c' == c && d' == d && c < full;
      hide *;
      LedgerRunning(s, e, t, full, c, d);
      FromLedger(Step(s, e), t, full, c, d);
    }
  }

  lemma FromLedger<T>(s: Sched<T>, t: T, full: nat, c: nat, d: nat)
    requires Ledger(s, t, full, c, d)
    ensures LedgerOrSpent(s, t, full, c, d)
  {
  }

  lemma LedgerRunning<T>(s: Sched<T>, e: Event<T>, t: T, full: nat, c: nat, d: nat)
    requires Tidy(s) && Legal(s, e) && Ledger(s, t, full, c, d) && TimerOnly(s, e, t) && s.curr == t && !e.TimerTick?
    ensures Ledger(Step(s, e), t, full, c, d)
  {
    StepIdle(s, e);
    StepKeepsTidy(s, e);
    RunningKept(s, e);
    assert t in s.tcb;
    hide Tidy, Legal, Step, TimerOnly, Get;
  }

  /** Over a run that has not used up the budget, ticks and dispatches are exactly accounted for. */
  lemma {:induction false} RunLedger<T>(s: Sched<T>, es: seq<Event<T>>, t: T, full: nat, c: nat, d: nat, c': nat, d': nat)
    requires Tidy(s) && Sound(s) && CleanRun(s, es) && TimerOnlyRun(s, es, t) && Ledger(s, t, full, c, d)
    requires c' == c + Charged(s, es, t) && d' == d + Dispatches(s, es, t) && c' < full
    ensures Ledger(Run(s, es), t, full, c', d')
    ensures Get(Run(s, es), t).totalRuntime == Get(s, t).totalRuntime + c' - c
    ensures Tidy(Run(s, es)) && Sound(Run(s, es))
    decreases |es|
  {
    if es != [] {
      var e, r := es[0], Step(s, es[0]);
      var c1, d1 := c + ChargedNow(s, e, t), d + DispatchedNow(s, r, t);
      LedgerPlace(s, t, full, c, d);
      assert TimerOnly(s, e, t) && Legal(s, e) && Clean(s, e) && CleanRun(r, es[1..]) && TimerOnlyRun(r, es[1..], t);
      assert Run(s, es) == Run(r, es[1..]) && c' == c1 + Charged(r, es[1..], t) && d' == d1 + Dispatches(r, es[1..], t);
      hide *;
      LedgerStep(s, e, t, full, c, d, c1, d1);
      RuntimeStep(s, e, t);
      StepKeepsTidy(s, e);
      StepConserves(s, e, t);
      ToLedger(r, t, full, c1, d1);
      RunLedger(r, es[1..], t, full, c1, d1, c', d');
    }
  }

  lemma ToLedger<T>(s: Sched<T>, t: T, full: nat, c: nat, d: nat)
    requires LedgerOrSpent(s, t, full, c, d) && c < full
    ensures Ledger(s, t, full, c, d)
  {
  }

  lemma RuntimeStep<T>(s: Sched<T>, e: Event<T>, t: T)
    requires Tidy(s) && Sound(s) && Legal(s, e) && TimerOnly(s, e, t) && t != s.idle && (s.curr == t || t in s.ready)
    ensures Get(Step(s, e), t).totalRuntime == Get(s, t).totalRuntime + ChargedNow(s, e, t)
  {
    if s.curr != t {
      StepKeepsReady(s, e, t);
      hide Tidy, Sound, Legal, Step, TimerOnly;
    } else if e.TimerTick? {
      StepIs(s, e) by { TidyRooted(s); }
      hide Ticked, Step, Tidy, Sound, TimerOnly;
      TickIsCharged(s, e.frame);
    } else {
      hide Tidy, Sound, Legal, Step;
      RunningKept(s, e);
    }
  }

  lemma LedgerPlace<T>(s: Sched<T>, t: T, full: nat, c: nat, d: nat)
    requires Ledger(s, t, full, c, d)
    ensures t in s.tcb && t != s.idle && (s.curr == t || t in s.ready)
  {
  }

  /** Budget accounting: a ready thread with budget `full` >= 1 that only the timer preempts is charged exactly
      `full` ticks over ceil(full / 100) dispatches; the tick that completes them, and no earlier one, makes its
      budget the default 6 again and sends it back to the ready queue. */
  lemma BudgetAccounting<T>(s: Sched<T>, es: seq<Event<T>>, frame: IrqFrame, t: T)
    requires Tidy(s) && Sound(s) && t in s.ready && Get(s, t).budget >= 1
    requires CleanRun(s, es) && TimerOnlyRun(s, es, t) && Charged(s, es, t) + 1 == Get(s, t).budget
    requires Run(s, es).curr == t && TimerOnly(Run(s, es), TimerTick(frame), t)
    ensures var full, r := Get(s, t).budget, Step(Run(s, es), TimerTick(frame));
      && Get(r, t).totalRuntime == Get(s, t).totalRuntime + full
      && Dispatches(s, es, t) == (full + 99) / 100
      && t in r.ready && r.curr != t && Get(r, t).budget == 6
  {
    var full, m := Get(s, t).budget, Run(s, es);
    ReadyAlone(s, t);
    var d, c := Dispatches(s, es, t), Charged(s, es, t);
    assert Ledger(s, t, full, 0, 0);
    assert ChargedNow(m, TimerTick(frame), t) == 1 && Legal(m, TimerTick(frame));
    assert DispatchedNow(m, Step(m, TimerTick(frame)), t) == 0;
    hide *;
    RunLedger(s, es, t, full, 0, 0, c, d);
    LedgerPlace(m, t, full, c, d);
    LedgerStep(m, TimerTick(frame), t, full, c, d, full, d);
    RuntimeStep(m, TimerTick(frame), t);
    SpentIs(Step(m, TimerTick(frame)), t, full, d);
  }

  lemma SpentIs<T>(s: Sched<T>, t: T, full: nat, d: nat)
    requires LedgerOrSpent(s, t, full, full, d)
    ensures t in s.ready && s.curr != t && Get(s, t).budget == 6 && d == (full + 99) / 100
  {
  }

  // The quantum subtraction.

  /** The states on which a step calls for a dispatch with the lock released: at most one. */
  function DispatchedFrom<T(==)>(s: Sched<T>, e: Event<T>): seq<Sched<T>> {
    match e
    case TimerTick(frame) =>
      var s1 := Entered(s, frame);
      var d := Drained(s1, s1.waiting);
      var delta := d.now - Get(d, d.curr).execStart;
      if delta >= Get(d, d.curr).budget then [d]
      else if delta == 100 then [d.(quantumPast := true)]
      else []
    case Reschedule => [s]
    case SleepCall(ms) => [Parked(s, Get(s, s.curr).(sleepTime := ms, state := Sleep))]
    case YieldCall => [Requeued(s)]
    case BlockCall => [Parked(s, Get(s, s.curr).(state := Blocked))]
    case _ => []
  }

  /** They are what the step dispatches from. */
  lemma StepDispatches<T>(s: Sched<T>, e: Event<T>)
    requires Quiet(s) && DispatchedFrom(s, e) != []
    ensures var x := DispatchedFrom(s, e)[0];
      Step(s, e) == Schedule(x).(interrupts := if e.Reschedule? then Schedule(x).interrupts else true)
  {
    hide Step, Schedule, Drained, Entered;
    StepIs(s, e);
  }

  /** The subtraction is a true one exactly when the budget covers the quantum; otherwise it wraps to nearly 2^64. */
  lemma ChargeIsTrue<T>(x: Sched<T>)
    requires x.quantumPast
    ensures LessQuantum(Get(x, x.curr).budget) == Get(x, x.curr).budget - 100 <==> Get(x, x.curr).budget >= 100
    ensures Get(x, x.curr).budget < 100 ==>
      Get(Charge(x), x.curr).budget == Get(x, x.curr).budget + 0x1_0000_0000_0000_0000 - 100
  {
  }

  /** A switch leaves the quantum flag up exactly when it was up and the running thread is not requeued. */
  lemma FlagAfterSwitch<T>(x: Sched<T>)
    requires x.switchCounter == 0
    ensures Schedule(x).quantumPast <==> x.quantumPast && !Requeues(x)
  {
    if x.ready == [] {
      FlagAfterTask(x, x.idle);
      hide SwitchTask;
    } else {
      var next := x.ready[0];
      var s1 := Put(Charge(x), next, Get(Charge(x), next).(state := Running)).(ready := x.ready[1..]);
      assert Get(s1, s1.curr).state == Running <==> Get(x, x.curr).state == Running || next == x.curr;
      FlagAfterTask(s1, next);
      hide SwitchTask;
    }
  }

  lemma FlagAfterTask<T>(s: Sched<T>, next: T)
    ensures SwitchTask(s, next).quantumPast <==> s.quantumPast && !(Get(s, s.curr).state == Running && s.curr != s.idle)
  {
  }

  lemma TickCovers<T>(s: Sched<T>, frame: IrqFrame)
    requires Tidy(s) && Sound(s) && Clean(s, TimerTick(frame)) && DispatchedFrom(s, TimerTick(frame)) != []
    ensures var x := DispatchedFrom(s, TimerTick(frame))[0];
      x.quantumPast ==> Get(x, x.curr).budget > 100 && Requeues(x)
  {
    var s1 := Entered(s, frame);
    assert Sound(s1);
    EnteredIs(s, frame);
    CleanTick(s, frame);
    hide Entered, Drained, Tidy, Woken, Places, Clean;
    DrainedSound(s1);
    DrainedRooted(s1);
  }

  lemma StepCovers<T>(s: Sched<T>, e: Event<T>, x: Sched<T>)
    requires Tidy(s) && Sound(s) && Clean(s, e) && x in DispatchedFrom(s, e)
    ensures x.quantumPast ==> Get(x, x.curr).budget > 100 && !Schedule(x).quantumPast
  {
    if e.TimerTick? {
      OneDispatch(s, e, x);
      assert e == TimerTick(e.frame);
      hide *;
      TickCovers(s, e.frame);
      TickUnlocked(s, e.frame);
      FlagAfterSwitch(x);
    } else {
      assert !s.quantumPast;
      hide *;
      CallKeepsFlag(s, e, x);
    }
  }

  lemma OneDispatch<T>(s: Sched<T>, e: Event<T>, x: Sched<T>)
    requires x in DispatchedFrom(s, e)
    ensures DispatchedFrom(s, e) != [] && x == DispatchedFrom(s, e)[0]
  {
    hide Get, Drained, Entered, Parked, Requeued;
  }

  lemma CallKeepsFlag<T>(s: Sched<T>, e: Event<T>, x: Sched<T>)
    requires !e.TimerTick? && x in DispatchedFrom(s, e)
    ensures x.quantumPast == s.quantumPast
  {
    hide Get;
  }

  /** The quantum subtraction never underflows: over every clean run, whatever the next step is, the state it
      dispatches from has a budget of more than 100 whenever the flag says to subtract, and requeueing the thread then
      takes the flag down again. */
  lemma NoUnderflow<T>(s: Sched<T>, es: seq<Event<T>>, e: Event<T>)
    requires Tidy(s) && Sound(s) && CleanRun(s, es) && Clean(Run(s, es), e)
    ensures var r := Run(s, es);
      && !r.quantumPast
      && forall x | x in DispatchedFrom(r, e) :: x.quantumPast ==> Get(x, x.curr).budget > 100 && !Schedule(x).quantumPast
  {
    var r := Run(s, es);
    assert s.curr in s.tcb;
    RunConserves(s, es, s.curr);
    assert !r.quantumPast;
    hide Run, CleanRun, Tidy, Schedule, Places, DispatchedFrom, Sound, Clean, Get;
    forall x | x in DispatchedFrom(r, e) ensures x.quantumPast ==> Get(x, x.curr).budget > 100 && !Schedule(x).quantumPast {
      StepCovers(r, e, x);
    }
  }

  lemma TickUnlocked<T>(s: Sched<T>, frame: IrqFrame)
    requires Tidy(s)
    ensures forall x | x in DispatchedFrom(s, TimerTick(frame)) :: x.switchCounter == 0
  {
    EnteredIs(s, frame);
    var s1 := Entered(s, frame);
    hide Entered, Drained, Tidy, Woken;
    DrainedRooted(s1);
  }

  /** Outside clean runs it does: when a quantum ends under a thread that is not marked Running, the flag outlives the
      switch, and the next one subtracts the quantum from the thread that came after it. */
  lemma QuantumWraps<T>(s: Sched<T>, frame: IrqFrame)
    requires Tidy(s) && !s.quantumPast && s.curr != s.idle && Get(s, s.curr).state != Running && EndsQuantum(s)
    requires |s.ready| >= 2 && Get(s, s.ready[0]).budget < 100
    ensures var t, r := s.ready[0], Step(s, TimerTick(frame));
      && r.quantumPast && r.curr == t
      && Get(Step(r, Reschedule), t).budget == Get(s, t).budget + 0x1_0000_0000_0000_0000 - 100
  {
    var t, r := s.ready[0], Step(s, TimerTick(frame));
    assert t in s.ready;
    assert Legal(s, TimerTick(frame));
    ReadyAlone(s, t);
    hide *;
    FlagSurvives(s, frame);
    StepKeepsReady(s, TimerTick(frame), t);
    StepKeepsTidy(s, TimerTick(frame));
    StepIdle(s, TimerTick(frame));
    WrapsNext(s, r, t);
  }

  lemma WrapsNext<T>(s: Sched<T>, r: Sched<T>, t: T)
    requires Tidy(r) && ReadyKept(s, r, t) && r.curr == t != r.idle && r.quantumPast && r.ready != [] && Get(s, t).budget < 100
    ensures Get(Step(r, Reschedule), t).budget == Get(s, t).budget + 0x1_0000_0000_0000_0000 - 100
  {
    NotQueued(r);
    hide Tidy, Schedule, Places;
    ScheduleSelf(r) by { TidyRooted(r); }
  }

  lemma FlagSurvives<T>(s: Sched<T>, frame: IrqFrame)
    requires Tidy(s) && !s.quantumPast && s.curr != s.idle && Get(s, s.curr).state != Running && EndsQuantum(s) && |s.ready| >= 2
    ensures var r := Step(s, TimerTick(frame)); r.quantumPast && r.curr == s.ready[0] && r.ready != []
  {
    var s1 := Entered(s, frame);
    assert Get(s1, s.curr).state != Running && Get(s1, s.curr).budget == Get(s, s.curr).budget;
    NotQueued(s);
    EnteredIs(s, frame);
    StepIs(s, TimerTick(frame)) by { TidyRooted(s); }
    var d := Drained(s1, s1.waiting);
    hide Entered, Drained, Tidy, Woken, Places, Step, Schedule, Rooted, Drainable, Due, Requeues;
    DrainedRooted(s1);
    DrainedRunning(s1);
    DrainedExtends(s1);
    SameSlice(s1, d);
    Outlives(d);
  }

  lemma Outlives<T>(s: Sched<T>)
    requires Rooted(s) && Elapsed(s) == 100 < Get(s, s.curr).budget && Get(s, s.curr).state != Running
    requires s.curr !in s.ready && |s.ready| >= 2
    ensures var r := Expire(s); r.quantumPast && r.curr == s.ready[0] && r.ready != []
  {
    var x := s.(quantumPast := true);
    assert x.ready[0] in x.ready;
    assert !Requeues(x);
    hide Schedule;
    FlagAfterSwitch(x);
    ScheduleIs(x);
  }
}
