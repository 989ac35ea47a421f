/** Bounded waiting over whole runs, and what a step does to threads that are ready. */
module SchedTime {
  import opened SchedSpec
  import opened SchedCore
  import opened SchedLaws
  import opened SchedRuns

  // Bounded waiting.

  /** Either the running thread goes on and the ready queue only grows at its end, or the head of the queue has
      been dispatched. */
  ghost predicate Advances<T>(s: Sched<T>, r: Sched<T>, ticks: nat)
    requires s.ready != []
  {
    || (r.curr == s.curr && s.ready <= r.ready && Elapsed(r) == Elapsed(s) + ticks)
    || (r.curr == s.ready[0] && s.ready[1..] <= r.ready && Elapsed(r) == 0)
  }

  lemma ScheduleAdvances<T>(s: Sched<T>, x: Sched<T>)
    requires s.ready != [] && s.ready <= x.ready && Rooted(x)
    ensures Advances(s, Schedule(x), 0) && Advances(s, Schedule(x), 1)
  {
    hide Schedule, Get, Requeues;
    ScheduleIs(x);
    ScheduleRooted(x);
    assert x.ready[0] == s.ready[0] && s.ready[1..] <= x.ready[1..];
  }

  /** While something is ready a wake-up only adds to the end of the queue. */
  lemma DrainedExtends<T>(s: Sched<T>)
    requires Drainable(s) && s.ready != []
    ensures var d := Drained(s, s.waiting);
      d.curr == s.curr && d.ready == s.ready + Woken(s, s.waiting) && s.ready <= d.ready
  {
    DrainedIs(s, |s.waiting|);
    FullSlice(s.waiting);
    hide Drained, Woken, Kept, PassedTcbs, Drainable;
  }

  lemma TickAdvances<T>(s: Sched<T>, frame: IrqFrame)
    requires Tidy(s) && s.ready != []
    ensures Advances(s, Ticked(s, frame), 1)
  {
    EnteredIs(s, frame);
    var s1 := Entered(s, frame);
    var s2 := Drained(s1, s1.waiting);
    hide Entered, Drained, Tidy, Woken, Schedule, Rooted, Drainable, Places, Elapsed, Advances;
    DrainedRooted(s1);
    DrainedExtends(s1);
    FlagRooted(s2);
    ScheduleAdvances(s, s2);
    ScheduleAdvances(s, s2.(quantumPast := true));
    GoesOn(s, s2, 1);
    AdvancesOn(s, Expire(s2), 1);
  }

  lemma GoesOn<T>(s: Sched<T>, r: Sched<T>, ticks: nat)
    requires s.ready != [] && r.curr == s.curr && s.ready <= r.ready && Elapsed(r) == Elapsed(s) + ticks
    ensures Advances(s, r, ticks)
  {
  }

  lemma AdvancesOn<T>(s: Sched<T>, r: Sched<T>, ticks: nat)
    requires s.ready != []
    ensures Advances(s, r.(interrupts := true), ticks) == Advances(s, r, ticks)
  {
  }

  lemma ParkAdvances<T>(s: Sched<T>, b: Tcb)
    requires Tidy(s) && s.curr != s.idle && b.state != Running && s.ready != []
    ensures Advances(s, Schedule(Parked(s, b)).(interrupts := true), 0)
  {
    ParkedRooted(s, b);
    assert Parked(s, b).ready == s.ready;
    hide Schedule, Parked, Rooted, Tidy, Advances, Requeues;
    ScheduleAdvances(s, Parked(s, b));
    AdvancesOn(s, Schedule(Parked(s, b)), 0);
  }

  lemma YieldAdvances<T>(s: Sched<T>)
    requires Tidy(s) && s.curr != s.idle && s.ready != []
    ensures Advances(s, Schedule(Requeued(s)).(interrupts := true), 0)
  {
    RequeuedRooted(s);
    assert Requeued(s).ready == s.ready + [s.curr];
    hide Schedule, Requeued, Rooted, Tidy, Advances, Requeues;
    ScheduleAdvances(s, Requeued(s));
    AdvancesOn(s, Schedule(Requeued(s)), 0);
  }

  lemma WakeAdvances<T>(s: Sched<T>, u: T)
    requires Tidy(s) && u in s.waiting && s.ready != []
    ensures Advances(s, Wake(s, u).(interrupts := true), 0)
  {
    WakeRooted(s, u);
    WakeIs(s, u);
    WakeTcb(s, u, s.curr);
    if s.curr != s.idle {
      NotQueued(s);
    }
    hide Wake, Tidy, Rooted;
  }

  lemma AddAdvances<T>(s: Sched<T>, u: T)
    requires Tidy(s) && Legal(s, AddThread(u)) && s.ready != []
    ensures Advances(s, AddReady(s, u), 0)
  {
    assert s.curr != u;
    hide Tidy, Places;
  }

  lemma BudgetAdvances<T>(s: Sched<T>, u: T, ms: nat)
    requires s.ready != []
    ensures Advances(s, SetBudget(s, u, ms), 0)
  {
  }

  lemma StepAdvances<T>(s: Sched<T>, e: Event<T>)
    requires Tidy(s) && Legal(s, e) && s.ready != []
    ensures Advances(s, Step(s, e), if e.TimerTick? then 1 else 0)
  {
    TidyRooted(s);
    StepIs(s, e);
    hide Tidy, Step, Schedule, Wake, Ticked, AddReady, SetBudget, Places, Parked, Requeued, Advances, Rooted;
    match e {
      case AddThread(u) => AddAdvances(s, u);
      case TimerTick(frame) => TickAdvances(s, frame);
      case Reschedule => ScheduleAdvances(s, s);
      case SleepCall(ms) => ParkAdvances(s, Get(s, s.curr).(sleepTime := ms, state := Sleep));
      case YieldCall => YieldAdvances(s);
      case BlockCall => ParkAdvances(s, Get(s, s.curr).(state := Blocked));
      case UnblockCall(u) => WakeAdvances(s, u);
      case BudgetCall(u, ms) => BudgetAdvances(s, u, ms);
    }
  }

  function Ticks<T>(es: seq<Event<T>>): nat {
    if es == [] then 0 else (if es[0].TimerTick? then 1 else 0) + Ticks(es[1..])
  }

  /** After `i` events of the run `t` has the processor. */
  ghost predicate RunsAt<T>(s: Sched<T>, es: seq<Event<T>>, i: nat, t: T) {
    i <= |es| && Run(s, es[..i]).curr == t
  }

  lemma RunsLater<T>(s: Sched<T>, es: seq<Event<T>>, i: nat, t: T)
    requires es != [] && RunsAt(Step(s, es[0]), es[1..], i, t)
    ensures RunsAt(s, es, i + 1, t)
  {
    assert es[..i + 1][0] == es[0] && es[..i + 1][1..] == es[1..][..i];
  }

  /** The most ticks that can pass before the thread at index `k` runs. */
  ghost function Wait<T>(s: Sched<T>, k: nat): int {
    100 * k + 100 - Elapsed(s)
  }

  lemma AdvancesShortens<T>(s: Sched<T>, r: Sched<T>, ticks: nat, k: nat)
    requires Tidy(s) && Tidy(r) && k < |s.ready| && ticks <= 1 && Advances(s, r, ticks)
    ensures r.curr == s.ready[k] ||
      exists j: nat :: j < |r.ready| && r.ready[j] == s.ready[k] && Wait(r, j) <= Wait(s, k) - ticks
  {
    TidySlice(s);
    hide Tidy, Elapsed;
    if r.curr == s.curr && s.ready <= r.ready && Elapsed(r) == Elapsed(s) + ticks {
      assert r.ready[k] == s.ready[k];
    } else if k > 0 {
      assert r.ready[k - 1] == s.ready[1..][k - 1] == s.ready[k];
    }
  }

  lemma {:induction false} RunsWithin<T>(s: Sched<T>, es: seq<Event<T>>, k: nat)
    requires Tidy(s) && LegalRun(s, es) && k < |s.ready| && Ticks(es) >= Wait(s, k)
    ensures exists i: nat :: RunsAt(s, es, i, s.ready[k])
    decreases |es|
  {
    TidySlice(s);
    if es != [] {
      var t, r, e := s.ready[k], Step(s, es[0]), es[0];
      StepKeepsTidy(s, e);
      StepAdvances(s, e);
      hide Step, Tidy, Legal, Elapsed, Advances;
      AdvancesShortens(s, r, if e.TimerTick? then 1 else 0, k);
      if r.curr == t {
        RunsNow(r, es[1..], t);
        RunsLater(s, es, 0, t);
      } else {
        var j: nat :| j < |r.ready| && r.ready[j] == t && Wait(r, j) <= Wait(s, k) - if e.TimerTick? then 1 else 0;
        RunsWithin(r, es[1..], j);
        var i: nat :| RunsAt(r, es[1..], i, t);
        RunsLater(s, es, i, t);
      }
    }
  }

  lemma RunsNow<T>(s: Sched<T>, es: seq<Event<T>>, t: T)
    requires s.curr == t
    ensures RunsAt(s, es, 0, t)
  {
    assert es[..0] == [];
  }

  /** Bounded waiting: whatever else happens, the thread at index `k` of the ready queue gets the processor
      within 100 * (k + 1) timer ticks. */
  lemma BoundedWaiting<T>(s: Sched<T>, es: seq<Event<T>>, k: nat)
    requires Tidy(s) && LegalRun(s, es) && k < |s.ready| && Ticks(es) >= 100 * (k + 1)
    ensures exists i: nat :: RunsAt(s, es, i, s.ready[k])
  {
    TidySlice(s);
    hide Tidy, LegalRun, Elapsed;
    RunsWithin(s, es, k);
  }

  // What a step does to a thread that is not running.

  lemma SwitchOther<T>(s: Sched<T>, next: T, t: T)
    requires t != s.curr && (Get(s, next).state == Running || t != next)
    ensures Get(SwitchTask(s, next), t) == if t == next then Get(s, t).(execStart := s.now) else Get(s, t)
  {
  }

  /** A switch changes no thread block but those it switches from and to. */
  lemma ScheduleOther<T>(s: Sched<T>, t: T)
    requires s.switchCounter == 0 && t != s.curr && t != s.idle
    ensures Get(Schedule(s), t) ==
      if s.ready != [] && t == s.ready[0] then Get(s, t).(state := Running, execStart := s.now) else Get(s, t)
  {
    if s.ready == [] {
      SwitchOther(s, s.idle, t);
      hide SwitchTask;
    } else {
      var next := s.ready[0];
      var s1 := Put(Charge(s), next, Get(Charge(s), next).(state := Running)).(ready := s.ready[1..]);
      assert Get(s1, t) == if t == next then Get(s, t).(state := Running) else Get(s, t);
      SwitchOther(s1, next, t);
      hide SwitchTask, Charge;
    }
  }

  lemma DrainedOther<T>(s: Sched<T>, t: T)
    requires Drainable(s) && t in s.tcb
    ensures var d := Drained(s, s.waiting);
      Get(d, t) == if t in s.waiting then DrainedTcb(Get(s, t), d.curr == t, s.now) else Get(s, t)
  {
    DrainedIs(s, |s.waiting|);
    FullSlice(s.waiting);
    hide Drained, PassedQueues, Drainable, DrainedTcb;
  }

  /** What the step does to the block of a ready thread. */
  ghost predicate ReadyKept<T>(s: Sched<T>, r: Sched<T>, t: T) {
    && Get(r, t) == (if r.curr == t then Get(s, t).(state := Running, execStart := r.now) else Get(s, t))
    && (r.curr == t || t in r.ready)
  }

  lemma ReadySwitched<T>(s: Sched<T>, x: Sched<T>, t: T)
    requires Rooted(x) && x.curr != t && t in s.ready && s.ready <= x.ready && Get(x, t) == Get(s, t)
    ensures ReadyKept(s, Schedule(x), t)
  {
    assert t in x.ready && t != x.idle;
    hide Schedule, Get, Rooted;
    SwitchedQueue(x, t) by { RootedParts(x); }
    ScheduleOther(x, t) by { RootedParts(x); }
  }

  lemma RootedParts<T>(s: Sched<T>)
    requires Rooted(s)
    ensures s.switchCounter == 0 && s.idle !in s.ready
  {
  }

  lemma SwitchedQueue<T>(s: Sched<T>, t: T)
    requires s.switchCounter == 0 && t in s.ready && t != s.curr
    ensures var r := Schedule(s); r.now == s.now && r.curr == s.ready[0] && (r.curr == t || t in r.ready)
  {
    ScheduleIs(s);
    hide Schedule, Requeues;
    assert s.ready == [s.ready[0]] + s.ready[1..];
  }

  lemma ReadyOn<T>(s: Sched<T>, r: Sched<T>, t: T)
    ensures ReadyKept(s, r.(interrupts := true), t) == ReadyKept(s, r, t)
  {
  }

  lemma ReadyTick<T>(s: Sched<T>, frame: IrqFrame, t: T)
    requires Tidy(s) && t in s.ready
    ensures ReadyKept(s, Ticked(s, frame), t)
  {
    ReadyAlone(s, t);
    EnteredIs(s, frame);
    var s1 := Entered(s, frame);
    var s2 := Drained(s1, s1.waiting);
    assert Get(s1, t) == Get(s, t);
    hide Entered, Drained, Tidy, Woken, Schedule, Rooted, Drainable, Places, Elapsed, ReadyKept, Get, DrainedTcb;
    DrainedRooted(s1);
    DrainedExtends(s1);
    DrainedOther(s1, t);
    FlagRooted(s2);
    FlagBlock(s2, t);
    ReadySwitched(s, s2, t);
    ReadySwitched(s, s2.(quantumPast := true), t);
    ReadyStays(s, s2, t);
    ReadyOn(s, Expire(s2), t);
  }

  lemma FlagBlock<T>(s: Sched<T>, t: T)
    ensures Get(s.(quantumPast := true), t) == Get(s, t)
  {
  }

  lemma ReadyStays<T>(s: Sched<T>, r: Sched<T>, t: T)
    requires r.curr != t && Get(r, t) == Get(s, t) && t in s.ready && s.ready <= r.ready
    ensures ReadyKept(s, r, t)
  {
  }

  lemma ReadyAlone<T>(s: Sched<T>, t: T)
    requires Tidy(s) && t in s.ready
    ensures t in s.tcb && t != s.curr && t != s.idle && t !in s.waiting && Places(s, t) == 1
  {
    assert Places(s, t) <= 1;
    OccursSplit(s.ready, [], t);
    OccursSplit(s.waiting, [], t);
  }

  lemma ReadyParked<T>(s: Sched<T>, b: Tcb, t: T)
    requires Tidy(s) && s.curr != s.idle && b.state != Running && t in s.ready
    ensures ReadyKept(s, Schedule(Parked(s, b)).(interrupts := true), t)
  {
    ReadyAlone(s, t);
    ParkedRooted(s, b);
    assert Get(Parked(s, b), t) == Get(s, t) && Parked(s, b).ready == s.ready && Parked(s, b).curr == s.curr;
    hide Schedule, Parked, Rooted, Tidy, ReadyKept, Requeues, Get, Places;
    ReadySwitched(s, Parked(s, b), t);
    ReadyOn(s, Schedule(Parked(s, b)), t);
  }

  lemma ReadyYield<T>(s: Sched<T>, t: T)
    requires Tidy(s) && s.curr != s.idle && t in s.ready
    ensures ReadyKept(s, Schedule(Requeued(s)).(interrupts := true), t)
  {
    ReadyAlone(s, t);
    RequeuedRooted(s);
    assert Get(Requeued(s), t) == Get(s, t) && Requeued(s).ready == s.ready + [s.curr] && Requeued(s).curr == s.curr;
    hide Schedule, Requeued, Rooted, Tidy, ReadyKept, Requeues, Get, Places;
    ReadySwitched(s, Requeued(s), t);
    ReadyOn(s, Schedule(Requeued(s)), t);
  }

  lemma ReadyWake<T>(s: Sched<T>, u: T, t: T)
    requires Tidy(s) && u in s.waiting && t in s.ready
    ensures ReadyKept(s, Wake(s, u).(interrupts := true), t)
  {
    ReadyAlone(s, t);
    assert u != s.idle;
    WakeIs(s, u);
    WakeTcb(s, u, t);
    hide Wake, Tidy, Get, Places;
    ReadyStays(s, Wake(s, u), t);
    ReadyOn(s, Wake(s, u), t);
  }

  /** A ready thread's block changes only by its dispatch. */
  lemma StepKeepsReady<T>(s: Sched<T>, e: Event<T>, t: T)
    requires Tidy(s) && Legal(s, e) && t in s.ready && !(e.BudgetCall? && e.thread == t)
    ensures ReadyKept(s, Step(s, e), t)
  {
    TidyRooted(s);
    StepIs(s, e);
    ReadyAlone(s, t);
    hide Tidy, Step, Schedule, Wake, Ticked, Places, Parked, Requeued, Rooted;
    match e {
      case AddThread(u) =>
      case TimerTick(frame) => ReadyTick(s, frame, t);
      case Reschedule => ReadySwitched(s, s, t);
      case SleepCall(ms) => ReadyParked(s, Get(s, s.curr).(sleepTime := ms, state := Sleep), t);
      case YieldCall => ReadyYield(s, t);
      case BlockCall => ReadyParked(s, Get(s, s.curr).(state := Blocked), t);
      case UnblockCall(u) => ReadyWake(s, u, t);
      case BudgetCall(u, ms) =>
    }
  }
}
