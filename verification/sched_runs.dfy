/** Whole runs of the scheduler: no thread is lost, and when one is. */
module SchedRuns {
  import opened SchedSpec
  import opened SchedCore
  import opened SchedLaws

  function Run<T(==)>(s: Sched<T>, es: seq<Event<T>>): Sched<T>
    decreases |es|
  {
    if es == [] then s else Run(Step(s, es[0]), es[1..])
  }

  ghost predicate LegalRun<T>(s: Sched<T>, es: seq<Event<T>>)
    decreases |es|
  {
    es == [] || (Legal(s, es[0]) && LegalRun(Step(s, es[0]), es[1..]))
  }

  /** In every run from a tidy state no thread is in two places, and idle is in neither queue. */
  lemma {:induction false} RunKeepsTidy<T>(s: Sched<T>, es: seq<Event<T>>)
    requires Tidy(s) && LegalRun(s, es)
    ensures Tidy(Run(s, es)) && Run(s, es).tcb.Keys == s.tcb.Keys
    decreases |es|
  {
    hide Tidy, Legal, Step;
    if es != [] {
      StepKeepsTidy(s, es[0]);
      RunKeepsTidy(Step(s, es[0]), es[1..]);
    }
  }

  /** The running thread is marked Running, or is idle; no quantum flag is left over; idle's budget is short. */
  ghost predicate Sound<T>(s: Sched<T>) {
    (s.curr == s.idle || Get(s, s.curr).state == Running) && !s.quantumPast && Get(s, s.idle).budget <= 100
  }

  /** The step does not hand the processor from idle straight to a thread that wakes. */
  ghost predicate Clean<T>(s: Sched<T>, e: Event<T>) {
    match e
    case UnblockCall(_) => !(s.ready == [] && s.curr == s.idle)
    case TimerTick(_) => !(s.ready == [] && s.curr == s.idle && exists t | t in s.waiting :: Due(s, t))
    case _ => true
  }

  lemma SwitchSound<T>(s: Sched<T>, next: T)
    requires next == s.idle || Get(s, next).state == Running
    requires s.quantumPast ==> s.curr != s.idle && Get(s, s.curr).state == Running
    ensures var r := SwitchTask(s, next);
      (next == s.idle || Get(r, next).state == Running) && !r.quantumPast && Get(r, s.idle).budget == Get(s, s.idle).budget
  {
  }

  lemma ScheduleSound<T>(s: Sched<T>)
    requires Rooted(s) && (s.quantumPast ==> s.curr != s.idle && Get(s, s.curr).state == Running) && Get(s, s.idle).budget <= 100
    ensures Sound(Schedule(s))
  {
    ScheduleIs(s);
    if s.ready == [] {
      SwitchSound(s, s.idle);
      hide SwitchTask;
    } else {
      var next := s.ready[0];
      assert next in s.ready;
      var s1 := Put(Charge(s), next, Get(Charge(s), next).(state := Running)).(ready := s.ready[1..]);
      SwitchSound(s1, next);
      hide SwitchTask;
    }
  }

  /** A switch away from a thread marked Running, or from idle, drops nothing. */
  lemma ScheduleConserves<T>(s: Sched<T>, t: T)
    requires Rooted(s) && (s.curr == s.idle || Get(s, s.curr).state == Running)
    ensures Places(Schedule(s), t) == Places(s, t)
  {
    hide Schedule;
    ScheduleMoves(s, t);
  }

  lemma DrainedSound<T>(s: Sched<T>)
    requires Rooted(s) && Drainable(s) && Sound(s) && !TakesOver(s, Woken(s, s.waiting))
    ensures Sound(Drained(s, s.waiting)) && Drained(s, s.waiting).curr == s.curr
    ensures Get(Drained(s, s.waiting), s.curr) == Get(s, s.curr)
  {
    DrainedIs(s, |s.waiting|);
    FullSlice(s.waiting);
    hide Drained, Woken, Kept, Once;
    var d := Drained(s, s.waiting);
    assert Get(d, s.curr) == Get(s, s.curr) && Get(d, s.idle) == Get(s, s.idle);
  }

  lemma CleanTick<T>(s: Sched<T>, frame: IrqFrame)
    requires Tidy(s) && Clean(s, TimerTick(frame))
    ensures !TakesOver(Entered(s, frame), Woken(Entered(s, frame), s.waiting))
  {
    var s1 := Entered(s, frame);
    if s.curr != s.idle {
      NotQueued(s);
    }
    hide Woken, Tidy;
    var woken := Woken(s1, s.waiting);
    if woken != [] {
      assert woken[0] in woken;
      PartsOf(s1, s.waiting, woken[0]);
    }
  }

  lemma ExpiredConserves<T>(s: Sched<T>, t: T)
    requires Rooted(s) && Sound(s) && t in s.tcb
    ensures Sound(Expire(s)) && Places(Expire(s), t) == Places(s, t)
  {
    var q := s.(quantumPast := true);
    FlagRooted(s);
    hide Schedule, Places, Rooted;
    var delta := s.now - Get(s, s.curr).execStart;
    if delta >= Get(s, s.curr).budget {
      ScheduleSound(s);
      ScheduleConserves(s, t);
    } else if delta == 100 {
      ScheduleSound(q);
      ScheduleConserves(q, t);
    }
  }

  lemma TickConserves<T>(s: Sched<T>, frame: IrqFrame, t: T)
    requires Tidy(s) && Sound(s) && Clean(s, TimerTick(frame)) && t in s.tcb
    ensures Sound(Ticked(s, frame)) && Places(Ticked(s, frame), t) == Places(s, t)
  {
    var s1 := Entered(s, frame);
    var s2 := Drained(s1, s1.waiting);
    assert Sound(s1);
    EnteredIs(s, frame);
    CleanTick(s, frame);
    assert Places(s1, t) == Places(s, t);
    hide Entered, Drained, Tidy, Places, Woken, Expire, Sound, Clean;
    DrainedSound(s1);
    DrainedRooted(s1);
    DrainedMoves(s1, t);
    ExpiredConserves(s2, t);
    SoundOn(Expire(s2), t);
  }

  lemma SoundOn<T>(s: Sched<T>, t: T)
    ensures Sound(s.(interrupts := true)) == Sound(s) && Places(s.(interrupts := true), t) == Places(s, t)
  {
  }

  lemma ParkConserves<T>(s: Sched<T>, b: Tcb, t: T)
    requires Tidy(s) && Sound(s) && s.curr != s.idle && b.state != Running && t in s.tcb
    ensures Sound(Schedule(Parked(s, b))) && Places(Schedule(Parked(s, b)), t) == Places(s, t)
  {
    ParkedRooted(s, b);
    ParkTidies(s, b);
    assert !Parked(s, b).quantumPast && Get(Parked(s, b), s.idle) == Get(s, s.idle);
    hide Schedule, Places, Tidy, Rooted;
    ScheduleSound(Parked(s, b));
  }

  lemma YieldConserves<T>(s: Sched<T>, t: T)
    requires Tidy(s) && Sound(s) && s.curr != s.idle && s.ready != [] && t in s.tcb
    ensures Sound(Schedule(Requeued(s))) && Places(Schedule(Requeued(s)), t) == Places(s, t)
  {
    RequeuedRooted(s);
    YieldTidies(s);
    assert !Requeued(s).quantumPast && Get(Requeued(s), s.idle) == Get(s, s.idle);
    hide Schedule, Places, Tidy, Rooted, Requeues;
    ScheduleSound(Requeued(s));
  }

  /** Unblocking keeps the running thread sound exactly when it does not take the processor from idle. */
  lemma UnblockSound<T>(s: Sched<T>, u: T)
    requires Tidy(s) && Sound(s) && u in s.waiting
    ensures Sound(Wake(s, u)) <==> !(s.ready == [] && s.curr == s.idle)
  {
    WakeIs(s, u);
    WakeTcb(s, u, u);
    WakeTcb(s, u, s.curr);
    WakeTcb(s, u, s.idle);
    if s.curr != s.idle {
      NotQueued(s);
    }
    hide Wake, Tidy;
  }

  /** In a clean step every thread keeps its place, the admitted one gains one, and the state stays sound. */
  lemma StepConserves<T>(s: Sched<T>, e: Event<T>, t: T)
    requires Tidy(s) && Sound(s) && Legal(s, e) && Clean(s, e) && t in s.tcb
    ensures Sound(Step(s, e))
    ensures Places(Step(s, e), t) == if e == AddThread(t) then 1 else Places(s, t)
  {
    StepIs(s, e) by { TidyRooted(s); }
    hide Step, Schedule, Wake, Ticked, Places, Parked, Requeued, Tidy, Sound, Clean;
    match e {
      case AddThread(u) =>
        AddTidies(s, u);
        AddSound(s, u);
      case TimerTick(frame) => TickConserves(s, frame, t);
      case Reschedule => RescheduleConserves(s, t);
      case SleepCall(ms) =>
        ParkConserves(s, Get(s, s.curr).(sleepTime := ms, state := Sleep), t);
        SoundOn(Schedule(Parked(s, Get(s, s.curr).(sleepTime := ms, state := Sleep))), t);
      case YieldCall =>
        YieldConserves(s, t);
        SoundOn(Schedule(Requeued(s)), t);
      case BlockCall =>
        ParkConserves(s, Get(s, s.curr).(state := Blocked), t);
        SoundOn(Schedule(Parked(s, Get(s, s.curr).(state := Blocked))), t);
      case UnblockCall(u) =>
        WakeTidies(s, u);
        UnblockClean(s, u);
        SoundOn(Wake(s, u), t);
      case BudgetCall(u, ms) =>
        BudgetTidies(s, u, ms);
        BudgetSound(s, u, ms);
    }
  }

  lemma AddSound<T>(s: Sched<T>, u: T)
    requires Tidy(s) && Sound(s) && Legal(s, AddThread(u))
    ensures Sound(AddReady(s, u))
  {
    assert s.curr != u;
  }

  lemma RescheduleConserves<T>(s: Sched<T>, t: T)
    requires Tidy(s) && Sound(s)
    ensures Sound(Schedule(s)) && Places(Schedule(s), t) == Places(s, t)
  {
    hide Schedule, Places;
    ScheduleSound(s);
    ScheduleConserves(s, t);
  }

  lemma UnblockClean<T>(s: Sched<T>, u: T)
    requires Tidy(s) && Sound(s) && u in s.waiting && Clean(s, UnblockCall(u))
    ensures Sound(Wake(s, u))
  {
    hide Wake, Tidy, Sound;
    UnblockSound(s, u);
  }

  lemma BudgetSound<T>(s: Sched<T>, u: T, ms: nat)
    requires Sound(s) && u != s.idle
    ensures Sound(SetBudget(s, u, ms))
  {
  }

  ghost predicate CleanRun<T>(s: Sched<T>, es: seq<Event<T>>)
    decreases |es|
  {
    es == [] || (Legal(s, es[0]) && Clean(s, es[0]) && CleanRun(Step(s, es[0]), es[1..]))
  }

  /** In every clean run each thread that had a place, or was admitted, has exactly one place, and the running
      thread is Running or idle. */
  lemma {:induction false} RunConserves<T>(s: Sched<T>, es: seq<Event<T>>, t: T)
    requires Tidy(s) && Sound(s) && CleanRun(s, es) && t in s.tcb
    ensures Tidy(Run(s, es)) && Sound(Run(s, es))
    ensures Places(Run(s, es), t) == if AddThread(t) in es then 1 else Places(s, t)
    decreases |es|
  {
    hide Tidy, Sound, Legal, Clean, Step, Places;
    if es != [] {
      StepKeepsTidy(s, es[0]);
      StepConserves(s, es[0], t);
      RunConserves(Step(s, es[0]), es[1..], t);
      assert es == [es[0]] + es[1..];
    }
  }

  /** Why the clean steps matter: a switch away from a thread that is neither Running nor idle loses it. */
  lemma SwitchLoses<T>(s: Sched<T>)
    requires Tidy(s) && s.curr != s.idle
    ensures Places(Schedule(s), s.curr) == 1 <==> Get(s, s.curr).state == Running
  {
    NotQueued(s);
    assert Places(s, s.curr) == 1 by {
      assert Places(s, s.curr) <= 1;
    }
    assert s.ready != [] ==> s.ready[0] in s.ready;
    hide Schedule, Places, Tidy;
    ScheduleMoves(s, s.curr) by { TidyRooted(s); }
  }

  /** From the constructor on: in every clean run each thread but idle is in exactly one place once it has been
      admitted, and in none before; the running thread is Running or idle, and idle is in neither queue. */
  lemma PlacementFromStart<T>(idle: T, tcb: map<T, Tcb>, now: nat, interrupts: bool, es: seq<Event<T>>, t: T)
    requires idle in tcb && tcb[idle].budget <= 100 && t in tcb && t != idle && CleanRun(Initial(idle, tcb, now, interrupts), es)
    ensures var r := Run(Initial(idle, tcb, now, interrupts), es);
      && Places(r, t) == (if AddThread(t) in es then 1 else 0)
      && (r.curr == r.idle || Get(r, r.curr).state == Running)
      && r.idle !in r.ready && r.idle !in r.waiting
  {
    var s := Initial(idle, tcb, now, interrupts);
    InitialIsTidy(idle, tcb, now, interrupts);
    OccursOne(t, t);
    assert Sound(s) && Places(s, t) == 0;
    hide Run, CleanRun, Initial, Places;
    RunConserves(s, es, t);
  }
}
