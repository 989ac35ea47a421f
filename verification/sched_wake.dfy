/** Sleeping and resuming: the tick that ends a sleep, and the register frame a resumed thread gets back. */
module SchedWake {
  import opened SchedSpec
  import opened SchedCore
  import opened SchedLaws
  import opened SchedRuns
  import opened SchedTime

  /** In the waiting queue, sleeping or blocked, with so many milliseconds to go. */
  ghost predicate Waits<T>(s: Sched<T>, t: T, st: ThreadState, left: nat) {
    t in s.waiting && Get(s, t).state == st && (st == Sleep || st == Blocked) && Get(s, t).sleepTime == left
  }

  function AfterTick(st: ThreadState, left: nat): nat {
    if st == Sleep && left > 0 then left - 1 else left
  }

  lemma WaitingAlone<T>(s: Sched<T>, t: T)
    requires Tidy(s) && t in s.waiting
    ensures t in s.tcb && t != s.curr && t != s.idle && t !in s.ready && Places(s, t) == 1
  {
    assert Places(s, t) <= 1;
    OccursSplit(s.ready, [], t);
    OccursSplit(s.waiting, [], t);
  }

  /** A switch leaves the waiting queue and its members alone. */
  lemma SwitchedWaiting<T>(s: Sched<T>, t: T)
    requires Rooted(s) && s.curr != t && t != s.idle && t !in s.ready
    ensures Schedule(s).waiting == s.waiting && Get(Schedule(s), t) == Get(s, t)
  {
    hide Schedule, Get;
    ScheduleIs(s);
    ScheduleOther(s, t);
    assert s.ready != [] ==> s.ready[0] in s.ready;
  }

  lemma WaitingSwitched<T>(s: Sched<T>, t: T, st: ThreadState, left: nat)
    requires Rooted(s) && s.curr != t && t != s.idle && t !in s.ready && Waits(s, t, st, left)
    ensures Waits(Schedule(s).(interrupts := true), t, st, left) && Waits(Schedule(s), t, st, left)
  {
    hide Schedule;
    SwitchedWaiting(s, t);
  }

  lemma WaitingParked<T>(s: Sched<T>, b: Tcb, t: T, st: ThreadState, left: nat)
    requires Tidy(s) && s.curr != s.idle && b.state != Running && Waits(s, t, st, left)
    ensures Waits(Schedule(Parked(s, b)).(interrupts := true), t, st, left)
  {
    WaitingAlone(s, t);
    ParkedRooted(s, b);
    hide Schedule, Rooted, Tidy, Requeues, Places;
    WaitingSwitched(Parked(s, b), t, st, left);
  }

  lemma WaitingYield<T>(s: Sched<T>, t: T, st: ThreadState, left: nat)
    requires Tidy(s) && s.curr != s.idle && Waits(s, t, st, left)
    ensures Waits(Schedule(Requeued(s)).(interrupts := true), t, st, left)
  {
    WaitingAlone(s, t);
    RequeuedRooted(s);
    hide Schedule, Rooted, Tidy, Requeues, Places;
    WaitingSwitched(Requeued(s), t, st, left);
  }

  lemma {:induction false} RemoveKeeps<T>(q: seq<T>, u: T, t: T)
    requires t in q && t != u
    ensures t in Remove(q, u)
  {
    if q[0] != u && q[0] != t {
      RemoveKeeps(q[1..], u, t);
    }
  }

  lemma WaitingWake<T>(s: Sched<T>, u: T, t: T, st: ThreadState, left: nat)
    requires Tidy(s) && u in s.waiting && u != t && Waits(s, t, st, left)
    ensures Waits(Wake(s, u).(interrupts := true), t, st, left)
  {
    assert u != s.idle;
    WakeIs(s, u);
    WakeTcb(s, u, t);
    RemoveKeeps(s.waiting, u, t);
    hide Wake, Tidy, Remove;
  }

  /** The wake-up loop takes out of the waiting queue exactly the due threads. */
  lemma DrainedPlaces<T>(s: Sched<T>, t: T)
    requires Drainable(s) && t in s.waiting && t !in s.ready && t != s.curr
    ensures var d := Drained(s, s.waiting);
      if Due(s, t) then t !in d.waiting else t in d.waiting && d.curr != t && t !in d.ready
  {
    var d := Drained(s, s.waiting);
    hide *;
    DrainedIs(s, |s.waiting|);
    FullSlice(s.waiting);
    PartsOf(s, s.waiting, t);
    PassedAll(s, d);
    if !Due(s, t) {
      NotAmong(s.ready, Woken(s, s.waiting), t);
    }
  }

  lemma PassedAll<T>(s: Sched<T>, d: Sched<T>)
    requires PassedQueues(s, d, |s.waiting|)
    ensures d.waiting == Kept(s, s.waiting)
    ensures var woken := Woken(s, s.waiting);
      if TakesOver(s, woken) then woken != [] && d.curr == woken[0] && d.ready == woken[1..]
      else d.curr == s.curr && d.ready == s.ready + woken
  {
    FullSlice(s.waiting);
    hide Kept, Woken;
    assert Kept(s, s.waiting) + [] == Kept(s, s.waiting);
  }

  lemma NotAmong<T>(p: seq<T>, q: seq<T>, t: T)
    requires t !in p && t !in q
    ensures t !in p + q && (q != [] ==> t != q[0] && t !in q[1..])
  {
  }

  /** After the wake-up loop: still waiting with one millisecond less, or out of the waiting queue. */
  lemma WaitingDrained<T>(s: Sched<T>, t: T, st: ThreadState, left: nat)
    requires Rooted(s) && Drainable(s) && Waits(s, t, st, left) && t !in s.ready && t != s.curr && t != s.idle
    ensures var d := Drained(s, s.waiting);
      if st == Sleep && left <= 1 then t !in d.waiting
      else Waits(d, t, st, AfterTick(st, left)) && d.curr != t && t !in d.ready
  {
    assert t in s.tcb;
    DrainedPlaces(s, t);
    DrainedOther(s, t);
    hide Drained, Rooted, Drainable;
  }

  lemma WaitingEntered<T>(s: Sched<T>, frame: IrqFrame, t: T, st: ThreadState, left: nat)
    requires Waits(s, t, st, left) && t != s.curr
    ensures Waits(Entered(s, frame), t, st, left)
  {
  }

  lemma WaitingTick<T>(s: Sched<T>, frame: IrqFrame, t: T, st: ThreadState, left: nat)
    requires Tidy(s) && Waits(s, t, st, left)
    ensures var r := Ticked(s, frame);
      if st == Sleep && left <= 1 then t !in r.waiting else Waits(r, t, st, AfterTick(st, left))
  {
    WaitingAlone(s, t);
    EnteredIs(s, frame);
    WaitingEntered(s, frame, t, st, left);
    var s1 := Entered(s, frame);
    var s2 := Drained(s1, s1.waiting);
    hide Entered, Drained, Tidy, Woken, Schedule, Rooted, Drainable, Places, Elapsed, Waits, Get;
    DrainedRooted(s1);
    WaitingDrained(s1, t, st, left);
    ExpiredWaiting(s2);
    if st == Blocked || left > 1 {
      WaitingExpired(s2, t, st, AfterTick(st, left));
    }
  }

  lemma ExpiredWaiting<T>(s: Sched<T>)
    requires Rooted(s)
    ensures Expire(s).(interrupts := true).waiting == s.waiting
  {
    hide Schedule;
    ScheduleIs(s);
    ScheduleIs(s.(quantumPast := true));
  }

  lemma WaitingExpired<T>(s: Sched<T>, t: T, st: ThreadState, left: nat)
    requires Rooted(s) && s.curr != t && t != s.idle && t !in s.ready && Waits(s, t, st, left)
    ensures Waits(Expire(s).(interrupts := true), t, st, left)
  {
    hide Schedule;
    WaitingSwitched(s, t, st, left);
    WaitingSwitched(s.(quantumPast := true), t, st, left);
  }

  lemma WaitingStep<T>(s: Sched<T>, e: Event<T>, t: T, st: ThreadState, left: nat)
    requires Tidy(s) && Legal(s, e) && Waits(s, t, st, left) && e != UnblockCall(t)
    ensures var r := Step(s, e);
      if !e.TimerTick? then Waits(r, t, st, left)
      else if st == Sleep && left <= 1 then t !in r.waiting
      else Waits(r, t, st, AfterTick(st, left))
  {
    TidyRooted(s);
    StepIs(s, e);
    WaitingAlone(s, t);
    hide Tidy, Step, Schedule, Wake, Ticked, Places, Parked, Requeued, Rooted;
    match e {
      case AddThread(u) =>
      case TimerTick(frame) => WaitingTick(s, frame, t, st, left);
      case Reschedule => WaitingSwitched(s, t, st, left);
      case SleepCall(ms) => WaitingParked(s, Get(s, s.curr).(sleepTime := ms, state := Sleep), t, st, left);
      case YieldCall => WaitingYield(s, t, st, left);
      case BlockCall => WaitingParked(s, Get(s, s.curr).(state := Blocked), t, st, left);
      case UnblockCall(u) => WaitingWake(s, u, t, st, left);
      case BudgetCall(u, ms) =>
    }
  }

  lemma {:induction false} SleepingRun<T>(s: Sched<T>, es: seq<Event<T>>, t: T, left: nat, left': int)
    requires Tidy(s) && LegalRun(s, es) && Waits(s, t, Sleep, left) && UnblockCall(t) !in es
    requires left' == left - Ticks(es) && (Ticks(es) > 0 ==> left' >= 1)
    ensures Tidy(Run(s, es)) && left' >= 0 && Waits(Run(s, es), t, Sleep, left')
    decreases |es|
  {
    if es != [] {
      var e, r := es[0], Step(s, es[0]);
      var left1 := if e.TimerTick? then left - 1 else left;
      assert e in es && forall x | x in es[1..] :: x in es;
      hide Tidy, Waits, Step, Legal;
      StepKeepsTidy(s, e);
      WaitingStep(s, e, t, Sleep, left);
      SleepingRun(r, es[1..], t, left1, left');
    }
  }

  /** A blocked thread stays in the waiting queue, over every run, until it is unblocked. */
  lemma {:induction false} BlockedStays<T>(s: Sched<T>, es: seq<Event<T>>, t: T, left: nat)
    requires Tidy(s) && LegalRun(s, es) && Waits(s, t, Blocked, left) && UnblockCall(t) !in es
    ensures Tidy(Run(s, es)) && Waits(Run(s, es), t, Blocked, left)
    decreases |es|
  {
    if es != [] {
      var e, r := es[0], Step(s, es[0]);
      assert e in es && forall x | x in es[1..] :: x in es;
      hide Tidy, Waits, Step, Legal;
      StepKeepsTidy(s, e);
      WaitingStep(s, e, t, Blocked, left);
      BlockedStays(r, es[1..], t, left);
    }
  }

  lemma BlockStarts<T>(s: Sched<T>)
    requires Tidy(s) && Legal(s, BlockCall)
    ensures Tidy(Step(s, BlockCall)) && Waits(Step(s, BlockCall), s.curr, Blocked, Get(s, s.curr).sleepTime)
  {
    StepKeepsTidy(s, BlockCall);
    TidyRooted(s);
    StepIs(s, BlockCall);
    assert s.curr != s.idle;
    hide Tidy, Step, Schedule, Parked, Rooted, Waits;
    ParkedWaits(s, Get(s, s.curr).(state := Blocked));
  }

  lemma SleepStarts<T>(s: Sched<T>, n: nat)
    requires Tidy(s) && Legal(s, SleepCall(n))
    ensures Tidy(Step(s, SleepCall(n))) && Waits(Step(s, SleepCall(n)), s.curr, Sleep, n)
  {
    StepKeepsTidy(s, SleepCall(n));
    TidyRooted(s);
    StepIs(s, SleepCall(n));
    assert s.curr != s.idle;
    hide Tidy, Step, Schedule, Parked, Rooted, Waits;
    ParkedWaits(s, Get(s, s.curr).(sleepTime := n, state := Sleep));
  }

  lemma ParkedWaits<T>(s: Sched<T>, b: Tcb)
    requires Tidy(s) && s.curr != s.idle && (b.state == Sleep || b.state == Blocked)
    ensures Waits(Schedule(Parked(s, b)).(interrupts := true), s.curr, b.state, b.sleepTime)
  {
    var x := Parked(s, b);
    ParkedRooted(s, b);
    NotQueued(s);
    hide Schedule, Tidy, Rooted, Requeues, Places;
    RootedParts(x);
    ScheduleIs(x);
    LeftBehind(x);
  }

  /** The block of a thread that gives up the processor without being Running is left as it is. */
  lemma LeftBehind<T>(s: Sched<T>)
    requires s.switchCounter == 0 && s.curr != s.idle && s.curr !in s.ready && Get(s, s.curr).state != Running
    ensures var b := Get(s, s.curr);
      Get(Schedule(s), s.curr) == if s.quantumPast && s.ready != [] then b.(budget := Get(Schedule(s), s.curr).budget) else b
  {
    assert s.ready != [] ==> s.ready[0] in s.ready;
  }

  lemma WokenInDrained<T>(s: Sched<T>, t: T, left: nat)
    requires Drainable(s) && Waits(s, t, Sleep, left) && left <= 1 && t != s.curr
    ensures var d := Drained(s, s.waiting); (d.curr == t && TakesOver(s, Woken(s, s.waiting))) || t in d.ready
  {
    var d, woken := Drained(s, s.waiting), Woken(s, s.waiting);
    assert Due(s, t) && t in s.waiting;
    hide *;
    DrainedIs(s, |s.waiting|);
    FullSlice(s.waiting);
    PartsOf(s, s.waiting, t);
    PassedAll(s, d);
    InParts(s.ready, woken, t);
  }

  lemma InParts<T>(p: seq<T>, q: seq<T>, t: T)
    requires t in q
    ensures t in p + q && (t == q[0] || t in q[1..])
  {
    assert q == [q[0]] + q[1..];
  }

  /** A thread that wakes with a budget goes to the ready queue or straight to the processor. */
  lemma WokenIsPlaced<T>(s: Sched<T>, frame: IrqFrame, t: T, left: nat)
    requires Tidy(s) && Waits(s, t, Sleep, left) && left <= 1 && Get(s, t).budget >= 1
    ensures var r := Ticked(s, frame); r.curr == t || t in r.ready
  {
    WaitingAlone(s, t);
    EnteredIs(s, frame);
    WaitingEntered(s, frame, t, Sleep, left);
    var s1 := Entered(s, frame);
    var s2 := Drained(s1, s1.waiting);
    assert Get(s1, t).budget == Get(s, t).budget && t in s1.tcb;
    hide Entered, Drained, Tidy, Woken, Schedule, Rooted, Drainable, Places, Elapsed, Waits, Get;
    DrainedRooted(s1);
    WokenInDrained(s1, t, left);
    DrainedOther(s1, t);
    PlacedExpired(s2, t);
  }

  lemma PlacedExpired<T>(s: Sched<T>, t: T)
    requires Rooted(s) && (s.curr == t ==> Elapsed(s) == 0 && Get(s, t).budget >= 1) && (s.curr == t || t in s.ready)
    ensures var r := Expire(s); r.curr == t || t in r.ready
  {
    hide Schedule;
    if s.curr != t {
      SwitchedQueue(s, t);
      SwitchedQueue(s.(quantumPast := true), t);
    }
  }

  /** A thread that sleeps for `n` milliseconds leaves the waiting queue on exactly tick max(1, n), wherever it
      stands in the queue and whatever other threads do, unless it is unblocked first. If it has a budget it is then
      ready or running. */
  lemma SleepWakesExactly<T>(s: Sched<T>, n: nat, es: seq<Event<T>>, frame: IrqFrame)
    requires Tidy(s) && Legal(s, SleepCall(n)) && LegalRun(Step(s, SleepCall(n)), es) && UnblockCall(s.curr) !in es
    requires Ticks(es) < if n == 0 then 1 else n
    ensures var m := Run(Step(s, SleepCall(n)), es);
      var r := Step(m, TimerTick(frame));
      && s.curr in m.waiting
      && (s.curr in r.waiting <==> Ticks(es) + 1 < n)
      && (Ticks(es) + 1 >= n && Get(m, s.curr).budget >= 1 ==> s.curr in r.ready || r.curr == s.curr)
  {
    var t, r := s.curr, Step(s, SleepCall(n));
    var m, e := Run(r, es), TimerTick(frame);
    var left := n - Ticks(es);
    assert Legal(m, e);
    hide *;
    SleepStarts(s, n);
    SleepingRun(r, es, t, n, left);
    WaitsIn(m, t, Sleep, left);
    WaitingStep(m, e, t, Sleep, left);
    if left > 1 {
      WaitsIn(Step(m, e), t, Sleep, AfterTick(Sleep, left));
    } else if Get(m, t).budget >= 1 {
      TickStep(m, frame);
      WokenIsPlaced(m, frame, t, left);
    }
  }

  lemma WaitsIn<T>(s: Sched<T>, t: T, st: ThreadState, left: nat)
    requires Waits(s, t, st, left)
    ensures t in s.waiting
  {
  }

  lemma TickStep<T>(s: Sched<T>, frame: IrqFrame)
    requires Tidy(s)
    ensures Step(s, TimerTick(frame)) == Ticked(s, frame)
  {
    hide Tick, Ticked;
    TickIs(s, frame);
  }

  /** A thread that blocks stays in the waiting queue, over every run, until it is unblocked. */
  lemma BlocksUntilUnblocked<T>(s: Sched<T>, es: seq<Event<T>>)
    requires Tidy(s) && Legal(s, BlockCall) && LegalRun(Step(s, BlockCall), es) && UnblockCall(s.curr) !in es
    ensures var r := Run(Step(s, BlockCall), es); s.curr in r.waiting && Get(r, s.curr).state == Blocked
  {
    hide Tidy, Step, Run, LegalRun, Legal;
    BlockStarts(s);
    BlockedStays(Step(s, BlockCall), es, s.curr, Get(s, s.curr).sleepTime);
  }

  // Saved contexts.

  ghost predicate SameFrame<T>(s: Sched<T>, r: Sched<T>, t: T) {
    Get(r, t).registers == Get(s, t).registers
  }

  lemma SwitchFrame<T>(s: Sched<T>, next: T, t: T)
    ensures SameFrame(s, SwitchTask(s, next), t)
  {
  }

  lemma ScheduleFrames<T>(s: Sched<T>, t: T)
    ensures SameFrame(s, Schedule(s), t)
  {
    if s.switchCounter == 0 {
      if s.ready == [] {
        SwitchFrame(s, s.idle, t);
        hide SwitchTask;
      } else {
        var next := s.ready[0];
        var s1 := Put(Charge(s), next, Get(Charge(s), next).(state := Running)).(ready := s.ready[1..]);
        assert SameFrame(s, s1, t);
        SwitchFrame(s1, next, t);
        hide SwitchTask, Charge;
      }
    }
  }

  lemma UnlockFrames<T>(s: Sched<T>, t: T)
    ensures SameFrame(s, Unlock(s), t)
  {
    hide Schedule;
    ScheduleFrames(s.(switchCounter := (s.switchCounter + 255) % 256, postponed := false), t);
  }

  lemma UnblockFrames<T>(s: Sched<T>, u: T, t: T)
    ensures SameFrame(s, Unblock(s, u), t)
  {
    var l := Lock(s);
    var s1 := Put(l, u, Get(l, u).(sleepTime := 0, state := Ready)).(waiting := Remove(l.waiting, u));
    SwitchFrame(s1, u, t);
    hide SwitchTask, Unlock, Remove;
    UnlockFrames(Wake(l, u), t);
  }

  lemma DrainFrames<T>(s: Sched<T>, u: T, t: T)
    ensures SameFrame(s, Drain(s, u), t)
  {
    var b := Get(s, u);
    var left := if b.sleepTime > 0 then b.sleepTime - 1 else 0;
    UnblockFrames(Put(s, u, b.(sleepTime := left)), u, t);
    hide Unblock;
  }

  lemma {:induction false} DrainAllFrames<T>(s: Sched<T>, ts: seq<T>, t: T)
    ensures SameFrame(s, DrainAll(s, ts), t)
  {
    hide Drain;
    if ts != [] {
      DrainAllFrames(s, ts[..|ts| - 1], t);
      DrainFrames(DrainAll(s, ts[..|ts| - 1]), ts[|ts| - 1], t);
    }
  }

  lemma TickFrames<T>(s: Sched<T>, frame: IrqFrame, t: T)
    ensures Get(Tick(s, frame), t).registers == if s.curr == t then frame else Get(s, t).registers
  {
    var s1 := Enter(s, frame);
    assert Get(s1, t).registers == if s.curr == t then frame else Get(s, t).registers;
    var s2 := DrainAll(s1, s1.waiting);
    hide Enter, DrainAll, Schedule, Unlock;
    DrainAllFrames(s1, s1.waiting, t);
    ScheduleFrames(s2, t);
    ScheduleFrames(s2.(quantumPast := true), t);
    UnlockFrames(Expire(s2), t);
  }

  /** A saved frame is written by the ticks that find its thread running, and by nothing else. */
  lemma StepFrames<T>(s: Sched<T>, e: Event<T>, t: T)
    ensures Get(Step(s, e), t).registers == if e.TimerTick? && s.curr == t then e.frame else Get(s, t).registers
  {
    hide Schedule, Unlock, Unblock, Tick;
    var l := Lock(s);
    match e {
      case AddThread(_) =>
      case TimerTick(frame) => TickFrames(s, frame, t);
      case Reschedule => ScheduleFrames(s, t);
      case SleepCall(ms) =>
        var x := Put(l, l.curr, Get(l, l.curr).(sleepTime := ms, state := Sleep)).(waiting := l.waiting + [l.curr]);
        ScheduleFrames(x, t);
        UnlockFrames(Schedule(x), t);
      case YieldCall =>
        var x := Put(l, l.curr, Get(l, l.curr).(state := Ready, budget := 6)).(ready := l.ready + [l.curr]);
        ScheduleFrames(x, t);
        UnlockFrames(Schedule(x), t);
      case BlockCall =>
        var x := Put(l, l.curr, Get(l, l.curr).(state := Blocked)).(waiting := l.waiting + [l.curr]);
        ScheduleFrames(x, t);
        UnlockFrames(Schedule(x), t);
      case UnblockCall(u) => UnblockFrames(s, u, t);
      case BudgetCall(_, _) =>
    }
  }

  /** The frame of the last tick that took the processor away from `t`; its entry frame if there was none. */
  ghost function Preempted<T>(s: Sched<T>, es: seq<Event<T>>, t: T, entry: IrqFrame): IrqFrame
    decreases |es|
  {
    if es == [] then entry
    else
      var r := Step(s, es[0]);
      Preempted(r, es[1..], t, if es[0].TimerTick? && s.curr == t && r.curr != t then es[0].frame else entry)
  }

  /** `t` gives up the processor only to the timer. */
  ghost predicate OnlyPreempted<T>(s: Sched<T>, es: seq<Event<T>>, t: T)
    decreases |es|
  {
    es == [] || ((s.curr == t && Step(s, es[0]).curr != t ==> es[0].TimerTick?) && OnlyPreempted(Step(s, es[0]), es[1..], t))
  }

  lemma {:induction false} PreemptedIsSaved<T>(s: Sched<T>, es: seq<Event<T>>, t: T, entry: IrqFrame)
    requires OnlyPreempted(s, es, t) && (s.curr != t ==> Get(s, t).registers == entry)
    ensures Run(s, es).curr != t ==> Get(Run(s, es), t).registers == Preempted(s, es, t, entry)
    decreases |es|
  {
    hide Step;
    if es != [] {
      var r := Step(s, es[0]);
      StepFrames(s, es[0], t);
      PreemptedIsSaved(r, es[1..], t, if es[0].TimerTick? && s.curr == t && r.curr != t then es[0].frame else entry);
    }
  }

  /** Context preservation: when a tick gives the processor to `t`, the frame it hands back is the one saved when
      `t` was last preempted, or its entry frame. */
  lemma ContextPreserved<T>(s: Sched<T>, es: seq<Event<T>>, frame: IrqFrame, t: T)
    requires OnlyPreempted(s, es, t) && Run(s, es).curr != t
    requires Step(Run(s, es), TimerTick(frame)).curr == t
    ensures FrameOut(Step(Run(s, es), TimerTick(frame))) == Preempted(s, es, t, Get(s, t).registers)
  {
    hide Step;
    PreemptedIsSaved(s, es, t, Get(s, t).registers);
    StepFrames(Run(s, es), TimerTick(frame), t);
  }

  ghost predicate TicksAndAdmissions<T>(es: seq<Event<T>>) {
    forall e | e in es :: e.TimerTick? || e.AddThread?
  }

  /** Runs of ticks and admissions only are of that kind for every thread. */
  lemma {:induction false} TicksOnlyPreempt<T>(s: Sched<T>, es: seq<Event<T>>, t: T)
    requires TicksAndAdmissions(es)
    ensures OnlyPreempted(s, es, t)
    decreases |es|
  {
    if es != [] {
      var r, e := Step(s, es[0]), es[0];
      assert e in es && forall x | x in es[1..] :: x in es;
      assert e.AddThread? ==> r.curr == s.curr;
      hide Step;
      TicksOnlyPreempt(r, es[1..], t);
    }
  }

  /** What ticks hand back to the processor: whose frame, and which. */
  function HandedBack<T(==)>(s: Sched<T>, es: seq<Event<T>>): seq<(T, IrqFrame)>
    decreases |es|
  {
    if es == [] then []
    else
      var r := Step(s, es[0]);
      (if es[0].TimerTick? then [(r.curr, FrameOut(r))] else []) + HandedBack(r, es[1..])
  }

  ghost predicate Tickless<T>(es: seq<Event<T>>) {
    forall e | e in es :: !e.TimerTick?
  }

  lemma {:induction false} TicklessKeeps<T>(s: Sched<T>, es: seq<Event<T>>, t: T)
    requires Tickless(es)
    ensures HandedBack(s, es) == [] && Get(Run(s, es), t).registers == Get(s, t).registers
    decreases |es|
  {
    if es != [] {
      assert es[0] in es && forall x | x in es[1..] :: x in es;
      StepFrames(s, es[0], t);
      hide Step;
      TicklessKeeps(Step(s, es[0]), es[1..], t);
    }
  }

  /** The frame saved for `t` is handed back before the next tick overwrites it if and only if it is a tick that
      dispatches `t`. A thread dispatched by another one's `sleep`, `yield`, `block` or `schedule` call loses it. */
  lemma HandedBackByTicks<T>(s: Sched<T>, e: Event<T>, mid: seq<Event<T>>, frame: IrqFrame, t: T)
    requires s.curr != t && Step(s, e).curr == t && Tickless(mid) && Run(Step(s, e), mid).curr == t
    ensures Get(Step(Run(Step(s, e), mid), TimerTick(frame)), t).registers == frame
    ensures HandedBack(s, [e] + mid) == if e.TimerTick? then [(t, Get(s, t).registers)] else []
  {
    var r := Step(s, e);
    assert ([e] + mid)[1..] == mid;
    hide Step, Run;
    StepFrames(s, e, t);
    TicklessKeeps(r, mid, t);
    StepFrames(Run(r, mid), TimerTick(frame), t);
  }
}
