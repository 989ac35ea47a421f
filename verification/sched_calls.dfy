/** What each call leaves behind: the queues, and every field of every thread block. */
module SchedCalls {
  import opened SchedSpec
  import opened SchedCore
  import opened SchedLaws
  import opened SchedRuns

  /** Who runs next. */
  function Head<T>(s: Sched<T>): T {
    if s.ready == [] then s.idle else s.ready[0]
  }

  function Tail<T>(s: Sched<T>): seq<T> {
    if s.ready == [] then [] else s.ready[1..]
  }

  /** The head of the queue has the processor and starts a slice, marked Running unless it is idle; beside its block
      and that of the thread that left, none has changed. */
  ghost predicate Passes<T>(s: Sched<T>, r: Sched<T>) {
    && r.curr == Head(s) && r.now == s.now && r.idle == s.idle && !r.quantumPast
    && Get(r, r.curr) ==
         Get(s, r.curr).(execStart := s.now, state := if r.curr == s.idle then Get(r, r.curr).state else Running)
    && forall t | t in s.tcb && t != s.curr && t != r.curr :: Get(r, t) == Get(s, t)
  }

  ghost predicate SameBlocksBut<T>(s: Sched<T>, r: Sched<T>, u: T) {
    forall t | t in s.tcb && t != u :: Get(r, t) == Get(s, t)
  }

  lemma SwitchPasses<T>(s: Sched<T>, next: T)
    requires next != s.curr && !s.quantumPast && (next != s.idle ==> Get(s, next).state == Running)
    ensures var r, b := SwitchTask(s, next), Get(s, s.curr);
      && r.curr == next && !r.quantumPast
      && Get(r, s.curr) == (if b.state == Running && s.curr != s.idle then b.(state := Ready, budget := 6) else b)
      && Get(r, next) == Get(s, next).(execStart := s.now, state := if next == s.idle then Get(r, next).state else Running)
      && forall t | t != s.curr && t != next :: Get(r, t) == Get(s, t)
  {
  }

  /** A switch away from a thread, in a state without a quantum to charge. */
  lemma SchedulePasses<T>(s: Sched<T>)
    requires s.switchCounter == 0 && !s.quantumPast && Head(s) != s.curr
    ensures var r, b := Schedule(s), Get(s, s.curr);
      Passes(s, r) && Get(r, s.curr) == if b.state == Running && s.curr != s.idle then b.(state := Ready, budget := 6) else b
  {
    ScheduleIs(s);
    if s.ready == [] {
      SwitchPasses(s, s.idle);
      hide SwitchTask;
    } else {
      var next := s.ready[0];
      var s1 := Put(s, next, Get(s, next).(state := Running)).(ready := s.ready[1..]);
      SwitchPasses(s1, next);
      hide SwitchTask;
    }
  }

  lemma HeadIsOther<T>(s: Sched<T>)
    requires Tidy(s) && (s.curr != s.idle || s.ready != [])
    ensures Head(s) != s.curr && s.curr in s.tcb && s.switchCounter == 0
  {
    assert Places(s, s.curr) <= 1;
    OccursSplit(s.ready, [], s.curr);
    assert s.ready != [] ==> s.ready[0] in s.ready;
  }

  lemma PassesFrom<T>(s: Sched<T>, x: Sched<T>, r: Sched<T>)
    requires Passes(x, r) && Head(s) == Head(x) != s.curr == x.curr && x.now == s.now && x.idle == s.idle
    requires SameBlocksBut(s, x, s.curr) && x.tcb.Keys == s.tcb.Keys && (r.curr in s.tcb)
    ensures Passes(s, r.(interrupts := true))
  {
    var r' := r.(interrupts := true);
    assert Get(x, r.curr) == Get(s, r.curr);
    forall t | t in s.tcb && t != s.curr && t != r'.curr ensures Get(r', t) == Get(s, t) {
      assert Get(r', t) == Get(r, t) == Get(x, t);
    }
  }

  /** A thread that goes to sleep or blocks waits at the end of the queue with its block otherwise unchanged. */
  lemma ParkPasses<T>(s: Sched<T>, b: Tcb)
    requires Tidy(s) && Sound(s) && s.curr != s.idle && b.state != Running
    ensures var r := Schedule(Parked(s, b)).(interrupts := true);
      && Passes(s, r) && r.ready == Tail(s) && r.waiting == s.waiting + [s.curr] && Get(r, s.curr) == b
  {
    var x := Parked(s, b);
    HeadIsOther(s);
    ParkedRooted(s, b);
    assert Head(x) == Head(s) && x.tcb.Keys == s.tcb.Keys && SameBlocksBut(s, x, s.curr) && Get(x, x.curr) == b;
    assert x.ready == s.ready && x.waiting == s.waiting + [s.curr];
    HeadKnown(s);
    ScheduleIs(x);
    SchedulePasses(x);
    assert Tail(s) + [] == Tail(s);
    hide Schedule, Tidy, Passes, SameBlocksBut, Places;
    PassesFrom(s, x, Schedule(x));
  }

  lemma HeadKnown<T>(s: Sched<T>)
    requires Tidy(s)
    ensures Head(s) in s.tcb
  {
    assert s.ready != [] ==> s.ready[0] in s.ready;
  }

  lemma SleepDoes<T>(s: Sched<T>, ms: nat)
    requires Tidy(s) && Sound(s) && Legal(s, SleepCall(ms))
    ensures var r := Step(s, SleepCall(ms));
      && Passes(s, r) && r.ready == Tail(s) && r.waiting == s.waiting + [s.curr]
      && Get(r, s.curr) == Get(s, s.curr).(sleepTime := ms, state := Sleep)
  {
    StepIs(s, SleepCall(ms));
    hide Step, Schedule, Parked, Passes, Tidy, Sound;
    ParkPasses(s, Get(s, s.curr).(sleepTime := ms, state := Sleep));
  }

  lemma BlockDoes<T>(s: Sched<T>)
    requires Tidy(s) && Sound(s) && Legal(s, BlockCall)
    ensures var r := Step(s, BlockCall);
      && Passes(s, r) && r.ready == Tail(s) && r.waiting == s.waiting + [s.curr]
      && Get(r, s.curr) == Get(s, s.curr).(state := Blocked)
  {
    StepIs(s, BlockCall);
    hide Step, Schedule, Parked, Passes, Tidy, Sound;
    ParkPasses(s, Get(s, s.curr).(state := Blocked));
  }

  /** A yield hands the processor to the head of the queue and puts the caller at its end with the default budget,
      whatever was left of its own. */
  lemma YieldDoes<T>(s: Sched<T>)
    requires Tidy(s) && Sound(s) && Legal(s, YieldCall)
    ensures var r := Step(s, YieldCall);
      && Passes(s, r) && r.curr == s.ready[0] && r.ready == s.ready[1..] + [s.curr] && r.waiting == s.waiting
      && Get(r, s.curr) == Get(s, s.curr).(state := Ready, budget := 6)
  {
    var x := Requeued(s);
    StepIs(s, YieldCall);
    HeadIsOther(s);
    HeadKnown(s);
    RequeuedRooted(s);
    assert Head(x) == Head(s) && SameBlocksBut(s, x, s.curr);
    assert Get(x, x.curr) == Get(s, s.curr).(state := Ready, budget := 6);
    assert x.ready == s.ready + [s.curr] && x.ready[1..] == s.ready[1..] + [s.curr];
    assert x.ready[1..] + [] == x.ready[1..];
    ScheduleIs(x);
    SchedulePasses(x);
    hide Step, Schedule, Tidy, Passes, SameBlocksBut, Places, Requeued, Rooted;
    PassesFrom(s, x, Schedule(x));
  }

  /** A preemption puts the running thread at the end of the queue with the default budget; idle just leaves. */
  lemma RescheduleDoes<T>(s: Sched<T>)
    requires Tidy(s) && Sound(s) && Legal(s, Reschedule)
    ensures var r := Step(s, Reschedule);
      && r.waiting == s.waiting
      && (if s.curr == s.idle then r.ready == Tail(s) && (s.ready != [] ==> Get(r, s.idle) == Get(s, s.idle))
          else r.ready == Tail(s) + [s.curr] && Get(r, s.curr) == Get(s, s.curr).(state := Ready, budget := 6))
      && (if s.curr == s.idle && s.ready == []
          then r.curr == s.idle && Get(r, s.idle) == Get(s, s.idle).(execStart := s.now) && SameBlocksBut(s, r, s.idle)
          else Passes(s, r))
  {
    ScheduleIs(s);
    if s.curr != s.idle || s.ready != [] {
      HeadIsOther(s);
      SchedulePasses(s);
      assert s.ready != [] ==> s.ready[0] in s.ready;
      hide Schedule, Passes;
      assert Tail(s) + [] == Tail(s);
    }
  }

  /** A new thread joins the end of the queue with the default budget. */
  lemma AdmissionDoes<T>(s: Sched<T>, t: T)
    requires Tidy(s) && Sound(s) && Legal(s, AddThread(t))
    ensures var r := Step(s, AddThread(t));
      && r.ready == s.ready + [t] && r.waiting == s.waiting && r.curr == s.curr && SameBlocksBut(s, r, t)
      && Get(r, t) == Get(s, t).(state := Ready, budget := 6)
  {
  }

  /** A woken thread joins the end of the queue with its budget as it was; it gets the processor at once, and stays
      Ready, exactly when idle runs and nobody is ready. */
  lemma UnblockDoes<T>(s: Sched<T>, t: T)
    requires Tidy(s) && Legal(s, UnblockCall(t))
    ensures var r := Step(s, UnblockCall(t));
      && Occurs(r.waiting, t) == 0 && (forall u | u in s.tcb && u != t :: Occurs(r.waiting, u) == Occurs(s.waiting, u))
      && SameBlocksBut(s, r, t)
      && (if s.ready == [] && s.curr == s.idle
          then r.curr == t && r.ready == [] && Get(r, t) == Get(s, t).(sleepTime := 0, state := Ready, execStart := s.now)
          else r.curr == s.curr && r.ready == s.ready + [t] && Get(r, t) == Get(s, t).(sleepTime := 0, state := Ready))
  {
    StepIs(s, UnblockCall(t));
    WakeIs(s, t);
    WakeTcb(s, t, t);
    forall u | u in s.tcb ensures Occurs(Remove(s.waiting, t), u) == Occurs(s.waiting, u) - if u == t then 1 else 0 {
      OccursRemoved(s.waiting, t, u);
    }
    assert t in s.tcb && Places(s, t) <= 1;
    forall u | u in s.tcb && u != t ensures Get(Wake(s, t), u) == Get(s, u) {
      WakeTcb(s, t, u);
    }
    OccursSplit(s.waiting, [], t);
    hide Step, Wake, Remove, Occurs;
  }

  /** Setting a budget changes nothing else. */
  lemma BudgetDoes<T>(s: Sched<T>, t: T, ms: nat)
    ensures var r := Step(s, BudgetCall(t, ms));
      && r == s.(tcb := r.tcb) && SameBlocksBut(s, r, t) && Get(r, t) == Get(s, t).(budget := ms)
  {
  }

  lemma {:induction false} SameDue<T>(s: Sched<T>, x: Sched<T>, q: seq<T>)
    requires forall u | u in q :: Due(x, u) == Due(s, u)
    ensures Woken(x, q) == Woken(s, q) && Kept(x, q) == Kept(s, q)
  {
    hide Due;
    if q != [] {
      var n := |q| - 1;
      assert q[n] in q && forall u | u in q[..n] :: u in q;
      SameDue(s, x, q[..n]);
    }
  }

  /** The queue once the wake-up loop is done: the due threads behind the ready ones. */
  function Behind<T(==)>(s: Sched<T>): seq<T> {
    s.ready + Woken(s, s.waiting)
  }

  /** The slice that this tick completes is the last the budget allows, or a whole quantum. */
  ghost predicate SliceEnds<T>(s: Sched<T>) {
    Elapsed(s) + 1 >= Get(s, s.curr).budget || Elapsed(s) + 1 == 100
  }

  lemma TickWakes<T>(s: Sched<T>, frame: IrqFrame)
    requires Tidy(s) && Clean(s, TimerTick(frame))
    ensures var s1 := Entered(s, frame); var d := Drained(s1, s1.waiting);
      && Rooted(d) && d.idle == s.idle && d.now == s.now + 1 && d.quantumPast == s.quantumPast
      && d.curr == s.curr && d.ready == Behind(s) && d.waiting == Kept(s, s.waiting)
      && Elapsed(d) == Elapsed(s) + 1 && Get(d, d.curr) == Get(s1, s.curr)
  {
    var s1 := Entered(s, frame);
    EnteredIs(s, frame);
    if s.curr != s.idle {
      NotQueued(s);
    }
    forall u | u in s.waiting ensures Due(s1, u) == Due(s, u) { }
    SameDue(s, s1, s.waiting);
    DrainedRooted(s1);
    DrainedIs(s1, |s.waiting|);
    FullSlice(s.waiting);
    WokenIsDue(s, s.waiting);
    assert Kept(s, s.waiting) + [] == Kept(s, s.waiting);
    hide Drained, Woken, Kept, Due, Places, Rooted;
  }

  lemma WokenIsDue<T>(s: Sched<T>, q: seq<T>)
    ensures Woken(s, q) != [] <==> exists t | t in q :: Due(s, t)
  {
    forall t | t in q ensures t in Woken(s, q) <==> Due(s, t) { PartsOf(s, q, t); }
    if Woken(s, q) != [] {
      PartsOf(s, q, Woken(s, q)[0]);
      assert Woken(s, q)[0] in Woken(s, q);
    }
  }

  /** The end of a tick, once the due threads are awake. */
  lemma ExpireMoves<T>(s: Sched<T>)
    requires s.switchCounter == 0 && (s.curr != s.idle ==> Get(s, s.curr).state == Running)
    ensures var r := Expire(s); var back := if s.curr == s.idle then [] else [s.curr];
      && r.now == s.now && r.waiting == s.waiting
      && (if !SliceOver(s) then r.curr == s.curr && r.ready == s.ready
          else r.curr == Head(s) && r.ready == Tail(s) + back)
  {
    ScheduleIs(s);
    ScheduleIs(s.(quantumPast := true));
    hide Schedule;
  }

  /** A tick: due threads queue up behind the ready ones, and when the running slice ends its thread goes behind them all,
      idle just leaving, and the head of the queue runs. Otherwise nobody moves. */
  lemma TickDoes<T>(s: Sched<T>, frame: IrqFrame)
    requires Tidy(s) && Sound(s) && Clean(s, TimerTick(frame))
    ensures var r, q := Step(s, TimerTick(frame)), Behind(s);
      && r.now == s.now + 1 && r.waiting == Kept(s, s.waiting)
      && (if !SliceEnds(s) then r.curr == s.curr && r.ready == q
          else if q == [] then r.curr == s.idle && r.ready == if s.curr == s.idle then [] else [s.curr]
          else r.curr == q[0] && r.ready == q[1..] + if s.curr == s.idle then [] else [s.curr])
  {
    var s1 := Entered(s, frame);
    var d := Drained(s1, s1.waiting);
    StepIs(s, TimerTick(frame));
    assert Step(s, TimerTick(frame)) == Expire(d).(interrupts := true);
    TickWakes(s, frame);
    SoundEntered(s, frame);
    assert d.switchCounter == 0;
    assert SliceOver(d) <==> SliceEnds(s);
    hide *;
    ExpireMoves(d);
    QueueParts(d, Behind(s), s.idle);
    if Behind(s) == [] {
      assert [] + [s.curr] == [s.curr];
    }
  }

  lemma SoundEntered<T>(s: Sched<T>, frame: IrqFrame)
    requires Sound(s)
    ensures var b := Get(Entered(s, frame), s.curr);
      b.budget == Get(s, s.curr).budget && (s.curr != s.idle ==> b.state == Running)
  {
  }

  lemma QueueParts<T>(s: Sched<T>, q: seq<T>, idle: T)
    requires s.ready == q && s.idle == idle
    ensures Head(s) == (if q == [] then idle else q[0]) && Tail(s) == if q == [] then [] else q[1..]
  {
  }
}
