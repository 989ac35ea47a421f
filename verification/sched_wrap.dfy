/** Runs from the constructor that show where the scheduler falls short: a budget that wraps around, a lost thread and a
    thread in two places. There are four threads, the idle one being 0. */
module SchedWrap {
  import opened SchedSpec
  import opened SchedCore
  import opened SchedLaws
  import opened SchedRuns
  import opened SchedBudget

  // Runs that grow at their end.

  lemma {:induction false} RunSnoc<T>(s: Sched<T>, es: seq<Event<T>>, e: Event<T>)
    requires LegalRun(s, es) && Legal(Run(s, es), e)
    ensures LegalRun(s, es + [e]) && Run(s, es + [e]) == Step(Run(s, es), e)
    decreases |es|
  {
    hide Legal, Step;
    if es == [] {
      assert [e][1..] == [];
    } else {
      assert (es + [e])[0] == es[0] && (es + [e])[1..] == es[1..] + [e];
      RunSnoc(Step(s, es[0]), es[1..], e);
    }
  }

  ghost predicate RunsTo(s: Sched<nat>, es: seq<Event<nat>>, r: Sched<nat>) {
    LegalRun(s, es) && Run(s, es) == r
  }

  /** Some legal run from `s` ends in `r`. */
  ghost predicate Reaches(s: Sched<nat>, r: Sched<nat>) {
    exists es :: RunsTo(s, es, r)
  }

  lemma ReachesStep(s: Sched<nat>, m: Sched<nat>, e: Event<nat>)
    requires Reaches(s, m) && Legal(m, e)
    ensures Reaches(s, Step(m, e))
  {
    hide LegalRun, Legal, Run, Step;
    var es :| RunsTo(s, es, m);
    RunSnoc(s, es, e);
    assert RunsTo(s, es + [e], Step(m, e));
  }

  const FRAME := IrqFrame([])

  function Block(state: ThreadState, start: nat, runtime: nat, budget: nat): Tcb {
    Tcb(state, FRAME, start, runtime, budget, 0)
  }

  const FRESH := Block(Ready, 0, 0, 6)

  function Threads(): (m: map<nat, Tcb>)
    ensures 0 in m
  {
    map[0 := FRESH, 1 := FRESH, 2 := FRESH, 3 := FRESH]
  }

  function Start(): Sched<nat> {
    Initial(0, Threads(), 0, true)
  }

  function State(waiting: seq<nat>, ready: seq<nat>, curr: nat, idle: Tcb, one: Tcb, now: nat): Sched<nat> {
    Sched(0, 0, false, false, waiting, ready, curr, 0, map[0 := idle, 1 := one, 2 := FRESH, 3 := FRESH], now, true)
  }

  /** Thread 1 is admitted and dispatched, and goes to sleep. */
  lemma Falls()
    ensures var s := State([], [], 0, Block(Running, 0, 0, 6), FRESH, 0);
      && Start() == s && Step(s, AddThread(1)) == s.(ready := [1])
      && Step(s.(ready := [1]), Reschedule) == State([], [], 1, Block(Running, 0, 0, 6), Block(Running, 0, 0, 6), 0)
  {
    var s := State([], [], 0, Block(Running, 0, 0, 6), FRESH, 0);
    assert s.tcb[1 := FRESH] == s.tcb;
    assert [] + [1] == [1] && [1][1..] == [];
  }

  lemma Sleeps()
    ensures Step(State([], [], 1, Block(Running, 0, 0, 6), Block(Running, 0, 0, 6), 0), SleepCall(0)) ==
      State([1], [], 0, Block(Running, 0, 0, 6), Block(Sleep, 0, 0, 6), 0)
  {
    SleepIs(State([], [], 1, Block(Running, 0, 0, 6), Block(Running, 0, 0, 6), 0), 0);
  }

  /** One tick wakes it onto the idle processor, where it runs without being marked Running. */
  lemma Wakes()
    ensures Step(State([1], [], 0, Block(Running, 0, 0, 6), Block(Sleep, 0, 0, 6), 0), TimerTick(FRAME)) ==
      State([], [], 1, Block(Running, 0, 1, 6), Block(Ready, 1, 0, 6), 1)
  {
    var s := State([1], [], 0, Block(Running, 0, 0, 6), Block(Sleep, 0, 0, 6), 0);
    var s1 := State([1], [], 0, Block(Running, 0, 1, 6), Block(Sleep, 0, 0, 6), 1);
    assert Entered(s, FRAME) == s1;
    assert s1.waiting == [1];
    Taken();
    hide Entered, Drained, Tick, Schedule, State, Get;
    TickIs(s, FRAME);
    Quietly(Drained(s1, [1]));
  }

  lemma Quietly(s: Sched<nat>)
    requires s == State([], [], 1, Block(Running, 0, 1, 6), Block(Ready, 1, 0, 6), 1)
    ensures Expire(s).(interrupts := true) == s
  {
  }

  lemma Taken()
    ensures Drained(State([1], [], 0, Block(Running, 0, 1, 6), Block(Sleep, 0, 0, 6), 1), [1]) ==
      State([], [], 1, Block(Running, 0, 1, 6), Block(Ready, 1, 0, 6), 1)
  {
    var s := State([1], [], 0, Block(Running, 0, 1, 6), Block(Sleep, 0, 0, 6), 1);
    assert [1][..0] == [] && Drained(s, []) == s;
    assert Remove([1], 1) == [];
    assert DrainOne(s, 1) == State([], [], 1, Block(Running, 0, 1, 6), Block(Ready, 1, 0, 6), 1);
  }

  /** It is given a budget above the quantum, and two more threads are admitted. */
  lemma Joined()
    ensures var s := State([], [], 1, Block(Running, 0, 1, 6), Block(Ready, 1, 0, 6), 1);
      var t := State([], [], 1, Block(Running, 0, 1, 6), Block(Ready, 1, 0, 200), 1);
      && Step(s, BudgetCall(1, 200)) == t && Step(t, AddThread(2)) == t.(ready := [2])
      && Step(t.(ready := [2]), AddThread(3)) == t.(ready := [2, 3])
  {
    var t := State([], [], 1, Block(Running, 0, 1, 6), Block(Ready, 1, 0, 200), 1);
    assert t.tcb[2 := FRESH] == t.tcb && t.tcb[3 := FRESH] == t.tcb;
  }

  /** The processor after `n` undisturbed ticks. */
  function Spinning(n: nat): Sched<nat> {
    State([], [2, 3], 1, Block(Running, 0, 1, 6), Block(Ready, 1, n, 200), 1 + n)
  }

  lemma Spins(n: nat)
    requires n < 99
    ensures Step(Spinning(n), TimerTick(FRAME)) == Spinning(n + 1)
  {
    TickIs(Spinning(n), FRAME);
    assert Entered(Spinning(n), FRAME) == Spinning(n + 1);
  }

  lemma {:induction false} ReachesSpinning(n: nat)
    requires n <= 99
    ensures Reaches(Start(), Spinning(n))
  {
    if n == 0 {
      ReachesJoined();
    } else {
      ReachesSpinning(n - 1);
      hide Reaches, Start, Spinning, Step;
      Spins(n - 1);
      ReachesStep(Start(), Spinning(n - 1), TimerTick(FRAME));
    }
  }

  lemma NoPlace(s: Sched<nat>, t: nat)
    requires t !in s.ready && t !in s.waiting && s.curr != t
    ensures Places(s, t) == 0
  {
    OccursSplit(s.ready, [], t);
    OccursSplit(s.waiting, [], t);
  }

  lemma ReachesItself(s: Sched<nat>)
    ensures Reaches(s, s)
  {
    assert RunsTo(s, [], s);
  }

  lemma ReachesRunning()
    ensures Reaches(Start(), State([], [], 1, Block(Running, 0, 0, 6), Block(Running, 0, 0, 6), 0))
  {
    var s := State([], [], 0, Block(Running, 0, 0, 6), FRESH, 0);
    hide Step, Reaches, Places, Start;
    Falls();
    ReachesItself(s);
    NoPlace(s, 1);
    ReachesStep(s, s, AddThread(1));
    ReachesStep(s, s.(ready := [1]), Reschedule);
  }

  lemma ReachesWoken()
    ensures Reaches(Start(), State([], [], 1, Block(Running, 0, 1, 6), Block(Ready, 1, 0, 6), 1))
  {
    hide Step, Reaches, Places, Start;
    ReachesRunning();
    Sleeps();
    ReachesStep(Start(), State([], [], 1, Block(Running, 0, 0, 6), Block(Running, 0, 0, 6), 0), SleepCall(0));
    Wakes();
    ReachesStep(Start(), State([1], [], 0, Block(Running, 0, 0, 6), Block(Sleep, 0, 0, 6), 0), TimerTick(FRAME));
  }

  lemma ReachesJoined()
    ensures Reaches(Start(), Spinning(0))
  {
    var s := State([], [], 1, Block(Running, 0, 1, 6), Block(Ready, 1, 0, 6), 1);
    var t := State([], [], 1, Block(Running, 0, 1, 6), Block(Ready, 1, 0, 200), 1);
    hide Step, Reaches, Places, Start;
    ReachesWoken();
    Joined();
    ReachesStep(Start(), s, BudgetCall(1, 200));
    NoPlace(t, 2);
    ReachesStep(Start(), t, AddThread(2));
    NoPlace(t.(ready := [2]), 3);
    ReachesStep(Start(), t.(ready := [2]), AddThread(3));
  }

  /** A legal run from the constructor ends with a budget of 2^64 - 94 milliseconds. */
  lemma WrapIsReached()
    ensures exists es :: LegalRun(Start(), es) && Get(Run(Start(), es), 2).budget == 0x1_0000_0000_0000_0000 - 94
  {
    var s := Spinning(99);
    ReachesSpinning(99);
    assert EndsQuantum(s) && s.ready == [2, 3] && Get(s, 2).budget == 6 && Get(s, 1).state == Ready;
    ReachedIsTidy(s);
    hide Step, Start, Spinning, Tidy, EndsQuantum, Reaches, LegalRun, Run, Legal;
    QuantumWraps(s, FRAME);
    var r := Step(s, TimerTick(FRAME));
    TicksAreLegal(s, r);
    ReachesStep(Start(), s, TimerTick(FRAME));
    ReachesStep(Start(), r, Reschedule);
    WrapFrom(Step(r, Reschedule));
  }

  lemma TicksAreLegal(s: Sched<nat>, r: Sched<nat>)
    ensures Legal(s, TimerTick(FRAME)) && Legal(r, Reschedule)
  {
  }

  lemma WrapFrom(r: Sched<nat>)
    requires Reaches(Start(), r) && Get(r, 2).budget == 0x1_0000_0000_0000_0000 - 94
    ensures exists es :: LegalRun(Start(), es) && Get(Run(Start(), es), 2).budget == 0x1_0000_0000_0000_0000 - 94
  {
    hide LegalRun, Run, Start;
    var es :| RunsTo(Start(), es, r);
    assert LegalRun(Start(), es) && Get(Run(Start(), es), 2).budget == 0x1_0000_0000_0000_0000 - 94;
  }

  lemma StartIsTidy()
    ensures Tidy(Start())
  {
    hide Tidy, Initial, Threads;
    InitialIsTidy(0, Threads(), 0, true);
  }

  lemma ReachedIsTidy(s: Sched<nat>)
    requires Reaches(Start(), s)
    ensures Tidy(s)
  {
    hide LegalRun, Run, Tidy, Start;
    StartIsTidy();
    var es :| RunsTo(Start(), es, s);
    RunKeepsTidy(Start(), es);
  }

  /** A reachable state in which thread 1 runs, and after whose next switch it is nowhere. */
  lemma ThreadIsLost()
    ensures var s := Spinning(0);
      Reaches(Start(), s) && s.curr == 1 && Legal(s, Reschedule) && Places(Step(s, Reschedule), 1) == 0
  {
    var s := Spinning(0);
    assert Get(s, 1).state == Ready && s.curr == 1 && s.idle == 0 && 1 in s.tcb;
    ReachesJoined();
    ReachedIsTidy(s);
    hide Reaches, Start, Spinning, Schedule, Places, Get;
    SwitchLoses(s);
    RescheduleTidies(s);
    AtMostOnce(Schedule(s), 1);
  }

  lemma AtMostOnce(s: Sched<nat>, t: nat)
    requires Tidy(s) && t in s.tcb
    ensures Places(s, t) <= 1
  {
  }

  /** A reachable state in which thread 1 runs alone, and whose yield leaves it running and queued. */
  lemma YieldIsUntidy()
    ensures var s := State([], [], 1, Block(Running, 0, 0, 6), Block(Running, 0, 0, 6), 0);
      Reaches(Start(), s) && !Tidy(Step(s, YieldCall))
  {
    var s := State([], [], 1, Block(Running, 0, 0, 6), Block(Running, 0, 0, 6), 0);
    assert s.curr != s.idle && s.ready == [];
    hide *;
    ReachesRunning();
    ReachedIsTidy(s);
    LoneYield(s);
  }

  lemma LoneYield(s: Sched<nat>)
    requires Tidy(s) && s.curr != s.idle && s.ready == []
    ensures !Tidy(Step(s, YieldCall))
  {
    hide *;
    YieldStep(s);
    YieldTidies(s);
    InterruptsOn(Schedule(Requeued(s)));
  }

  lemma YieldStep(s: Sched<nat>)
    requires Tidy(s)
    ensures Step(s, YieldCall) == Schedule(Requeued(s)).(interrupts := true)
  {
    assert Step(s, YieldCall) == Yield(s) && Quiet(s);
    hide *;
    YieldIs(s);
  }
}
