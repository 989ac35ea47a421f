/** Where threads are: placement and conservation over every run. */
module SchedLaws {
  import opened SchedSpec
  import opened SchedCore

  /** How often `t` occurs in a queue. */
  ghost function Occurs<T>(q: seq<T>, t: T): nat {
    multiset(q)[t]
  }

  /** How many places `t` has: both queues, and the processor unless it is the idle thread. */
  ghost function Places<T>(s: Sched<T>, t: T): nat {
    Occurs(s.ready, t) + Occurs(s.waiting, t) + if s.curr == t && t != s.idle then 1 else 0
  }

  lemma OccursSplit<T>(q: seq<T>, p: seq<T>, t: T)
    ensures Occurs(q + p, t) == Occurs(q, t) + Occurs(p, t)
    ensures Occurs(q, t) > 0 <==> t in q
  {
  }

  lemma OccursOne<T>(u: T, t: T)
    ensures Occurs([u], t) == (if u == t then 1 else 0) && Occurs<T>([], t) == 0
  {
  }

  lemma OccursFront<T>(q: seq<T>, t: T)
    requires q != []
    ensures Occurs(q, t) == Occurs(q[1..], t) + if q[0] == t then 1 else 0
  {
    assert q == [q[0]] + q[1..];
    OccursSplit([q[0]], q[1..], t);
    OccursOne(q[0], t);
  }

  lemma {:induction false} OccursRemoved<T>(q: seq<T>, u: T, t: T)
    requires u in q
    ensures Occurs(Remove(q, u), t) == Occurs(q, t) - if u == t then 1 else 0
  {
    OccursFront(q, t);
    if q[0] != u {
      OccursRemoved(q[1..], u, t);
      hide Occurs;
      OccursSplit([q[0]], Remove(q[1..], u), t);
      OccursOne(q[0], t);
    }
  }

  // What a switch does, field by field.

  lemma SwitchIs<T>(s: Sched<T>, next: T)
    ensures var r := SwitchTask(s, next);
      && r.curr == next && r.idle == s.idle && r.waiting == s.waiting && r.now == s.now
      && Get(r, next).execStart == s.now
      && r.ready == s.ready + if Get(s, s.curr).state == Running && s.curr != s.idle then [s.curr] else []
  {
    assert s.ready + [] == s.ready;
  }

  /** The running thread goes back to the queue only when it is marked Running. */
  predicate Requeues<T(==)>(s: Sched<T>) {
    s.curr != s.idle && (Get(s, s.curr).state == Running || (s.ready != [] && s.ready[0] == s.curr))
  }

  lemma ScheduleIs<T>(s: Sched<T>)
    requires s.switchCounter == 0
    ensures var r := Schedule(s);
      && r.idle == s.idle && r.waiting == s.waiting && r.now == s.now
      && r.curr == (if s.ready == [] then s.idle else s.ready[0])
      && Get(r, r.curr).execStart == s.now
      && r.ready == (if s.ready == [] then [] else s.ready[1..]) + if Requeues(s) then [s.curr] else []
  {
    if s.ready == [] {
      SwitchIs(s, s.idle);
    } else {
      var next := s.ready[0];
      var s1 := Put(Charge(s), next, Get(Charge(s), next).(state := Running)).(ready := s.ready[1..]);
      SwitchIs(s1, next);
      hide SwitchTask;
      assert Get(s1, s1.curr).state == Running <==> Get(s, s.curr).state == Running || next == s.curr;
    }
  }

  /** A switch moves threads, and drops the running one exactly when it is neither idle nor requeued. */
  lemma ScheduleMoves<T>(s: Sched<T>, t: T)
    requires s.switchCounter == 0 && s.idle !in s.ready
    ensures Places(Schedule(s), t) == Places(s, t) - if t == s.curr && s.curr != s.idle && !Requeues(s) then 1 else 0
  {
    ScheduleIs(s);
    assert Requeues(s) ==> s.curr != s.idle;
    hide Schedule, Requeues, Occurs;
    var q := if s.ready == [] then [] else s.ready[1..];
    OccursSplit(q, if Requeues(s) then [s.curr] else [], t);
    OccursOne(s.curr, t);
    if s.ready != [] {
      OccursFront(s.ready, t);
      assert s.ready[0] in s.ready;
    }
  }

  lemma WakeIs<T>(s: Sched<T>, t: T)
    requires t != s.idle
    ensures var r := Wake(s, t);
      && r.idle == s.idle && r.waiting == Remove(s.waiting, t) && r.now == s.now
      && (if s.ready == [] && s.curr == s.idle
          then r.curr == t && r.ready == [] && Get(r, t).execStart == s.now
          else r.curr == s.curr && r.ready == s.ready + [t])
  {
    var s1 := Put(s, t, Get(s, t).(sleepTime := 0, state := Ready)).(waiting := Remove(s.waiting, t));
    SwitchIs(s1, t);
    hide SwitchTask, Remove;
  }

  /** A wake-up moves a waiting thread and drops none. */
  lemma WakeMoves<T>(s: Sched<T>, u: T, t: T)
    requires u in s.waiting && u != s.idle
    ensures Places(Wake(s, u), t) == Places(s, t)
  {
    WakeIs(s, u);
    OccursRemoved(s.waiting, u, t);
    hide Wake, Remove, Occurs;
    OccursSplit(s.ready, [u], t);
    OccursOne(u, t);
  }

  // The wake-up loop.

  /** Sleeping, and due on this tick. */
  predicate Due<T(==)>(s: Sched<T>, t: T) {
    Get(s, t).state != Blocked && Get(s, t).sleepTime <= 1
  }

  function Woken<T(==)>(s: Sched<T>, q: seq<T>): seq<T> {
    if q == [] then []
    else Woken(s, q[..|q| - 1]) + if Due(s, q[|q| - 1]) then [q[|q| - 1]] else []
  }

  function Kept<T(==)>(s: Sched<T>, q: seq<T>): seq<T> {
    if q == [] then []
    else Kept(s, q[..|q| - 1]) + if Due(s, q[|q| - 1]) then [] else [q[|q| - 1]]
  }

  /** The idle thread gives way to the first thread that wakes while nothing else is ready. */
  predicate TakesOver<T(==)>(s: Sched<T>, woken: seq<T>) {
    s.ready == [] && s.curr == s.idle && woken != []
  }

  ghost predicate Once<T>(q: seq<T>) {
    forall t | t in q :: Occurs(q, t) <= 1
  }

  /** A waiting thread's block after the loop has passed it. */
  function DrainedTcb(b: Tcb, took: bool, now: nat): Tcb {
    if b.state == Blocked then b
    else if b.sleepTime > 1 then b.(sleepTime := b.sleepTime - 1)
    else if took then b.(sleepTime := 0, state := Ready, execStart := now)
    else b.(sleepTime := 0, state := Ready)
  }

  lemma WakeTcb<T>(s: Sched<T>, u: T, t: T)
    requires u != s.idle
    ensures Get(Wake(s, u), t) ==
      if t != u then Get(s, t)
      else if s.ready == [] && s.curr == s.idle then Get(s, u).(sleepTime := 0, state := Ready, execStart := s.now)
      else Get(s, u).(sleepTime := 0, state := Ready)
    ensures Wake(s, u).quantumPast == s.quantumPast && Wake(s, u).tcb.Keys == s.tcb.Keys + {u}
  {
    hide Remove;
  }

  lemma {:induction false} PartsOf<T>(s: Sched<T>, q: seq<T>, t: T)
    ensures t in Kept(s, q) <==> t in q && !Due(s, t)
    ensures t in Woken(s, q) <==> t in q && Due(s, t)
    ensures Occurs(Kept(s, q), t) + Occurs(Woken(s, q), t) == Occurs(q, t)
  {
    if q != [] {
      var n := |q| - 1;
      var u := q[n];
      assert q == q[..n] + [u];
      PartsOf(s, q[..n], t);
      hide Occurs, Due;
      OccursOne(u, t);
      OccursSplit(q[..n], [u], t);
      OccursSplit(Kept(s, q[..n]), if Due(s, u) then [] else [u], t);
      OccursSplit(Woken(s, q[..n]), if Due(s, u) then [u] else [], t);
    }
  }

  lemma {:induction false} RemoveMiddle<T>(a: seq<T>, t: T, b: seq<T>)
    requires t !in a
    ensures Remove(a + [t] + b, t) == a + b
  {
    if a != [] {
      RemoveMiddle(a[1..], t, b);
      assert (a + [t] + b)[1..] == a[1..] + [t] + b;
      assert a == [a[0]] + a[1..];
    } else {
      assert (a + [t] + b)[1..] == b;
    }
  }

  lemma NotBefore<T>(q: seq<T>, k: nat)
    requires Once(q) && k < |q|
    ensures q[k] !in q[..k]
  {
    assert q == q[..k] + q[k..];
    OccursSplit(q[..k], q[k..], q[k]);
    OccursFront(q[k..], q[k]);
  }

  /** Queues and processor after the loop has passed the first `k` waiting threads. */
  ghost predicate PassedQueues<T>(s: Sched<T>, d: Sched<T>, k: nat)
    requires k <= |s.waiting|
  {
    var woken := Woken(s, s.waiting[..k]);
    && d.waiting == Kept(s, s.waiting[..k]) + s.waiting[k..]
    && (if TakesOver(s, woken) then d.curr == woken[0] && d.ready == woken[1..]
        else d.curr == s.curr && d.ready == s.ready + woken)
    && d.idle == s.idle && d.now == s.now && d.quantumPast == s.quantumPast
  }

  ghost predicate PassedTcbs<T>(s: Sched<T>, d: Sched<T>, k: nat)
    requires k <= |s.waiting|
  {
    && d.tcb.Keys == s.tcb.Keys
    && forall t | t in s.tcb ::
      Get(d, t) == if t in s.waiting[..k] then DrainedTcb(Get(s, t), d.curr == t, s.now) else Get(s, t)
  }

  /** What the loop relies on. */
  ghost predicate Drainable<T>(s: Sched<T>) {
    Once(s.waiting) && s.curr !in s.waiting && s.idle !in s.waiting && forall t | t in s.waiting :: t in s.tcb
  }

  lemma SliceStep<T>(s: Sched<T>, k: nat)
    requires k < |s.waiting|
    ensures var u := s.waiting[k];
      && s.waiting[..k + 1] == s.waiting[..k] + [u] && s.waiting[k..] == [u] + s.waiting[k + 1..]
      && Woken(s, s.waiting[..k + 1]) == Woken(s, s.waiting[..k]) + (if Due(s, u) then [u] else [])
      && Kept(s, s.waiting[..k + 1]) == Kept(s, s.waiting[..k]) + (if Due(s, u) then [] else [u])
  {
    assert s.waiting[..k + 1][..k] == s.waiting[..k];
  }

  lemma DrainOneQueues<T>(d: Sched<T>, u: T)
    requires u != d.idle
    ensures var r := DrainOne(d, u);
      && r.idle == d.idle && r.now == d.now && r.quantumPast == d.quantumPast
      && r.waiting == (if Due(d, u) then Remove(d.waiting, u) else d.waiting)
      && r.curr == (if Due(d, u) && d.ready == [] && d.curr == d.idle then u else d.curr)
      && r.ready == (if Due(d, u) && !(d.ready == [] && d.curr == d.idle) then d.ready + [u] else d.ready)
  {
    var d1 := Put(d, u, Get(d, u).(sleepTime := 0));
    WakeIs(d1, u);
    WakeTcb(d1, u, u);
    hide Wake, Remove;
  }

  lemma DrainOneTcb<T>(d: Sched<T>, u: T, t: T)
    requires u != d.idle && u in d.tcb
    ensures var r := DrainOne(d, u);
      && r.tcb.Keys == d.tcb.Keys
      && Get(r, t) == if t == u then DrainedTcb(Get(d, u), d.ready == [] && d.curr == d.idle, d.now) else Get(d, t)
  {
    var d1 := Put(d, u, Get(d, u).(sleepTime := 0));
    WakeTcb(d1, u, t);
    hide Wake;
  }

  lemma PassedCurr<T>(s: Sched<T>, d: Sched<T>, k: nat)
    requires Drainable(s) && k < |s.waiting| && PassedQueues(s, d, k)
    ensures d.curr != s.waiting[k] && s.idle !in Woken(s, s.waiting[..k])
  {
    NotBefore(s.waiting, k);
    PartsOf(s, s.waiting[..k], d.curr);
    PartsOf(s, s.waiting[..k], s.idle);
    hide Woken, Kept, Once, Due;
    var woken := Woken(s, s.waiting[..k]);
    assert woken != [] ==> woken[0] in woken;
    assert forall t | t in s.waiting[..k] :: t in s.waiting;
  }

  lemma PassOneQueues<T>(s: Sched<T>, d: Sched<T>, k: nat)
    requires Drainable(s) && k < |s.waiting| && PassedQueues(s, d, k) && Get(d, s.waiting[k]) == Get(s, s.waiting[k])
    ensures PassedQueues(s, DrainOne(d, s.waiting[k]), k + 1)
  {
    hide *;
    var u, kept, woken, rest := s.waiting[k], Kept(s, s.waiting[..k]), Woken(s, s.waiting[..k]), s.waiting[k + 1..];
    NextWaiting(s, d, k);
    SliceStep(s, k);
    PassedCurr(s, d, k);
    DrainOneQueues(d, u);
    if Due(s, u) {
      WokenGrows(s, d, woken, u);
      RemoveMiddle(kept, u, rest);
      assert kept + [] == kept;
      PassedFrom(s, DrainOne(d, u), k + 1, kept, woken + [u], rest);
    } else {
      assert woken + [] == woken;
      PassedFrom(s, DrainOne(d, u), k + 1, kept + [u], woken, rest);
    }
  }

  lemma NextWaiting<T>(s: Sched<T>, d: Sched<T>, k: nat)
    requires Drainable(s) && k < |s.waiting| && PassedQueues(s, d, k) && Get(d, s.waiting[k]) == Get(s, s.waiting[k])
    ensures var u, kept, woken := s.waiting[k], Kept(s, s.waiting[..k]), Woken(s, s.waiting[..k]);
      && u != d.idle && Due(d, u) == Due(s, u) && u !in kept
      && d.idle == s.idle && d.now == s.now && d.quantumPast == s.quantumPast && d.waiting == kept + [u] + s.waiting[k + 1..]
      && if TakesOver(s, woken) then woken != [] && d.curr == woken[0] && d.ready == woken[1..]
         else d.curr == s.curr && d.ready == s.ready + woken
  {
    var u := s.waiting[k];
    assert u in s.waiting;
    NotBefore(s.waiting, k);
    PartsOf(s, s.waiting[..k], u);
    assert Due(d, u) == Due(s, u);
    hide Kept, Woken, Once, Due, Get, Occurs;
    WaitingSplit(Kept(s, s.waiting[..k]), s.waiting, k);
  }

  lemma WaitingSplit<T>(kept: seq<T>, q: seq<T>, k: nat)
    requires k < |q|
    ensures kept + q[k..] == kept + [q[k]] + q[k + 1..]
  {
  }

  lemma PassedFrom<T>(s: Sched<T>, d: Sched<T>, k: nat, kept: seq<T>, woken: seq<T>, rest: seq<T>)
    requires k <= |s.waiting| && kept == Kept(s, s.waiting[..k]) && woken == Woken(s, s.waiting[..k]) && rest == s.waiting[k..]
    requires d.waiting == kept + rest
    requires if TakesOver(s, woken) then woken != [] && d.curr == woken[0] && d.ready == woken[1..]
             else d.curr == s.curr && d.ready == s.ready + woken
    requires d.idle == s.idle && d.now == s.now && d.quantumPast == s.quantumPast
    ensures PassedQueues(s, d, k)
  {
    hide Kept, Woken, TakesOver;
  }

  lemma WokenGrows<T>(s: Sched<T>, d: Sched<T>, woken: seq<T>, u: T)
    requires if TakesOver(s, woken) then woken != [] && d.curr == woken[0] && d.ready == woken[1..]
             else d.curr == s.curr && d.ready == s.ready + woken
    requires d.idle == s.idle && s.idle !in woken
    ensures var now := woken + [u];
      if d.ready == [] && d.curr == d.idle then TakesOver(s, now) && now != [] && now[0] == u && now[1..] == d.ready
      else if TakesOver(s, now) then now != [] && d.curr == now[0] && d.ready + [u] == now[1..]
      else d.curr == s.curr && d.ready + [u] == s.ready + now
  {
    assert woken != [] ==> woken[0] in woken;
    assert s.ready + (woken + [u]) == (s.ready + woken) + [u];
  }

  lemma PassOneTcbs<T>(s: Sched<T>, d: Sched<T>, k: nat)
    requires Drainable(s) && k < |s.waiting| && PassedQueues(s, d, k) && PassedTcbs(s, d, k)
    ensures PassedTcbs(s, DrainOne(d, s.waiting[k]), k + 1)
  {
    var u, d' := s.waiting[k], DrainOne(d, s.waiting[k]);
    var before, after := s.waiting[..k], s.waiting[..k + 1];
    assert u in s.waiting;
    SliceStep(s, k);
    NotBefore(s.waiting, k);
    PassedCurr(s, d, k);
    DrainOneQueues(d, u);
    DrainOneTcb(d, u, u);
    assert Get(d, u) == Get(s, u) && d.idle == s.idle && d.now == s.now;
    assert forall t | t in before :: t in s.waiting && t != s.idle;
    hide Kept, Woken, Once, Occurs, DrainOne, Remove, PassedQueues, Drainable, Get;
    UndueStays(Get(s, u), d, u, s.now);
    hide DrainedTcb, Due;
    forall t | t in s.tcb
      ensures Get(d', t) == if t in after then DrainedTcb(Get(s, t), d'.curr == t, s.now) else Get(s, t)
    {
      DrainOneTcb(d, u, t);
      assert Get(d, t) == if t in before then DrainedTcb(Get(s, t), d.curr == t, s.now) else Get(s, t);
    }
  }

  lemma UndueStays<T>(b: Tcb, d: Sched<T>, u: T, now: nat)
    requires Get(d, u) == b
    ensures !Due(d, u) ==> DrainedTcb(b, true, now) == DrainedTcb(b, false, now)
  {
  }

  lemma NotYet<T>(s: Sched<T>, d: Sched<T>, k: nat)
    requires Drainable(s) && k < |s.waiting| && PassedTcbs(s, d, k)
    ensures Get(d, s.waiting[k]) == Get(s, s.waiting[k])
  {
    NotBefore(s.waiting, k);
    assert s.waiting[k] in s.waiting;
    hide Once, Get, DrainedTcb;
  }

  /** The wake-up loop relinks nodes while it walks them, and still: the waiting queue keeps exactly its undue
      members in order, and the due ones are appended to the ready queue in order, the first of them taking the
      processor if idle had it and nothing was ready. */
  lemma {:induction false} DrainedIs<T>(s: Sched<T>, k: nat)
    requires Drainable(s) && k <= |s.waiting|
    ensures PassedQueues(s, Drained(s, s.waiting[..k]), k) && PassedTcbs(s, Drained(s, s.waiting[..k]), k)
  {
    if k == 0 {
      assert s.waiting[..0] == [] && s.waiting[0..] == s.waiting;
      assert [] + s.waiting == s.waiting && s.ready + [] == s.ready;
    } else {
      var d, n := Drained(s, s.waiting[..k - 1]), k - 1;
      assert s.waiting[..k][..n] == s.waiting[..n] && Drained(s, s.waiting[..k]) == DrainOne(d, s.waiting[n]);
      DrainedIs(s, n);
      hide *;
      NotYet(s, d, n);
      PassOneQueues(s, d, n);
      PassOneTcbs(s, d, n);
    }
  }

  lemma FullSlice<T>(q: seq<T>)
    ensures q[..|q|] == q && q[|q|..] == []
  {
  }

  /** The wake-up loop moves threads and drops none. */
  lemma DrainedMoves<T>(s: Sched<T>, t: T)
    requires Drainable(s)
    ensures Places(Drained(s, s.waiting), t) == Places(s, t)
  {
    DrainedIs(s, |s.waiting|);
    FullSlice(s.waiting);
    PartsOf(s, s.waiting, t);
    PartsOf(s, s.waiting, s.idle);
    var kept, woken, d := Kept(s, s.waiting), Woken(s, s.waiting), Drained(s, s.waiting);
    hide Kept, Woken, Drained, Occurs, Due, Once, PassedTcbs;
    assert kept + [] == kept;
    OccursSplit(s.ready, woken, t);
    OccursOne(t, t);
    if TakesOver(s, woken) {
      OccursFront(woken, t);
      assert woken[0] in woken;
    }
  }

  // Runs.

  datatype Event<T> =
    | AddThread(thread: T)
    | TimerTick(frame: IrqFrame)
    | Reschedule
    | SleepCall(ms: nat)
    | YieldCall
    | BlockCall
    | UnblockCall(thread: T)
    | BudgetCall(thread: T, ms: nat)

  function Step<T(==)>(s: Sched<T>, e: Event<T>): Sched<T> {
    match e
    case AddThread(t) => AddReady(s, t)
    case TimerTick(frame) => Tick(s, frame)
    case Reschedule => Schedule(s)
    case SleepCall(ms) => SleepFor(s, ms)
    case YieldCall => Yield(s)
    case BlockCall => Block(s)
    case UnblockCall(t) => Unblock(s, t)
    case BudgetCall(t, ms) => SetBudget(s, t, ms)
  }

  /** Who may call what: only a thread without a place is admitted, only a waiting one is unblocked, the idle
      thread never gives up the processor itself, and a thread yields only when another is ready. */
  ghost predicate Legal<T>(s: Sched<T>, e: Event<T>) {
    match e
    case AddThread(t) => t in s.tcb && t != s.idle && Places(s, t) == 0
    case TimerTick(_) => true
    case Reschedule => true
    case SleepCall(_) => s.curr != s.idle
    case YieldCall => s.curr != s.idle && s.ready != []
    case BlockCall => s.curr != s.idle
    case UnblockCall(t) => t in s.waiting
    case BudgetCall(t, _) => t in s.tcb && t != s.idle
  }

  /** The same step with the lock resolved. */
  function CoreStep<T(==)>(s: Sched<T>, e: Event<T>): Sched<T> {
    match e
    case AddThread(t) => AddReady(s, t)
    case TimerTick(frame) => Ticked(s, frame)
    case Reschedule => Schedule(s)
    case SleepCall(ms) => Schedule(Parked(s, Get(s, s.curr).(sleepTime := ms, state := Sleep))).(interrupts := true)
    case YieldCall => Schedule(Requeued(s)).(interrupts := true)
    case BlockCall => Schedule(Parked(s, Get(s, s.curr).(state := Blocked))).(interrupts := true)
    case UnblockCall(t) => Wake(s, t).(interrupts := true)
    case BudgetCall(t, ms) => SetBudget(s, t, ms)
  }

  lemma StepIs<T>(s: Sched<T>, e: Event<T>)
    requires Quiet(s)
    ensures Step(s, e) == CoreStep(s, e)
  {
    hide Tick, Ticked, Schedule, SleepFor, Yield, Block, Unblock, Wake, AddReady, Parked, Requeued, SetBudget, Get;
    match e {
      case TimerTick(frame) => TickIs(s, frame);
      case SleepCall(ms) => SleepIs(s, ms);
      case YieldCall => YieldIs(s);
      case BlockCall => BlockIs(s);
      case UnblockCall(t) => UnblockIs(s, t);
      case _ =>
    }
  }

  // The placement invariant.

  /** Milliseconds since the running thread was dispatched. */
  ghost function Elapsed<T>(s: Sched<T>): int {
    s.now - Get(s, s.curr).execStart
  }

  /** No lock is held, idle is in neither queue, and every thread in sight has a block. */
  ghost predicate Rooted<T>(s: Sched<T>) {
    && Quiet(s)
    && s.curr in s.tcb && s.idle in s.tcb && s.idle !in s.ready && s.idle !in s.waiting
    && (forall t | t in s.ready :: t in s.tcb) && (forall t | t in s.waiting :: t in s.tcb)
  }

  /** Besides, no thread has two places, and the running slice is below the quantum. */
  ghost predicate Tidy<T>(s: Sched<T>) {
    Rooted(s) && (forall t | t in s.tcb :: Places(s, t) <= 1) && 0 <= Elapsed(s) < 100
  }

  lemma InitialIsTidy<T>(idle: T, tcb: map<T, Tcb>, now: nat, interrupts: bool)
    requires idle in tcb
    ensures var s := Initial(idle, tcb, now, interrupts);
      Tidy(s) && s.ready == s.waiting == [] && Get(s, idle).state == Running && Elapsed(s) == 0
  {
    var s := Initial(idle, tcb, now, interrupts);
    forall t | t in s.tcb ensures Places(s, t) <= 1 {
      OccursOne(t, t);
    }
  }

  lemma TidyFrom<T>(s: Sched<T>)
    requires Rooted(s) && 0 <= Elapsed(s) < 100 && forall t | t in s.tcb :: Places(s, t) <= 1
    ensures Tidy(s)
  {
  }

  lemma ScheduleRooted<T>(s: Sched<T>)
    requires Rooted(s)
    ensures Rooted(Schedule(s)) && Schedule(s).tcb.Keys == s.tcb.Keys && Elapsed(Schedule(s)) == 0
  {
    hide Schedule, Requeues, Get;
    ScheduleIs(s);
    ScheduleFrame(s, 0, true);
    ScheduleKeys(s);
    RequeuesOther(s);
    assert s.ready != [] ==> s.ready[0] in s.ready;
  }

  lemma RequeuesOther<T>(s: Sched<T>)
    ensures Requeues(s) ==> s.curr != s.idle
  {
  }

  lemma SwitchKeys<T>(s: Sched<T>, next: T)
    requires s.curr in s.tcb && next in s.tcb
    ensures SwitchTask(s, next).tcb.Keys == s.tcb.Keys
  {
    hide Get;
  }

  lemma ScheduleKeys<T>(s: Sched<T>)
    requires s.curr in s.tcb && s.idle in s.tcb && forall t | t in s.ready :: t in s.tcb
    ensures Schedule(s).tcb.Keys == s.tcb.Keys
  {
    hide SwitchTask, Get;
    if s.ready == [] {
      SwitchKeys(s, s.idle);
    } else {
      var next := s.ready[0];
      assert next in s.ready;
      SwitchKeys(Put(Charge(s), next, Get(Charge(s), next).(state := Running)).(ready := s.ready[1..]), next);
    }
  }

  /** Dispatching gives a tidy state if at most the dropped place was too many. */
  lemma ScheduleTidies<T>(s: Sched<T>)
    requires Rooted(s)
    requires forall t | t in s.tcb :: Places(s, t) <= 1 + if t == s.curr && s.curr != s.idle && !Requeues(s) then 1 else 0
    ensures Tidy(Schedule(s)) && Schedule(s).tcb.Keys == s.tcb.Keys
  {
    hide Schedule, Requeues, Places, Get;
    ScheduleRooted(s);
    forall t | t in s.tcb ensures Places(Schedule(s), t) <= 1 {
      ScheduleMoves(s, t);
    }
  }

  lemma ParkedRooted<T>(s: Sched<T>, b: Tcb)
    requires Tidy(s) && s.curr != s.idle && b.state != Running
    ensures Rooted(Parked(s, b)) && !Requeues(Parked(s, b)) && Parked(s, b).tcb.Keys == s.tcb.Keys
  {
    NotQueued(s);
  }

  lemma NotQueued<T>(s: Sched<T>)
    requires Tidy(s) && s.curr != s.idle
    ensures s.curr !in s.ready && s.curr !in s.waiting
  {
    assert Places(s, s.curr) <= 1;
    OccursSplit(s.ready, [], s.curr);
    OccursSplit(s.waiting, [], s.curr);
  }

  lemma ParkedPlaces<T>(s: Sched<T>, b: Tcb, t: T)
    ensures Places(Parked(s, b), t) == Places(s, t) + if t == s.curr then 1 else 0
  {
    hide Occurs;
    OccursSplit(s.waiting, [s.curr], t);
    OccursOne(s.curr, t);
  }

  lemma ParkTidies<T>(s: Sched<T>, b: Tcb)
    requires Tidy(s) && s.curr != s.idle && b.state != Running
    ensures Tidy(Schedule(Parked(s, b))) && Schedule(Parked(s, b)).tcb.Keys == s.tcb.Keys
    ensures forall t | t in s.tcb :: Places(Schedule(Parked(s, b)), t) == Places(s, t)
  {
    var x := Parked(s, b);
    ParkedRooted(s, b);
    assert forall t | t in s.tcb :: Places(s, t) <= 1;
    hide Schedule, Requeues, Places, Tidy, Get;
    assert x.curr == s.curr && x.idle == s.idle;
    hide Parked;
    forall t | t in s.tcb
      ensures Places(x, t) <= 1 + (if t == x.curr then 1 else 0) && Places(Schedule(x), t) == Places(s, t)
    {
      ParkedPlaces(s, b, t);
      ScheduleMoves(x, t);
    }
    ScheduleTidies(x);
  }

  lemma RequeuedRooted<T>(s: Sched<T>)
    requires Tidy(s) && s.curr != s.idle
    ensures Rooted(Requeued(s)) && Requeued(s).tcb.Keys == s.tcb.Keys && Requeued(s).curr == s.curr && Requeued(s).idle == s.idle
    ensures Requeues(Requeued(s)) <==> s.ready == []
  {
    NotQueued(s);
    assert s.ready != [] ==> s.ready[0] in s.ready;
  }

  lemma RequeuedPlaces<T>(s: Sched<T>, t: T)
    ensures Places(Requeued(s), t) == Places(s, t) + if t == s.curr then 1 else 0
  {
    hide Occurs;
    OccursSplit(s.ready, [s.curr], t);
    OccursOne(s.curr, t);
  }

  /** Yielding keeps every thread in one place exactly when another thread is ready; otherwise the caller is
      left both running and queued. */
  lemma YieldTidies<T>(s: Sched<T>)
    requires Tidy(s) && s.curr != s.idle
    ensures Tidy(Schedule(Requeued(s))) <==> s.ready != []
    ensures Schedule(Requeued(s)).tcb.Keys == s.tcb.Keys
    ensures s.ready != [] ==> forall t | t in s.tcb :: Places(Schedule(Requeued(s)), t) == Places(s, t)
  {
    var x := Requeued(s);
    RequeuedRooted(s);
    assert forall t | t in s.tcb :: Places(s, t) <= 1;
    assert Places(s, s.curr) > 0 && s.curr in s.tcb;
    ScheduleRooted(x);
    assert Tidy(Schedule(x)) ==> Places(Schedule(x), s.curr) <= 1;
    hide Schedule, Requeues, Places, Tidy, Get, Requeued;
    forall t | t in s.tcb
      ensures Places(x, t) == Places(s, t) + (if t == s.curr then 1 else 0)
      ensures Places(Schedule(x), t) == Places(s, t) + if t == s.curr && s.ready == [] then 1 else 0
    {
      RequeuedPlaces(s, t);
      ScheduleMoves(x, t);
    }
    if s.ready != [] {
      ScheduleTidies(x);
    }
  }

  lemma EnteredIs<T>(s: Sched<T>, frame: IrqFrame)
    requires Tidy(s)
    ensures var r := Entered(s, frame);
      && Rooted(r) && Drainable(r) && r.tcb.Keys == s.tcb.Keys && Elapsed(r) == Elapsed(s) + 1
      && r.curr == s.curr && r.idle == s.idle && r.ready == s.ready && r.waiting == s.waiting && r.quantumPast == s.quantumPast
      && forall t | t in s.tcb :: Places(r, t) == Places(s, t)
  {
    var r := Entered(s, frame);
    forall t | t in s.waiting ensures Occurs(s.waiting, t) <= 1 {
      assert Places(s, t) <= 1;
    }
    if s.curr != s.idle {
      NotQueued(s);
    }
  }

  lemma DrainedRooted<T>(s: Sched<T>)
    requires Rooted(s) && Drainable(s)
    ensures var d := Drained(s, s.waiting);
      && Rooted(d) && d.tcb.Keys == s.tcb.Keys && d.idle == s.idle && d.quantumPast == s.quantumPast
      && (if TakesOver(s, Woken(s, s.waiting)) then Elapsed(d) == 0 else d.curr == s.curr && Elapsed(d) == Elapsed(s))
  {
    DrainAllHeld(s, s.waiting);
    DrainedIs(s, |s.waiting|);
    FullSlice(s.waiting);
    var d, kept, woken := Drained(s, s.waiting), Kept(s, s.waiting), Woken(s, s.waiting);
    hide Drained, Kept, Woken, Once, DrainAll, Held;
    assert kept + [] == kept;
    forall t | t in kept ensures t in s.waiting { PartsOf(s, s.waiting, t); }
    forall t | t in woken ensures t in s.waiting && Due(s, t) { PartsOf(s, s.waiting, t); }
    assert woken != [] ==> woken[0] in woken;
    assert woken != [] ==> forall t | t in woken[1..] :: t in woken;
    assert d.curr in s.tcb;
  }

  lemma ExpiredTidies<T>(s: Sched<T>)
    requires Rooted(s) && 0 <= Elapsed(s) <= 100 && forall t | t in s.tcb :: Places(s, t) <= 1
    ensures Tidy(Expire(s)) && Expire(s).tcb.Keys == s.tcb.Keys
  {
    var q := s.(quantumPast := true);
    FlagRooted(s);
    hide Schedule, Places, Requeues, Rooted, Tidy;
    var delta := s.now - Get(s, s.curr).execStart;
    if delta >= Get(s, s.curr).budget {
      ScheduleTidies(s);
    } else if delta == 100 {
      ScheduleTidies(q);
    } else {
      TidyFrom(s);
    }
  }

  lemma FlagRooted<T>(s: Sched<T>)
    requires Rooted(s)
    ensures Rooted(s.(quantumPast := true))
    ensures forall t | t in s.tcb :: Places(s.(quantumPast := true), t) == Places(s, t)
  {
    forall t | t in s.tcb ensures Places(s.(quantumPast := true), t) == Places(s, t) {
    }
  }

  lemma TickTidies<T>(s: Sched<T>, frame: IrqFrame)
    requires Tidy(s)
    ensures Tidy(Ticked(s, frame)) && Ticked(s, frame).tcb.Keys == s.tcb.Keys
  {
    assert forall t | t in s.tcb :: Places(s, t) <= 1;
    assert 0 <= Elapsed(s) < 100;
    EnteredIs(s, frame);
    var s1 := Entered(s, frame);
    var s2 := Drained(s1, s1.waiting);
    hide Entered, Drained, Tidy, Places, Elapsed, Expire;
    DrainedRooted(s1);
    forall t | t in s2.tcb ensures Places(s2, t) <= 1 {
      DrainedMoves(s1, t);
    }
    ExpiredTidies(s2);
    InterruptsOn(Expire(s2));
  }

  lemma InterruptsOn<T>(s: Sched<T>)
    ensures Tidy(s) <==> Tidy(s.(interrupts := true))
    ensures forall t | t in s.tcb :: Places(s.(interrupts := true), t) == Places(s, t)
  {
    forall t | t in s.tcb ensures Places(s.(interrupts := true), t) == Places(s, t) {
    }
  }

  lemma AddTidies<T>(s: Sched<T>, u: T)
    requires Tidy(s) && Legal(s, AddThread(u))
    ensures Tidy(AddReady(s, u)) && AddReady(s, u).tcb.Keys == s.tcb.Keys
    ensures forall t | t in s.tcb :: Places(AddReady(s, u), t) == if t == u then 1 else Places(s, t)
  {
    var r := AddReady(s, u);
    assert r.ready == s.ready + [u] && r.waiting == s.waiting && r.curr == s.curr && r.idle == s.idle && r.tcb.Keys == s.tcb.Keys;
    assert s.curr != u && Rooted(r) && Elapsed(r) == Elapsed(s);
    assert forall t | t in s.tcb :: Places(s, t) <= 1;
    hide Occurs, AddReady, Tidy, Get, Rooted;
    forall t | t in s.tcb ensures Places(r, t) == if t == u then 1 else Places(s, t) {
      OccursSplit(s.ready, [u], t);
      OccursOne(u, t);
    }
    assert 0 <= Elapsed(s) < 100 by { TidySlice(s); }
    TidyFrom(r);
  }

  lemma TidySlice<T>(s: Sched<T>)
    requires Tidy(s)
    ensures 0 <= Elapsed(s) < 100
  {
  }

  lemma WakeTidies<T>(s: Sched<T>, u: T)
    requires Tidy(s) && u in s.waiting
    ensures Tidy(Wake(s, u)) && Wake(s, u).tcb.Keys == s.tcb.Keys
    ensures forall t | t in s.tcb :: Places(Wake(s, u), t) == Places(s, t)
  {
    var r := Wake(s, u);
    assert forall t | t in s.tcb :: Places(s, t) <= 1;
    WakeRooted(s, u);
    hide Wake, Places, Tidy, Rooted, Elapsed;
    forall t | t in s.tcb ensures Places(r, t) == Places(s, t) {
      WakeMoves(s, u, t);
    }
    TidyFrom(r);
  }

  lemma WakeRooted<T>(s: Sched<T>, u: T)
    requires Tidy(s) && u in s.waiting
    ensures u != s.idle && Rooted(Wake(s, u)) && Wake(s, u).tcb.Keys == s.tcb.Keys && 0 <= Elapsed(Wake(s, u)) < 100
  {
    var r := Wake(s, u);
    WakeIs(s, u);
    WakeTcb(s, u, s.curr);
    WakeFrame(s, u, 0, 0, true);
    if s.curr != s.idle {
      NotQueued(s);
    }
    hide Wake, Places, Get;
    forall t | t in r.waiting ensures t in s.waiting {
      OccursRemoved(s.waiting, u, t);
      OccursSplit(r.waiting, [], t);
      OccursSplit(s.waiting, [], t);
    }
  }

  lemma BudgetTidies<T>(s: Sched<T>, u: T, ms: nat)
    requires Tidy(s) && u in s.tcb
    ensures Tidy(SetBudget(s, u, ms)) && SetBudget(s, u, ms).tcb.Keys == s.tcb.Keys
    ensures forall t | t in s.tcb :: Places(SetBudget(s, u, ms), t) == Places(s, t)
  {
    forall t | t in s.tcb ensures Places(SetBudget(s, u, ms), t) == Places(s, t) {
    }
  }

  /** Every legal step keeps every thread in at most one place, idle out of both queues, and the slice short. */
  lemma StepKeepsTidy<T>(s: Sched<T>, e: Event<T>)
    requires Tidy(s) && Legal(s, e)
    ensures Tidy(Step(s, e)) && Step(s, e).tcb.Keys == s.tcb.Keys
  {
    TidyRooted(s);
    StepIs(s, e);
    hide Tidy, Rooted, Step, Schedule, Wake, Ticked, AddReady, SetBudget, Places, Parked, Requeued, Get;
    match e {
      case AddThread(u) => AddTidies(s, u);
      case TimerTick(frame) => TickTidies(s, frame);
      case Reschedule => RescheduleTidies(s);
      case SleepCall(ms) =>
        ParkTidies(s, Get(s, s.curr).(sleepTime := ms, state := Sleep));
        InterruptsOn(Schedule(Parked(s, Get(s, s.curr).(sleepTime := ms, state := Sleep))));
      case YieldCall =>
        YieldTidies(s);
        InterruptsOn(Schedule(Requeued(s)));
      case BlockCall =>
        ParkTidies(s, Get(s, s.curr).(state := Blocked));
        InterruptsOn(Schedule(Parked(s, Get(s, s.curr).(state := Blocked))));
      case UnblockCall(u) =>
        WakeTidies(s, u);
        InterruptsOn(Wake(s, u));
      case BudgetCall(u, ms) => BudgetTidies(s, u, ms);
    }
  }

  lemma RescheduleTidies<T>(s: Sched<T>)
    requires Tidy(s)
    ensures Tidy(Schedule(s)) && Schedule(s).tcb.Keys == s.tcb.Keys
  {
    hide Schedule, Places, Requeues;
    ScheduleTidies(s);
  }

  lemma TidyRooted<T>(s: Sched<T>)
    requires Tidy(s)
    ensures Rooted(s)
  {
  }
}
