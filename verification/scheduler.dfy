/** The scheduler over its linked queues and thread blocks. Every operation is the step of `SchedSpec` with the
    same name, on the abstract state `Abs()`. */
module Scheduler {
  import opened SchedSpec
  import opened SchedCore
  import opened SchedLaws
  import opened Deque

  ghost function TcbOf(t: ThreadBlock): Tcb
    reads t`state, t`registers, t`execStartMs, t`totalRuntimeMs, t`scheduledTime, t`sleepTime
  {
    Tcb(t.state, t.registers, t.execStartMs, t.totalRuntimeMs, t.scheduledTime, t.sleepTime)
  }

  ghost function Blocks(ts: set<ThreadBlock>): map<ThreadBlock, Tcb>
    reads ts`state, ts`registers, ts`execStartMs, ts`totalRuntimeMs, ts`scheduledTime, ts`sleepTime
  {
    map t | t in ts :: TcbOf(t)
  }

  /** A running thread that a switch would requeue is not queued yet. */
  ghost predicate SafeSwitch<T>(s: Sched<T>) {
    s.curr != s.idle && Get(s, s.curr).state == Running ==> s.curr !in s.ready && s.curr !in s.waiting
  }

  /** So it is in every state a legal run reaches. */
  lemma TidyIsSafe<T>(s: Sched<T>)
    requires Tidy(s)
    ensures Quiet(s) && SafeSwitch(s)
    ensures s.curr != s.idle ==> s.curr !in s.ready && s.curr !in s.waiting
  {
    if s.curr != s.idle {
      NotQueued(s);
    }
  }

  lemma PutTwice<T>(s: Sched<T>, t: T, a: Tcb, b: Tcb)
    ensures Put(Put(s, t, a), t, b) == Put(s, t, b) && Get(Put(s, t, a), t) == a
  {
    assert s.tcb[t := a][t := b] == s.tcb[t := b];
  }

  class ThreadScheduler {
    var disableCounter: nat
    var taskSwitchCounter: nat
    var taskSwitchPostponed: bool
    var timeQuantumPast: bool
    const waitingQueue: SingleDeque
    const readyThreads: SingleDeque
    var currThread: ThreadBlock
    const idleThread: ThreadBlock
    // The millisecond clock and the processor's interrupt flag.
    var now: nat
    var interrupts: bool
    ghost var threads: set<ThreadBlock>
    // The interrupt flag at each dispatch made so far.
    ghost var dispatches: seq<bool>

    /** The two queues share one hook, so no thread is in both. */
    ghost predicate Queues()
      reads this`threads, waitingQueue, readyThreads, waitingQueue.nodes`next, readyThreads.nodes`next
    {
      && waitingQueue != readyThreads && waitingQueue.Valid() && readyThreads.Valid()
      && (forall t | t in waitingQueue.nodes :: t !in readyThreads.nodes)
      && (forall t | t in waitingQueue.nodes :: t in threads) && (forall t | t in readyThreads.nodes :: t in threads)
    }

    ghost predicate Valid()
      reads this, waitingQueue, readyThreads, waitingQueue.nodes`next, readyThreads.nodes`next
    {
      Queues() && currThread in threads && idleThread in threads && disableCounter < 256 && taskSwitchCounter < 256
    }

    ghost function Abs(): Sched<ThreadBlock>
      reads this, waitingQueue, readyThreads
      reads threads`state, threads`registers, threads`execStartMs, threads`totalRuntimeMs, threads`scheduledTime, threads`sleepTime
    {
      Sched(disableCounter, taskSwitchCounter, taskSwitchPostponed, timeQuantumPast,
            waitingQueue.nodes, readyThreads.nodes, currThread, idleThread, Blocks(threads), now, interrupts)
    }

    constructor (idle: ThreadBlock, clock: nat, flag: bool, ghost others: set<ThreadBlock>)
      modifies idle`state, idle`execStartMs
      ensures Valid() && fresh(waitingQueue) && fresh(readyThreads) && threads == others + {idle} && dispatches == []
      ensures Abs() == Initial(idle, old(Blocks(others + {idle})), clock, flag)
    {
      disableCounter := 0;
      taskSwitchCounter := 0;
      taskSwitchPostponed := false;
      timeQuantumPast := false;
      waitingQueue := new SingleDeque();
      readyThreads := new SingleDeque();
      currThread := idle;
      idleThread := idle;
      now := clock;
      interrupts := flag;
      threads := others + {idle};
      dispatches := [];
      new;
      currThread.state := Running;
      currThread.execStartMs := clock;
      assert Blocks(threads) == old(Blocks(others + {idle}))[idle := TcbOf(idle)];
    }

    // Writes to one thread block.

    method SetState(thread: ThreadBlock, state: ThreadState)
      requires Valid() && thread in threads
      modifies thread`state
      ensures Valid() && Abs() == Put(old(Abs()), thread, Get(old(Abs()), thread).(state := state))
    {
      hide Queues;
      thread.state := state;
      assert Blocks(threads) == old(Blocks(threads))[thread := TcbOf(thread)];
    }

    method UpdateScheduledTime(thread: ThreadBlock, ms: nat)
      requires Valid() && thread in threads
      modifies thread`scheduledTime
      ensures Valid() && Abs() == SetBudget(old(Abs()), thread, ms) && thread.scheduledTime == ms
    {
      hide Queues;
      thread.scheduledTime := ms;
      assert Blocks(threads) == old(Blocks(threads))[thread := TcbOf(thread)];
    }

    method SetSleepTime(thread: ThreadBlock, ms: nat)
      requires Valid() && thread in threads
      modifies thread`sleepTime
      ensures Valid() && Abs() == Put(old(Abs()), thread, Get(old(Abs()), thread).(sleepTime := ms)) && thread.sleepTime == ms
    {
      hide Queues;
      thread.sleepTime := ms;
      assert Blocks(threads) == old(Blocks(threads))[thread := TcbOf(thread)];
    }

    method Start(thread: ThreadBlock)
      requires Valid() && thread in threads
      modifies this`currThread, thread`execStartMs
      ensures Valid() && Abs() == Put(old(Abs()), thread, Get(old(Abs()), thread).(execStart := now)).(curr := thread)
    {
      hide Queues;
      currThread := thread;
      currThread.execStartMs := now;
      assert Blocks(threads) == old(Blocks(threads))[thread := TcbOf(thread)];
    }

    method SaveContext(frame: IrqFrame)
      requires Valid()
      modifies currThread`registers, currThread`totalRuntimeMs
      ensures Valid()
      ensures var b := Get(old(Abs()), currThread);
        Abs() == Put(old(Abs()), currThread, b.(registers := frame, totalRuntime := b.totalRuntime + 1))
    {
      hide Queues;
      currThread.registers := frame;
      currThread.totalRuntimeMs := currThread.totalRuntimeMs + 1;
      assert Blocks(threads) == old(Blocks(threads))[currThread := TcbOf(currThread)];
    }

    // Moves between the queues.

    method PushReady(thread: ThreadBlock)
      requires Valid() && thread in threads && thread !in waitingQueue.nodes && thread !in readyThreads.nodes
      modifies readyThreads, threads`next
      ensures Valid() && Abs() == old(Abs()).(ready := old(readyThreads.nodes) + [thread])
    {
      ghost var w := waitingQueue.nodes;
      assert forall i | 0 <= i < |w| :: w[i] in w && w[i] !in readyThreads.nodes && w[i] != thread;
      readyThreads.PushTail(thread);
    }

    method PushWaiting(thread: ThreadBlock)
      requires Valid() && thread in threads && thread !in waitingQueue.nodes && thread !in readyThreads.nodes
      modifies waitingQueue, threads`next
      ensures Valid() && Abs() == old(Abs()).(waiting := old(waitingQueue.nodes) + [thread])
    {
      ghost var r := readyThreads.nodes;
      assert forall i | 0 <= i < |r| :: r[i] in r && r[i] !in waitingQueue.nodes && r[i] != thread;
      waitingQueue.PushTail(thread);
    }

    method PopReady() returns (thread: ThreadBlock)
      requires Valid() && readyThreads.nodes != []
      modifies readyThreads
      ensures Valid() && thread == old(readyThreads.nodes)[0] && thread in threads
      ensures thread !in waitingQueue.nodes && thread !in readyThreads.nodes
      ensures Abs() == old(Abs()).(ready := old(readyThreads.nodes)[1..])
    {
      assert readyThreads.nodes[0] in readyThreads.nodes;
      thread := readyThreads.PopHead();
    }

    method RemoveWaiting(thread: ThreadBlock)
      requires Valid()
      modifies waitingQueue, threads`next
      ensures Valid() && Abs() == old(Abs()).(waiting := Remove(old(waitingQueue.nodes), thread))
      ensures thread !in waitingQueue.nodes
    {
      ghost var r, w := readyThreads.nodes, waitingQueue.nodes;
      assert forall i | 0 <= i < |r| :: r[i] in r && r[i] !in w;
      RemoveWithin(w, thread);
      hide SchedSpec.Remove;
      waitingQueue.Remove(thread);
    }

    /** The abstract block of a thread holds its fields. */
    lemma BlockOf(t: ThreadBlock)
      requires t in threads
      ensures var b := Get(Abs(), t);
        && b.state == t.state && b.execStart == t.execStartMs && b.budget == t.scheduledTime && b.sleepTime == t.sleepTime
        && b.registers == t.registers
    {
    }

    // The operations.

    method LockScheduler()
      requires Valid()
      modifies this`interrupts, this`disableCounter, this`taskSwitchCounter
      ensures Valid() && Abs() == Lock(old(Abs()))
    {
      hide Queues, Blocks;
      interrupts := false;
      disableCounter := (disableCounter + 1) % 256;
      taskSwitchCounter := (taskSwitchCounter + 1) % 256;
    }

    // A scheduler always has a current thread, so the branch for one without is left out.
    method AddReadyThreads(thread: ThreadBlock)
      requires Valid() && thread in threads && thread !in waitingQueue.nodes && thread !in readyThreads.nodes
      modifies this, readyThreads, threads
      ensures Valid() && threads == old(threads) && Abs() == AddReady(old(Abs()), thread)
      ensures dispatches == old(dispatches)
    {
      hide Queues, Blocks, Get, Put;
      ghost var s, b := Abs(), Get(Abs(), thread);
      SetState(thread, Ready);
      if timeQuantumPast {
        PushReady(thread);
        timeQuantumPast := false;
        return;
      }
      UpdateScheduledTime(thread, 6);
      PutTwice(s, thread, b.(state := Ready), b.(state := Ready, budget := 6));
      PushReady(thread);
    }

    method SwitchTask(next: ThreadBlock)
      requires Valid() && next in threads && SafeSwitch(Abs())
      modifies this, readyThreads, threads
      ensures Valid() && threads == old(threads) && Abs() == SchedSpec.SwitchTask(old(Abs()), next)
      ensures dispatches == old(dispatches)
    {
      hide Queues, Blocks, Get, Put, AddReady;
      BlockOf(currThread);
      if currThread.state == Running && currThread != idleThread {
        AddReadyThreads(currThread);
        SetState(next, Running);
      }
      Start(next);
    }

    method Schedule()
      requires Valid() && SafeSwitch(Abs())
      modifies this, readyThreads, threads
      ensures Valid() && threads == old(threads) && Abs() == SchedSpec.Schedule(old(Abs()))
      ensures dispatches == old(dispatches) + DispatchFlags(old(Abs()))
    {
      hide Queues, Blocks, Get, Put, SchedSpec.SwitchTask, Charge, SafeSwitch;
      if taskSwitchCounter != 0 {
        taskSwitchPostponed := true;
        return;
      }
      dispatches := dispatches + [interrupts];
      QueueEmpty();
      if readyThreads.Empty() {
        SwitchTask(idleThread);
        return;
      }
      if timeQuantumPast {
        TakeQuantum();
      }
      ChargeIs(old(Abs()));
      ghost var c := Abs();
      var next := PopReady();
      OutOfReady(c, readyThreads.nodes, next, Get(c, next).(state := Running));
      SetState(next, Running);
      SafePopped(old(Abs()));
      SwitchTask(next);
    }

    method TakeQuantum()
      requires Valid() && timeQuantumPast
      modifies currThread`scheduledTime
      ensures Valid() && Abs() == Charge(old(Abs()))
    {
      hide Queues, Blocks, Get, Put;
      BlockOf(currThread);
      ghost var s, b := Abs(), Get(Abs(), currThread);
      UpdateScheduledTime(currThread, LessQuantum(currThread.scheduledTime));
      if currThread.scheduledTime == 0 {
        PutTwice(s, currThread, b.(budget := 0), b.(budget := 6));
        UpdateScheduledTime(currThread, 6);
      }
    }

    method UnlockScheduler()
      requires Valid() && (taskSwitchCounter == 1 && taskSwitchPostponed ==> SafeSwitch(Abs()))
      modifies this, readyThreads, threads
      ensures Valid() && threads == old(threads) && Abs() == Unlock(old(Abs()))
      ensures dispatches == old(dispatches) + UnlockFlags(old(Abs()))
    {
      hide Queues, Blocks, SafeSwitch, SchedSpec.Schedule, Get, Put, TcbOf, Unlock, UnlockFlags, DispatchFlags;
      ghost var s := Abs();
      taskSwitchCounter := (taskSwitchCounter + 255) % 256;
      UnlockParts(s, dispatches);
      if taskSwitchCounter == 0 {
        if taskSwitchPostponed {
          taskSwitchPostponed := false;
          assert Abs() == CallState(s);
          Schedule();
        }
      }
      ReleaseInterrupts();
    }

    method ReleaseInterrupts()
      requires Valid()
      modifies this`disableCounter, this`interrupts
      ensures Valid()
      ensures var d := (old(disableCounter) + 255) % 256;
        Abs() == old(Abs()).(disableCounter := d, interrupts := d == 0 || old(interrupts))
    {
      hide Queues, Blocks;
      disableCounter := (disableCounter + 255) % 256;
      if disableCounter == 0 {
        interrupts := true;
      }
    }

    /** The end of `sleep`, `yield` and `block`: request a switch and unlock. */
    method SwitchAway()
      requires Valid() && SafeSwitch(Abs())
      modifies this, readyThreads, threads
      ensures Valid() && threads == old(threads) && Abs() == Unlock(SchedSpec.Schedule(old(Abs())))
      ensures old(taskSwitchCounter) == 1 && !old(interrupts) ==> dispatches == old(dispatches) + [false]
    {
      hide Queues, Blocks, SafeSwitch, SchedSpec.Schedule, Unlock, DispatchFlags, UnlockFlags, TcbOf;
      RequestSafe(Abs());
      RequestFlags(Abs(), dispatches);
      Schedule();
      UnlockScheduler();
    }

    method Sleep(milli: nat)
      requires Valid() && currThread !in waitingQueue.nodes && currThread !in readyThreads.nodes
      modifies this, waitingQueue, readyThreads, threads
      ensures Valid() && threads == old(threads) && Abs() == SleepFor(old(Abs()), milli)
      ensures old(taskSwitchCounter) == 0 ==> dispatches == old(dispatches) + [false]
    {
      hide Queues, Blocks, Get, Put, SchedSpec.Schedule, Unlock, DispatchFlags, UnlockFlags;
      LockScheduler();
      ghost var s, t, b := Abs(), currThread, Get(Abs(), currThread);
      PutTwice(s, t, b.(sleepTime := milli), b.(sleepTime := milli, state := ThreadState.Sleep));
      SetSleepTime(currThread, milli);
      SetState(currThread, ThreadState.Sleep);
      PushWaiting(currThread);
      NotRunning(Abs(), s, b.(sleepTime := milli, state := ThreadState.Sleep));
      SwitchAway();
    }

    method Yield()
      requires Valid() && currThread !in waitingQueue.nodes && currThread !in readyThreads.nodes
      modifies this, readyThreads, threads
      ensures Valid() && threads == old(threads) && Abs() == SchedSpec.Yield(old(Abs()))
      ensures old(taskSwitchCounter) == 0 ==> dispatches == old(dispatches) + [false]
    {
      hide Queues, Blocks, Get, Put, SchedSpec.Schedule, Unlock, DispatchFlags, UnlockFlags;
      LockScheduler();
      ghost var s, t, b := Abs(), currThread, Get(Abs(), currThread);
      PutTwice(s, t, b.(state := Ready), b.(state := Ready, budget := 6));
      SetState(currThread, Ready);
      UpdateScheduledTime(currThread, 6);
      PushReady(currThread);
      NotRunning(Abs(), s, b.(state := Ready, budget := 6));
      SwitchAway();
    }

    method Block()
      requires Valid() && currThread !in waitingQueue.nodes && currThread !in readyThreads.nodes
      modifies this, waitingQueue, readyThreads, threads
      ensures Valid() && threads == old(threads) && Abs() == SchedSpec.Block(old(Abs()))
      ensures old(taskSwitchCounter) == 0 ==> dispatches == old(dispatches) + [false]
    {
      hide Queues, Blocks, Get, Put, SchedSpec.Schedule, Unlock, DispatchFlags, UnlockFlags;
      LockScheduler();
      ghost var s, b := Abs(), Get(Abs(), currThread);
      SetState(currThread, Blocked);
      PushWaiting(currThread);
      NotRunning(Abs(), s, b.(state := Blocked));
      SwitchAway();
    }

    /** The part of `unblock` between its lock and its unlock. */
    method WakeThread(task: ThreadBlock)
      requires Valid() && task in threads && task !in readyThreads.nodes
      modifies this, waitingQueue, readyThreads, threads
      ensures Valid() && threads == old(threads) && Abs() == Wake(old(Abs()), task)
      ensures dispatches == old(dispatches)
    {
      hide Queues, Blocks, Get, Put, SchedSpec.SwitchTask, Remove, TcbOf;
      ghost var l := Abs();
      RemoveWaiting(task);
      ghost var s, b := Abs(), Get(Abs(), task);
      OutOfQueue(l, s.waiting, task, b.(sleepTime := 0, state := Ready));
      PutTwice(s, task, b.(sleepTime := 0), b.(sleepTime := 0, state := Ready));
      SetSleepTime(task, 0);
      SetState(task, Ready);
      QueueEmpty();
      if readyThreads.Empty() && currThread == idleThread {
        SafeIdle(Abs());
        SwitchTask(task);
      } else {
        PushReady(task);
      }
    }

    method Unblock(task: ThreadBlock)
      requires Valid() && task in threads && task !in readyThreads.nodes
      requires taskSwitchCounter == 0 ==> !taskSwitchPostponed
      modifies this, waitingQueue, readyThreads, threads
      ensures Valid() && threads == old(threads) && Abs() == SchedSpec.Unblock(old(Abs()), task)
      ensures dispatches == old(dispatches)
    {
      hide Queues, Blocks, Wake, Unlock, UnlockFlags, TcbOf;
      LockScheduler();
      WakeFrame(Abs(), task, 0, 0, true);
      WakeThread(task);
      NoFlags(Abs(), dispatches);
      UnlockScheduler();
    }

    lemma QueueEmpty()
      requires Valid()
      ensures readyThreads.Valid()
    {
    }

    /** One waiting thread in the wake-up loop. */
    method WakeIfDue(thread: ThreadBlock)
      requires Valid() && Locked(Abs()) && SafeSwitch(Abs()) && thread in waitingQueue.nodes
      modifies this, waitingQueue, readyThreads, threads
      ensures Valid() && threads == old(threads) && Abs() == Drain(old(Abs()), thread)
      ensures dispatches == old(dispatches)
    {
      Linking(thread);
      hide Queues, Blocks, Get, Put, SchedSpec.Unblock, SafeSwitch;
      BlockOf(thread);
      if thread.state == Blocked {
        return;
      }
      ghost var s, b := Abs(), Get(Abs(), thread);
      if thread.sleepTime > 0 {
        SetSleepTime(thread, thread.sleepTime - 1);
      } else {
        PutBack(s, thread);
      }
      PutTwice(s, thread, b, b);
      if thread.sleepTime == 0 {
        Unblock(thread);
      }
    }

    /** The wake-up loop. The successor is read before the node is used, so the walk sees exactly the threads that
        were waiting when it started, in order, although woken ones are relinked into the ready queue. */
    method WakeSleepers()
      requires Valid() && Locked(Abs()) && SafeSwitch(Abs())
      modifies this, waitingQueue, readyThreads, threads
      ensures Valid() && threads == old(threads) && Abs() == DrainAll(old(Abs()), old(waitingQueue.nodes))
      ensures dispatches == old(dispatches)
      ensures Locked(Abs()) && SafeSwitch(Abs())
    {
      hide *;
      ghost var w: seq<ThreadBlock>, kept: seq<ThreadBlock>, k: nat := waitingQueue.nodes, [], 0;
      ghost var s := Abs();
      var it := Begin(waitingQueue.head);
      Started(it, w);
      DrainNone(s, w);
      AbsWaiting();
      while it.ptr != null
        invariant Valid() && threads == old(threads) && dispatches == old(dispatches) && Locked(Abs()) && SafeSwitch(Abs())
        invariant k <= |w| && waitingQueue.nodes == kept + w[k..] && At(it, w, k)
        invariant Abs() == DrainAll(s, w[..k])
        decreases |w| - k
      {
        ghost var m := Abs();
        AtNode(it, w, k);
        AbsWaiting();
        Ahead(kept, w, k);
        DrainNext(s, w, k);
        DrainStep(m, kept, w, k);
        WakeIfDue(it.ptr);
        AbsWaiting();
        kept := if waitingQueue.nodes == m.waiting then kept + [w[k]] else kept;
        Successor(kept, w, k + 1);
        AdvanceIs(it, w, k);
        it, k := Advance(it), k + 1;
      }
      AtEnd(it, w, k);
    }

    lemma AbsWaiting()
      ensures Abs().waiting == waitingQueue.nodes
    {
    }

    lemma Started(it: Iterator, w: seq<ThreadBlock>)
      requires Valid() && it == Begin(waitingQueue.head) && w == waitingQueue.nodes
      ensures At(it, w, 0) && w == [] + w[0..]
    {
      Successor([], w, 0);
    }

    /** What the hook of the `k`-th waiting thread holds. */
    lemma Successor(kept: seq<ThreadBlock>, w: seq<ThreadBlock>, k: nat)
      requires Valid() && k <= |w| && waitingQueue.nodes == kept + w[k..]
      ensures k < |w| ==> w[k].next == if k + 1 < |w| then w[k + 1] else null
      ensures kept == [] && k == 0 ==> waitingQueue.head == if w == [] then null else w[0]
    {
      if k < |w| {
        assert Linked(waitingQueue.nodes, |kept|);
        assert (kept + w[k..])[|kept|] == w[k];
      }
    }

    /** The slice test at the end of the tick. */
    method ExpireSlice()
      requires Valid() && Locked(Abs()) && SafeSwitch(Abs())
      modifies this, readyThreads, threads
      ensures Valid() && threads == old(threads) && Abs() == Expire(old(Abs())) && dispatches == old(dispatches)
      ensures taskSwitchCounter == 1 && taskSwitchPostponed ==> SafeSwitch(Abs())
      ensures UnlockFlags(Abs()) == if SliceOver(old(Abs())) then [false] else []
    {
      hide Queues, Blocks, Get, Put, SafeSwitch, SchedSpec.Schedule, DispatchFlags, UnlockFlags, TcbOf;
      ghost var d := Abs();
      BlockOf(currThread);
      var delta: int := now - currThread.execStartMs;
      if delta >= currThread.scheduledTime {
        RequestSafe(d);
        RequestFlags(d, dispatches);
        Schedule();
      } else if delta == 100 {
        timeQuantumPast := true;
        FlagSafe(d);
        RequestSafe(Abs());
        RequestFlags(Abs(), dispatches);
        Schedule();
      } else {
        NoFlags(d, []);
      }
    }

    /** One timer interrupt, after the clock has counted its millisecond. Interrupts are off under the lock, so it
        finds the scheduler unlocked. */
    method PitIrqHandler(frame: IrqFrame) returns (resumed: IrqFrame)
      requires Valid() && Quiet(Abs()) && SafeSwitch(Abs())
      modifies this, waitingQueue, readyThreads, threads
      ensures Valid() && threads == old(threads) && Abs() == Tick(old(Abs()), frame)
      ensures resumed == FrameOut(Abs())
      ensures var s := Enter(old(Abs()), frame);
        dispatches == old(dispatches) + if SliceOver(DrainAll(s, s.waiting)) then [false] else []
    {
      hide Queues, Blocks, Get, Put, SafeSwitch, Unlock, DrainAll, UnlockFlags, Expire, SliceOver, TcbOf;
      ghost var s := Abs();
      now := now + 1;
      LockScheduler();
      SaveContext(frame);
      EnterSafe(s, frame);
      WakeSleepers();
      ExpireSlice();
      UnlockScheduler();
      BlockOf(currThread);
      resumed := currThread.registers;
    }

    lemma Ahead(kept: seq<ThreadBlock>, w: seq<ThreadBlock>, k: nat)
      requires Valid() && k < |w| && waitingQueue.nodes == kept + w[k..]
      ensures w[k] !in kept && w[k] in waitingQueue.nodes
    {
      var nodes := waitingQueue.nodes;
      assert nodes[|kept|] == w[k];
      forall i | 0 <= i < |kept| ensures kept[i] != w[k] {
        assert nodes[i] == kept[i];
      }
    }

    lemma Linking(thread: ThreadBlock)
      requires Valid() && thread in waitingQueue.nodes
      ensures thread in threads && thread !in readyThreads.nodes
    {
    }
  }

  /** Under exactly one lock, with no switch requested. */
  ghost predicate Locked<T>(s: Sched<T>) {
    s.disableCounter == 1 && s.switchCounter == 1 && !s.interrupts && !s.postponed
  }

  lemma Walk<T>(w: seq<T>, k: nat)
    requires k < |w|
    ensures w[..k + 1][..k] == w[..k] && w[..k + 1][k] == w[k]
  {
  }

  /** The iterator is at the `k`-th node and knows the next. */
  ghost predicate At(it: Iterator, w: seq<ThreadBlock>, k: nat) {
    && it.ptr == (if k < |w| then w[k] else null)
    && (it.ptr != null ==> it.next == if k + 1 < |w| then w[k + 1] else null)
  }

  lemma AtNode(it: Iterator, w: seq<ThreadBlock>, k: nat)
    requires k <= |w| && At(it, w, k) && it.ptr != null
    ensures k < |w| && it.ptr == w[k] && it.next == if k + 1 < |w| then w[k + 1] else null
  {
  }

  lemma AtEnd(it: Iterator, w: seq<ThreadBlock>, k: nat)
    requires k <= |w| && At(it, w, k) && it.ptr == null
    ensures k == |w| && w[..k] == w
  {
  }

  lemma AdvanceIs(it: Iterator, w: seq<ThreadBlock>, k: nat)
    requires k < |w| && it.next == (if k + 1 < |w| then w[k + 1] else null)
    requires k + 1 < |w| ==> w[k + 1].next == if k + 2 < |w| then w[k + 2] else null
    ensures At(Advance(it), w, k + 1)
  {
  }

  lemma DrainNone<T>(s: Sched<T>, w: seq<T>)
    ensures DrainAll(s, w[..0]) == s
  {
  }

  lemma DrainNext<T>(s: Sched<T>, w: seq<T>, k: nat)
    requires k < |w|
    ensures DrainAll(s, w[..k + 1]) == Drain(DrainAll(s, w[..k]), w[k])
  {
    hide Drain;
    Walk(w, k);
  }

  lemma DrainStep<T>(s: Sched<T>, kept: seq<T>, w: seq<T>, k: nat)
    requires Locked(s) && SafeSwitch(s) && k < |w| && s.waiting == kept + w[k..] && w[k] !in kept && w[k] in s.waiting
    ensures var r := Drain(s, w[k]);
      && Locked(r) && SafeSwitch(r)
      && (r.waiting == if r.waiting == s.waiting then (kept + [w[k]]) + w[k + 1..] else kept + w[k + 1..])
  {
    var t, x := w[k], Ctl(s, 0, 0, false);
    assert s == Held(x);
    assert kept + w[k..] == kept + [t] + w[k + 1..];
    assert SafeSwitch(x);
    hide Drain, DrainOne, Remove, SafeSwitch, Get;
    DrainHeld(x, t);
    RemoveMiddle(kept, t, w[k + 1..]);
    DrainOneSafe(x, t);
    SafeAnyLock(DrainOne(x, t), 1, 1, false, false);
  }

  lemma DrainOneSafe<T>(s: Sched<T>, t: T)
    requires SafeSwitch(s) && t in s.waiting
    ensures var r := DrainOne(s, t);
      SafeSwitch(r) && (r.waiting == s.waiting || r.waiting == Remove(s.waiting, t))
  {
    var b := Get(s, t);
    WakeSafe(Put(s, t, b.(sleepTime := 0)), t);
    hide Wake, Remove;
  }

  lemma SwitchFromIdle<T>(s: Sched<T>, next: T)
    requires s.curr == s.idle
    ensures SchedSpec.SwitchTask(s, next) == Put(s, next, Get(s, next).(execStart := s.now)).(curr := next)
  {
  }

  lemma EnterSafe<T>(s: Sched<T>, frame: IrqFrame)
    requires Quiet(s) && SafeSwitch(s)
    ensures Locked(Enter(s, frame)) && SafeSwitch(Enter(s, frame))
  {
  }

  lemma FlagSafe<T>(s: Sched<T>)
    requires SafeSwitch(s)
    ensures SafeSwitch(s.(quantumPast := true))
  {
  }

  lemma WakeSafe<T>(s: Sched<T>, t: T)
    requires SafeSwitch(s) && t in s.waiting
    ensures SafeSwitch(Wake(s, t)) && Wake(s, t).waiting == Remove(s.waiting, t)
  {
    if s.curr in Remove(s.waiting, t) {
      RemoveShrinks(s.waiting, t, s.curr);
    }
    var s1 := Put(s, t, Get(s, t).(sleepTime := 0, state := Ready)).(waiting := Remove(s.waiting, t));
    hide Remove, SchedSpec.SwitchTask;
    if s1.curr == s1.idle {
      SwitchFromIdle(s1, t);
    }
  }

  lemma {:induction false} RemoveShrinks<T>(q: seq<T>, t: T, u: T)
    requires u in Remove(q, t)
    ensures u in q
  {
    if q[0] != t && q[0] != u {
      RemoveShrinks(q[1..], t, u);
    }
  }

  lemma PutBack<T>(s: Sched<T>, t: T)
    requires t in s.tcb
    ensures Put(s, t, Get(s, t)) == s
  {
    assert s.tcb[t := s.tcb[t]] == s.tcb;
  }

  /** Under one lock a request dispatches nothing, and the unlock that follows it dispatches once, masked. */
  lemma RequestFlags<T>(s: Sched<T>, log: seq<bool>)
    ensures s.switchCounter == 1 && !s.interrupts ==>
      log + DispatchFlags(s) == log && UnlockFlags(SchedSpec.Schedule(s)) == [false]
  {
  }

  lemma NoFlags<T>(s: Sched<T>, log: seq<bool>)
    requires s.switchCounter < 256
    ensures s.switchCounter != 1 || !s.postponed ==> log + UnlockFlags(s) == log
  {
  }

  /** What unlocking is made of. */
  lemma UnlockParts<T>(s: Sched<T>, log: seq<bool>)
    requires s.switchCounter < 256
    ensures var s2 := if CallsSchedule(s) then SchedSpec.Schedule(CallState(s)) else Lowered(s);
      var d := (s2.disableCounter + 255) % 256;
      Unlock(s) == s2.(disableCounter := d, interrupts := d == 0 || s2.interrupts)
    ensures log + UnlockFlags(s) == if CallsSchedule(s) then log + DispatchFlags(CallState(s)) else log
    ensures CallsSchedule(s) ==> s.switchCounter == 1 && SafeSwitch(CallState(s)) == SafeSwitch(s)
  {
    hide SchedSpec.Schedule;
    if CallsSchedule(s) {
      LastLock(s.switchCounter);
      SafeAnyLock(s, s.disableCounter, 0, s.interrupts, false);
    }
  }

  lemma LastLock(c: nat)
    requires c < 256 && (c + 255) % 256 == 0
    ensures c == 1
  {
  }

  lemma SafeAnyLock<T>(s: Sched<T>, d: nat, k: nat, i: bool, p: bool)
    ensures SafeSwitch(Ctl(s, d, k, i).(postponed := p)) == SafeSwitch(s)
  {
  }

  /** A thread whose block says otherwise is not Running. */
  lemma NotRunning<T>(s: Sched<T>, before: Sched<T>, b: Tcb)
    requires s.tcb == Put(before, before.curr, b).tcb && s.curr == before.curr && b.state != Running
    ensures SafeSwitch(s)
  {
  }

  lemma OutOfQueue<T>(s: Sched<T>, w: seq<T>, t: T, b: Tcb)
    ensures Get(s.(waiting := w), t) == Get(s, t) && Put(s.(waiting := w), t, b) == Put(s, t, b).(waiting := w)
  {
  }

  lemma OutOfReady<T>(s: Sched<T>, q: seq<T>, t: T, b: Tcb)
    ensures Get(s.(ready := q), t) == Get(s, t) && Put(s.(ready := q), t, b) == Put(s, t, b).(ready := q)
  {
  }

  lemma SafeIdle<T>(s: Sched<T>)
    requires s.curr == s.idle
    ensures SafeSwitch(s)
  {
  }

  /** Requesting a switch leaves the lock count, and if the switch is postponed it stays safe. */
  lemma RequestSafe<T>(s: Sched<T>)
    requires SafeSwitch(s)
    ensures var r := SchedSpec.Schedule(s); r.switchCounter == s.switchCounter && (r.switchCounter == 1 ==> SafeSwitch(r))
  {
    if s.switchCounter == 0 {
      ScheduleFrame(s, 0, true);
      hide SchedSpec.Schedule;
    }
  }

  lemma ChargeIs<T>(s: Sched<T>)
    ensures !s.quantumPast ==> Charge(s) == s
    ensures Charge(s) == s.(tcb := Charge(s).tcb)
  {
  }

  /** Popping the head leaves the running thread safe to requeue. */
  lemma SafePopped<T>(s: Sched<T>)
    requires SafeSwitch(s) && s.ready != [] && s.ready[0] !in s.ready[1..] && s.ready[0] !in s.waiting
    ensures var s1, next := Charge(s), s.ready[0];
      SafeSwitch(Put(s1, next, Get(s1, next).(state := Running)).(ready := s.ready[1..]))
  {
  }

  lemma {:induction false} RemoveWithin(q: seq<ThreadBlock>, t: ThreadBlock)
    requires Distinct(q)
    ensures t !in Remove(q, t) && forall u | u in Remove(q, t) :: u in q
  {
    if q != [] {
      assert q == [q[0]] + q[1..];
      RemoveWithin(q[1..], t);
      assert forall u | u in q[1..] :: u in q && u != q[0];
    }
  }
}
