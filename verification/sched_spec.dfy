/** The scheduler as a state machine over values. `T` is the identity of a thread. */
module SchedSpec {

  datatype ThreadState = Ready | Running | Blocked | Sleep

  /** The register frame an interrupt saves; its contents do not matter to the scheduler. */
  datatype IrqFrame = IrqFrame(words: seq<nat>)

  /** The fields of a thread block that the scheduler reads or writes. */
  datatype Tcb = Tcb(state: ThreadState, registers: IrqFrame, execStart: nat, totalRuntime: nat, budget: nat, sleepTime: nat)

  datatype Sched<T> = Sched(
    disableCounter: nat, switchCounter: nat, postponed: bool, quantumPast: bool,
    waiting: seq<T>, ready: seq<T>, curr: T, idle: T,
    tcb: map<T, Tcb>, now: nat, interrupts: bool)

  function Get<T(==)>(s: Sched<T>, t: T): Tcb {
    if t in s.tcb then s.tcb[t] else Tcb(Ready, IrqFrame([]), 0, 0, 6, 0)
  }

  function Put<T(==)>(s: Sched<T>, t: T, b: Tcb): Sched<T> {
    s.(tcb := s.tcb[t := b])
  }

  /** Without the first occurrence of `t`. */
  function Remove<T(==)>(q: seq<T>, t: T): seq<T> {
    if q == [] then [] else if q[0] == t then q[1..] else [q[0]] + Remove(q[1..], t)
  }

  // The counters are bytes.

  function Lock<T(==)>(s: Sched<T>): Sched<T> {
    s.(interrupts := false, disableCounter := (s.disableCounter + 1) % 256, switchCounter := (s.switchCounter + 1) % 256)
  }

  function Lowered<T(==)>(s: Sched<T>): Sched<T> {
    s.(switchCounter := (s.switchCounter + 255) % 256)
  }

  /** `unlock_scheduler` calls `schedule` when it gives up the last lock and a switch was requested meanwhile. */
  predicate CallsSchedule<T(==)>(s: Sched<T>) {
    Lowered(s).switchCounter == 0 && s.postponed
  }

  /** The state in which it calls it. */
  function CallState<T(==)>(s: Sched<T>): Sched<T> {
    Lowered(s).(postponed := false)
  }

  function Unlock<T(==)>(s: Sched<T>): Sched<T> {
    var s2 := if CallsSchedule(s) then Schedule(CallState(s)) else Lowered(s);
    var s3 := s2.(disableCounter := (s2.disableCounter + 255) % 256);
    if s3.disableCounter == 0 then s3.(interrupts := true) else s3
  }

  /** The interrupt flag at the dispatch that `schedule` makes; none if it only notes the request. */
  function DispatchFlags<T(==)>(s: Sched<T>): seq<bool> {
    if s.switchCounter != 0 then [] else [s.interrupts]
  }

  function UnlockFlags<T(==)>(s: Sched<T>): seq<bool> {
    if CallsSchedule(s) then DispatchFlags(CallState(s)) else []
  }

  /** `add_ready_threads`, past its branch for a scheduler without a current thread. */
  function AddReady<T(==)>(s: Sched<T>, t: T): Sched<T> {
    if s.quantumPast then
      Put(s, t, Get(s, t).(state := Ready)).(ready := s.ready + [t], quantumPast := false)
    else
      Put(s, t, Get(s, t).(state := Ready, budget := 6)).(ready := s.ready + [t])
  }

  function SwitchTask<T(==)>(s: Sched<T>, next: T): Sched<T> {
    var s1 := if Get(s, s.curr).state == Running && s.curr != s.idle
              then var r := AddReady(s, s.curr); Put(r, next, Get(r, next).(state := Running))
              else s;
    Put(s1, next, Get(s1, next).(execStart := s1.now)).(curr := next)
  }

  /** 64-bit subtraction of the quantum. */
  function LessQuantum(b: nat): nat {
    if b >= 100 then b - 100 else b + 0x1_0000_0000_0000_0000 - 100
  }

  function Charge<T(==)>(s: Sched<T>): Sched<T> {
    if s.quantumPast then
      var b := LessQuantum(Get(s, s.curr).budget);
      Put(s, s.curr, Get(s, s.curr).(budget := if b == 0 then 6 else b))
    else s
  }

  function Schedule<T(==)>(s: Sched<T>): Sched<T> {
    if s.switchCounter != 0 then s.(postponed := true)
    else if s.ready == [] then SwitchTask(s, s.idle)
    else
      var s1 := Charge(s);
      var next := s.ready[0];
      SwitchTask(Put(s1, next, Get(s1, next).(state := Running)).(ready := s.ready[1..]), next)
  }

  function SleepFor<T(==)>(s: Sched<T>, ms: nat): Sched<T> {
    var s1 := Lock(s);
    var s2 := Put(s1, s1.curr, Get(s1, s1.curr).(sleepTime := ms, state := Sleep)).(waiting := s1.waiting + [s1.curr]);
    Unlock(Schedule(s2))
  }

  function Yield<T(==)>(s: Sched<T>): Sched<T> {
    var s1 := Lock(s);
    var s2 := Put(s1, s1.curr, Get(s1, s1.curr).(state := Ready, budget := 6)).(ready := s1.ready + [s1.curr]);
    Unlock(Schedule(s2))
  }

  function Block<T(==)>(s: Sched<T>): Sched<T> {
    var s1 := Lock(s);
    var s2 := Put(s1, s1.curr, Get(s1, s1.curr).(state := Blocked)).(waiting := s1.waiting + [s1.curr]);
    Unlock(Schedule(s2))
  }

  /** The body of `unblock` between its lock and its unlock. */
  function Wake<T(==)>(s: Sched<T>, t: T): Sched<T> {
    var s1 := Put(s, t, Get(s, t).(sleepTime := 0, state := Ready)).(waiting := Remove(s.waiting, t));
    if s1.ready == [] && s1.curr == s1.idle then SwitchTask(s1, t) else s1.(ready := s1.ready + [t])
  }

  function Unblock<T(==)>(s: Sched<T>, t: T): Sched<T> {
    Unlock(Wake(Lock(s), t))
  }

  /** The body of the wake-up loop for one waiting thread. */
  function Drain<T(==)>(s: Sched<T>, t: T): Sched<T> {
    var b := Get(s, t);
    if b.state == Blocked then s
    else
      var left := if b.sleepTime > 0 then b.sleepTime - 1 else 0;
      var s1 := Put(s, t, b.(sleepTime := left));
      if left == 0 then Unblock(s1, t) else s1
  }

  function DrainAll<T(==)>(s: Sched<T>, ts: seq<T>): Sched<T> {
    if ts == [] then s else Drain(DrainAll(s, ts[..|ts| - 1]), ts[|ts| - 1])
  }

  predicate SliceOver<T(==)>(s: Sched<T>) {
    var delta := s.now - Get(s, s.curr).execStart;
    delta >= Get(s, s.curr).budget || delta == 100
  }

  /** The slice test at the end of the tick handler. */
  function Expire<T(==)>(s: Sched<T>): Sched<T> {
    var delta := s.now - Get(s, s.curr).execStart;
    if delta >= Get(s, s.curr).budget then Schedule(s)
    else if delta == 100 then Schedule(s.(quantumPast := true))
    else s
  }

  /** The clock advances and the running thread's frame is saved and charged. */
  function Enter<T(==)>(s: Sched<T>, frame: IrqFrame): Sched<T> {
    var s1 := Lock(s.(now := s.now + 1));
    var b := Get(s1, s1.curr);
    Put(s1, s1.curr, b.(registers := frame, totalRuntime := b.totalRuntime + 1))
  }

  /** One timer interrupt. The frame handed back is `FrameOut` of the result. */
  function Tick<T(==)>(s: Sched<T>, frame: IrqFrame): Sched<T> {
    var s1 := Enter(s, frame);
    Unlock(Expire(DrainAll(s1, s1.waiting)))
  }

  function FrameOut<T(==)>(s: Sched<T>): IrqFrame {
    Get(s, s.curr).registers
  }

  function SetBudget<T(==)>(s: Sched<T>, t: T, ms: nat): Sched<T> {
    Put(s, t, Get(s, t).(budget := ms))
  }

  /** The constructor. */
  function Initial<T(==)>(idle: T, tcb: map<T, Tcb>, now: nat, interrupts: bool): Sched<T>
    requires idle in tcb
  {
    Sched(0, 0, false, false, [], [], idle, idle, tcb[idle := tcb[idle].(state := Running, execStart := now)], now, interrupts)
  }
}
