/** The public operations of an unlocked scheduler, with the lock and the postponed switch resolved. */
module SchedCore {
  import opened SchedSpec

  predicate Quiet<T>(s: Sched<T>) {
    s.disableCounter == 0 && s.switchCounter == 0 && !s.postponed
  }

  /** Counters as inside one level of lock. */
  function Held<T>(s: Sched<T>): Sched<T> {
    s.(disableCounter := 1, switchCounter := 1, interrupts := false)
  }

  /** Other values for the lock counters and the interrupt flag, which no switch looks at. */
  function Ctl<T>(s: Sched<T>, d: nat, k: nat, i: bool): Sched<T> {
    s.(disableCounter := d, switchCounter := k, interrupts := i)
  }

  lemma AddReadyFrame<T>(s: Sched<T>, t: T, d: nat, k: nat, i: bool)
    ensures AddReady(Ctl(s, d, k, i), t) == Ctl(AddReady(s, t), d, k, i)
    ensures var r := AddReady(s, t); r == Ctl(r, s.disableCounter, s.switchCounter, s.interrupts) && r.postponed == s.postponed
  {
  }

  lemma SwitchTaskFrame<T>(s: Sched<T>, t: T, d: nat, k: nat, i: bool)
    ensures SwitchTask(Ctl(s, d, k, i), t) == Ctl(SwitchTask(s, t), d, k, i)
    ensures var r := SwitchTask(s, t); r == Ctl(r, s.disableCounter, s.switchCounter, s.interrupts) && r.postponed == s.postponed
  {
    AddReadyFrame(s, s.curr, d, k, i);
    hide AddReady;
  }

  lemma ScheduleFrame<T>(s: Sched<T>, d: nat, i: bool)
    requires s.switchCounter == 0
    ensures Schedule(s.(disableCounter := d, interrupts := i)) == Schedule(s).(disableCounter := d, interrupts := i)
    ensures Schedule(s).disableCounter == s.disableCounter && Schedule(s).switchCounter == 0 && Schedule(s).postponed == s.postponed
  {
    var c := Ctl(s, d, 0, i);
    assert c == s.(disableCounter := d, interrupts := i);
    if s.ready == [] {
      SwitchTaskFrame(s, s.idle, d, 0, i);
      hide SwitchTask;
    } else {
      var next := s.ready[0];
      var s1 := Put(Charge(s), next, Get(Charge(s), next).(state := Running)).(ready := s.ready[1..]);
      assert Put(Charge(c), next, Get(Charge(c), next).(state := Running)).(ready := s.ready[1..]) == Ctl(s1, d, 0, i);
      SwitchTaskFrame(s1, next, d, 0, i);
      hide SwitchTask;
    }
  }

  /** Requesting a switch under one level of lock and then unlocking is switching. */
  lemma UnlockSwitches<T>(s: Sched<T>)
    requires Quiet(s)
    ensures Unlock(Schedule(Held(s))) == Schedule(s).(interrupts := true)
  {
    ScheduleFrame(s, 1, false);
    hide Schedule;
    HeldSchedule(s);
    assert s.(postponed := false) == s;
    assert (0 + 255 + 1) % 256 == 0;
  }

  lemma HeldSchedule<T>(s: Sched<T>)
    ensures Schedule(Held(s)) == Held(s).(postponed := true)
  {
  }

  function Parked<T(==)>(s: Sched<T>, b: Tcb): Sched<T> {
    Put(s, s.curr, b).(waiting := s.waiting + [s.curr])
  }

  function Requeued<T(==)>(s: Sched<T>): Sched<T> {
    Put(s, s.curr, Get(s, s.curr).(state := Ready, budget := 6)).(ready := s.ready + [s.curr])
  }

  lemma SleepIs<T>(s: Sched<T>, ms: nat)
    requires Quiet(s)
    ensures SleepFor(s, ms) == Schedule(Parked(s, Get(s, s.curr).(sleepTime := ms, state := Sleep))).(interrupts := true)
  {
    hide Schedule, Unlock;
    UnlockSwitches(Parked(s, Get(s, s.curr).(sleepTime := ms, state := Sleep)));
  }

  lemma BlockIs<T>(s: Sched<T>)
    requires Quiet(s)
    ensures Block(s) == Schedule(Parked(s, Get(s, s.curr).(state := Blocked))).(interrupts := true)
  {
    hide Schedule, Unlock;
    UnlockSwitches(Parked(s, Get(s, s.curr).(state := Blocked)));
  }

  lemma YieldIs<T>(s: Sched<T>)
    requires Quiet(s)
    ensures Yield(s) == Schedule(Requeued(s)).(interrupts := true)
  {
    hide Schedule, Unlock;
    UnlockSwitches(Requeued(s));
  }

  lemma WakeFrame<T>(s: Sched<T>, t: T, d: nat, k: nat, i: bool)
    ensures Wake(Ctl(s, d, k, i), t) == Ctl(Wake(s, t), d, k, i)
    ensures var r := Wake(s, t); r == Ctl(r, s.disableCounter, s.switchCounter, s.interrupts) && r.postponed == s.postponed
  {
    var s1 := Put(s, t, Get(s, t).(sleepTime := 0, state := Ready)).(waiting := Remove(s.waiting, t));
    SwitchTaskFrame(s1, t, d, k, i);
    hide SwitchTask, Remove;
  }

  lemma UnblockIs<T>(s: Sched<T>, t: T)
    requires Quiet(s)
    ensures Unblock(s, t) == Wake(s, t).(interrupts := true)
  {
    WakeFrame(s, t, 1, 1, false);
    hide Wake, Schedule;
    assert Lock(s) == Held(s);
  }

  /** Under the lock a wake-up requests no switch. */
  lemma UnblockHeld<T>(s: Sched<T>, t: T)
    requires Quiet(s)
    ensures Unblock(Held(s), t) == Held(Wake(s, t))
  {
    WakeFrame(s, t, 2, 2, false);
    WakeFrame(s, t, 1, 1, false);
    hide Wake, Schedule;
    assert Lock(Held(s)) == s.(disableCounter := 2, switchCounter := 2, interrupts := false);
  }

  function DrainOne<T(==)>(s: Sched<T>, t: T): Sched<T> {
    var b := Get(s, t);
    if b.state == Blocked then s
    else if b.sleepTime > 1 then Put(s, t, b.(sleepTime := b.sleepTime - 1))
    else Wake(Put(s, t, b.(sleepTime := 0)), t)
  }

  function Drained<T(==)>(s: Sched<T>, ts: seq<T>): Sched<T> {
    if ts == [] then s else DrainOne(Drained(s, ts[..|ts| - 1]), ts[|ts| - 1])
  }

  lemma DrainHeld<T>(s: Sched<T>, t: T)
    requires Quiet(s)
    ensures Drain(Held(s), t) == Held(DrainOne(s, t)) && Quiet(DrainOne(s, t))
  {
    var b := Get(s, t);
    var left := if b.sleepTime > 0 then b.sleepTime - 1 else 0;
    var s1 := Put(s, t, b.(sleepTime := left));
    assert Put(Held(s), t, b.(sleepTime := left)) == Held(s1);
    UnblockHeld(s1, t);
    WakeFrame(s1, t, 0, 0, false);
    hide Unblock, Wake;
  }

  lemma {:induction false} DrainAllHeld<T>(s: Sched<T>, ts: seq<T>)
    requires Quiet(s)
    ensures DrainAll(Held(s), ts) == Held(Drained(s, ts)) && Quiet(Drained(s, ts))
  {
    if ts != [] {
      var n := |ts| - 1;
      DrainAllHeld(s, ts[..n]);
      DrainHeld(Drained(s, ts[..n]), ts[n]);
      hide Drain, DrainOne;
    }
  }

  /** The clock, the saved frame and the charge. */
  function Entered<T(==)>(s: Sched<T>, frame: IrqFrame): Sched<T> {
    var b := Get(s, s.curr);
    Put(s, s.curr, b.(registers := frame, totalRuntime := b.totalRuntime + 1)).(now := s.now + 1)
  }

  function Ticked<T(==)>(s: Sched<T>, frame: IrqFrame): Sched<T> {
    var s1 := Entered(s, frame);
    Expire(Drained(s1, s1.waiting)).(interrupts := true)
  }

  lemma ExpireHeld<T>(s: Sched<T>)
    requires Quiet(s)
    ensures Unlock(Expire(Held(s))) == Expire(s).(interrupts := true)
  {
    hide Schedule, Unlock;
    UnlockSwitches(s);
    UnlockSwitches(s.(quantumPast := true));
    assert Held(s).(quantumPast := true) == Held(s.(quantumPast := true));
    UnlockHeld(s);
  }

  lemma UnlockHeld<T>(s: Sched<T>)
    requires Quiet(s)
    ensures Unlock(Held(s)) == s.(interrupts := true)
  {
    hide Schedule;
  }

  lemma TickIs<T>(s: Sched<T>, frame: IrqFrame)
    requires Quiet(s)
    ensures Tick(s, frame) == Ticked(s, frame)
  {
    var s1 := Entered(s, frame);
    EnterHeld(s, frame);
    hide Unlock, Expire, DrainAll, Drained, Enter;
    DrainAllHeld(s1, s1.waiting);
    ExpireHeld(Drained(s1, s1.waiting));
  }

  lemma EnterHeld<T>(s: Sched<T>, frame: IrqFrame)
    requires Quiet(s)
    ensures Enter(s, frame) == Held(Entered(s, frame)) && Quiet(Entered(s, frame))
  {
  }
}
