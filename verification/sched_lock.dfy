/** Postponed switching: nested locks with switch requests inside. */
module SchedLock {
  import opened SchedSpec
  import opened SchedCore

  datatype LockOp = Enter | Leave | Request

  function Apply<T(==)>(s: Sched<T>, ops: seq<LockOp>): Sched<T> {
    if ops == [] then s
    else
      var m := Apply(s, ops[..|ops| - 1]);
      match ops[|ops| - 1]
      case Enter => Lock(m)
      case Leave => Unlock(m)
      case Request => Schedule(m)
  }

  /** The switches a sequence makes: the interrupt flag at each of its dispatches. */
  function Switches<T(==)>(s: Sched<T>, ops: seq<LockOp>): seq<bool> {
    if ops == [] then []
    else
      var m := Apply(s, ops[..|ops| - 1]);
      Switches(s, ops[..|ops| - 1]) +
      match ops[|ops| - 1]
      case Enter => []
      case Leave => UnlockFlags(m)
      case Request => DispatchFlags(m)
  }

  /** Locks held after `ops`. */
  function Depth(ops: seq<LockOp>): int {
    if ops == [] then 0
    else Depth(ops[..|ops| - 1]) + match ops[|ops| - 1] { case Enter => 1 case Leave => -1 case Request => 0 }
  }

  /** The lock is held throughout, at no depth a byte cannot count. */
  ghost predicate Locked(ops: seq<LockOp>) {
    forall k | 0 < k <= |ops| :: 0 < Depth(ops[..k]) < 256
  }

  /** `s` under `depth` locks, with a switch requested or not. */
  function Under<T(==)>(s: Sched<T>, depth: nat, requested: bool): Sched<T> {
    s.(disableCounter := depth, switchCounter := depth, interrupts := false, postponed := requested)
  }

  /** While the lock is held nothing happens but counting, and remembering that a switch was requested. */
  lemma {:induction false} NothingSwitches<T>(s: Sched<T>, ops: seq<LockOp>)
    requires Quiet(s) && ops != [] && Locked(ops)
    ensures Depth(ops) >= 0 && Apply(s, ops) == Under(s, Depth(ops), Request in ops)
  {
    var n := |ops| - 1;
    var front, op := ops[..n], ops[n];
    assert ops == front + [op];
    assert 0 < Depth(ops[..|ops|]) < 256 && ops[..|ops|] == ops;
    if front == [] {
      assert op == Enter;
    } else {
      forall k | 0 < k <= |front| ensures 0 < Depth(front[..k]) < 256 {
        assert front[..k] == ops[..k];
      }
      NothingSwitches(s, front);
      hide Schedule, Locked;
      LockStep(s, Depth(front), Request in front, op);
    }
  }

  lemma LockStep<T>(s: Sched<T>, depth: nat, requested: bool, op: LockOp)
    requires 0 < depth < 256
    ensures op == Enter && depth < 255 ==> Lock(Under(s, depth, requested)) == Under(s, depth + 1, requested)
    ensures op == Leave && depth > 1 ==> Unlock(Under(s, depth, requested)) == Under(s, depth - 1, requested)
    ensures op == Request ==> Schedule(Under(s, depth, requested)) == Under(s, depth, true)
  {
  }

  /** So no switch is made. */
  lemma {:induction false} NoSwitches<T>(s: Sched<T>, ops: seq<LockOp>)
    requires Quiet(s) && Locked(ops)
    ensures Switches(s, ops) == []
  {
    if ops != [] {
      var n := |ops| - 1;
      var front, op := ops[..n], ops[n];
      assert ops[..|ops|] == ops && 0 < Depth(ops) < 256;
      LockedFront(ops, n);
      NoSwitches(s, front);
      if front == [] {
        assert op == Enter;
      } else {
        NothingSwitches(s, front);
        hide Schedule, Locked;
        NoSwitchUnder(s, Depth(front), Request in front, op);
      }
    }
  }

  lemma LockedFront(ops: seq<LockOp>, n: nat)
    requires Locked(ops) && n <= |ops|
    ensures Locked(ops[..n])
  {
    forall k | 0 < k <= n ensures 0 < Depth(ops[..n][..k]) < 256 {
      assert ops[..n][..k] == ops[..k];
    }
  }

  lemma NoSwitchUnder<T>(s: Sched<T>, depth: nat, requested: bool, op: LockOp)
    requires 0 < depth < 256
    ensures op == Leave && depth > 1 ==> UnlockFlags(Under(s, depth, requested)) == []
    ensures op == Request ==> DispatchFlags(Under(s, depth, requested)) == []
  {
  }

  /** No switch happens before the outermost unlock, however often one is requested; there exactly one happens if and
      only if one was requested, with interrupts masked; and counters and flag are back to zero. */
  lemma PostponedSwitch<T>(s: Sched<T>, ops: seq<LockOp>)
    requires Quiet(s) && ops != [] && Locked(ops) && Depth(ops) == 1
    ensures Switches(s, ops) == []
    ensures Switches(s, ops + [Leave]) == if Request in ops then [false] else []
    ensures var r := Apply(s, ops + [Leave]);
      r == (if Request in ops then Schedule(s) else s).(interrupts := true) && Quiet(r)
  {
    assert (ops + [Leave])[..|ops|] == ops;
    NothingSwitches(s, ops);
    NoSwitches(s, ops);
    hide Schedule, Locked;
    ScheduleFrame(s, 1, false);
    LastUnlock(s, Request in ops);
  }

  lemma LastUnlock<T>(s: Sched<T>, requested: bool)
    requires Quiet(s)
    ensures UnlockFlags(Under(s, 1, requested)) == if requested then [false] else []
    ensures Unlock(Under(s, 1, requested)) ==
      (if requested then Schedule(s.(disableCounter := 1, interrupts := false)) else s).(disableCounter := 0, interrupts := true)
  {
    ScheduleFrame(s, 1, false);
    hide Schedule;
    assert Under(s, 1, requested).(switchCounter := 0, postponed := false) == s.(disableCounter := 1, interrupts := false);
  }

  function Locks(n: nat): seq<LockOp> {
    seq(n, i => Enter)
  }

  function Counting<T(==)>(s: Sched<T>, c: nat): Sched<T> {
    s.(disableCounter := c, switchCounter := c, interrupts := false)
  }

  lemma NextByte(n: nat)
    requires n > 0
    ensures n % 256 == ((n - 1) % 256 + 1) % 256
  {
  }

  lemma {:induction false} CountsLocks<T>(s: Sched<T>, n: nat, c: nat)
    requires Quiet(s) && n > 0 && c == n % 256
    ensures Apply(s, Locks(n)) == Counting(s, c)
  {
    assert Locks(n)[..n - 1] == Locks(n - 1) && Locks(n)[n - 1] == Enter;
    NextByte(n);
    var c' := (n - 1) % 256;
    if n == 1 {
      assert Locks(0) == [];
    } else {
      CountsLocks(s, n - 1, c');
    }
    hide Schedule, Unlock, Locks;
    assert Lock(Counting(s, c')) == Counting(s, c);
  }

  /** The counters are bytes, so a request under `n` locks is postponed exactly when 256 does not divide `n`. */
  lemma DepthWraps<T>(s: Sched<T>, n: nat)
    requires Quiet(s) && n > 0
    ensures var m := Apply(s, Locks(n));
      Schedule(m) == if n % 256 != 0 then m.(postponed := true) else Schedule(s.(interrupts := false))
  {
    var c := n % 256;
    hide Schedule, Apply, Locks;
    CountsLocks(s, n, c);
    RequestAt(Counting(s, c));
    assert Counting(s, 0) == s.(interrupts := false);
  }

  lemma RequestAt<T>(s: Sched<T>)
    ensures s.switchCounter != 0 ==> Schedule(s) == s.(postponed := true)
  {
  }
}
