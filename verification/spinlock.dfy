/** The interrupt-saving spinlock as a protocol: any number of processors, any number of locks, one atomic memory or
    register access per step. */
module Spinlock {

  /** A lock a processor holds, and the interrupt flag it saved when it took it. */
  datatype Held = Held(lock: nat, saved: bool)

  /** Where a processor is inside `acquire` or `release`; `saved` is its local copy of the flag. */
  datatype Pc =
    | Outside
    | FlagsRead(lock: nat, saved: bool)
    | Spinning(lock: nat, saved: bool)
    | Acquired(lock: nat, saved: bool)
    | FlagsLoaded(lock: nat, saved: bool)
    | Released(lock: nat, saved: bool)

  /** `held` and `original` record the past: the locks taken and not yet given back, oldest first, and the flag
      before the oldest was taken. */
  datatype Cpu = Cpu(interrupts: bool, pc: Pc, held: seq<Held>, original: bool)

  /** The lock's word, its shared `flags` field, and, for the record, who set the word (-1 for nobody). */
  datatype Lock = Lock(data: bool, flags: bool, owner: int)

  datatype System = System(cpus: seq<Cpu>, locks: seq<Lock>)

  datatype Access = ReadFlags | Cli | Exchange | StoreFlags | LoadFlags | ClearData | Sti

  /** An access of `acquire` or `release` on one lock, or other code setting the interrupt flag. */
  datatype Action = Do(cpu: nat, lock: nat, access: Access) | SetInterrupts(cpu: nat, to: bool)

  /** Without the entry of lock `l`. */
  function Without(held: seq<Held>, l: nat): seq<Held> {
    if held == [] then [] else if held[0].lock == l then held[1..] else [held[0]] + Without(held[1..], l)
  }

  predicate InHeld(held: seq<Held>, l: nat) {
    exists i :: 0 <= i < |held| && held[i].lock == l
  }

  /** The order of accesses inside `acquire` and `release`. A processor may give back any lock it holds, and other code
      touches the interrupt flag only while it holds none. */
  predicate Enabled(s: System, a: Action) {
    a.cpu < |s.cpus| &&
    var p := s.cpus[a.cpu];
    match a
    case SetInterrupts(_, _) => p.pc == Outside && p.held == []
    case Do(_, l, access) =>
      l < |s.locks| &&
      match access
      case ReadFlags => p.pc == Outside
      case Cli => p.pc.FlagsRead? && p.pc.lock == l
      case Exchange => p.pc.Spinning? && p.pc.lock == l
      case StoreFlags => p.pc.Acquired? && p.pc.lock == l
      case LoadFlags => p.pc == Outside && InHeld(p.held, l)
      case ClearData => p.pc.FlagsLoaded? && p.pc.lock == l
      case Sti => p.pc.Released? && p.pc.lock == l
  }

  /** Locks are given back in LIFO order. */
  predicate InOrder(s: System, a: Action)
    requires Enabled(s, a)
  {
    a.Do? && a.access == LoadFlags ==> var held := s.cpus[a.cpu].held; held[|held| - 1].lock == a.lock
  }

  /** The processor's side of an access to the lock `l` that holds `k`. */
  function CpuNext(p: Cpu, l: nat, k: Lock, access: Access): Cpu
    requires p.pc == Outside ==> access.ReadFlags? || access.LoadFlags?
  {
    match access
    case ReadFlags => p.(pc := FlagsRead(l, p.interrupts), original := if p.held == [] then p.interrupts else p.original)
    case Cli => p.(interrupts := false, pc := Spinning(l, p.pc.saved))
    case Exchange => if k.data then p else p.(pc := Acquired(l, p.pc.saved))
    case StoreFlags => p.(pc := Outside, held := p.held + [Held(l, p.pc.saved)])
    case LoadFlags => p.(pc := FlagsLoaded(l, k.flags))
    case ClearData => p.(pc := Released(l, p.pc.saved), held := Without(p.held, l))
    case Sti => p.(pc := Outside, interrupts := if p.pc.saved then true else p.interrupts)
  }

  /** The lock's side of an access by processor `c` in state `p`. */
  function LockNext(k: Lock, c: nat, p: Cpu, access: Access): Lock
    requires access.StoreFlags? ==> p.pc != Outside
  {
    match access
    case Exchange => k.(data := true, owner := if k.data then k.owner else c)
    case StoreFlags => k.(flags := p.pc.saved)
    case ClearData => k.(data := false, owner := -1)
    case _ => k
  }

  function Next(s: System, a: Action): System
    requires Enabled(s, a)
  {
    var p := s.cpus[a.cpu];
    match a
    case SetInterrupts(c, to) => s.(cpus := s.cpus[c := p.(interrupts := to)])
    case Do(c, l, access) =>
      var k := s.locks[l];
      System(s.cpus[c := CpuNext(p, l, k, access)], s.locks[l := LockNext(k, c, p, access)])
  }

  /** Every processor outside, every lock free. */
  function Start(flags: seq<bool>, n: nat): System {
    System(seq(|flags|, c requires 0 <= c < |flags| => Cpu(flags[c], Outside, [], flags[c])), seq(n, l => Lock(false, false, -1)))
  }

  ghost predicate Runs(s: System, acts: seq<Action>)
    decreases |acts|
  {
    acts == [] || (Enabled(s, acts[0]) && Runs(Next(s, acts[0]), acts[1..]))
  }

  ghost predicate LifoRuns(s: System, acts: seq<Action>)
    decreases |acts|
  {
    acts == [] || (Enabled(s, acts[0]) && InOrder(s, acts[0]) && LifoRuns(Next(s, acts[0]), acts[1..]))
  }

  function Run(s: System, acts: seq<Action>): System
    requires Runs(s, acts)
    decreases |acts|
  {
    if acts == [] then s else Run(Next(s, acts[0]), acts[1..])
  }

  lemma {:induction false} LifoIsRun(s: System, acts: seq<Action>)
    requires LifoRuns(s, acts)
    ensures Runs(s, acts)
    decreases |acts|
  {
    hide Enabled, Next, InOrder;
    if acts != [] {
      LifoIsRun(Next(s, acts[0]), acts[1..]);
    }
  }

  // What holds in any order.

  /** From the winning exchange to the clearing store. */
  ghost predicate Owns(p: Cpu, l: nat) {
    InHeld(p.held, l) || (p.pc.Acquired? && p.pc.lock == l)
  }

  ghost predicate DistinctLocks(held: seq<Held>) {
    forall i, j | 0 <= i < j < |held| :: held[i].lock != held[j].lock
  }

  ghost predicate Stacked(p: Cpu) {
    && DistinctLocks(p.held)
    && (p.pc.Acquired? ==> !InHeld(p.held, p.pc.lock))
    && (p.pc.FlagsLoaded? ==> Held(p.pc.lock, p.pc.saved) in p.held)
  }

  ghost predicate FlagsKept(p: Cpu, locks: seq<Lock>) {
    forall h | h in p.held :: h.lock < |locks| && locks[h.lock].flags == h.saved
  }

  ghost predicate Registered(p: Cpu, c: nat, locks: seq<Lock>) {
    forall l: nat {:trigger Owns(p, l)} | l < |locks| :: Owns(p, l) <==> locks[l].owner == c
  }

  ghost predicate CpuInv(p: Cpu, c: nat, locks: seq<Lock>) {
    Stacked(p) && FlagsKept(p, locks) && Registered(p, c, locks)
  }

  ghost predicate Inv(s: System) {
    && (forall c: nat | c < |s.cpus| :: CpuInv(s.cpus[c], c, s.locks))
    && (forall l: nat | l < |s.locks| :: if s.locks[l].data then 0 <= s.locks[l].owner < |s.cpus| else s.locks[l].owner == -1)
  }

  lemma StartInv(flags: seq<bool>, n: nat)
    ensures Inv(Start(flags, n))
  {
  }

  lemma PushHeld(held: seq<Held>, h: Held, l: nat)
    ensures InHeld(held + [h], l) <==> InHeld(held, l) || h.lock == l
  {
    var q := held + [h];
    assert q[|held|] == h;
    if InHeld(held, l) {
      var i :| 0 <= i < |held| && held[i].lock == l;
      assert q[i] == held[i];
    }
  }

  lemma {:induction false} WithoutIs(held: seq<Held>, l: nat)
    requires DistinctLocks(held)
    ensures DistinctLocks(Without(held, l)) && |Without(held, l)| == |held| - if InHeld(held, l) then 1 else 0
    ensures forall h | h in Without(held, l) :: h in held && h.lock != l
    ensures forall h | h in held && h.lock != l :: h in Without(held, l)
  {
    if held != [] {
      var rest := held[1..];
      assert held == [held[0]] + rest;
      forall h | h in rest ensures h.lock != held[0].lock {
        var i :| 0 <= i < |rest| && rest[i] == h;
        assert held[i + 1] == h;
      }
      WithoutIs(rest, l);
      HeldCons(held, l);
    }
  }

  lemma HeldCons(held: seq<Held>, l: nat)
    requires held != []
    ensures InHeld(held, l) <==> held[0].lock == l || InHeld(held[1..], l)
  {
    if InHeld(held[1..], l) {
      var i :| 0 <= i < |held[1..]| && held[1..][i].lock == l;
      assert held[i + 1].lock == l;
    }
    if InHeld(held, l) && held[0].lock != l {
      var i :| 0 <= i < |held| && held[i].lock == l;
      assert held[1..][i - 1].lock == l;
    }
  }

  lemma HeldMember(held: seq<Held>, l: nat)
    ensures InHeld(held, l) <==> exists h | h in held :: h.lock == l
  {
    if InHeld(held, l) {
      var i :| 0 <= i < |held| && held[i].lock == l;
      assert held[i] in held;
    }
  }

  lemma PopHeld(held: seq<Held>, l: nat, m: nat)
    requires DistinctLocks(held)
    ensures InHeld(Without(held, l), m) <==> InHeld(held, m) && m != l
  {
    WithoutIs(held, l);
    HeldMember(held, m);
    HeldMember(Without(held, l), m);
  }

  /** How an access changes what the acting processor owns. */
  lemma ActorOwns(p: Cpu, l: nat, k: Lock, access: Access, m: nat)
    requires p.pc == Outside ==> access.ReadFlags? || access.LoadFlags?
    requires access.ClearData? ==> p.pc.FlagsLoaded?
    requires access.StoreFlags? ==> p.pc.Acquired? && p.pc.lock == l
    requires access.Exchange? ==> p.pc.Spinning?
    requires access.ReadFlags? || access.LoadFlags? ==> p.pc == Outside
    requires access.Cli? ==> p.pc.FlagsRead?
    requires access.Sti? ==> p.pc.Released?
    requires Stacked(p)
    ensures Owns(CpuNext(p, l, k, access), m) <==>
      if access.Exchange? && !k.data && m == l then true
      else if access.ClearData? && m == l then false
      else Owns(p, m)
  {
    if access.StoreFlags? {
      PushHeld(p.held, Held(l, p.pc.saved), m);
    } else if access.ClearData? {
      PopHeld(p.held, l, m);
    }
  }

  lemma ActorRegistered(s: System, c: nat, l: nat, access: Access)
    requires Inv(s) && Enabled(s, Do(c, l, access))
    ensures var r := Next(s, Do(c, l, access)); Registered(r.cpus[c], c, r.locks)
  {
    var r, p, k := Next(s, Do(c, l, access)), s.cpus[c], s.locks[l];
    assert CpuInv(p, c, s.locks);
    forall m: nat | m < |r.locks| ensures Owns(r.cpus[c], m) <==> r.locks[m].owner == c {
      ActorOwns(p, l, k, access, m);
      assert Owns(p, m) <==> s.locks[m].owner == c;
    }
  }

  lemma ActorKeepsInv(s: System, c: nat, l: nat, access: Access)
    requires Inv(s) && Enabled(s, Do(c, l, access))
    ensures var r := Next(s, Do(c, l, access)); CpuInv(r.cpus[c], c, r.locks)
  {
    var r, p, k := Next(s, Do(c, l, access)), s.cpus[c], s.locks[l];
    var p' := r.cpus[c];
    ActorRegistered(s, c, l, access);
    assert CpuInv(p, c, s.locks);
    assert Owns(p, l) <==> k.owner == c;
    HeldMember(p.held, l);
    WithoutIs(p.held, l);
    hide Registered, Without;
    assert Stacked(p');
    assert FlagsKept(p', r.locks);
  }

  lemma OthersKeepInv(s: System, c: nat, l: nat, access: Access, q: nat)
    requires Inv(s) && Enabled(s, Do(c, l, access)) && q < |s.cpus| && q != c
    ensures var r := Next(s, Do(c, l, access)); CpuInv(r.cpus[q], q, r.locks)
  {
    var r, o := Next(s, Do(c, l, access)), s.cpus[q];
    assert CpuInv(s.cpus[c], c, s.locks) && CpuInv(o, q, s.locks);
    assert Owns(s.cpus[c], l) <==> s.locks[l].owner == c;
    assert Owns(o, l) <==> s.locks[l].owner == q;
    HeldMember(o.held, l);
    HeldMember(s.cpus[c].held, l);
    assert FlagsKept(o, r.locks);
    assert Registered(o, q, r.locks);
  }

  lemma FlagSet(p: Cpu, c: nat, locks: seq<Lock>, to: bool)
    requires CpuInv(p, c, locks) && p.pc == Outside && p.held == []
    ensures CpuInv(p.(interrupts := to), c, locks)
  {
    var p' := p.(interrupts := to);
    forall l: nat | l < |locks| ensures Owns(p', l) <==> locks[l].owner == c {
      assert Owns(p, l) <==> locks[l].owner == c;
    }
  }

  lemma StepKeepsInv(s: System, a: Action)
    requires Inv(s) && Enabled(s, a)
    ensures Inv(Next(s, a))
  {
    var r := Next(s, a);
    match a {
      case SetInterrupts(c, to) =>
        forall q: nat | q < |r.cpus| ensures CpuInv(r.cpus[q], q, r.locks) {
          assert CpuInv(s.cpus[q], q, s.locks);
          if q == c {
            FlagSet(s.cpus[c], c, s.locks, to);
          }
        }
      case Do(c, l, access) =>
        assert CpuInv(s.cpus[c], c, s.locks);
        forall q: nat | q < |r.cpus| ensures CpuInv(r.cpus[q], q, r.locks) {
          if q == c {
            ActorKeepsInv(s, c, l, access);
          } else {
            OthersKeepInv(s, c, l, access, q);
          }
        }
    }
  }

  /** The invariant holds over every interleaving, in whatever order locks are given back. */
  lemma {:induction false} RunKeepsInv(s: System, acts: seq<Action>)
    requires Inv(s) && Runs(s, acts)
    ensures Inv(Run(s, acts))
    decreases |acts|
  {
    hide Inv, Enabled, Next;
    if acts != [] {
      StepKeepsInv(s, acts[0]);
      RunKeepsInv(Next(s, acts[0]), acts[1..]);
    }
  }

  lemma WordOwned(s: System, l: nat)
    requires Inv(s) && l < |s.locks|
    ensures s.locks[l].data <==> exists c: nat {:trigger Owns(s.cpus[c], l)} | c < |s.cpus| :: Owns(s.cpus[c], l)
  {
    if s.locks[l].data {
      var c := s.locks[l].owner;
      assert CpuInv(s.cpus[c], c, s.locks);
      assert Owns(s.cpus[c], l);
    } else {
      forall c: nat | c < |s.cpus| ensures !Owns(s.cpus[c], l) {
        assert CpuInv(s.cpus[c], c, s.locks);
      }
    }
  }

  /** In every reachable state a lock's word is set exactly while some processor owns it. */
  lemma WordMeansOwned(flags: seq<bool>, n: nat, acts: seq<Action>, l: nat)
    requires Runs(Start(flags, n), acts) && l < |Run(Start(flags, n), acts).locks|
    ensures var s := Run(Start(flags, n), acts);
      s.locks[l].data <==> exists c: nat {:trigger Owns(s.cpus[c], l)} | c < |s.cpus| :: Owns(s.cpus[c], l)
  {
    StartInv(flags, n);
    RunKeepsInv(Start(flags, n), acts);
    hide Run, Runs, Start, Inv, Owns;
    WordOwned(Run(Start(flags, n), acts), l);
  }

  /** An exchange takes the lock exactly when nobody owned it; otherwise the processor goes on spinning. */
  lemma ExchangeTakes(flags: seq<bool>, n: nat, acts: seq<Action>, q: nat, l: nat)
    requires Runs(Start(flags, n), acts) && Enabled(Run(Start(flags, n), acts), Do(q, l, Exchange))
    ensures var s := Run(Start(flags, n), acts); var p := Next(s, Do(q, l, Exchange)).cpus[q];
      if forall c: nat {:trigger Owns(s.cpus[c], l)} | c < |s.cpus| :: !Owns(s.cpus[c], l)
      then p.pc == Acquired(l, s.cpus[q].pc.saved) && Owns(p, l)
      else p == s.cpus[q]
  {
    WordMeansOwned(flags, n, acts, l);
    hide Run, Runs, Start;
  }

  /** At most one processor owns a lock, and its word is set then. */
  lemma MutualExclusion(flags: seq<bool>, n: nat, acts: seq<Action>, c: nat, l: nat)
    requires Runs(Start(flags, n), acts) && c < |Run(Start(flags, n), acts).cpus| && l < |Run(Start(flags, n), acts).locks|
    requires Owns(Run(Start(flags, n), acts).cpus[c], l)
    ensures var s := Run(Start(flags, n), acts);
      s.locks[l].data && forall q: nat {:trigger Owns(s.cpus[q], l)} | q < |s.cpus| && Owns(s.cpus[q], l) :: q == c
  {
    var s := Run(Start(flags, n), acts);
    StartInv(flags, n);
    RunKeepsInv(Start(flags, n), acts);
    hide Run, Runs, Start;
    assert CpuInv(s.cpus[c], c, s.locks) && s.locks[l].owner == c;
    forall q: nat | q < |s.cpus| && Owns(s.cpus[q], l) ensures q == c {
      assert CpuInv(s.cpus[q], q, s.locks);
    }
  }

  /** What `release` reads from the shared field is what the same processor saved when it took that lock. */
  lemma ReleaseReadsOwnFlags(flags: seq<bool>, n: nat, acts: seq<Action>, c: nat, l: nat)
    requires Runs(Start(flags, n), acts) && Enabled(Run(Start(flags, n), acts), Do(c, l, LoadFlags))
    ensures var s := Run(Start(flags, n), acts);
      var pc := Next(s, Do(c, l, LoadFlags)).cpus[c].pc;
      pc.FlagsLoaded? && pc.lock == l && Held(l, pc.saved) in s.cpus[c].held
  {
    var s := Run(Start(flags, n), acts);
    StartInv(flags, n);
    RunKeepsInv(Start(flags, n), acts);
    hide Run, Runs, Start;
    assert CpuInv(s.cpus[c], c, s.locks);
    HeldMember(s.cpus[c].held, l);
  }

  // What LIFO order adds.

  ghost predicate Masked(p: Cpu) {
    p.held != [] || !(p.pc.Outside? || p.pc.FlagsRead?) ==> !p.interrupts
  }

  /** Only the oldest entry can have saved an enabled flag. */
  ghost predicate Saved(p: Cpu) {
    && (forall i | 0 <= i < |p.held| :: p.held[i].saved == (i == 0 && p.original))
    && match p.pc
       case Outside => true
       case FlagsLoaded(l, saved) => p.held != [] && p.held[|p.held| - 1] == Held(l, saved)
       case _ => p.pc.saved == (p.held == [] && p.original)
  }

  ghost predicate Nested(s: System) {
    forall c: nat | c < |s.cpus| :: Masked(s.cpus[c]) && Saved(s.cpus[c])
  }

  lemma StartNested(flags: seq<bool>, n: nat)
    ensures Nested(Start(flags, n))
  {
  }

  lemma {:induction false} WithoutLast(held: seq<Held>, l: nat)
    requires DistinctLocks(held) && held != [] && held[|held| - 1].lock == l
    ensures Without(held, l) == held[..|held| - 1]
  {
    if |held| > 1 {
      WithoutLast(held[1..], l);
      assert held[1..][..|held| - 2] == held[1..|held| - 1];
    }
  }

  lemma ActorKeepsNested(s: System, c: nat, l: nat, access: Access)
    requires Inv(s) && Enabled(s, Do(c, l, access)) && InOrder(s, Do(c, l, access))
    requires Masked(s.cpus[c]) && Saved(s.cpus[c])
    ensures var p := CpuNext(s.cpus[c], l, s.locks[l], access); Masked(p) && Saved(p)
  {
    var p := s.cpus[c];
    assert CpuInv(p, c, s.locks);
    assert Stacked(p) && FlagsKept(p, s.locks);
    hide Registered, Without, Inv, CpuInv, InHeld;
    match access {
      case ClearData => WithoutLast(p.held, l);
      case LoadFlags => TopFlags(s, c, l);
      case _ =>
    }
  }

  lemma TopFlags(s: System, c: nat, l: nat)
    requires Enabled(s, Do(c, l, LoadFlags)) && InOrder(s, Do(c, l, LoadFlags)) && FlagsKept(s.cpus[c], s.locks)
    ensures var held := s.cpus[c].held; held != [] && held[|held| - 1] == Held(l, s.locks[l].flags)
  {
    var held := s.cpus[c].held;
    assert held[|held| - 1] in held;
  }

  lemma StepKeepsNested(s: System, a: Action)
    requires Inv(s) && Nested(s) && Enabled(s, a) && InOrder(s, a)
    ensures Nested(Next(s, a))
  {
    assert Masked(s.cpus[a.cpu]) && Saved(s.cpus[a.cpu]);
    hide Inv, CpuNext, LockNext, Saved, Masked, InOrder;
    match a {
      case SetInterrupts(c, to) => FlagKeepsNested(s.cpus[c], to);
      case Do(c, l, access) => ActorKeepsNested(s, c, l, access);
    }
  }

  lemma FlagKeepsNested(p: Cpu, to: bool)
    requires p.pc == Outside && p.held == [] && Masked(p) && Saved(p)
    ensures Masked(p.(interrupts := to)) && Saved(p.(interrupts := to))
  {
  }

  lemma {:induction false} LifoKeepsNested(s: System, acts: seq<Action>)
    requires Inv(s) && Nested(s) && LifoRuns(s, acts)
    ensures Runs(s, acts) && Inv(Run(s, acts)) && Nested(Run(s, acts))
    decreases |acts|
  {
    LifoIsRun(s, acts);
    hide Inv, Nested, Enabled, Next, InOrder;
    if acts != [] {
      StepKeepsInv(s, acts[0]);
      StepKeepsNested(s, acts[0]);
      LifoKeepsNested(Next(s, acts[0]), acts[1..]);
    }
  }

  /** `s` runs to `r` in LIFO order. */
  ghost predicate LifoRunsTo(s: System, acts: seq<Action>, r: System) {
    LifoRuns(s, acts) && Runs(s, acts) && Run(s, acts) == r
  }

  ghost predicate LifoReaches(flags: seq<bool>, n: nat, acts: seq<Action>, s: System) {
    LifoRunsTo(Start(flags, n), acts, s)
  }

  lemma LifoReachesNested(flags: seq<bool>, n: nat, acts: seq<Action>, s: System)
    requires LifoReaches(flags, n, acts, s)
    ensures Inv(s) && Nested(s)
  {
    hide Run, Runs, LifoRuns, Start, Inv, Nested;
    StartInv(flags, n);
    StartNested(flags, n);
    LifoKeepsNested(Start(flags, n), acts);
  }

  /** The owner of a lock has interrupts masked. */
  lemma OwnerIsMasked(flags: seq<bool>, n: nat, acts: seq<Action>, s: System, c: nat, l: nat)
    requires LifoReaches(flags, n, acts, s) && c < |s.cpus| && Owns(s.cpus[c], l)
    ensures !s.cpus[c].interrupts
  {
    hide LifoReaches, Inv;
    LifoReachesNested(flags, n, acts, s);
    assert Masked(s.cpus[c]);
  }

  /** However deep the nesting, the end of an inner release leaves interrupts masked, and the end of the outermost
      one leaves the flag as it was before the first acquire. */
  lemma OnlyOutermostRestores(flags: seq<bool>, n: nat, acts: seq<Action>, s: System, c: nat, l: nat)
    requires LifoReaches(flags, n, acts, s) && Enabled(s, Do(c, l, Sti))
    ensures var p := s.cpus[c];
      Next(s, Do(c, l, Sti)).cpus[c].interrupts == (p.held == [] && p.original)
  {
    hide LifoReaches, Inv;
    LifoReachesNested(flags, n, acts, s);
    assert Masked(s.cpus[c]) && Saved(s.cpus[c]);
  }

  // Giving a lock back out of order.

  /** The three accesses of `release`, with nothing of this processor in between. */
  function Release(s: System, c: nat, l: nat): System
    requires Enabled(s, Do(c, l, LoadFlags))
  {
    Next(Next(Next(s, Do(c, l, LoadFlags)), Do(c, l, ClearData)), Do(c, l, Sti))
  }

  lemma ReleaseIs(s: System, c: nat, l: nat, saved: bool)
    requires Inv(s) && Enabled(s, Do(c, l, LoadFlags)) && Held(l, saved) in s.cpus[c].held
    ensures Release(s, c, l).cpus[c] ==
      s.cpus[c].(held := Without(s.cpus[c].held, l), interrupts := s.cpus[c].interrupts || saved)
  {
    var p := s.cpus[c];
    assert CpuInv(p, c, s.locks);
    assert s.locks[l].flags == saved;
    hide Without, Inv, CpuInv, InHeld;
    var s1 := Next(s, Do(c, l, LoadFlags));
    assert s1.cpus[c] == p.(pc := FlagsLoaded(l, saved));
    var s2 := Next(s1, Do(c, l, ClearData));
    assert s2.cpus[c] == p.(pc := Released(l, saved), held := Without(p.held, l));
  }

  lemma ReleaseClears(s: System, c: nat, l: nat)
    requires Enabled(s, Do(c, l, LoadFlags))
    ensures var r := Release(s, c, l);
      && |r.cpus| == |s.cpus| && |r.locks| == |s.locks| && !r.locks[l].data
      && (forall q: nat | q < |s.cpus| && q != c :: r.cpus[q] == s.cpus[q])
      && forall m: nat | m < |s.locks| && m != l :: r.locks[m] == s.locks[m]
  {
    hide InHeld, Without;
    var s1 := Next(s, Do(c, l, LoadFlags));
    var s2 := Next(s1, Do(c, l, ClearData));
    assert s1.locks == s.locks && !s2.locks[l].data;
  }

  /** From every reachable state: after a release the word is clear and nobody owns the lock, no other lock and no other
      processor has changed, and the next exchange on it, whichever waiting processor makes it, takes it. */
  lemma ReleaseFrees(flags: seq<bool>, n: nat, acts: seq<Action>, c: nat, l: nat)
    requires Runs(Start(flags, n), acts) && Enabled(Run(Start(flags, n), acts), Do(c, l, LoadFlags))
    ensures var s := Run(Start(flags, n), acts); var r := Release(s, c, l);
      && !r.locks[l].data && (forall q: nat {:trigger Owns(r.cpus[q], l)} | q < |r.cpus| :: !Owns(r.cpus[q], l))
      && (forall q: nat | q < |s.cpus| && q != c :: r.cpus[q] == s.cpus[q])
      && (forall m: nat | m < |s.locks| && m != l :: r.locks[m] == s.locks[m])
      && forall q: nat | Enabled(r, Do(q, l, Exchange)) ::
           var w := Next(r, Do(q, l, Exchange)); w.locks[l].data && Owns(w.cpus[q], l)
  {
    var s := Run(Start(flags, n), acts);
    var r := Release(s, c, l);
    StartInv(flags, n);
    RunKeepsInv(Start(flags, n), acts);
    hide Run, Runs, Start;
    ReleaseClears(s, c, l);
    ReleaseKeepsInv(s, c, l);
    WordOwned(r, l);
    hide Release, Inv;
  }

  lemma ReleaseKeepsInv(s: System, c: nat, l: nat)
    requires Inv(s) && Enabled(s, Do(c, l, LoadFlags))
    ensures Inv(Release(s, c, l))
  {
    var s1 := Next(s, Do(c, l, LoadFlags));
    var s2 := Next(s1, Do(c, l, ClearData));
    hide Inv;
    StepKeepsInv(s, Do(c, l, LoadFlags));
    StepKeepsInv(s1, Do(c, l, ClearData));
    StepKeepsInv(s2, Do(c, l, Sti));
  }

  /** In any reachable state, in whatever order locks were given back so far: a release leaves interrupts masked under
      the locks still held exactly when there are none left, or interrupts were masked and the lock had been taken
      with interrupts masked. */
  lemma ReleaseUnmasks(flags: seq<bool>, n: nat, acts: seq<Action>, c: nat, l: nat, saved: bool)
    requires Runs(Start(flags, n), acts) && Enabled(Run(Start(flags, n), acts), Do(c, l, LoadFlags))
    requires Held(l, saved) in Run(Start(flags, n), acts).cpus[c].held
    ensures var s := Run(Start(flags, n), acts);
      Masked(Release(s, c, l).cpus[c]) <==> |s.cpus[c].held| == 1 || (!s.cpus[c].interrupts && !saved)
  {
    var s := Run(Start(flags, n), acts);
    StartInv(flags, n);
    RunKeepsInv(Start(flags, n), acts);
    hide Run, Runs, Start, Next, Without, Release;
    ReleaseIs(s, c, l, saved);
    assert CpuInv(s.cpus[c], c, s.locks);
    WithoutIs(s.cpus[c].held, l);
  }

  /** After a LIFO run: giving any lock back keeps interrupts masked for those still held exactly when it is the only
      one, or not the oldest, or interrupts were off to begin with. */
  lemma OutOfOrderRelease(flags: seq<bool>, n: nat, acts: seq<Action>, s: System, c: nat, l: nat)
    requires LifoReaches(flags, n, acts, s) && Enabled(s, Do(c, l, LoadFlags))
    ensures var p := s.cpus[c];
      Masked(Release(s, c, l).cpus[c]) <==> |p.held| == 1 || p.held[0].lock != l || !p.original
  {
    var p := s.cpus[c];
    LifoReachesNested(flags, n, acts, s);
    assert CpuInv(p, c, s.locks) && Masked(p) && Saved(p);
    var i :| 0 <= i < |p.held| && p.held[i].lock == l;
    assert p.held[i] in p.held;
    hide LifoReaches, Next, Without, Release, Inv;
    ReleaseIs(s, c, l, p.held[i].saved);
    WithoutIs(p.held, l);
  }

  function Acquire(c: nat, l: nat): seq<Action> {
    [Do(c, l, ReadFlags), Do(c, l, Cli), Do(c, l, Exchange), Do(c, l, StoreFlags)]
  }

  /** One processor, started with interrupts on, that has taken two locks in turn. */
  function TwoHeld(): System {
    System([Cpu(false, Outside, [Held(0, true), Held(1, false)], true)], [Lock(true, true, 0), Lock(true, false, 0)])
  }

  lemma Stepped(s: System, a: Action, m: System, acts: seq<Action>, r: System)
    requires Enabled(s, a) && InOrder(s, a) && Next(s, a) == m && LifoRuns(m, acts) && Runs(m, acts) && Run(m, acts) == r
    ensures LifoRuns(s, [a] + acts) && Runs(s, [a] + acts) && Run(s, [a] + acts) == r
  {
    assert ([a] + acts)[1..] == acts;
  }

  lemma AcquireRuns(s: System, l: nat, p: Cpu, k: Lock, rest: seq<Action>, r: System)
    requires |s.cpus| == 1 && s.cpus[0] == p && p.pc == Outside && l < |s.locks| && s.locks[l] == k && !k.data
    requires var p' := Cpu(false, Outside, p.held + [Held(l, p.interrupts)], if p.held == [] then p.interrupts else p.original);
      LifoRunsTo(System([p'], s.locks[l := Lock(true, p.interrupts, 0)]), rest, r)
    ensures LifoRunsTo(s, Acquire(0, l) + rest, r)
  {
    var o, f := if p.held == [] then p.interrupts else p.original, p.interrupts;
    var s1 := System([Cpu(f, FlagsRead(l, f), p.held, o)], s.locks);
    var s2 := System([Cpu(false, Spinning(l, f), p.held, o)], s.locks);
    var s3 := System([Cpu(false, Acquired(l, f), p.held, o)], s.locks[l := Lock(true, k.flags, 0)]);
    var s4 := System([Cpu(false, Outside, p.held + [Held(l, f)], o)], s.locks[l := Lock(true, f, 0)]);
    assert Next(s3, Do(0, l, StoreFlags)) == s4;
    assert Next(s2, Do(0, l, Exchange)) == s3 && Next(s1, Do(0, l, Cli)) == s2 && Next(s, Do(0, l, ReadFlags)) == s1;
    hide Next, Run, Runs, LifoRuns;
    Stepped(s3, Do(0, l, StoreFlags), s4, rest, r);
    Stepped(s2, Do(0, l, Exchange), s3, [Do(0, l, StoreFlags)] + rest, r);
    Stepped(s1, Do(0, l, Cli), s2, [Do(0, l, Exchange)] + ([Do(0, l, StoreFlags)] + rest), r);
    Stepped(s, Do(0, l, ReadFlags), s1, [Do(0, l, Cli)] + ([Do(0, l, Exchange)] + ([Do(0, l, StoreFlags)] + rest)), r);
    assert Acquire(0, l) + rest ==
      [Do(0, l, ReadFlags)] + ([Do(0, l, Cli)] + ([Do(0, l, Exchange)] + ([Do(0, l, StoreFlags)] + rest)));
  }

  lemma TwoTaken()
    ensures LifoReaches([true], 2, Acquire(0, 0) + Acquire(0, 1), TwoHeld())
  {
    var s0 := Start([true], 2);
    var s4 := System([Cpu(false, Outside, [Held(0, true)], true)], [Lock(true, true, 0), Lock(false, false, -1)]);
    assert LifoRunsTo(TwoHeld(), [], TwoHeld());
    assert [] + [Held(0, true)] == [Held(0, true)] && [Held(0, true)] + [Held(1, false)] == [Held(0, true), Held(1, false)];
    assert s4.locks[1 := Lock(true, false, 0)] == TwoHeld().locks && s0.locks[0 := Lock(true, true, 0)] == s4.locks;
    assert Acquire(0, 1) + [] == Acquire(0, 1);
    hide Run, Runs, LifoRuns;
    AcquireRuns(s4, 1, s4.cpus[0], s4.locks[1], [], TwoHeld());
    AcquireRuns(s0, 0, s0.cpus[0], s0.locks[0], Acquire(0, 1), TwoHeld());
  }

  /** Giving the older one back first ends with interrupts on under the younger. */
  lemma OutOfOrderExample()
    ensures LifoReaches([true], 2, Acquire(0, 0) + Acquire(0, 1), TwoHeld()) && Enabled(TwoHeld(), Do(0, 0, LoadFlags))
    ensures Release(TwoHeld(), 0, 0).cpus[0] == Cpu(true, Outside, [Held(1, false)], true)
  {
    TwoTaken();
    LifoReachesNested([true], 2, Acquire(0, 0) + Acquire(0, 1), TwoHeld());
    assert TwoHeld().cpus[0].held[0].lock == 0;
    hide LifoReaches, Inv, Release;
    ReleaseIs(TwoHeld(), 0, 0, true);
  }
}
