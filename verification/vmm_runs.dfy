/** Whole runs of `map` and `unmap` on any directories, carried out on the page tables in memory. */
module VmmRuns {
  import opened Bits
  import opened Pmm
  import opened Vmm
  import opened VmmLaws

  datatype VmOp =
    | MapOp(d: nat, pa: u64, va: u64, flags: u64, length: u64)
    | UnmapOp(d: nat, va: u64, length: u64)

  /** What the operation does to an entry `v` of page `q` in directory `d`. */
  function Effect(op: VmOp, d: nat, q: Page, v: nat): nat {
    match op
    case MapOp(e, pa, va, flags, length) => Overlay(e, pa, va, flags, PageCount(length), d, q, v)
    case UnmapOp(e, va, length) => if Touched(e, va, PageCount(length), d, q) then 0 else v
  }

  datatype Snapshot = Snapshot(ram: seq<u64>, tables: Tables)

  ghost function FlatIn(s: Snapshot, d: nat, q: Page): nat {
    Flat(s.ram, s.tables, d, q)
  }

  /** Every flat entry changes as the operation says. */
  ghost predicate Performs(s: Snapshot, s': Snapshot, op: VmOp) {
    forall d, q | InRange(q) :: FlatIn(s', d, q) == Effect(op, d, q, FlatIn(s, d, q))
  }

  ghost predicate IsRun(trace: seq<Snapshot>, ops: seq<VmOp>) {
    |trace| == |ops| + 1 && forall i | 0 <= i < |ops| :: Performs(trace[i], trace[i + 1], ops[i])
  }

  /** Through every directory, page `p` is looked up in the same last-level table. */
  ghost predicate OneSlot(s: Snapshot, p: Page) {
    forall d, e | Root(d) in s.tables && Root(e) in s.tables ::
      WalkPt(s.ram, s.tables[Root(d)], p) == WalkPt(s.ram, s.tables[Root(e)], p)
  }

  /** So it is for every page of the kernel half. */
  ghost predicate Coherent(s: Snapshot) {
    forall p | InRange(p) && p.i4 >= 256 :: OneSlot(s, p)
  }

  lemma ValidIsCoherent(s: State, t: Tables)
    requires VmInv(s, t)
    ensures Coherent(Snapshot(s.ram, t))
  {
    hide TablesOk, WalkPt;
    forall p | InRange(p) && p.i4 >= 256 ensures OneSlot(Snapshot(s.ram, t), p) {
      forall d, e | Root(d) in t && Root(e) in t ensures WalkPt(s.ram, t[Root(d)], p) == WalkPt(s.ram, t[Root(e)], p) {
        KernelHalfCoherent(s.ram, t, d, e, p);
      }
    }
  }

  /** The tables on the way to `n` pages from `va` on exist; otherwise `unmap` follows a null pointer. */
  predicate Walkable(ram: seq<u64>, root: nat, va: nat, n: nat) {
    forall k | 0 <= k < n :: WalkPt(ram, root, PageOf(va + 4096 * k)) != 0
  }

  lemma WalkableIs(s: State, t: Tables, d: nat, va: nat, n: nat)
    requires VmInv(s, t) && Root(d) in t && Walkable(s.ram, t[Root(d)], va, n)
    ensures forall k | 0 <= k < n :: PtNode(d, PageOf(va + 4096 * k)) in t
  {
    assert TablesOk(s.ram, t);
    forall k | 0 <= k < n ensures PtNode(d, PageOf(va + 4096 * k)) in t {
      assert InRange(PageOf(va + 4096 * k));
      assert WalkPt(s.ram, t[Root(d)], PageOf(va + 4096 * k)) != 0;
      hide TablesOk, WalkPt, PageOf, PtNode;
      WalkReadsFlat(s.ram, t, d, PageOf(va + 4096 * k));
    }
  }

  /** Where the machine stops: `map` without a frame for a table, or `unmap` at a null pointer. */
  ghost predicate Stops(s: State, root: nat, op: VmOp) {
    if op.MapOp? then AllocResult(s, 1) == 0 else !Walkable(s.ram, root, op.va, PageCount(op.length))
  }

  ghost predicate HasRoots(t: Tables, roots: map<nat, u64>) {
    forall d | d in roots :: Root(d) in t && t[Root(d)] == roots[d]
  }

  lemma MapPerforms(s: State, t: Tables, s': State, t': Tables, op: VmOp)
    requires op.MapOp? && FlatMapped(s.ram, t, s'.ram, t', op.d, op.pa, op.va, op.flags, PageCount(op.length))
    ensures Performs(Snapshot(s.ram, t), Snapshot(s'.ram, t'), op)
  {
    hide Flat, Overlay, PageCount;
  }

  lemma UnmapPerforms(s: State, t: Tables, s': State, op: VmOp)
    requires op.UnmapOp? && FlatUnmapped(s.ram, s'.ram, t, op.d, op.va, PageCount(op.length))
    ensures Performs(Snapshot(s.ram, t), Snapshot(s'.ram, t), op)
  {
    hide Flat, Touched, PageCount;
  }

  /** One call of `map` or `unmap`. `ok == false` where the machine stops. */
  method Perform(vm: PageTables, root: u64, op: VmOp) returns (ok: bool)
    requires vm.Valid() && Preallocated(vm.tables) && Root(op.d) in vm.tables && vm.tables[Root(op.d)] == root
    requires op.MapOp? ==> op.pa + op.length <= 0x1_0000_0000_0000_0000
    modifies vm, vm.pmm
    ensures vm.Valid() && Preallocated(vm.tables)
    ensures forall n | n in old(vm.tables) :: n in vm.tables && vm.tables[n] == old(vm.tables)[n]
    ensures ok ==> Performs(Snapshot(old(vm.pmm.ram), old(vm.tables)), Snapshot(vm.pmm.ram, vm.tables), op)
    ensures !ok ==> Stops(vm.pmm.S(), root, op)
  {
    hide VmInv, Grows, FlatMapped, FlatUnmapped, Preallocated, Performs, AllocResult, DataKept, WalkPt, PageOf, PtNode;
    ghost var s, t := vm.pmm.S(), vm.tables;
    match op {
      case MapOp(d, pa, va, flags, length) =>
        ok := vm.Map(root, pa, va, length, flags, d);
        GrownTables(s, t, vm.pmm.S(), vm.tables);
        if ok {
          MapPerforms(s, t, vm.pmm.S(), vm.tables, op);
        }
      case UnmapOp(d, va, length) =>
        ok := Walkable(vm.pmm.ram, root, va, PageCount(length));
        if ok {
          WalkableIs(s, t, d, va, PageCount(length));
          vm.Unmap(root, va, length, d);
          UnmapPerforms(s, t, vm.pmm.S(), op);
        }
    }
  }

  // Isolation.

  /** All pages of the operation are in the user half. */
  ghost predicate UserHalf(op: VmOp) {
    forall k | 0 <= k < PageCount(op.length) :: PageOf(op.va + 4096 * k).i4 < 256
  }

  lemma UserHalfBelow(op: VmOp)
    requires op.va + op.length <= 0x8000_0000_0000
    ensures UserHalf(op)
  {
    forall k | 0 <= k < PageCount(op.length) ensures PageOf(op.va + 4096 * k).i4 < 256 {
      assert (op.va + 4096 * k) / 0x80_0000_0000 < 256;
    }
  }

  /** The operation stays below the end of user space, and page `q` of `d` is another directory's or the kernel's. */
  ghost predicate Elsewhere(op: VmOp, d: nat, q: Page) {
    op.va + op.length <= 0x8000_0000_0000 && (op.d != d || q.i4 >= 256)
  }

  lemma ElsewhereKeeps(op: VmOp, d: nat, q: Page, v: nat)
    requires Elsewhere(op, d, q)
    ensures Effect(op, d, q, v) == v
  {
    hide PageOf, Overlay, Touched, PageCount;
    UserHalfBelow(op);
    var n := PageCount(op.length);
    TouchedIff(op.d, op.va, n, d, q);
    if op.MapOp? {
      OverlayOutside(op.d, op.pa, op.va, op.flags, n, d, q, v);
    }
  }

  /** Over any run in the user halves of other directories, a directory's own entries, and every kernel-half entry
      of every directory, stay as they were. */
  lemma {:induction false} UserHalvesAreIsolated(trace: seq<Snapshot>, ops: seq<VmOp>, d: nat, q: Page)
    requires IsRun(trace, ops) && InRange(q) && forall op | op in ops :: Elsewhere(op, d, q)
    ensures FlatIn(trace[|ops|], d, q) == FlatIn(trace[0], d, q)
  {
    hide FlatIn, Elsewhere, Effect;
    if ops != [] {
      var n := |ops| - 1;
      UserHalvesAreIsolated(trace[..n + 1], ops[..n], d, q);
      assert Performs(trace[n], trace[n + 1], ops[n]);
      assert ops[n] in ops;
      ElsewhereKeeps(ops[n], d, q, FlatIn(trace[n], d, q));
    }
  }

  /** The leaf entry of page `q`, read from memory as the hardware does; 0 when the walk ends early. */
  function LeafOf(ram: seq<u64>, root: nat, q: Page): nat {
    var pt := WalkPt(ram, root, q);
    if pt == 0 then 0 else Entry(ram, pt, q.i1)
  }

  lemma LeafIsFlat(s: State, t: Tables, d: nat, q: Page)
    requires VmInv(s, t) && Root(d) in t && InRange(q)
    ensures LeafOf(s.ram, t[Root(d)], q) == FlatIn(Snapshot(s.ram, t), d, q)
  {
    hide TablesOk, WalkPt, Flat, Entry;
    WalkReadsFlat(s.ram, t, d, q);
  }

  /** Page `q` of directory `d` reads the same in both memories if none of the operations concerns it. */
  ghost predicate Isolated(ram: seq<u64>, ram': seq<u64>, roots: map<nat, u64>, ops: seq<VmOp>, d: nat, q: Page)
    requires d in roots
  {
    (forall op | op in ops :: Elsewhere(op, d, q)) ==> LeafOf(ram', roots[d], q) == LeafOf(ram, roots[d], q)
  }

  lemma RunIsolates(s: State, t: Tables, s': State, t': Tables, roots: map<nat, u64>, trace: seq<Snapshot>, ops: seq<VmOp>)
    requires VmInv(s, t) && VmInv(s', t') && HasRoots(t, roots) && HasRoots(t', roots) && IsRun(trace, ops)
    requires trace[0] == Snapshot(s.ram, t) && trace[|ops|] == Snapshot(s'.ram, t')
    ensures forall d, q | d in roots && InRange(q) :: Isolated(s.ram, s'.ram, roots, ops, d, q)
  {
    hide VmInv, IsRun, LeafOf, FlatIn, Elsewhere, InRange;
    forall d, q | d in roots && InRange(q) ensures Isolated(s.ram, s'.ram, roots, ops, d, q) {
      LeafIsFlat(s, t, d, q);
      LeafIsFlat(s', t', d, q);
      if forall op | op in ops :: Elsewhere(op, d, q) {
        UserHalvesAreIsolated(trace, ops, d, q);
      }
    }
  }

  // Runs.

  lemma RunStep(trace: seq<Snapshot>, ops: seq<VmOp>, n: nat, s: Snapshot)
    requires n < |ops| && IsRun(trace, ops[..n]) && Performs(trace[n], s, ops[n])
    ensures IsRun(trace + [s], ops[..n + 1])
  {
    hide Performs;
    var trace', ops' := trace + [s], ops[..n + 1];
    forall i | 0 <= i < n + 1 ensures Performs(trace'[i], trace'[i + 1], ops'[i]) {
      if i < n {
        assert Performs(trace[i], trace[i + 1], ops[..n][i]);
      }
    }
  }

  /** Any sequence of `map` and `unmap` calls on any directories, from any valid tables whose kernel half has been
      preallocated. At every point every kernel-half address is looked up in one and the same slot through all
      directories; calls that stay in the user halves of other directories change no translation of a directory
      and none of the kernel half; and the run stops early only where the machine does. */
  method Execute(vm: PageTables, roots: map<nat, u64>, ops: seq<VmOp>) returns (done: nat, ghost trace: seq<Snapshot>)
    requires vm.Valid() && Preallocated(vm.tables) && HasRoots(vm.tables, roots)
    requires forall op | op in ops :: op.d in roots && (op.MapOp? ==> op.pa + op.length <= 0x1_0000_0000_0000_0000)
    modifies vm, vm.pmm
    ensures vm.Valid() && Preallocated(vm.tables) && HasRoots(vm.tables, roots)
    ensures done <= |ops| && IsRun(trace, ops[..done]) && trace[0] == Snapshot(old(vm.pmm.ram), old(vm.tables))
    ensures forall i | 0 <= i <= done :: HasRoots(trace[i].tables, roots) && Coherent(trace[i])
    ensures Coherent(Snapshot(vm.pmm.ram, vm.tables))
    ensures done < |ops| ==> Stops(vm.pmm.S(), roots[ops[done].d], ops[done])
    ensures done == |ops| ==> trace[done] == Snapshot(vm.pmm.ram, vm.tables)
    ensures done == |ops| ==> forall d, q | d in roots && InRange(q) :: Isolated(old(vm.pmm.ram), vm.pmm.ram, roots, ops, d, q)
  {
    hide VmInv, Preallocated, Performs, Coherent, Stops, Isolated;
    ghost var s, t := vm.pmm.S(), vm.tables;
    done, trace := 0, [Snapshot(vm.pmm.ram, vm.tables)];
    ValidIsCoherent(s, t);
    while done < |ops|
      invariant done <= |ops| && IsRun(trace, ops[..done])
      invariant vm.Valid() && Preallocated(vm.tables) && HasRoots(vm.tables, roots)
      invariant trace[0] == Snapshot(s.ram, t) && trace[done] == Snapshot(vm.pmm.ram, vm.tables)
      invariant forall i | 0 <= i <= done :: HasRoots(trace[i].tables, roots) && Coherent(trace[i])
    {
      var op := ops[done];
      assert op in ops;
      var ok := Perform(vm, roots[op.d], op);
      ValidIsCoherent(vm.pmm.S(), vm.tables);
      if !ok {
        return;
      }
      RunStep(trace, ops, done, Snapshot(vm.pmm.ram, vm.tables));
      trace := trace + [Snapshot(vm.pmm.ram, vm.tables)];
      done := done + 1;
    }
    assert ops[..done] == ops;
    RunIsolates(s, t, vm.pmm.S(), vm.tables, roots, trace, ops);
  }
}
