/** What teardown gives back and what it leaves behind: which frames, and the allocator and the other directories. */
module TeardownLaws {
  import opened Bits
  import opened Pmm
  import opened Vmm
  import opened Teardown

  // Which frames are given back.

  function LevelOf(n: Node): nat {
    match n
    case Root(_) => 4
    case Pdpt(_, _) => 3
    case Pd(_, _, _) => 2
    case Pt(_, _, _, _) => 1
  }

  predicate UserNode(n: Node, d: nat) {
    !n.Root? && n.dir == d && n.i4 < 256
  }

  ghost predicate IsUserTable(t: Tables, d: nat, f: nat) {
    exists m | m in t :: UserNode(m, d) && t[m] == f
  }

  ghost predicate IsUserPage(ram: seq<u64>, t: Tables, d: nat, f: nat) {
    exists m, j | m in t && 0 <= j < 256 :: LeafAt(ram, t, d, m, j, f)
  }

  predicate LeafAt(ram: seq<u64>, t: Tables, d: nat, m: Node, j: nat, f: nat)
    requires m in t
  {
    m.Pt? && UserNode(m, d) && Present(Entry(ram, t[m], j)) && FrameOf(Entry(ram, t[m], j)) == f
  }

  /** All indices on the way to the table are below 256, where `free_table` stops at every level. */
  predicate Low(n: Node) {
    match n
    case Root(_) => false
    case Pdpt(_, i4) => i4 < 256
    case Pd(_, i4, i3) => i4 < 256 && i3 < 256
    case Pt(_, i4, i3, i2) => i4 < 256 && i3 < 256 && i2 < 256
  }

  ghost predicate IsLowTable(t: Tables, d: nat, f: nat) {
    exists m | m in t :: m.dir == d && Low(m) && t[m] == f
  }

  ghost predicate IsLowPage(ram: seq<u64>, t: Tables, d: nat, f: nat) {
    exists m, j | m in t && 0 <= j < 256 :: LeafAt(ram, t, d, m, j, f) && Low(m)
  }

  lemma {:induction false} ReachedIsLow(ram: seq<u64>, t: Tables, d: nat, n: Node, i: nat, f: nat)
    requires TablesOk(ram, t) && n in t && n.dir == d && (n.Root? || Low(n)) && i <= 256
    requires f in Reached(ram, t[n], LevelOf(n), i)
    ensures IsLowTable(t, d, f) || IsLowPage(ram, t, d, f)
    decreases LevelOf(n), 256 - i
  {
    var e := Entry(ram, t[n], i);
    if f in Reached(ram, t[n], LevelOf(n), i + 1) {
      ReachedIsLow(ram, t, d, n, i + 1, f);
    } else if n.Pt? {
      assert LeafAt(ram, t, d, n, i, f);
    } else {
      assert SlotOk(ram, t, n, i);
      var c := Child(n, i);
      assert Low(c) && c.dir == d;
      if f != t[c] {
        ReachedIsLow(ram, t, d, c, 0, f);
      }
    }
  }

  /** Every frame reached from a directory's root is a table, or a mapped page, of its own user half. */
  lemma ReachedIsUser(ram: seq<u64>, t: Tables, d: nat, f: nat)
    requires TablesOk(ram, t) && Root(d) in t && f in Reached(ram, t[Root(d)], 4, 0)
    ensures IsUserTable(t, d, f) || IsUserPage(ram, t, d, f)
  {
    hide TablesOk, Reached;
    ReachedIsLow(ram, t, d, Root(d), 0, f);
    LowIsUser(ram, t, d, f);
  }

  lemma LowIsUser(ram: seq<u64>, t: Tables, d: nat, f: nat)
    ensures IsLowTable(t, d, f) ==> IsUserTable(t, d, f)
    ensures IsLowPage(ram, t, d, f) ==> IsUserPage(ram, t, d, f)
  {
    if IsLowTable(t, d, f) {
      var m :| m in t && m.dir == d && Low(m) && t[m] == f;
      assert UserNode(m, d);
    }
  }

  /** What lies behind a present low entry is reached, and looked at, with its table. */
  lemma {:induction false} SlotReached(ram: seq<u64>, table: nat, level: nat, k: nat, i: nat)
    requires level > 0 && k <= i < 256 && Present(Entry(ram, table, i))
    ensures FrameOf(Entry(ram, table, i)) in Reached(ram, table, level, k)
    ensures forall g | g in Reached(ram, FrameOf(Entry(ram, table, i)), level - 1, 0) :: g in Reached(ram, table, level, k)
    ensures forall a | a in Trace(ram, FrameOf(Entry(ram, table, i)), level - 1, 0) :: a in Trace(ram, table, level, k)
    decreases i - k
  {
    if k < i {
      SlotReached(ram, table, level, k + 1, i);
    }
  }

  lemma {:induction false} AllLooked(ram: seq<u64>, table: nat, level: nat, k: nat, i: nat)
    requires level > 0 && k <= i < 256
    ensures Look(table, i) in Trace(ram, table, level, k)
    decreases i - k
  {
    if k < i {
      AllLooked(ram, table, level, k + 1, i);
    }
  }

  function Parent(n: Node): Node
    requires !n.Root?
  {
    match n
    case Pdpt(d, _) => Root(d)
    case Pd(d, i4, _) => Pdpt(d, i4)
    case Pt(d, i4, i3, _) => Pd(d, i4, i3)
  }

  function IndexOf(n: Node): nat
    requires !n.Root?
  {
    match n
    case Pdpt(_, i4) => i4
    case Pd(_, _, i3) => i3
    case Pt(_, _, _, i2) => i2
  }

  lemma LowParent(ram: seq<u64>, t: Tables, n: Node)
    requires TablesOk(ram, t) && n in t && Low(n) && Root(n.dir) in t
    ensures var p, i := Parent(n), IndexOf(n);
      && p in t && p.dir == n.dir && (p.Root? || Low(p)) && i < 256 && LevelOf(p) == LevelOf(n) + 1
      && Present(Entry(ram, t[p], i)) && FrameOf(Entry(ram, t[p], i)) == t[n]
  {
    var p, i := Parent(n), IndexOf(n);
    assert Parented(t, n);
    assert Child(p, i) == n;
    assert SlotOk(ram, t, p, i);
  }

  /** A low table is reached from its root, with everything below it. */
  lemma {:induction false} LowReached(ram: seq<u64>, t: Tables, n: Node)
    requires TablesOk(ram, t) && n in t && Low(n) && Root(n.dir) in t
    ensures var r := t[Root(n.dir)];
      && t[n] in Reached(ram, r, 4, 0)
      && (forall g | g in Reached(ram, t[n], LevelOf(n), 0) :: g in Reached(ram, r, 4, 0))
      && (forall a | a in Trace(ram, t[n], LevelOf(n), 0) :: a in Trace(ram, r, 4, 0))
    decreases 4 - LevelOf(n)
  {
    var p, i := Parent(n), IndexOf(n);
    LowParent(ram, t, n);
    hide TablesOk, Reached, Trace, Entry;
    SlotReached(ram, t[p], LevelOf(p), 0, i);
    if !p.Root? {
      LowReached(ram, t, p);
    }
  }

  /** Exactly the low tables and the pages mapped in low slots are given back. */
  lemma ReachedIff(ram: seq<u64>, t: Tables, d: nat, f: nat)
    requires TablesOk(ram, t) && Root(d) in t
    ensures f in Reached(ram, t[Root(d)], 4, 0) <==> IsLowTable(t, d, f) || IsLowPage(ram, t, d, f)
  {
    hide TablesOk, Reached;
    if f in Reached(ram, t[Root(d)], 4, 0) {
      ReachedIsLow(ram, t, d, Root(d), 0, f);
    }
    if IsLowTable(t, d, f) {
      var m :| m in t && m.dir == d && Low(m) && t[m] == f;
      LowReached(ram, t, m);
    }
    if IsLowPage(ram, t, d, f) {
      var m, j :| m in t && 0 <= j < 256 && LeafAt(ram, t, d, m, j, f) && Low(m);
      LowReached(ram, t, m);
      SlotReached(ram, t[m], 1, 0, j);
    }
  }

  /** A table of the directory is given back if and only if all its indices are below 256, unless it is mapped as a
      page besides. */
  lemma TableGivenBack(ram: seq<u64>, t: Tables, d: nat, n: Node)
    requires TablesOk(ram, t) && Root(d) in t && n in t && n.dir == d && !IsLowPage(ram, t, d, t[n])
    ensures t[n] in Reached(ram, t[Root(d)], 4, 0) <==> Low(n)
  {
    assert forall m | m in t && t[m] == t[n] :: m == n;
    hide TablesOk, Reached, IsLowPage;
    ReachedIff(ram, t, d, t[n]);
  }

  /** All four indices of a page are below 256. */
  predicate LowPage(p: Page) {
    p.i4 < 256 && p.i3 < 256 && p.i2 < 256 && p.i1 < 256
  }

  /** So it is when bits 20, 29, 38 and 47 of the address are clear. */
  lemma LowBits(va: nat)
    ensures LowPage(PageOf(va)) <==>
      va / 0x10_0000 % 2 == 0 && va / 0x2000_0000 % 2 == 0 && va / 0x40_0000_0000 % 2 == 0 && va / 0x8000_0000_0000 % 2 == 0
  {
    HalfBit(va / 0x1000);
    HalfBit(va / 0x20_0000);
    HalfBit(va / 0x4000_0000);
    HalfBit(va / 0x80_0000_0000);
    DivProduct(va, 0x1000, 256);
    DivProduct(va, 0x20_0000, 256);
    DivProduct(va, 0x4000_0000, 256);
    DivProduct(va, 0x80_0000_0000, 256);
  }

  lemma HalfBit(x: nat)
    ensures x % 512 < 256 <==> x / 256 % 2 == 0
  {
  }

  /** The frame is that of the root or of a low table. */
  ghost predicate OnTheWay(t: Tables, d: nat, x: nat) {
    exists m | m in t :: m.dir == d && (m.Root? || Low(m)) && t[m] == x
  }

  lemma ItselfOnTheWay(t: Tables, n: Node)
    requires n in t && (n.Root? || Low(n))
    ensures OnTheWay(t, n.dir, t[n])
  {
  }

  lemma {:induction false} LookIsLow(ram: seq<u64>, t: Tables, n: Node, i: nat, x: nat, j: nat)
    requires TablesOk(ram, t) && n in t && (n.Root? || Low(n)) && i <= 256
    requires Look(x, j) in Trace(ram, t[n], LevelOf(n), i)
    ensures j < 256 && OnTheWay(t, n.dir, x)
    decreases LevelOf(n), 256 - i
  {
    var e := Entry(ram, t[n], i);
    ItselfOnTheWay(t, n);
    TraceParts(ram, t[n], LevelOf(n), i, Look(x, j));
    if Look(x, j) in Trace(ram, t[n], LevelOf(n), i + 1) {
      hide *;
      LookIsLow(ram, t, n, i + 1, x, j);
    } else if Look(x, j) != Look(t[n], i) {
      LowChild(ram, t, n, i);
      hide *;
      LookIsLow(ram, t, Child(n, i), 0, x, j);
    }
  }

  lemma TraceParts(ram: seq<u64>, table: nat, level: nat, i: nat, a: Access)
    requires a in Trace(ram, table, level, i)
    ensures level > 0 && i < 256
    ensures var e := Entry(ram, table, i);
      || a == Look(table, i) || a in Trace(ram, table, level, i + 1)
      || (Present(e) && (a == Give(FrameOf(e)) || (level > 1 && a in Trace(ram, FrameOf(e), level - 1, 0))))
  {
    hide Entry, Present, FrameOf;
  }

  lemma LowChild(ram: seq<u64>, t: Tables, n: Node, i: nat)
    requires TablesOk(ram, t) && n in t && (n.Root? || Low(n)) && !n.Pt? && i < 256 && Present(Entry(ram, t[n], i))
    ensures var c := Child(n, i);
      c in t && c.dir == n.dir && Low(c) && LevelOf(c) == LevelOf(n) - 1 && t[c] == FrameOf(Entry(ram, t[n], i))
  {
    assert SlotOk(ram, t, n, i);
    hide TablesOk, Entry, Present, FrameOf;
  }

  /** Teardown looks at an entry of a table of the directory if and only if all indices, the entry's own included, are
      below 256. */
  lemma SlotVisited(ram: seq<u64>, t: Tables, d: nat, p: Page)
    requires TablesOk(ram, t) && Root(d) in t && p.i4 < 256 && PtNode(d, p) in t
    ensures Look(t[PtNode(d, p)], p.i1) in Trace(ram, t[Root(d)], 4, 0) <==> LowPage(p)
  {
    var n := PtNode(d, p);
    PtIs(d, p);
    hide *;
    if LowPage(p) {
      LowSlotLooked(ram, t, n, p.i1);
    }
    if Look(t[n], p.i1) in Trace(ram, t[Root(d)], 4, 0) {
      LookedIsLow(ram, t, d, n, p.i1);
    }
  }

  lemma PtIs(d: nat, p: Page)
    requires p.i4 < 256
    ensures var n := PtNode(d, p); n.Pt? && n.dir == d && LevelOf(n) == 1
    ensures LowPage(p) <==> Low(PtNode(d, p)) && p.i1 < 256
  {
  }

  lemma LowSlotLooked(ram: seq<u64>, t: Tables, n: Node, i: nat)
    requires TablesOk(ram, t) && n in t && Low(n) && Root(n.dir) in t && i < 256 && LevelOf(n) == 1
    ensures Look(t[n], i) in Trace(ram, t[Root(n.dir)], 4, 0)
  {
    hide *;
    LowReached(ram, t, n);
    AllLooked(ram, t[n], 1, 0, i);
  }

  lemma LookedIsLow(ram: seq<u64>, t: Tables, d: nat, n: Node, i: nat)
    requires TablesOk(ram, t) && n in t && n.Pt? && Root(d) in t && Look(t[n], i) in Trace(ram, t[Root(d)], 4, 0)
    ensures i < 256 && Low(n)
  {
    TablesDiffer(ram, t, n);
    assert LevelOf(Root(d)) == 4;
    hide TablesOk, Trace;
    LookIsLow(ram, t, Root(d), 0, t[n], i);
  }

  lemma TablesDiffer(ram: seq<u64>, t: Tables, n: Node)
    requires TablesOk(ram, t) && n in t
    ensures forall m | m in t && t[m] == t[n] :: m == n
  {
  }

  /** The frame is mapped at page `p` of the directory and nowhere else in its user half, and is none of its tables. */
  ghost predicate MappedOnlyAt(ram: seq<u64>, t: Tables, d: nat, p: Page, f: nat) {
    && PtNode(d, p) in t && LeafAt(ram, t, d, PtNode(d, p), p.i1, f)
    && (forall m, j: nat | m in t && LeafAt(ram, t, d, m, j, f) :: m == PtNode(d, p) && j == p.i1)
    && forall m | m in t && m.dir == d :: t[m] != f
  }

  /** A page of the user half is given back if and only if all four of its indices are below 256. */
  lemma PageGivenBack(ram: seq<u64>, t: Tables, d: nat, p: Page, f: nat)
    requires TablesOk(ram, t) && Root(d) in t && MappedOnlyAt(ram, t, d, p, f)
    ensures f in Reached(ram, t[Root(d)], 4, 0) <==> LowPage(p)
  {
    var n := PtNode(d, p);
    assert p.i4 < 256 && n == Pt(d, p.i4, p.i3, p.i2);
    hide TablesOk, Reached, LeafAt;
    ReachedIff(ram, t, d, f);
  }

  /** A table of the kernel half, or another directory's root, is not given back unless it is mapped as a user page. */
  lemma KernelHalfKept(ram: seq<u64>, t: Tables, d: nat, n: Node)
    requires TablesOk(ram, t) && Root(d) in t && n in t && !UserNode(n, d) && !IsUserPage(ram, t, d, t[n])
    ensures t[n] !in Reached(ram, t[Root(d)], 4, 0)
  {
    if t[n] in Reached(ram, t[Root(d)], 4, 0) {
      ReachedIsUser(ram, t, d, t[n]);
    }
  }

  // What teardown leaves of the allocator and of the other directories.

  /** Frames that were handed out one by one, each once. */
  ghost predicate Owned(s: State, fs: seq<nat>) {
    Distinct(fs) && forall f | f in fs :: Region(f, 1) in s.out
  }

  lemma {:induction false} SinglesCount(fs: seq<nat>)
    requires Distinct(fs)
    ensures |Singles(fs)| == |fs|
  {
    if fs != [] {
      var n := |fs| - 1;
      SinglesCount(fs[..n]);
      assert fs == fs[..n] + [fs[n]];
      assert Region(fs[n], 1) !in Singles(fs[..n]);
      assert Singles(fs) == Singles(fs[..n]) + {Region(fs[n], 1)};
    }
  }

  lemma LastOwned(s: State, fs: seq<nat>, front: seq<nat>, f: nat)
    requires fs == front + [f] && Owned(s, fs)
    ensures Owned(s, front) && Region(f, 1) !in s.out - Singles(fs)
    ensures s.out - Singles(front) == (s.out - Singles(fs)) + {Region(f, 1)}
  {
    assert fs[|front|] == f && f in fs;
    forall i | 0 <= i < |front| ensures front[i] in fs && front[i] != f {
      assert fs[i] == front[i];
    }
    forall i, j | 0 <= i < j < |front| ensures front[i] != front[j] {
      assert fs[i] == front[i] && fs[j] == front[j];
    }
    assert Singles(fs) == Singles(front) + {Region(f, 1)};
  }

  lemma {:induction false} FreedLayout(s: State, fs: seq<nat>)
    requires Layout(s.free, s.out, s.pool) && Owned(s, fs)
    ensures Layout(Pushed(fs) + s.free, s.out - Singles(fs), s.pool)
  {
    hide Layout, Owned;
    if fs == [] {
      assert Pushed(fs) + s.free == s.free && s.out - Singles(fs) == s.out;
    } else {
      var n := |fs| - 1;
      var r, front := Region(fs[n], 1), fs[..n];
      assert fs == front + [fs[n]];
      hide Singles;
      LastOwned(s, fs, front, fs[n]);
      FreedLayout(s, front);
      PutBack(Pushed(front) + s.free, r, s.out - Singles(fs), s.pool);
      assert Pushed(fs) + s.free == [r] + (Pushed(front) + s.free);
    }
  }

  /** Giving back frames that were handed out one by one keeps the allocator's invariant. */
  lemma FreedKeepsInv(s: State, s': State, fs: seq<nat>, table: nat)
    requires Inv(s) && Owned(s, fs) && Freed(s, s', fs, table, 0)
    ensures Inv(s') && s'.out == s.out - Singles(fs)
  {
    FreedLayout(s, fs);
    SinglesCount(fs);
    assert Singles(fs) <= s.out;
    hide Layout, IsList, Pushed;
    assert |s.out - Singles(fs)| == |s.out| - |Singles(fs)|;
  }

  lemma OwnedIsReady(s: State, root: nat, fs: seq<nat>)
    requires Inv(s) && Owned(s, fs + [root])
    ensures Ready(s, root, fs) && s.refs > |fs|
  {
    var all := fs + [root];
    assert all[|fs|] == root && root in all;
    forall i | 0 <= i < |fs| ensures fs[i] != root && Region(fs[i], 1) in s.out {
      assert all[i] == fs[i];
    }
    forall i, j | 0 <= i < j < |fs| ensures fs[i] != fs[j] {
      assert all[i] == fs[i] && all[j] == fs[j];
    }
    SinglesCount(all);
    assert Singles(all) <= s.out;
    CountOf(Singles(all), s.out);
    hide IsList;
  }

  lemma CountOf(a: set<Region>, b: set<Region>)
    requires a <= b
    ensures |a| <= |b|
  {
    assert b == a + (b - a);
  }

  /** The tables of all other directories, and of the kernel half. */
  ghost function Remaining(t: Tables, d: nat): Tables {
    map n | n in t && n.dir != d :: t[n]
  }

  /** What keeps a teardown apart from the rest: every frame it reaches was handed out by itself and is reached once,
      and none is a table of another directory or of the kernel half. */
  ghost predicate Detached(s: State, t: Tables, d: nat) {
    d != KERNEL && Root(d) in t && Owned(s, Reached(s.ram, t[Root(d)], 4, 0) + [t[Root(d)]]) && OthersUnmapped(s.ram, t, d)
  }

  ghost predicate OthersUnmapped(ram: seq<u64>, t: Tables, d: nat) {
    forall n | n in t && n.dir != d :: !IsUserPage(ram, t, d, t[n])
  }

  lemma RemainingKept(s: State, t: Tables, d: nat, s': State, n: Node, j: nat)
    requires VmInv(s, t) && Detached(s, t, d) && n in t && n.dir != d && j < 512
    requires var root := t[Root(d)]; Freed(s, s', Reached(s.ram, root, 4, 0) + [root], root, 0)
    ensures var root := t[Root(d)]; t[n] !in Reached(s.ram, root, 4, 0) + [root]
    ensures Entry(s'.ram, t[n], j) == Entry(s.ram, t[n], j)
  {
    var root := t[Root(d)];
    var fs := Reached(s.ram, root, 4, 0) + [root];
    assert root in fs && Region(root, 1) in s.out;
    assert GoodFrames(s.ram, fs);
    assert Usable(s.ram, Region(t[n], 1)) && Usable(s.ram, Region(root, 1));
    KernelHalfKept(s.ram, t, d, n);
    hide IsList, Pushed, Layout, TablesOk, Reached, Confined, GoodFrames, Entry;
    EntryKept(s.ram, s'.ram, fs, root, 0, t[n], j);
  }

  /** Tearing a directory down leaves the tables of all others well formed and their translations as they were. */
  lemma TeardownKeepsVm(s: State, t: Tables, d: nat, s': State)
    requires VmInv(s, t) && Detached(s, t, d)
    requires var root := t[Root(d)]; Freed(s, s', Reached(s.ram, root, 4, 0) + [root], root, 0)
    ensures VmInv(s', Remaining(t, d))
    ensures forall e, p | e != d && InRange(p) :: Flat(s'.ram, Remaining(t, d), e, p) == Flat(s.ram, t, e, p)
  {
    var root, t' := t[Root(d)], Remaining(t, d);
    var fs := Reached(s.ram, root, 4, 0) + [root];
    FreedKeepsInv(s, s', fs, root);
    assert |s'.ram| == |s.ram|;
    hide Inv, Detached, Freed, Reached, Confined, Entry;
    forall n, j | n in t' && 0 <= j < 512 ensures Entry(s'.ram, t'[n], j) == Entry(s.ram, t[n], j) && t[n] !in fs {
      RemainingKept(s, t, d, s', n, j);
    }
    RemainingTables(s.ram, t, d, s'.ram) by { assert d != KERNEL by { DetachedUser(s, t, d); } }
    forall n | n in t' ensures Region(t'[n], 1) in s'.out {
      RemainingKept(s, t, d, s', n, 0);
    }
  }

  lemma DetachedUser(s: State, t: Tables, d: nat)
    requires Detached(s, t, d)
    ensures d != KERNEL && Root(d) in t
  {
  }

  lemma RemainingTables(ram: seq<u64>, t: Tables, d: nat, ram': seq<u64>)
    requires TablesOk(ram, t) && d != KERNEL && |ram'| == |ram|
    requires forall n, j | n in t && n.dir != d && 0 <= j < 512 :: Entry(ram', t[n], j) == Entry(ram, t[n], j)
    ensures TablesOk(ram', Remaining(t, d))
    ensures forall e, p | e != d && InRange(p) :: Flat(ram', Remaining(t, d), e, p) == Flat(ram, t, e, p)
  {
    var t' := Remaining(t, d);
    hide Entry;
    forall n, i | n in t' && !n.Pt? && 0 <= i < 512 ensures SlotOk(ram', t', n, i) {
      assert SlotOk(ram, t, n, i);
      assert Child(n, i).dir != d;
    }
    forall n | n in t' ensures Parented(t', n) {
      assert Parented(t, n);
    }
    forall e, p | e != d && InRange(p) ensures Flat(ram', t', e, p) == Flat(ram, t, e, p) {
      assert PtNode(e, p).dir != d;
    }
  }

  /** A table that stays outstanding although its directory is gone. */
  ghost predicate Leaks(s: State, t: Tables, d: nat, n: Node)
    requires n in t
  {
    !n.Root? && !Low(n) && !IsLowPage(s.ram, t, d, t[n])
  }

  lemma LeaksExactly(s: State, t: Tables, d: nat, s': State, n: Node)
    requires VmInv(s, t) && Root(d) in t && n in t && n.dir == d
    requires var root := t[Root(d)]; GivenUp(s, s', Reached(s.ram, root, 4, 0) + [root])
    ensures Region(t[n], 1) in s'.out <==> Leaks(s, t, d, n)
  {
    var root := t[Root(d)];
    var fs := Reached(s.ram, root, 4, 0) + [root];
    assert Region(t[n], 1) in s.out;
    assert t[n] == root <==> n.Root?;
    assert Region(t[n], 1) in Singles(fs) <==> t[n] in fs;
    assert forall m | m in t && t[m] == t[n] :: m == n;
    hide TablesOk, Inv, Reached, IsLowPage, Singles;
    ReachedIff(s.ram, t, d, t[n]);
  }

  ghost predicate NoLeaks(s: State, t: Tables, d: nat) {
    forall n | n in t && n.dir == d :: !Leaks(s, t, d, n)
  }

  ghost predicate NoTableOut(t: Tables, d: nat, out: set<Region>) {
    forall n | n in t && n.dir == d :: Region(t[n], 1) !in out
  }

  /** What a teardown does to the page tables and to the allocator: the frames reached are no longer outstanding, of the
      directory's own tables exactly the leaking ones are, and nothing else translates differently. */
  ghost predicate TornDown(s: State, t: Tables, d: nat, s': State)
    requires Root(d) in t
  {
    && s'.out == s.out - Singles(Reached(s.ram, t[Root(d)], 4, 0) + [t[Root(d)]])
    && (forall n | n in t && n.dir == d :: Region(t[n], 1) in s'.out <==> Leaks(s, t, d, n))
    && (NoTableOut(t, d, s'.out) <==> NoLeaks(s, t, d))
    && forall e, p | e != d && InRange(p) :: Flat(s'.ram, Remaining(t, d), e, p) == Flat(s.ram, t, e, p)
  }

  lemma TeardownIs(s: State, t: Tables, d: nat, s': State, root: nat)
    requires VmInv(s, t) && Detached(s, t, d) && root == t[Root(d)] && Freed(s, s', Reached(s.ram, root, 4, 0) + [root], root, 0)
    ensures Root(d) in t && VmInv(s', Remaining(t, d)) && TornDown(s, t, d, s')
  {
    var fs := Reached(s.ram, root, 4, 0) + [root];
    FreedParts(s, t, s', fs, root);
    hide *;
    DetachedOwned(s, t, d);
    TeardownKeepsVm(s, t, d, s');
    FreedKeepsInv(s, s', fs, root);
    forall n | n in t && n.dir == d ensures Region(t[n], 1) in s'.out <==> Leaks(s, t, d, n) {
      LeaksExactly(s, t, d, s', n);
    }
    TornDownFrom(s, t, d, s');
  }

  lemma FreedParts(s: State, t: Tables, s': State, fs: seq<nat>, root: nat)
    requires VmInv(s, t) && Freed(s, s', fs, root, 0)
    ensures GivenUp(s, s', fs) && Inv(s)
  {
  }

  lemma TornDownFrom(s: State, t: Tables, d: nat, s': State)
    requires Root(d) in t && s'.out == s.out - Singles(Reached(s.ram, t[Root(d)], 4, 0) + [t[Root(d)]])
    requires forall n | n in t && n.dir == d :: Region(t[n], 1) in s'.out <==> Leaks(s, t, d, n)
    requires forall e, p | e != d && InRange(p) :: Flat(s'.ram, Remaining(t, d), e, p) == Flat(s.ram, t, e, p)
    ensures TornDown(s, t, d, s')
  {
    hide Flat, Remaining, Leaks, Singles, Reached, InRange;
  }

  lemma RootNotNull(s: State, t: Tables, d: nat)
    requires VmInv(s, t) && Detached(s, t, d)
    ensures Inv(s) && Root(d) in t && t[Root(d)] != 0
  {
  }

  /** `free_pagemap` on a directory of the page tables. The rest of them stays valid, and so does the allocator. Of the
      directory's own tables exactly those with an index of 256 or more on the way stay outstanding, so none does if
      and only if there are no such tables. */
  method FreeDirectory(vm: PageTables, root: u64, ghost d: nat) returns (root': u64, ghost trace: seq<Access>)
    requires vm.Valid() && Detached(vm.pmm.S(), vm.tables, d) && vm.tables[Root(d)] == root
    modifies vm, vm.pmm
    ensures vm.Valid() && vm.tables == Remaining(old(vm.tables), d) && root' == 0 && Safe(trace)
    ensures TornDown(old(vm.pmm.S()), old(vm.tables), d, vm.pmm.S())
  {
    ghost var s, t := vm.pmm.S(), vm.tables;
    hide Inv, VmInv, Detached, Freed, Reached, Ready, Remaining, Trace, Safe, TornDown, Singles, FreeState;
    DetachedIsReady(s, t, d);
    root', trace := FreePagemap(vm.pmm, root);
    TeardownIs(s, t, d, vm.pmm.S(), root);
    vm.tables := Remaining(t, d);
  }

  lemma DetachedIsReady(s: State, t: Tables, d: nat)
    requires VmInv(s, t) && Detached(s, t, d)
    ensures Root(d) in t && var root := t[Root(d)];
      root != 0 && Ready(s, root, Reached(s.ram, root, 4, 0)) && s.refs > |Reached(s.ram, root, 4, 0)|
  {
    RootNotNull(s, t, d);
    hide *;
    DetachedOwned(s, t, d);
    OwnedIsReady(s, t[Root(d)], Reached(s.ram, t[Root(d)], 4, 0));
  }

  lemma DetachedOwned(s: State, t: Tables, d: nat)
    requires Detached(s, t, d)
    ensures Root(d) in t && Owned(s, Reached(s.ram, t[Root(d)], 4, 0) + [t[Root(d)]])
  {
  }

  // Regions of several pages.

  /** A region given back page by page, as teardown does with the pages of a segment. */
  function FreeSingly(s: State, pa: nat, n: nat): State {
    if n == 0 then s else FreeState(FreeSingly(s, pa, n - 1), Region(pa + 4096 * (n - 1), 1))
  }

  /** The first `k` pages of a region as free-list nodes, last one first. */
  function PagesDown(pa: nat, k: nat): seq<Region> {
    if k == 0 then [] else [Region(pa + 4096 * (k - 1), 1)] + PagesDown(pa, k - 1)
  }

  function Min(a: nat, b: nat): nat {
    if a < b then a else b
  }

  /** One count is used up per page, and once the counter is zero every further page is refused. */
  lemma {:induction false} SinglyFrees(s: State, pa: nat, n: nat)
    ensures var s', k := FreeSingly(s, pa, n), Min(s.refs, n);
      s'.refs == s.refs - k && s'.free == PagesDown(pa, k) + s.free
  {
    if n == 0 {
      assert [] + s.free == s.free;
    } else {
      var p := n - 1;
      var m, r := FreeSingly(s, pa, p), Region(pa + 4096 * p, 1);
      SinglyFrees(s, pa, p);
      assert FreeSingly(s, pa, n) == FreeState(m, r) && PagesDown(pa, n) == [r] + PagesDown(pa, p);
      hide *;
      MinSteps(s.refs, n);
      FreeStateIs(m, r);
      OneMore(r, PagesDown(pa, p), s.free);
    }
  }

  lemma OneMore(r: Region, a: seq<Region>, b: seq<Region>)
    ensures [r] + (a + b) == [r] + a + b
  {
  }

  lemma MinSteps(a: nat, n: nat)
    requires n > 0
    ensures Min(a, n) == if a >= n then n else a
    ensures Min(a, n - 1) == if a >= n then n - 1 else a
  {
  }

  lemma FreeStateIs(s: State, r: Region)
    ensures var s' := FreeState(s, r);
      if s.refs == 0 then s' == s else s'.refs == s.refs - 1 && s'.free == [r] + s.free
  {
  }

  /** A region given back page by page: all its pages get to the list exactly when the counter covers them, the counter
      then agrees with what is outstanding exactly when the region had one page or the counter has run out, and both are
      right exactly when it had one page. A counter that has run out refuses every later free. */
  lemma PagewiseFreeMiscounts(s: State, r: Region)
    requires Inv(s) && r in s.out && r.pages > 0
    ensures var s' := FreeSingly(s, r.pa, r.pages);
      var counted, given := s'.refs == |s.out - {r}| + s.empties, s'.free == PagesDown(r.pa, r.pages) + s.free;
      && |s'.free| == |s.free| + Min(s.refs, r.pages)
      && (given <==> s.refs >= r.pages) && (counted <==> r.pages == 1 || s.refs == 1)
      && (counted && given <==> r.pages == 1)
      && (s.refs <= r.pages ==> forall q :: FreeState(s', q) == s')
  {
    var k := Min(s.refs, r.pages);
    SinglyFrees(s, r.pa, r.pages);
    PagesCount(r.pa, k);
    PagesCount(r.pa, r.pages);
    assert |s.out - {r}| == |s.out| - 1;
    hide IsList, Layout, FreeSingly, PagesDown;
  }

  lemma {:induction false} PagesCount(pa: nat, k: nat)
    ensures |PagesDown(pa, k)| == k
  {
    if k > 0 {
      PagesCount(pa, k - 1);
    }
  }
}
