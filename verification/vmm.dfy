/** Four-level page tables held in frames of the page allocator. */
module Vmm {
  import opened Bits
  import opened Pmm

  const PRESENT: u64 := 0x1
  const WRITEABLE: u64 := 0x2
  const USER: u64 := 0x4
  const NX: u64 := 0x8000_0000_0000_0000
  const PADDR_MASK: u64 := 0x0000_FFFF_FFFF_F000
  const OFFMASK: u64 := 0xFFF

  predicate Present(e: nat) {
    And(e, PRESENT) != 0
  }

  /** The physical frame an entry points to. */
  function FrameOf(e: nat): nat {
    And(e, PADDR_MASK)
  }

  function Entry(ram: seq<u64>, table: nat, i: nat): nat {
    if table / 8 + i < |ram| then ram[table / 8 + i] else 0
  }

  /** The four table indices of a virtual address. */
  datatype Page = Page(i4: nat, i3: nat, i2: nat, i1: nat)

  function PageOf(va: nat): Page {
    Page(va / 0x80_0000_0000 % 512, va / 0x4000_0000 % 512, va / 0x20_0000 % 512, va / 0x1000 % 512)
  }

  // The tables in use. The upper half of every directory is the kernel's: below a root, a table reached
  // through index 256 or more is the same table for all directories.

  const KERNEL: nat := 0

  datatype Node =
    | Root(dir: nat)
    | Pdpt(dir: nat, i4: nat)
    | Pd(dir: nat, i4: nat, i3: nat)
    | Pt(dir: nat, i4: nat, i3: nat, i2: nat)

  function Child(n: Node, i: nat): Node
    requires !n.Pt?
  {
    match n
    case Root(d) => Pdpt(if i >= 256 then KERNEL else d, i)
    case Pdpt(d, i4) => Pd(d, i4, i)
    case Pd(d, i4, i3) => Pt(d, i4, i3, i)
  }

  function PtNode(d: nat, p: Page): Node {
    Child(Child(Child(Root(d), p.i4), p.i3), p.i2)
  }

  type Tables = map<Node, nat>

  /** Entry `i` of table `n` is present exactly when that child table is in use, and then points to it. */
  ghost predicate SlotOk(ram: seq<u64>, t: Tables, n: Node, i: nat)
    requires n in t && !n.Pt?
  {
    var e := Entry(ram, t[n], i);
    (Present(e) <==> Child(n, i) in t) && (Present(e) ==> FrameOf(e) == t[Child(n, i)])
  }

  ghost predicate Parented(t: Tables, n: Node) {
    && (n.Pd? ==> Pdpt(n.dir, n.i4) in t)
    && (n.Pt? ==> Pd(n.dir, n.i4, n.i3) in t)
  }

  /** The words in memory form exactly the radix trees `t`, each table in a frame of its own. */
  ghost predicate TablesOk(ram: seq<u64>, t: Tables) {
    && (forall n | n in t :: Usable(ram, Region(t[n], 1)))
    && (forall n, m | n in t && m in t && t[n] == t[m] :: n == m)
    && (forall n | n in t :: Parented(t, n))
    && (forall n, i | n in t && !n.Pt? && 0 <= i < 512 :: SlotOk(ram, t, n, i))
  }

  /** The flat view: the leaf entry of page `p` in directory `d`, 0 when no table holds it. */
  ghost function Flat(ram: seq<u64>, t: Tables, d: nat, p: Page): nat {
    if PtNode(d, p) in t then Entry(ram, t[PtNode(d, p)], p.i1) else 0
  }

  // What the hardware walk and `va_to_pa` read in memory.

  /** `get_next_level` without allocation: 0 stands for the null pointer. */
  function NextLevel(ram: seq<u64>, table: nat, i: nat): nat {
    if Present(Entry(ram, table, i)) then FrameOf(Entry(ram, table, i)) else 0
  }

  function WalkPt(ram: seq<u64>, root: nat, p: Page): nat {
    var pdpt := NextLevel(ram, root, p.i4);
    if pdpt == 0 then 0
    else
      var pd := NextLevel(ram, pdpt, p.i3);
      if pd == 0 then 0 else NextLevel(ram, pd, p.i2)
  }

  ghost predicate InRange(p: Page) {
    p.i4 < 512 && p.i3 < 512 && p.i2 < 512 && p.i1 < 512
  }

  lemma NextLevelIs(ram: seq<u64>, t: Tables, n: Node, i: nat)
    requires TablesOk(ram, t) && n in t && !n.Pt? && i < 512
    ensures NextLevel(ram, t[n], i) == if Child(n, i) in t then t[Child(n, i)] else 0
    ensures Child(n, i) in t ==> t[Child(n, i)] != 0
  {
    assert SlotOk(ram, t, n, i);
  }

  /** Walking memory from a root reads the flat view. */
  lemma WalkReadsFlat(ram: seq<u64>, t: Tables, d: nat, p: Page)
    requires TablesOk(ram, t) && Root(d) in t && InRange(p)
    ensures WalkPt(ram, t[Root(d)], p) == if PtNode(d, p) in t then t[PtNode(d, p)] else 0
    ensures Flat(ram, t, d, p) == if WalkPt(ram, t[Root(d)], p) == 0 then 0 else Entry(ram, WalkPt(ram, t[Root(d)], p), p.i1)
  {
    var n3 := Child(Root(d), p.i4);
    var n2 := Child(n3, p.i3);
    var n1 := Child(n2, p.i2);
    NextLevelIs(ram, t, Root(d), p.i4);
    if n3 in t {
      NextLevelIs(ram, t, n3, p.i3);
      if n2 in t {
        NextLevelIs(ram, t, n2, p.i2);
      }
    }
    assert n1 in t ==> Parented(t, n1);
    assert n2 in t ==> Parented(t, n2);
  }

  /** Two directory/page pairs share their leaf slot exactly when they name the same page of the same
      directory, or the same page of the kernel half. */
  predicate SamePage(d: nat, p: Page, e: nat, q: Page) {
    p == q && (d == e || p.i4 >= 256)
  }

  lemma SameSlot(d: nat, p: Page, e: nat, q: Page)
    ensures PtNode(d, p) == PtNode(e, q) && p.i1 == q.i1 <==> SamePage(d, p, e, q)
  {
  }

  /** Every directory resolves a kernel-half page to the same leaf slot. */
  lemma KernelHalfCoherent(ram: seq<u64>, t: Tables, d: nat, e: nat, p: Page)
    requires TablesOk(ram, t) && Root(d) in t && Root(e) in t && InRange(p) && p.i4 >= 256
    ensures WalkPt(ram, t[Root(d)], p) == WalkPt(ram, t[Root(e)], p)
  {
    WalkReadsFlat(ram, t, d, p);
    WalkReadsFlat(ram, t, e, p);
  }

  // The two kinds of store.

  /** Of all table words only entry `i` of table `n` differs, and holds `e`. */
  ghost predicate OnlySlot(ram: seq<u64>, ram': seq<u64>, t: Tables, n: Node, i: nat, e: nat) {
    |ram'| == |ram| && forall m, j | m in t && 0 <= j < 512 ::
      Entry(ram', t[m], j) == if m == n && j == i then e else Entry(ram, t[m], j)
  }

  ghost predicate SameFlat(ram: seq<u64>, t: Tables, ram': seq<u64>, t': Tables) {
    forall d, p | InRange(p) :: Flat(ram', t', d, p) == Flat(ram, t, d, p)
  }

  /** Hanging a zeroed frame under an absent entry. */
  ghost predicate Linkable(ram: seq<u64>, ram': seq<u64>, t: Tables, n: Node, i: nat, f: nat, e: nat) {
    && n in t && !n.Pt? && i < 512 && Child(n, i) !in t
    && (n.Root? && i >= 256 ==> forall m | m in t && m.Root? :: m == n)
    && Usable(ram, Region(f, 1)) && (forall m | m in t :: t[m] != f)
    && Present(e) && FrameOf(e) == f
    && OnlySlot(ram, ram', t, n, i, e) && forall j | 0 <= j < 512 :: Entry(ram', f, j) == 0
  }

  lemma LinkKeepsTables(ram: seq<u64>, ram': seq<u64>, t: Tables, n: Node, i: nat, f: nat, e: nat)
    requires TablesOk(ram, t) && Linkable(ram, ram', t, n, i, f, e)
    ensures TablesOk(ram', t[Child(n, i) := f])
  {
    var c := Child(n, i);
    var t' := t[c := f];
    assert Parented(t, n);
    forall m | m in t' ensures Usable(ram', Region(t'[m], 1)) && Parented(t', m) {
      assert m in t ==> Usable(ram, Region(t[m], 1)) && Parented(t, m);
    }
    forall m, j | m in t' && !m.Pt? && 0 <= j < 512
      ensures SlotOk(ram', t', m, j)
    {
      if m == c {
        assert Child(c, j) in t ==> Parented(t, Child(c, j));
        AbsentZero();
      } else {
        assert SlotOk(ram, t, m, j);
      }
    }
  }

  lemma AbsentZero()
    ensures !Present(0)
  {
  }

  lemma LinkKeepsFlat(ram: seq<u64>, ram': seq<u64>, t: Tables, n: Node, i: nat, f: nat, e: nat)
    requires TablesOk(ram, t) && Linkable(ram, ram', t, n, i, f, e)
    ensures SameFlat(ram, t, ram', t[Child(n, i) := f])
  {
    var t' := t[Child(n, i) := f];
    forall d, p | InRange(p)
      ensures Flat(ram', t', d, p) == Flat(ram, t, d, p)
    {
      var k := PtNode(d, p);
      if k in t {
        assert Entry(ram', t[k], p.i1) == Entry(ram, t[k], p.i1);
      }
    }
  }

  /** Storing into a slot of a last-level table. */
  lemma LeafKeepsTables(ram: seq<u64>, ram': seq<u64>, t: Tables, n: Node, i: nat, e: nat)
    requires TablesOk(ram, t) && n in t && n.Pt? && OnlySlot(ram, ram', t, n, i, e)
    ensures TablesOk(ram', t)
  {
    forall m, j | m in t && !m.Pt? && 0 <= j < 512
      ensures SlotOk(ram', t, m, j)
    {
      assert SlotOk(ram, t, m, j);
      assert Entry(ram', t[m], j) == Entry(ram, t[m], j);
    }
    forall m | m in t ensures Usable(ram', Region(t[m], 1)) {
      assert Usable(ram, Region(t[m], 1));
    }
  }

  lemma LeafUpdatesFlat(ram: seq<u64>, ram': seq<u64>, t: Tables, d: nat, p: Page, e: nat, d': nat, q: Page)
    requires TablesOk(ram, t) && PtNode(d, p) in t && InRange(p) && InRange(q)
    requires OnlySlot(ram, ram', t, PtNode(d, p), p.i1, e)
    ensures Flat(ram', t, d', q) == if SamePage(d, p, d', q) then e else Flat(ram, t, d', q)
  {
    SameSlot(d, p, d', q);
    var k := PtNode(d', q);
    if k in t {
      assert Entry(ram', t[k], q.i1) == if k == PtNode(d, p) && q.i1 == p.i1 then e else Entry(ram, t[k], q.i1);
    }
  }

  // Entry words.

  lemma FrameIsMasked(e: nat)
    ensures FrameOf(e) == e / 0x1000 % 0x10_0000_0000 * 0x1000
  {
    AndFrame(e);
  }

  lemma PresentIsOdd(e: nat)
    ensures Present(e) <==> e % 2 == 1
  {
    AndOnes(e, 1);
    assert Pow2(1) == 2;
  }

  lemma OrFields(x: nat, y: nat)
    ensures FrameOf(Or(x, y)) == Or(FrameOf(x), FrameOf(y))
    ensures Present(Or(x, y)) <==> Present(x) || Present(y)
  {
    AndOr(x, y, PADDR_MASK);
    AndOr(x, y, PRESENT);
  }

  lemma OrFits(x: u64, y: u64)
    ensures Or(x, y) < 0x1_0000_0000_0000_0000
  {
    Powers();
    OrBound(x, y, 64);
  }

  /** A frame address with flag bits that avoid the address field. */
  lemma EntryFields(f: nat, flags: u64)
    requires f % 4096 == 0 && f < 0x1_0000_0000_0000 && FrameOf(flags) == 0
    ensures Or(f, flags) < 0x1_0000_0000_0000_0000
    ensures FrameOf(Or(f, flags)) == f && (Present(Or(f, flags)) <==> Present(flags))
  {
    hide And;
    FrameIsMasked(f);
    PresentIsOdd(f);
    OrFields(f, flags);
    OrFits(f, flags);
  }

  lemma Bits4(x: nat)
    ensures And(x, PRESENT) == x % 2 && And(x, WRITEABLE) == x / 2 % 2 * 2 && And(x, USER) == x / 4 % 2 * 4
    ensures And(x, NX) == x / 0x8000_0000_0000_0000 % 2 * 0x8000_0000_0000_0000
  {
    Powers();
    assert Pow2(1) == 2 && Pow2(2) == 4 && Pow2(64) == 2 * Pow2(63) && Pow2(0) == 1;
    hide And, Pow2;
    AndRun(x, 0, 1);
    AndRun(x, 1, 1);
    AndRun(x, 2, 1);
    AndRun(x, 63, 1);
  }

  lemma OrBit(x: nat, y: nat, m: nat)
    ensures And(Or(x, y), m) != 0 <==> And(x, m) != 0 || And(y, m) != 0
  {
    AndOr(x, y, m);
  }

  lemma OrBits(x: nat, y: nat)
    ensures Present(Or(x, y)) <==> Present(x) || Present(y)
    ensures And(Or(x, y), USER) != 0 <==> And(x, USER) != 0 || And(y, USER) != 0
    ensures And(Or(x, y), WRITEABLE) != 0 <==> And(x, WRITEABLE) != 0 || And(y, WRITEABLE) != 0
    ensures And(Or(x, y), NX) != 0 <==> And(x, NX) != 0 || And(y, NX) != 0
  {
    hide And, Or;
    OrBit(x, y, PRESENT);
    OrBit(x, y, USER);
    OrBit(x, y, WRITEABLE);
    OrBit(x, y, NX);
  }

  /** `new_pa | PRESENT | WRITEABLE`, with `| USER` when the flags ask for it. */
  function TableEntry(f: nat, flags: nat): nat {
    if And(flags, USER) != 0 then Or(Or(Or(f, PRESENT), WRITEABLE), USER) else Or(Or(f, PRESENT), WRITEABLE)
  }

  lemma TableEntryFields(f: nat, flags: nat)
    requires f % 4096 == 0 && f < 0x1_0000_0000_0000
    ensures TableEntry(f, flags) < 0x1_0000_0000_0000_0000
    ensures Present(TableEntry(f, flags)) && FrameOf(TableEntry(f, flags)) == f
  {
    hide And, Or;
    FrameIsMasked(1);
    FrameIsMasked(2);
    FrameIsMasked(4);
    PresentIsOdd(1);
    EntryFields(f, PRESENT);
    OrFields(Or(f, PRESENT), WRITEABLE);
    OrFits(Or(f, PRESENT), WRITEABLE);
    OrFields(Or(Or(f, PRESENT), WRITEABLE), USER);
    OrFits(Or(Or(f, PRESENT), WRITEABLE), USER);
  }

  // Taking a frame for a new table.

  lemma FrameHasNoFlags(f: nat)
    requires f % 4096 == 0 && f < 0x1_0000_0000_0000
    ensures And(f, WRITEABLE) == 0 && And(f, USER) == 0 && And(f, NX) == 0
  {
    Bits4(f);
    hide And;
  }

  lemma FlagsAreApart()
    ensures And(PRESENT, USER) == 0 && And(PRESENT, NX) == 0 && And(WRITEABLE, WRITEABLE) != 0
    ensures And(WRITEABLE, USER) == 0 && And(WRITEABLE, NX) == 0 && And(USER, USER) != 0 && And(USER, NX) == 0
  {
    Bits4(PRESENT);
    Bits4(WRITEABLE);
    Bits4(USER);
    hide And;
  }

  /** A table may always be written through, and is open to user mode exactly when the mapping asked for it. */
  lemma TableEntryPermits(f: nat, flags: nat)
    requires f % 4096 == 0 && f < 0x1_0000_0000_0000
    ensures var e := TableEntry(f, flags);
      And(e, WRITEABLE) != 0 && (And(e, USER) != 0 <==> And(flags, USER) != 0) && And(e, NX) == 0
  {
    FrameHasNoFlags(f);
    FlagsAreApart();
    hide And, Or;
    OrBits(f, PRESENT);
    OrBits(Or(f, PRESENT), WRITEABLE);
    OrBits(Or(Or(f, PRESENT), WRITEABLE), USER);
  }

  /** `memset` of `n` words. */
  function Zeroed(ram: seq<u64>, w: nat, n: nat): (ram': seq<u64>)
    ensures |ram'| == |ram|
    ensures forall k | 0 <= k < |ram| :: ram'[k] == if w <= k < w + n then 0 else ram[k]
  {
    seq(|ram|, k requires 0 <= k < |ram| => if w <= k < w + n then 0 else ram[k])
  }

  ghost predicate VmInv(s: State, t: Tables) {
    Inv(s) && TablesOk(s.ram, t) && forall n | n in t :: Region(t[n], 1) in s.out
  }

  predicate IsTable(t: Tables, r: Region) {
    r.pages == 1 && r.pa in t.Values
  }

  /** Outstanding regions that hold no table keep their contents. */
  ghost predicate DataKept(s: State, t: Tables, s': State) {
    s.out <= s'.out && forall r | r in s.out && !IsTable(t, r) :: SameIn(s.ram, s'.ram, r)
  }

  /** Memory after a frame has been zeroed and hung under word `w`. */
  function LinkRam(ram: seq<u64>, f: nat, w: nat, e: nat): seq<u64> {
    Store(Zeroed(ram, f / 8, 512), w, e)
  }

  lemma LinkRamWrites(ram0: seq<u64>, ram: seq<u64>, t: Tables, n: Node, i: nat, f: nat, e: nat)
    requires |ram| == |ram0| && n in t && i < 512 && e < 0x1_0000_0000_0000_0000
    requires forall m | m in t ::
      Usable(ram0, Region(t[m], 1)) && SameIn(ram0, ram, Region(t[m], 1)) && Apart(Region(t[m], 1), Region(f, 1))
    requires forall m | m in t && m != n :: Apart(Region(t[m], 1), Region(t[n], 1))
    requires Usable(ram0, Region(f, 1))
    ensures var ram' := LinkRam(ram, f, t[n] / 8 + i, e);
      OnlySlot(ram0, ram', t, n, i, e) && forall j | 0 <= j < 512 :: Entry(ram', f, j) == 0
  {
    var ram' := LinkRam(ram, f, t[n] / 8 + i, e);
    assert Usable(ram0, Region(t[n], 1)) && Apart(Region(t[n], 1), Region(f, 1));
    forall m, j | m in t && 0 <= j < 512
      ensures Entry(ram', t[m], j) == if m == n && j == i then e else Entry(ram0, t[m], j)
    {
      assert Usable(ram0, Region(t[m], 1)) && Apart(Region(t[m], 1), Region(f, 1));
      assert HasWord(Region(t[m], 1), t[m] / 8 + j);
      if m != n {
        assert Apart(Region(t[m], 1), Region(t[n], 1));
      }
    }
  }

  /** The state after `get_next_level` has allocated a table for entry `i` of table `n`. */
  function LinkState(s: State, table: nat, i: nat, e: nat): State {
    var s' := AllocState(s, 1);
    s'.(ram := LinkRam(s'.ram, AllocResult(s, 1), table / 8 + i, e))
  }

  lemma TablesAreApart(s: State, t: Tables, n: Node, m: Node)
    requires VmInv(s, t) && n in t && m in t && n != m
    ensures Apart(Region(t[n], 1), Region(t[m], 1))
  {
    assert t[n] != t[m];
  }

  lemma LinkIsLinkable(s: State, t: Tables, n: Node, i: nat, e: nat)
    requires VmInv(s, t) && n in t && !n.Pt? && i < 512 && Child(n, i) !in t && AllocResult(s, 1) != 0
    requires n.Root? && i >= 256 ==> forall m | m in t && m.Root? :: m == n
    requires e < 0x1_0000_0000_0000_0000 && Present(e) && FrameOf(e) == AllocResult(s, 1)
    ensures Linkable(s.ram, LinkState(s, t[n], i, e).ram, t, n, i, AllocResult(s, 1), e)
  {
    var f := AllocResult(s, 1);
    AllocGivesFreshPages(s, 1);
    forall m | m in t
      ensures Usable(s.ram, Region(t[m], 1)) && SameIn(s.ram, AllocState(s, 1).ram, Region(t[m], 1))
      ensures Apart(Region(t[m], 1), Region(f, 1)) && t[m] != f
      ensures m != n ==> Apart(Region(t[m], 1), Region(t[n], 1))
    {
      assert Region(t[m], 1) in s.out;
      AllocKeepsOthers(s, 1, Region(t[m], 1));
      if m != n {
        TablesAreApart(s, t, m, n);
      }
    }
    hide Inv, TablesOk, AllocState, Entry;
    LinkRamWrites(s.ram, AllocState(s, 1).ram, t, n, i, f, e);
  }

  lemma LinkRamElsewhere(ram: seq<u64>, f: nat, q: Region, w: nat, e: nat, r: Region)
    requires f % 4096 == 0 && q.pa % 4096 == 0 && r.pa % 4096 == 0 && HasWord(q, w)
    requires Apart(r, Region(f, 1)) && Apart(r, q)
    ensures SameIn(ram, LinkRam(ram, f, w, e), r)
  {
    forall k | 0 <= k < |ram| && HasWord(r, k) ensures !HasWord(q, k) && !HasWord(Region(f, 1), k) {
      ApartWords(r, q, k);
      ApartWords(r, Region(f, 1), k);
    }
  }

  lemma LinkIsClientWrite(s: State, f: nat, q: Region, w: nat, e: nat)
    requires Region(f, 1) in s.out && q in s.out && HasWord(q, w)
    ensures ClientWrite(s, LinkRam(s.ram, f, w, e))
  {
    var ram := LinkRam(s.ram, f, w, e);
    forall k | 0 <= k < |ram| && ram[k] != s.ram[k]
      ensures exists r | r in s.out :: HasWord(r, k)
    {
      assert HasWord(Region(f, 1), k) || HasWord(q, k);
    }
  }

  lemma TableIsOut(s: State, t: Tables, n: Node)
    requires VmInv(s, t) && n in t
    ensures Inv(s) && Region(t[n], 1) in s.out && Usable(s.ram, Region(t[n], 1)) && t[n] in t.Values
  {
  }

  lemma LinkKeepsInv(s: State, t: Tables, n: Node, i: nat, e: nat)
    requires VmInv(s, t) && n in t && i < 512 && AllocResult(s, 1) != 0
    ensures Inv(LinkState(s, t[n], i, e))
  {
    hide VmInv, Inv, AllocState, AllocResult, LinkRam, ClientWrite;
    var f, s' := AllocResult(s, 1), AllocState(s, 1);
    TableIsOut(s, t, n);
    AllocGivesFreshPages(s, 1);
    AllocKeepsInv(s, 1);
    LinkIsClientWrite(s', f, Region(t[n], 1), t[n] / 8 + i, e);
    ClientWriteKeepsInv(s', LinkRam(s'.ram, f, t[n] / 8 + i, e));
  }

  lemma LinkKeepsData(s: State, t: Tables, n: Node, i: nat, e: nat)
    requires VmInv(s, t) && n in t && i < 512 && AllocResult(s, 1) != 0
    ensures DataKept(s, t, LinkState(s, t[n], i, e))
    ensures LinkState(s, t[n], i, e).out == s.out + {Region(AllocResult(s, 1), 1)}
  {
    var f, s' := AllocResult(s, 1), AllocState(s, 1);
    AllocGivesFreshPages(s, 1);
    forall r | r in s.out && !IsTable(t, r)
      ensures SameIn(s.ram, LinkState(s, t[n], i, e).ram, r)
    {
      AllocKeepsOthers(s, 1, r);
      assert t[n] in t.Values;
      assert Usable(s.ram, r) && Usable(s.ram, Region(t[n], 1)) && Apart(r, Region(t[n], 1)) && Apart(r, Region(f, 1));
      hide Inv, TablesOk, AllocState, AllocResult, LinkRam;
      LinkRamElsewhere(s'.ram, f, Region(t[n], 1), t[n] / 8 + i, e, r);
      assert SameIn(s.ram, s'.ram, r);
    }
  }

  /** Allocating a table keeps the trees, every leaf entry and all data. */
  lemma LinkKeepsVm(s: State, t: Tables, n: Node, i: nat, e: nat)
    requires VmInv(s, t) && n in t && !n.Pt? && i < 512 && Child(n, i) !in t && AllocResult(s, 1) != 0
    requires n.Root? && i >= 256 ==> forall m | m in t && m.Root? :: m == n
    requires e < 0x1_0000_0000_0000_0000 && Present(e) && FrameOf(e) == AllocResult(s, 1)
    ensures var s', t' := LinkState(s, t[n], i, e), t[Child(n, i) := AllocResult(s, 1)];
      VmInv(s', t') && SameFlat(s.ram, t, s'.ram, t') && DataKept(s, t, s')
  {
    var f, s' := AllocResult(s, 1), LinkState(s, t[n], i, e);
    LinkIsLinkable(s, t, n, i, e);
    LinkKeepsInv(s, t, n, i, e);
    LinkKeepsData(s, t, n, i, e);
    hide Inv, TablesOk, LinkState, AllocResult, SameFlat, DataKept, Linkable;
    LinkKeepsTables(s.ram, s'.ram, t, n, i, f, e);
    LinkKeepsFlat(s.ram, s'.ram, t, n, i, f, e);
  }

  lemma StoreInTable(s: State, t: Tables, n: Node, i: nat, e: nat)
    requires VmInv(s, t) && n in t && i < 512 && e < 0x1_0000_0000_0000_0000
    ensures OnlySlot(s.ram, Store(s.ram, t[n] / 8 + i, e), t, n, i, e)
  {
    var ram := Store(s.ram, t[n] / 8 + i, e);
    assert Usable(s.ram, Region(t[n], 1));
    forall m, j | m in t && 0 <= j < 512
      ensures Entry(ram, t[m], j) == if m == n && j == i then e else Entry(s.ram, t[m], j)
    {
      assert Usable(s.ram, Region(t[m], 1));
      if m != n {
        TablesAreApart(s, t, m, n);
      }
    }
  }

  lemma StoreKeepsData(s: State, t: Tables, n: Node, i: nat, e: nat)
    requires VmInv(s, t) && n in t && i < 512
    ensures var s' := s.(ram := Store(s.ram, t[n] / 8 + i, e)); Inv(s') && DataKept(s, t, s')
  {
    var w, q := t[n] / 8 + i, Region(t[n], 1);
    var ram := Store(s.ram, w, e);
    assert q in s.out && Usable(s.ram, q) && HasWord(q, w) && t[n] in t.Values;
    forall r | r in s.out && r != q ensures SameIn(s.ram, ram, r) {
      assert Usable(s.ram, r) && Apart(r, q);
      StoreElsewhere(s.ram, q, w, e, r);
    }
    hide Inv;
    ClientWriteKeepsInv(s, ram);
  }

  /** Storing a leaf entry keeps the trees and all data. */
  lemma LeafKeepsVm(s: State, t: Tables, n: Node, i: nat, e: nat)
    requires VmInv(s, t) && n in t && n.Pt? && i < 512 && e < 0x1_0000_0000_0000_0000
    ensures var s' := s.(ram := Store(s.ram, t[n] / 8 + i, e));
      VmInv(s', t) && DataKept(s, t, s') && OnlySlot(s.ram, s'.ram, t, n, i, e)
  {
    StoreInTable(s, t, n, i, e);
    StoreKeepsData(s, t, n, i, e);
    hide Inv, Store, DataKept;
    LeafKeepsTables(s.ram, Store(s.ram, t[n] / 8 + i, e), t, n, i, e);
  }

  /** More tables in frames that were free; every other outstanding page as it was. */
  ghost predicate Grows(s: State, t: Tables, s': State, t': Tables) {
    && t.Keys <= t'.Keys && (forall n | n in t :: t'[n] == t[n])
    && (forall n | n in t' && n !in t :: Region(t'[n], 1) !in s.out)
    && DataKept(s, t, s')
  }

  lemma GrowsTwice(s: State, t: Tables, s1: State, t1: Tables, s2: State, t2: Tables)
    requires Grows(s, t, s1, t1) && Grows(s1, t1, s2, t2)
    ensures Grows(s, t, s2, t2)
  {
    forall r | r in s.out && !IsTable(t, r)
      ensures SameIn(s.ram, s2.ram, r)
    {
      assert r in s1.out && SameIn(s.ram, s1.ram, r);
      forall n | n in t1 ensures Region(t1[n], 1) != r {
        assert n in t ==> t[n] in t.Values;
      }
      assert SameIn(s1.ram, s2.ram, r);
    }
  }

  lemma SameFlatTwice(ram: seq<u64>, t: Tables, ram1: seq<u64>, t1: Tables, ram2: seq<u64>, t2: Tables)
    requires SameFlat(ram, t, ram1, t1) && SameFlat(ram1, t1, ram2, t2)
    ensures SameFlat(ram, t, ram2, t2)
  {
    forall d, p | InRange(p) ensures Flat(ram2, t2, d, p) == Flat(ram, t, d, p) {
      assert Flat(ram1, t1, d, p) == Flat(ram, t, d, p);
    }
  }

  /** The kernel half has its second-level tables. */
  ghost predicate Preallocated(t: Tables) {
    forall i | 256 <= i < 512 :: Pdpt(KERNEL, i) in t
  }

  /** The four indices as the code cuts them out of an address. */
  function IndicesOf(va: nat): (p: Page)
    ensures p == PageOf(va) && InRange(p)
  {
    AndIndex(va);
    Page(And(va, 0x1ff * 0x80_0000_0000) / 0x80_0000_0000, And(va, 0x1ff * 0x4000_0000) / 0x4000_0000,
         And(va, 0x1ff * 0x20_0000) / 0x20_0000, And(va, 0x1ff * 0x1000) / 0x1000)
  }

  /** The address a leaf entry gives for `va`. */
  function Translate(e: nat, va: nat): nat {
    Or(And(e, PADDR_MASK), And(va, OFFMASK))
  }

  class PageTables {
    const pmm: PageAllocator
    ghost var tables: Tables

    ghost predicate Valid()
      reads this, pmm
    {
      VmInv(pmm.S(), tables)
    }

    constructor (pmm: PageAllocator)
      requires pmm.Valid()
      ensures this.pmm == pmm && tables == map[] && Valid()
    {
      this.pmm := pmm;
      tables := map[];
    }

    /** The table below entry `index` of the table at `table`, allocated on demand. 0 is the null pointer;
        `ok` is false when the allocator is exhausted and the kernel halts. */
    method GetNextLevel(table: u64, index: nat, flags: u64, allocate: bool, ghost n: Node) returns (next: u64, ok: bool)
      requires Valid() && n in tables && tables[n] == table && !n.Pt? && index < 512
      requires allocate && n.Root? && index >= 256 ==> Child(n, index) in tables
      modifies this, pmm
      ensures Valid() && SameFlat(old(pmm.ram), old(tables), pmm.ram, tables)
      ensures Grows(old(pmm.S()), old(tables), pmm.S(), tables)
      ensures Child(n, index) in old(tables) || !allocate || !ok ==> pmm.S() == old(pmm.S()) && tables == old(tables)
      ensures ok && (allocate || Child(n, index) in tables) ==> Child(n, index) in tables && next == tables[Child(n, index)]
      ensures !allocate && Child(n, index) !in tables ==> ok && next == 0
      ensures allocate && !ok ==> AllocResult(pmm.S(), 1) == 0
      ensures allocate && ok && Child(n, index) !in old(tables) ==>
        OnlySlot(old(pmm.ram), pmm.ram, old(tables), n, index, TableEntry(next, flags))
    {
      hide VmInv, Inv, TablesOk, SameFlat, Grows, OnlySlot;
      GrowsSelf(pmm.S(), tables);
      SlotIs(pmm.S(), tables, n, index);
      var e := pmm.ram[table / 8 + index];
      if And(e, PRESENT) != 0 {
        return And(e, PADDR_MASK), true;
      }
      if !allocate {
        return 0, true;
      }
      next, ok := NewTable(table, index, flags, n);
    }

    /** A zeroed frame from the allocator, hung under an absent entry. */
    method NewTable(table: u64, index: nat, flags: u64, ghost n: Node) returns (pa: u64, ok: bool)
      requires Valid() && n in tables && tables[n] == table && !n.Pt? && index < 512 && Child(n, index) !in tables
      requires n.Root? && index >= 256 ==> forall m | m in tables && m.Root? :: m == n
      modifies this, pmm
      ensures Valid() && SameFlat(old(pmm.ram), old(tables), pmm.ram, tables)
      ensures Grows(old(pmm.S()), old(tables), pmm.S(), tables)
      ensures !ok ==> pmm.S() == old(pmm.S()) && tables == old(tables) && AllocResult(pmm.S(), 1) == 0
      ensures ok ==> tables == old(tables)[Child(n, index) := pa]
      ensures ok ==> OnlySlot(old(pmm.ram), pmm.ram, old(tables), n, index, TableEntry(pa, flags))
    {
      hide VmInv, Inv, TablesOk, SameFlat, Grows, OnlySlot;
      GrowsSelf(pmm.S(), tables);
      SlotIs(pmm.S(), tables, n, index);
      ghost var s := pmm.S();
      pa := pmm.Alloc(1);
      if pa == 0 {
        AllocFails(s, 1);
        return 0, false;
      }
      FreshTable(s, tables, n, index, flags);
      pmm.ram := Zeroed(pmm.ram, pa / 8, 512);
      pmm.ram := pmm.ram[table / 8 + index := TableEntry(pa, flags)];
      tables := tables[Child(n, index) := pa];
      ok := true;
    }

    /** The three `get_next_level` steps of `map`: the last-level table for page `p`. */
    method WalkDown(root: u64, p: Page, flags: u64, ghost d: nat) returns (pt: u64, ok: bool)
      requires Valid() && Preallocated(tables) && Root(d) in tables && tables[Root(d)] == root && InRange(p)
      modifies this, pmm
      ensures Valid() && SameFlat(old(pmm.ram), old(tables), pmm.ram, tables)
      ensures Grows(old(pmm.S()), old(tables), pmm.S(), tables)
      ensures ok ==> PtNode(d, p) in tables && tables[PtNode(d, p)] == pt
      ensures !ok ==> AllocResult(pmm.S(), 1) == 0
    {
      assert p.i4 >= 256 ==> Pdpt(KERNEL, p.i4) in tables;
      hide VmInv, SameFlat, Grows, Preallocated;
      ghost var s, t := pmm.S(), tables;
      var pdpt, pd;
      pdpt, ok := GetNextLevel(root, p.i4, flags, true, Root(d));
      if !ok {
        return 0, false;
      }
      ghost var s1, t1 := pmm.S(), tables;
      pd, ok := GetNextLevel(pdpt, p.i3, flags, true, Child(Root(d), p.i4));
      GrowsTwice(s, t, s1, t1, pmm.S(), tables);
      SameFlatTwice(s.ram, t, s1.ram, t1, pmm.ram, tables);
      if !ok {
        return 0, false;
      }
      ghost var s2, t2 := pmm.S(), tables;
      pt, ok := GetNextLevel(pd, p.i2, flags, true, Child(Child(Root(d), p.i4), p.i3));
      GrowsTwice(s, t, s2, t2, pmm.S(), tables);
      SameFlatTwice(s.ram, t, s2.ram, t2, pmm.ram, tables);
    }

    /** One pass of the loop of `map`. */
    method MapPage(root: u64, curPa: u64, curVa: u64, flags: u64, ghost d: nat) returns (ok: bool)
      requires Valid() && Preallocated(tables) && Root(d) in tables && tables[Root(d)] == root
      modifies this, pmm
      ensures Valid() && Grows(old(pmm.S()), old(tables), pmm.S(), tables)
      ensures ok ==> PtNode(d, PageOf(curVa)) in tables
      ensures ok ==> FlatUpdated(old(pmm.ram), old(tables), pmm.ram, tables, d, PageOf(curVa), Or(curPa, flags))
      ensures !ok ==> AllocResult(pmm.S(), 1) == 0
    {
      hide VmInv, SameFlat, Grows, Preallocated, FlatUpdated, And, Or, AllocResult;
      var p := IndicesOf(curVa);
      ghost var s, t := pmm.S(), tables;
      var pt;
      pt, ok := WalkDown(root, p, flags, d);
      if !ok {
        return;
      }
      OrFits(curPa, flags);
      TableIsOut(pmm.S(), tables, PtNode(d, p));
      LeafStored(s, t, pmm.S(), tables, d, p, Or(curPa, flags));
      pmm.ram := pmm.ram[pt / 8 + p.i1 := Or(curPa, flags)];
    }

    /** `map`: frames from `pa` on for the pages from `va` on. */
    method Map(root: u64, pa: u64, va: u64, length: u64, flags: u64, ghost d: nat) returns (ok: bool)
      requires Valid() && Preallocated(tables) && Root(d) in tables && tables[Root(d)] == root
      requires pa + length <= 0x1_0000_0000_0000_0000
      modifies this, pmm
      ensures Valid() && Grows(old(pmm.S()), old(tables), pmm.S(), tables)
      ensures ok ==> FlatMapped(old(pmm.ram), old(tables), pmm.ram, tables, d, pa, va, flags, PageCount(length))
      ensures ok ==> forall k | 0 <= k < PageCount(length) :: PtNode(d, PageOf(va + 4096 * k)) in tables
      ensures !ok ==> AllocResult(pmm.S(), 1) == 0
    {
      hide VmInv, Grows, FlatMapped, FlatUpdated, Preallocated, PageOf, AllocResult;
      ghost var s, t := pmm.S(), tables;
      var off := 0;
      ghost var k := 0;
      GrowsSelf(s, t);
      NoneMapped(s.ram, t, d, pa, va, flags);
      while off < length
        invariant off == 4096 * k && k <= PageCount(length)
        invariant Valid() && Preallocated(tables) && Root(d) in tables && tables[Root(d)] == root
        invariant Grows(s, t, pmm.S(), tables)
        invariant FlatMapped(s.ram, t, pmm.ram, tables, d, pa, va, flags, k)
        invariant forall j | 0 <= j < k :: PtNode(d, PageOf(va + 4096 * j)) in tables
        decreases length - off
      {
        ghost var s1, t1 := pmm.S(), tables;
        var curVa := AlignDown((va + off) % 0x1_0000_0000_0000_0000);
        var curPa := AlignDown(pa + off);
        PageOfCur(va + off);
        AndPageMask(pa + off);
        ok := MapPage(root, curPa, curVa, flags, d);
        GrowsTwice(s, t, s1, t1, pmm.S(), tables);
        if !ok {
          return;
        }
        GrownTables(s1, t1, pmm.S(), tables);
        OneMoreMapped(s.ram, t, s1.ram, t1, pmm.ram, tables, d, pa, va, flags, k);
        off, k := off + 0x1000, k + 1;
      }
      ok := true;
    }

    /** `unmap`: the entries of the pages from `va` on become 0. The tables on the way must exist. */
    method Unmap(root: u64, va: u64, length: u64, ghost d: nat)
      requires Valid() && Root(d) in tables && tables[Root(d)] == root
      requires forall k | 0 <= k < PageCount(length) :: PtNode(d, PageOf(va + 4096 * k)) in tables
      modifies pmm
      ensures Valid() && DataKept(old(pmm.S()), tables, pmm.S())
      ensures FlatUnmapped(old(pmm.ram), pmm.ram, tables, d, va, PageCount(length))
    {
      hide VmInv, DataKept, FlatUnmapped, FlatUpdated, PageOf, AlignDown;
      ghost var s := pmm.S();
      var i := 0;
      ghost var k := 0;
      DataKeptSelf(s, tables);
      NoneUnmapped(s.ram, tables, d, va);
      while i < length
        invariant i == 4096 * k && k <= PageCount(length)
        invariant Valid() && DataKept(s, tables, pmm.S())
        invariant FlatUnmapped(s.ram, pmm.ram, tables, d, va, k)
        decreases length - i
      {
        ghost var s1 := pmm.S();
        PageOfCur(va + i);
        UnmapPage(root, AlignDown((va + i) % 0x1_0000_0000_0000_0000), d);
        DataKeptTwice(s, s1, pmm.S(), tables);
        OneMoreUnmapped(s.ram, s1.ram, pmm.ram, tables, d, va, k);
        i, k := i + 0x1000, k + 1;
      }
    }

    /** One pass of the loop of `unmap`. */
    method UnmapPage(root: u64, curVa: nat, ghost d: nat)
      requires Valid() && Root(d) in tables && tables[Root(d)] == root && PtNode(d, PageOf(curVa)) in tables
      modifies pmm
      ensures Valid() && DataKept(old(pmm.S()), tables, pmm.S())
      ensures FlatUpdated(old(pmm.ram), tables, pmm.ram, tables, d, PageOf(curVa), 0)
    {
      var p := IndicesOf(curVa);
      hide VmInv, FlatUpdated, DataKept, Grows, SameFlat, Store;
      var pdpt := NextLevel(pmm.ram, root, p.i4);
      var pd := NextLevel(pmm.ram, pdpt, p.i3);
      var pt := NextLevel(pmm.ram, pd, p.i2);
      WalkSteps(pmm.S(), tables, d, p);
      StoreZero(pmm.S(), tables, d, p);
      pmm.ram := Store(pmm.ram, pt / 8 + p.i1, 0);
    }

    /** `va_to_pa`: the physical address behind a virtual one. The tables on the way must exist. */
    method VaToPa(root: u64, va: u64, ghost d: nat) returns (pa: nat)
      requires Valid() && Root(d) in tables && tables[Root(d)] == root && PtNode(d, PageOf(va)) in tables
      ensures pa == Translate(Flat(pmm.ram, tables, d, PageOf(va)), va)
    {
      var p := IndicesOf(va);
      hide VmInv, Translate, Store;
      var pdpt := NextLevel(pmm.ram, root, p.i4);
      var pd := NextLevel(pmm.ram, pdpt, p.i3);
      var pt := NextLevel(pmm.ram, pd, p.i2);
      WalkSteps(pmm.S(), tables, d, p);
      pa := Translate(Entry(pmm.ram, pt, p.i1), va);
    }

    /** `new_pagemap`: a zeroed frame that is no table yet. */
    method NewPagemap() returns (pa: u64, ok: bool)
      requires Valid()
      modifies pmm
      ensures Valid() && SameFlat(old(pmm.ram), tables, pmm.ram, tables) && DataKept(old(pmm.S()), tables, pmm.S())
      ensures ok ==> Blank(pmm.S(), tables, pa)
      ensures !ok ==> pmm.S() == old(pmm.S()) && AllocResult(pmm.S(), 1) == 0
    {
      hide VmInv, SameFlat, DataKept, Blank;
      ghost var s := pmm.S();
      ValidHasInv(s, tables);
      pa := pmm.Alloc(1);
      if pa == 0 {
        AllocFails(s, 1);
        GrowsSelf(s, tables);
        DataKeptSelf(s, tables);
        return 0, false;
      }
      BlankFrame(s, tables);
      pmm.ram := Zeroed(pmm.ram, pa / 8, 512);
      ok := true;
    }

    /** `fill_kernel_entries`: a second-level table for every entry of the kernel half. */
    method FillKernelEntries(root: u64) returns (ok: bool)
      requires Valid() && Root(KERNEL) in tables && tables[Root(KERNEL)] == root
      requires forall n | n in tables && n.Root? :: n == Root(KERNEL)
      requires forall i | 256 <= i < 512 :: Pdpt(KERNEL, i) !in tables
      modifies this, pmm
      ensures Valid() && SameFlat(old(pmm.ram), old(tables), pmm.ram, tables)
      ensures Grows(old(pmm.S()), old(tables), pmm.S(), tables)
      ensures if ok then Preallocated(tables) else AllocResult(pmm.S(), 1) == 0
      ensures ok ==> Filled(pmm.ram, tables, KERNEL, 256, 512, 0)
      ensures Root(KERNEL) in tables && tables[Root(KERNEL)] == root
      ensures forall n | n in tables :: n in old(tables) || n.dir == KERNEL
    {
      hide VmInv, SameFlat, Grows, OnlySlot, Filled, TableEntry;
      ghost var s, t := pmm.S(), tables;
      GrowsSelf(s, t);
      FilledNone(s.ram, t, KERNEL, 256, 0);
      for i := 256 to 512
        invariant Valid() && SameFlat(s.ram, t, pmm.ram, tables) && Grows(s, t, pmm.S(), tables)
        invariant Root(KERNEL) in tables && tables[Root(KERNEL)] == root
        invariant forall n | n in tables && n.Root? :: n == Root(KERNEL)
        invariant forall n | n in tables :: n in t || n.dir == KERNEL
        invariant forall j | 256 <= j < 512 :: Pdpt(KERNEL, j) in tables <==> j < i
        invariant Filled(pmm.ram, tables, KERNEL, 256, i, 0)
      {
        ghost var s1, t1 := pmm.S(), tables;
        var pdpt;
        pdpt, ok := NewTable(root, i, 0, Root(KERNEL));
        GrowsTwice(s, t, s1, t1, pmm.S(), tables);
        SameFlatTwice(s.ram, t, s1.ram, t1, pmm.ram, tables);
        if !ok {
          return;
        }
        FilledNext(s1.ram, t1, pmm.ram, KERNEL, 256, i, pdpt, 0);
      }
      ok := true;
    }

    /** `process_fill_user_entires`: a second-level table for every entry of the user half. */
    method ProcessFillUserEntries(root: u64, ghost d: nat) returns (ok: bool)
      requires Valid() && Root(d) in tables && tables[Root(d)] == root
      requires forall i | 0 <= i < 256 :: Pdpt(d, i) !in tables
      modifies this, pmm
      ensures Valid() && SameFlat(old(pmm.ram), old(tables), pmm.ram, tables)
      ensures Grows(old(pmm.S()), old(tables), pmm.S(), tables)
      ensures ok ==> Filled(pmm.ram, tables, d, 0, 256, USER)
      ensures !ok ==> AllocResult(pmm.S(), 1) == 0
    {
      hide VmInv, SameFlat, Grows, OnlySlot, Filled, TableEntry;
      ghost var s, t := pmm.S(), tables;
      GrowsSelf(s, t);
      FilledNone(s.ram, t, d, 0, USER);
      for i := 0 to 256
        invariant Valid() && SameFlat(s.ram, t, pmm.ram, tables) && Grows(s, t, pmm.S(), tables)
        invariant Root(d) in tables && tables[Root(d)] == root
        invariant forall j | 0 <= j < 256 :: Pdpt(d, j) in tables <==> j < i
        invariant Filled(pmm.ram, tables, d, 0, i, USER)
      {
        ghost var s1, t1 := pmm.S(), tables;
        var pdpt;
        pdpt, ok := NewTable(root, i, USER, Root(d));
        GrowsTwice(s, t, s1, t1, pmm.S(), tables);
        SameFlatTwice(s.ram, t, s1.ram, t1, pmm.ram, tables);
        if !ok {
          return;
        }
        FilledNext(s1.ram, t1, pmm.ram, d, 0, i, pdpt, USER);
      }
      ok := true;
    }

    /** The start of `init`: the kernel directory with its half filled in. */
    method InitKernelDirectory() returns (root: u64, ok: bool)
      requires Valid() && tables == map[]
      modifies this, pmm
      ensures Valid()
      ensures ok ==> Preallocated(tables) && Root(KERNEL) in tables && tables[Root(KERNEL)] == root
      ensures ok ==> Filled(pmm.ram, tables, KERNEL, 256, 512, 0) && forall n | n in tables :: n.dir == KERNEL
      ensures !ok ==> AllocResult(pmm.S(), 1) == 0
    {
      hide VmInv, SameFlat, Grows, DataKept, Blank, Preallocated, Filled;
      root, ok := NewPagemap();
      if !ok {
        return;
      }
      FirstRoot(pmm.S(), root);
      tables := map[Root(KERNEL) := root];
      ok := FillKernelEntries(root);
    }

    /** `process_fill_kernel_entries`: the kernel half of a new directory is the kernel's. */
    method ProcessFillKernelEntries(dir: u64, kernelRoot: u64, ghost d: nat)
      requires Valid() && Preallocated(tables) && Root(KERNEL) in tables && tables[Root(KERNEL)] == kernelRoot
      requires Blank(pmm.S(), tables, dir) && forall n | n in tables :: n.dir != d
      modifies this, pmm
      ensures Valid() && tables == old(tables)[Root(d) := dir]
      ensures SameFlat(old(pmm.ram), old(tables), pmm.ram, tables) && DataKept(old(pmm.S()), tables, pmm.S())
      ensures forall i | 0 <= i < 512 :: Entry(pmm.ram, dir, i) == if i < 256 then 0 else Entry(pmm.ram, kernelRoot, i)
    {
      hide VmInv, Blank, Preallocated, SameFlat, DataKept, HalfCopied, Entry;
      ghost var s := pmm.S();
      BlankIsApart(s, tables, dir, Root(KERNEL));
      CopyKernelHalf(dir, kernelRoot);
      NewRootSlots(s, tables, dir, pmm.ram);
      RootFilled(s, tables, d, dir, pmm.ram);
      tables := tables[Root(d) := dir];
    }

    method CopyKernelHalf(dir: u64, kernelRoot: u64)
      requires dir / 8 + 512 <= |pmm.ram| && kernelRoot / 8 + 512 <= |pmm.ram|
      requires dir / 8 + 512 <= kernelRoot / 8 || kernelRoot / 8 + 512 <= dir / 8
      modifies pmm
      ensures pmm.S() == old(pmm.S()).(ram := pmm.ram) && HalfCopied(old(pmm.ram), pmm.ram, dir / 8, kernelRoot / 8, 512)
    {
      ghost var s := pmm.S();
      for i := 256 to 512
        invariant pmm.S() == s.(ram := pmm.ram) && HalfCopied(s.ram, pmm.ram, dir / 8, kernelRoot / 8, i)
      {
        HalfCopiedStep(s.ram, pmm.ram, dir / 8, kernelRoot / 8, i);
        hide HalfCopied;
        pmm.ram := pmm.ram[dir / 8 + i := pmm.ram[kernelRoot / 8 + i]];
      }
    }
  }

  lemma GrowsSelf(s: State, t: Tables)
    ensures Grows(s, t, s, t) && SameFlat(s.ram, t, s.ram, t)
  {
  }

  lemma SlotIs(s: State, t: Tables, n: Node, i: nat)
    requires VmInv(s, t) && n in t && !n.Pt? && i < 512
    ensures Inv(s) && t[n] / 8 + i < |s.ram| && (And(s.ram[t[n] / 8 + i], PRESENT) != 0 <==> Child(n, i) in t)
    ensures Child(n, i) in t ==> And(s.ram[t[n] / 8 + i], PADDR_MASK) == t[Child(n, i)]
  {
    assert SlotOk(s.ram, t, n, i);
    assert Usable(s.ram, Region(t[n], 1));
  }

  lemma FreshTable(s: State, t: Tables, n: Node, i: nat, flags: u64)
    requires VmInv(s, t) && n in t && !n.Pt? && i < 512 && Child(n, i) !in t && AllocResult(s, 1) != 0
    requires n.Root? && i >= 256 ==> forall m | m in t && m.Root? :: m == n
    ensures TableEntry(AllocResult(s, 1), flags) < 0x1_0000_0000_0000_0000
    ensures var s', t' := LinkState(s, t[n], i, TableEntry(AllocResult(s, 1), flags)), t[Child(n, i) := AllocResult(s, 1)];
      && VmInv(s', t') && SameFlat(s.ram, t, s'.ram, t') && Grows(s, t, s', t')
      && OnlySlot(s.ram, s'.ram, t, n, i, TableEntry(AllocResult(s, 1), flags))
  {
    hide VmInv, Inv, TableEntry, LinkState, SameFlat, DataKept, OnlySlot;
    TableIsOut(s, t, n);
    AllocGivesFreshPages(s, 1);
    var f := AllocResult(s, 1);
    FrameBound(s, f);
    TableEntryFields(f, flags);
    LinkKeepsVm(s, t, n, i, TableEntry(f, flags));
    LinkIsLinkable(s, t, n, i, TableEntry(f, flags));
  }

  /** Entries `lo` to `hi` of directory `d` point to tables of their own, with the given flags. */
  ghost predicate Filled(ram: seq<u64>, t: Tables, d: nat, lo: nat, hi: nat, flags: nat) {
    && Root(d) in t
    && forall i | lo <= i < hi :: Pdpt(d, i) in t && Entry(ram, t[Root(d)], i) == TableEntry(t[Pdpt(d, i)], flags)
  }

  lemma FilledNone(ram: seq<u64>, t: Tables, d: nat, lo: nat, flags: nat)
    requires Root(d) in t
    ensures Filled(ram, t, d, lo, lo, flags)
  {
  }

  lemma FilledNext(ram: seq<u64>, t: Tables, ram': seq<u64>, d: nat, lo: nat, i: nat, pa: nat, flags: nat)
    requires Filled(ram, t, d, lo, i, flags) && lo <= i < 512 && Pdpt(d, i) !in t
    requires OnlySlot(ram, ram', t, Root(d), i, TableEntry(pa, flags))
    ensures Filled(ram', t[Pdpt(d, i) := pa], d, lo, i + 1, flags)
  {
    hide TableEntry;
  }

  lemma FrameBound(s: State, f: nat)
    requires Inv(s) && Usable(s.ram, Region(f, 1))
    ensures f % 4096 == 0 && f < 0x1_0000_0000_0000
  {
  }

  /** Page `p` of directory `d`, wherever it is visible, now has entry `e`; no other page changed. */
  ghost predicate FlatUpdated(ram: seq<u64>, t: Tables, ram': seq<u64>, t': Tables, d: nat, p: Page, e: nat) {
    forall d', q | InRange(q) :: Flat(ram', t', d', q) == if SamePage(d, p, d', q) then e else Flat(ram, t, d', q)
  }

  lemma LeafStored(s: State, t: Tables, s1: State, t1: Tables, d: nat, p: Page, e: nat)
    requires VmInv(s1, t1) && PtNode(d, p) in t1 && InRange(p) && e < 0x1_0000_0000_0000_0000
    requires SameFlat(s.ram, t, s1.ram, t1) && Grows(s, t, s1, t1)
    ensures var s2 := s1.(ram := Store(s1.ram, t1[PtNode(d, p)] / 8 + p.i1, e));
      VmInv(s2, t1) && Grows(s, t, s2, t1) && FlatUpdated(s.ram, t, s2.ram, t1, d, p, e)
  {
    hide Inv, VmInv, Store, Grows, SameFlat, FlatUpdated;
    var s2 := s1.(ram := Store(s1.ram, t1[PtNode(d, p)] / 8 + p.i1, e));
    LeafKeepsVm(s1, t1, PtNode(d, p), p.i1, e);
    FlatAfterStore(s.ram, t, s1, t1, d, p, e, s2.ram);
    DataKeptGrows(s1, t1, s2);
    GrowsTwice(s, t, s1, t1, s2, t1);
  }

  lemma DataKeptGrows(s: State, t: Tables, s': State)
    requires DataKept(s, t, s')
    ensures Grows(s, t, s', t)
  {
  }

  lemma FlatAfterStore(ram: seq<u64>, t: Tables, s1: State, t1: Tables, d: nat, p: Page, e: nat, ram2: seq<u64>)
    requires VmInv(s1, t1) && PtNode(d, p) in t1 && InRange(p)
    requires SameFlat(ram, t, s1.ram, t1) && OnlySlot(s1.ram, ram2, t1, PtNode(d, p), p.i1, e)
    ensures FlatUpdated(ram, t, ram2, t1, d, p, e)
  {
    hide Inv, TablesOk, OnlySlot;
    forall d', q | InRange(q)
      ensures Flat(ram2, t1, d', q) == if SamePage(d, p, d', q) then e else Flat(ram, t, d', q)
    {
      LeafUpdatesFlat(s1.ram, ram2, t1, d, p, e, d', q);
    }
  }

  // A run of pages.

  function PageCount(length: nat): nat {
    (length + 4095) / 4096
  }

  /** The entry that page `q` of directory `d'` has after `n` pages of directory `d` from `va` on were given the
      frames from `pa` on, when it was `v` before. */
  function Overlay(d: nat, pa: nat, va: nat, flags: nat, n: nat, d': nat, q: Page, v: nat): nat {
    if n == 0 then v
    else if SamePage(d, PageOf(va + 4096 * (n - 1)), d', q) then Or((pa + 4096 * (n - 1)) / 4096 * 4096, flags)
    else Overlay(d, pa, va, flags, n - 1, d', q, v)
  }

  ghost predicate FlatMapped(ram: seq<u64>, t: Tables, ram': seq<u64>, t': Tables, d: nat, pa: nat, va: nat, flags: nat, n: nat) {
    forall d', q | InRange(q) :: Flat(ram', t', d', q) == Overlay(d, pa, va, flags, n, d', q, Flat(ram, t, d', q))
  }

  lemma NoneMapped(ram: seq<u64>, t: Tables, d: nat, pa: nat, va: nat, flags: nat)
    ensures FlatMapped(ram, t, ram, t, d, pa, va, flags, 0)
  {
  }

  lemma OneMoreMapped(ram: seq<u64>, t: Tables, ram1: seq<u64>, t1: Tables, ram2: seq<u64>, t2: Tables,
                      d: nat, pa: nat, va: nat, flags: nat, n: nat)
    requires FlatMapped(ram, t, ram1, t1, d, pa, va, flags, n)
    requires FlatUpdated(ram1, t1, ram2, t2, d, PageOf(va + 4096 * n), Or((pa + 4096 * n) / 4096 * 4096, flags))
    ensures FlatMapped(ram, t, ram2, t2, d, pa, va, flags, n + 1)
  {
    hide Flat, PageOf, Or;
    forall d', q | InRange(q)
      ensures Flat(ram2, t2, d', q) == Overlay(d, pa, va, flags, n + 1, d', q, Flat(ram, t, d', q))
    {
      assert Flat(ram1, t1, d', q) == Overlay(d, pa, va, flags, n, d', q, Flat(ram, t, d', q));
    }
  }

  lemma GrownTables(s: State, t: Tables, s': State, t': Tables)
    requires Grows(s, t, s', t')
    ensures forall n | n in t :: n in t' && t'[n] == t[n]
    ensures Preallocated(t) ==> Preallocated(t')
  {
  }

  /** Neither the wrap to 64 bits nor the rounding down changes a table index. */
  lemma PageOfCur(x: nat)
    ensures PageOf(AlignDown(x % 0x1_0000_0000_0000_0000)) == PageOf(x)
  {
    var y := x % 0x1_0000_0000_0000_0000;
    AndPageMask(y);
    PageOfWrapped(x);
    PageOfBase(y);
  }

  lemma PageOfWrapped(x: nat)
    ensures PageOf(x % 0x1_0000_0000_0000_0000) == PageOf(x)
  {
    var q, y := x / 0x1_0000_0000_0000_0000, x % 0x1_0000_0000_0000_0000;
    AddMultiple(y, 0x80_0000_0000, 0x200_0000 * q);
    AddMultiple(y, 0x4000_0000, 0x4_0000_0000 * q);
    AddMultiple(y, 0x20_0000, 0x800_0000_0000 * q);
    AddMultiple(y, 0x1000, 0x10_0000_0000_0000 * q);
    AddMultiple(y / 0x80_0000_0000, 512, 0x1_0000 * q);
    AddMultiple(y / 0x4000_0000, 512, 0x200_0000 * q);
    AddMultiple(y / 0x20_0000, 512, 0x4_0000_0000 * q);
    AddMultiple(y / 0x1000, 512, 0x800_0000_0000 * q);
  }

  lemma PageOfBase(x: nat)
    ensures PageOf(x / 0x1000 * 0x1000) == PageOf(x)
  {
    var y := x / 0x1000 * 0x1000;
    assert y / 0x1000 == x / 0x1000;
    DivProduct(x, 0x1000, 0x800_0000);
    DivProduct(y, 0x1000, 0x800_0000);
    DivProduct(x, 0x1000, 0x4_0000);
    DivProduct(y, 0x1000, 0x4_0000);
    DivProduct(x, 0x1000, 0x200);
    DivProduct(y, 0x1000, 0x200);
  }

  lemma WalkSteps(s: State, t: Tables, d: nat, p: Page)
    requires VmInv(s, t) && Root(d) in t && InRange(p) && PtNode(d, p) in t
    ensures NextLevel(s.ram, NextLevel(s.ram, NextLevel(s.ram, t[Root(d)], p.i4), p.i3), p.i2) == t[PtNode(d, p)]
    ensures t[PtNode(d, p)] / 8 + p.i1 < |s.ram|
  {
    var n3 := Child(Root(d), p.i4);
    var n2 := Child(n3, p.i3);
    assert Parented(t, PtNode(d, p)) && Parented(t, n2);
    assert Usable(s.ram, Region(t[PtNode(d, p)], 1));
    hide Inv, NextLevel;
    NextLevelIs(s.ram, t, Root(d), p.i4);
    NextLevelIs(s.ram, t, n3, p.i3);
    NextLevelIs(s.ram, t, n2, p.i2);
  }

  lemma StoreZero(s: State, t: Tables, d: nat, p: Page)
    requires VmInv(s, t) && PtNode(d, p) in t && InRange(p)
    ensures var s' := s.(ram := Store(s.ram, t[PtNode(d, p)] / 8 + p.i1, 0));
      VmInv(s', t) && DataKept(s, t, s') && FlatUpdated(s.ram, t, s'.ram, t, d, p, 0)
  {
    hide VmInv, Grows, SameFlat, Store;
    GrowsSelf(s, t);
    LeafStored(s, t, s, t, d, p, 0);
    GrowsData(s, t, s.(ram := Store(s.ram, t[PtNode(d, p)] / 8 + p.i1, 0)), t);
  }

  lemma GrowsData(s: State, t: Tables, s': State, t': Tables)
    requires Grows(s, t, s', t')
    ensures DataKept(s, t, s')
  {
  }

  lemma DataKeptSelf(s: State, t: Tables)
    ensures DataKept(s, t, s)
  {
  }

  lemma DataKeptTwice(s: State, s1: State, s2: State, t: Tables)
    requires DataKept(s, t, s1) && DataKept(s1, t, s2)
    ensures DataKept(s, t, s2)
  {
    forall r | r in s.out && !IsTable(t, r) ensures SameIn(s.ram, s2.ram, r) {
      assert SameIn(s.ram, s1.ram, r) && SameIn(s1.ram, s2.ram, r);
    }
  }

  /** Page `q` of directory `d'` is one of the `n` pages of directory `d` from `va` on. */
  predicate Touched(d: nat, va: nat, n: nat, d': nat, q: Page) {
    n > 0 && (SamePage(d, PageOf(va + 4096 * (n - 1)), d', q) || Touched(d, va, n - 1, d', q))
  }

  ghost predicate FlatUnmapped(ram: seq<u64>, ram': seq<u64>, t: Tables, d: nat, va: nat, n: nat) {
    forall d', q | InRange(q) :: Flat(ram', t, d', q) == if Touched(d, va, n, d', q) then 0 else Flat(ram, t, d', q)
  }

  lemma NoneUnmapped(ram: seq<u64>, t: Tables, d: nat, va: nat)
    ensures FlatUnmapped(ram, ram, t, d, va, 0)
  {
  }

  lemma OneMoreUnmapped(ram: seq<u64>, ram1: seq<u64>, ram2: seq<u64>, t: Tables, d: nat, va: nat, n: nat)
    requires FlatUnmapped(ram, ram1, t, d, va, n)
    requires FlatUpdated(ram1, t, ram2, t, d, PageOf(va + 4096 * n), 0)
    ensures FlatUnmapped(ram, ram2, t, d, va, n + 1)
  {
    hide Flat, PageOf;
    forall d', q | InRange(q)
      ensures Flat(ram2, t, d', q) == if Touched(d, va, n + 1, d', q) then 0 else Flat(ram, t, d', q)
    {
      assert Flat(ram1, t, d', q) == if Touched(d, va, n, d', q) then 0 else Flat(ram, t, d', q);
    }
  }

  lemma ValidHasInv(s: State, t: Tables)
    requires VmInv(s, t)
    ensures Inv(s)
  {
  }

  /** An outstanding frame full of zeros, not in use as a table. */
  ghost predicate Blank(s: State, t: Tables, f: nat) {
    && Region(f, 1) in s.out && f !in t.Values
    && forall j | 0 <= j < 512 :: Entry(s.ram, f, j) == 0
  }

  lemma ZeroElsewhere(ram: seq<u64>, f: nat, r: Region)
    requires f % 4096 == 0 && r.pa % 4096 == 0 && Apart(r, Region(f, 1))
    ensures SameIn(ram, Zeroed(ram, f / 8, 512), r)
  {
    forall w | 0 <= w < |ram| && HasWord(r, w) ensures !HasWord(Region(f, 1), w) {
      ApartWords(r, Region(f, 1), w);
    }
  }

  function ZeroedState(s: State): State {
    var s' := AllocState(s, 1);
    s'.(ram := Zeroed(s'.ram, AllocResult(s, 1) / 8, 512))
  }

  lemma ZeroedElsewhere(s: State, r: Region)
    requires Inv(s) && r in s.out && AllocResult(s, 1) != 0
    ensures SameIn(s.ram, ZeroedState(s).ram, r) && Apart(r, Region(AllocResult(s, 1), 1)) && Usable(s.ram, r)
  {
    AllocGivesFreshPages(s, 1);
    AllocKeepsOthers(s, 1, r);
    assert Usable(s.ram, r);
    hide Inv, AllocState, AllocResult;
    ZeroElsewhere(AllocState(s, 1).ram, AllocResult(s, 1), r);
  }

  lemma ZeroedKeepsInv(s: State)
    requires Inv(s) && AllocResult(s, 1) != 0
    ensures Inv(ZeroedState(s)) && ZeroedState(s).out == s.out + {Region(AllocResult(s, 1), 1)}
    ensures forall j | 0 <= j < 512 :: Entry(ZeroedState(s).ram, AllocResult(s, 1), j) == 0
  {
    hide Inv, AllocState, AllocResult;
    var s', f := AllocState(s, 1), AllocResult(s, 1);
    AllocGivesFreshPages(s, 1);
    AllocKeepsInv(s, 1);
    var ram := Zeroed(s'.ram, f / 8, 512);
    assert ClientWrite(s', ram) by {
      assert Region(f, 1) in s'.out;
      assert forall k | 0 <= k < |ram| && ram[k] != s'.ram[k] :: HasWord(Region(f, 1), k);
    }
    ClientWriteKeepsInv(s', ram);
  }

  lemma SameTables(ram: seq<u64>, ram': seq<u64>, t: Tables)
    requires TablesOk(ram, t) && |ram'| == |ram|
    requires forall n | n in t :: SameIn(ram, ram', Region(t[n], 1))
    ensures TablesOk(ram', t) && SameFlat(ram, t, ram', t)
  {
    forall n, i | n in t && 0 <= i < 512 ensures Entry(ram', t[n], i) == Entry(ram, t[n], i) {
      assert Usable(ram, Region(t[n], 1)) && SameIn(ram, ram', Region(t[n], 1));
      assert HasWord(Region(t[n], 1), t[n] / 8 + i);
    }
    forall n, i | n in t && !n.Pt? && 0 <= i < 512 ensures SlotOk(ram', t, n, i) {
      assert SlotOk(ram, t, n, i);
    }
    forall n | n in t ensures Usable(ram', Region(t[n], 1)) {
      assert Usable(ram, Region(t[n], 1));
    }
  }

  lemma BlankFrame(s: State, t: Tables)
    requires VmInv(s, t) && AllocResult(s, 1) != 0
    ensures var s' := ZeroedState(s);
      VmInv(s', t) && SameFlat(s.ram, t, s'.ram, t) && DataKept(s, t, s') && Blank(s', t, AllocResult(s, 1))
  {
    hide AllocResult, Inv, ZeroedState, TablesOk, SameFlat;
    var s', f := ZeroedState(s), AllocResult(s, 1);
    ZeroedKeepsInv(s);
    forall r | r in s.out ensures SameIn(s.ram, s'.ram, r) && r.pa != f {
      ZeroedElsewhere(s, r);
    }
    forall n | n in t ensures SameIn(s.ram, s'.ram, Region(t[n], 1)) && t[n] != f {
      assert Region(t[n], 1) in s.out;
    }
    RamLength(s);
    SameTables(s.ram, s'.ram, t);
  }

  lemma RamLength(s: State)
    ensures |ZeroedState(s).ram| == |s.ram|
  {
  }

  lemma FirstRoot(s: State, f: nat)
    requires VmInv(s, map[]) && Blank(s, map[], f)
    ensures VmInv(s, map[Root(KERNEL) := f])
  {
    AbsentZero();
    assert Usable(s.ram, Region(f, 1));
  }

  /** Words 256 to `i - 1` of the table at word `dst` are those of the table at word `src`. */
  ghost predicate HalfCopied(ram: seq<u64>, ram': seq<u64>, dst: nat, src: nat, i: nat) {
    |ram'| == |ram| && src + 512 <= |ram| && forall w | 0 <= w < |ram| :: ram'[w] == CopiedWord(ram, dst, src, i, w)
  }

  function CopiedWord(ram: seq<u64>, dst: nat, src: nat, i: nat, w: nat): u64
    requires w < |ram| && src + 512 <= |ram|
  {
    if dst + 256 <= w < dst + i && i <= 512 then ram[src + (w - dst)] else ram[w]
  }

  lemma HalfCopiedStep(ram: seq<u64>, ram': seq<u64>, dst: nat, src: nat, i: nat)
    requires HalfCopied(ram, ram', dst, src, i) && 256 <= i < 512 && dst + 512 <= |ram|
    requires dst + 512 <= src || src + 512 <= dst
    ensures HalfCopied(ram, ram'[dst + i := ram'[src + i]], dst, src, i + 1)
  {
  }

  lemma BlankIsApart(s: State, t: Tables, f: nat, n: Node)
    requires VmInv(s, t) && Blank(s, t, f) && n in t
    ensures f / 8 + 512 <= |s.ram| && t[n] / 8 + 512 <= |s.ram|
    ensures f / 8 + 512 <= t[n] / 8 || t[n] / 8 + 512 <= f / 8
    ensures Apart(Region(t[n], 1), Region(f, 1)) && Usable(s.ram, Region(f, 1)) && Usable(s.ram, Region(t[n], 1))
  {
    assert t[n] in t.Values;
    assert Usable(s.ram, Region(f, 1)) && Usable(s.ram, Region(t[n], 1));
  }

  lemma FilledElsewhere(ram: seq<u64>, ram': seq<u64>, f: nat, src: nat, r: Region)
    requires HalfCopied(ram, ram', f / 8, src, 512) && f % 4096 == 0 && r.pa % 4096 == 0 && Apart(r, Region(f, 1))
    ensures SameIn(ram, ram', r)
  {
    forall w | 0 <= w < |ram| && HasWord(r, w) ensures !HasWord(Region(f, 1), w) {
      ApartWords(r, Region(f, 1), w);
    }
  }

  lemma FilledKeepsInv(s: State, f: nat, src: nat, ram: seq<u64>)
    requires Inv(s) && Region(f, 1) in s.out && HalfCopied(s.ram, ram, f / 8, src, 512)
    ensures Inv(s.(ram := ram))
  {
    hide Inv;
    forall k | 0 <= k < |ram| && ram[k] != s.ram[k] ensures exists r | r in s.out :: HasWord(r, k) {
      assert HasWord(Region(f, 1), k);
    }
    ClientWriteKeepsInv(s, ram);
  }

  lemma RootFilled(s: State, t: Tables, d: nat, f: nat, ram: seq<u64>)
    requires VmInv(s, t) && Preallocated(t) && Root(KERNEL) in t && Blank(s, t, f) && forall n | n in t :: n.dir != d
    requires HalfCopied(s.ram, ram, f / 8, t[Root(KERNEL)] / 8, 512)
    ensures var s', t' := s.(ram := ram), t[Root(d) := f];
      VmInv(s', t') && SameFlat(s.ram, t, ram, t') && DataKept(s, t', s')
  {
    var k := t[Root(KERNEL)] / 8;
    FilledKeepsInv(s, f, k, ram);
    forall n | n in t ensures SameIn(s.ram, ram, Region(t[n], 1)) {
      BlankIsApart(s, t, f, n);
      FilledElsewhere(s.ram, ram, f, k, Region(t[n], 1));
    }
    BlankIsApart(s, t, f, Root(KERNEL));
    SameTables(s.ram, ram, t);
    NewRootSlots(s, t, f, ram);
    RootAdded(ram, t, d, f);
    FilledKeepsData(s, t, d, f, k, ram);
    hide Inv, TablesOk, Blank, Preallocated, HalfCopied, DataKept;
    SameFlatRoot(s.ram, ram, t, d, f);
  }

  lemma NewRootSlots(s: State, t: Tables, f: nat, ram: seq<u64>)
    requires VmInv(s, t) && Blank(s, t, f) && Root(KERNEL) in t && HalfCopied(s.ram, ram, f / 8, t[Root(KERNEL)] / 8, 512)
    ensures forall i | 0 <= i < 512 :: Entry(ram, f, i) == if i < 256 then 0 else Entry(ram, t[Root(KERNEL)], i)
  {
    BlankIsApart(s, t, f, Root(KERNEL));
    hide VmInv;
    forall i | 0 <= i < 512 ensures Entry(ram, f, i) == if i < 256 then 0 else Entry(ram, t[Root(KERNEL)], i) {
      assert Entry(s.ram, f, i) == 0;
    }
  }

  lemma RootAdded(ram: seq<u64>, t: Tables, d: nat, f: nat)
    requires TablesOk(ram, t) && Preallocated(t) && Root(KERNEL) in t && f !in t.Values && Usable(ram, Region(f, 1))
    requires forall n | n in t :: n.dir != d
    requires forall i | 0 <= i < 512 :: Entry(ram, f, i) == if i < 256 then 0 else Entry(ram, t[Root(KERNEL)], i)
    ensures TablesOk(ram, t[Root(d) := f])
  {
    var t' := t[Root(d) := f];
    AbsentZero();
    assert forall n | n in t :: t[n] in t.Values;
    forall n, i | n in t' && !n.Pt? && 0 <= i < 512 ensures SlotOk(ram, t', n, i) {
      if n == Root(d) {
        assert Entry(ram, f, i) == if i < 256 then 0 else Entry(ram, t[Root(KERNEL)], i);
        assert SlotOk(ram, t, Root(KERNEL), i);
      } else {
        assert SlotOk(ram, t, n, i);
      }
    }
    forall n | n in t' ensures Parented(t', n) && Usable(ram, Region(t'[n], 1)) {
      assert n in t ==> Parented(t, n) && Usable(ram, Region(t[n], 1));
    }
  }

  lemma SameFlatRoot(ram: seq<u64>, ram': seq<u64>, t: Tables, d: nat, f: nat)
    requires SameFlat(ram, t, ram', t)
    ensures SameFlat(ram, t, ram', t[Root(d) := f])
  {
    forall e, p | InRange(p) ensures Flat(ram', t[Root(d) := f], e, p) == Flat(ram, t, e, p) {
      assert Flat(ram', t, e, p) == Flat(ram, t, e, p);
    }
  }

  lemma FilledKeepsData(s: State, t: Tables, d: nat, f: nat, src: nat, ram: seq<u64>)
    requires Inv(s) && Region(f, 1) in s.out && HalfCopied(s.ram, ram, f / 8, src, 512)
    ensures DataKept(s, t[Root(d) := f], s.(ram := ram))
  {
    var t' := t[Root(d) := f];
    assert t'[Root(d)] in t'.Values;
    forall r | r in s.out && !IsTable(t', r) ensures SameIn(s.ram, ram, r) {
      assert Usable(s.ram, r) && Usable(s.ram, Region(f, 1)) && Apart(r, Region(f, 1));
      FilledElsewhere(s.ram, ram, f, src, r);
    }
  }
}
