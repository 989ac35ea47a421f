/** The load pass of the ELF loader, on top of the page allocator and the page tables. */
module ElfLoader {
  import opened Bits
  import opened Bytes
  import opened Pmm
  import opened Vmm
  import opened VmmLaws
  import opened Elf

  /** Page flags of a segment: PF_W is bit 1 and PF_X bit 0 of `p_flags`. */
  function SegmentFlags(p: Header): nat {
    var f := Or(PRESENT, USER);
    var g := if And(p.flags, 2) != 0 then Or(f, WRITEABLE) else f;
    if And(p.flags, 1) == 0 then Or(g, NX) else g
  }

  /** What the hardware enforces for the page: present, for user mode, writeable and executable as the header says. */
  predicate Permits(e: nat, p: Header) {
    && Present(e) && And(e, USER) != 0
    && (And(e, WRITEABLE) != 0 <==> And(p.flags, 2) != 0)
    && (And(e, NX) != 0 <==> And(p.flags, 1) == 0)
  }

  lemma FlagsPermit(p: Header)
    ensures Permits(SegmentFlags(p), p)
  {
    Bits4(PRESENT);
    Bits4(USER);
    Bits4(WRITEABLE);
    Bits4(NX);
    hide And, Or;
    var f := Or(PRESENT, USER);
    OrBits(PRESENT, USER);
    OrBits(f, WRITEABLE);
    OrBits(f, NX);
    OrBits(Or(f, WRITEABLE), NX);
  }

  /** The address bits of a leaf disturb none of its permissions. */
  lemma LeafPermits(f: nat, p: Header)
    requires f % 4096 == 0 && f < 0x1_0000_0000_0000
    ensures Permits(Or(f, SegmentFlags(p)), p)
  {
    hide And, Or, SegmentFlags;
    FlagsPermit(p);
    Bits4(f);
    OrBits(f, SegmentFlags(p));
  }

  lemma SegmentFlagsFit(p: Header)
    ensures SegmentFlags(p) < 0x1_0000_0000_0000_0000 && FrameOf(SegmentFlags(p)) == 0
  {
    hide And, Or;
    FrameIsMasked(PRESENT);
    FrameIsMasked(USER);
    FrameIsMasked(WRITEABLE);
    FrameIsMasked(NX);
    var f := Or(PRESENT, USER);
    OrZero();
    OrFields(PRESENT, USER);
    OrFits(PRESENT, USER);
    OrFields(f, WRITEABLE);
    OrFits(f, WRITEABLE);
    OrFields(f, NX);
    OrFits(f, NX);
    OrFields(Or(f, WRITEABLE), NX);
    OrFits(Or(f, WRITEABLE), NX);
  }

  lemma OrZero()
    ensures Or(0, 0) == 0
  {
  }

  /** `memcpy` into physical memory. */
  method MemCpy(pmm: PageAllocator, dst: nat, data: seq<byte>, src: nat, n: nat)
    requires src + n <= |data|
    modifies pmm
    ensures pmm.S() == old(pmm.S()).(ram := CopiedRam(old(pmm.ram), dst, data, src, n))
  {
    hide PutByte;
    ghost var s := pmm.S();
    for j := 0 to n
      invariant pmm.S() == s.(ram := CopiedRam(s.ram, dst, data, src, j))
    {
      pmm.ram := PutByte(pmm.ram, dst + j, data[src + j]);
    }
  }

  // Stores that stay inside one data region.

  ghost predicate OnlyIn(ram: seq<u64>, ram': seq<u64>, r: Region) {
    |ram'| == |ram| && forall w | 0 <= w < |ram| && ram'[w] != ram[w] :: HasWord(r, w)
  }

  lemma OnlyInElsewhere(ram: seq<u64>, ram': seq<u64>, r: Region, q: Region)
    requires OnlyIn(ram, ram', r) && Apart(q, r) && r.pa % 4096 == 0 && q.pa % 4096 == 0
    ensures SameIn(ram, ram', q)
  {
    forall w | 0 <= w < |ram| && HasWord(q, w) ensures ram'[w] == ram[w] {
      ApartWords(q, r, w);
    }
  }

  lemma DataIsApart(s: State, t: Tables, r: Region, n: Node)
    requires VmInv(s, t) && r in s.out && !IsTable(t, r) && n in t
    ensures Apart(Region(t[n], 1), r) && r.pa % 4096 == 0 && t[n] % 4096 == 0
  {
    assert t[n] in t.Values;
    assert Region(t[n], 1) in s.out && Usable(s.ram, r) && Usable(s.ram, Region(t[n], 1));
  }

  lemma RegionWriteKeepsVm(s: State, t: Tables, r: Region, ram: seq<u64>)
    requires VmInv(s, t) && r in s.out && !IsTable(t, r) && OnlyIn(s.ram, ram, r)
    ensures VmInv(s.(ram := ram), t) && SameFlat(s.ram, t, ram, t)
  {
    hide Inv, TablesOk, SameFlat;
    forall n | n in t ensures SameIn(s.ram, ram, Region(t[n], 1)) {
      DataIsApart(s, t, r, n);
      OnlyInElsewhere(s.ram, ram, r, Region(t[n], 1));
    }
    SameTables(s.ram, ram, t);
    ClientWriteKeepsInv(s, ram);
  }

  lemma RegionWriteKeepsOthers(s: State, r: Region, q: Region, ram: seq<u64>)
    requires Inv(s) && r in s.out && q in s.out && q != r && OnlyIn(s.ram, ram, r)
    ensures SameIn(s.ram, ram, q)
  {
    assert Usable(s.ram, r) && Usable(s.ram, q) && Apart(q, r);
    OnlyInElsewhere(s.ram, ram, r, q);
  }

  /** Memory of a freshly loaded segment: zeroed, then the file bytes copied in. */
  function SegmentRam(ram: seq<u64>, pa: nat, size: nat, data: seq<byte>, p: Header): seq<u64>
    requires p.offset + p.filesz <= |data|
  {
    CopiedRam(Zeroed(ram, pa / 8, size / 8), pa + PageOffset(p), data, p.offset, p.filesz)
  }

  /** Byte `b` of a segment's page run: the file's bytes from `p_vaddr` on, zero before and after them. */
  function SegmentByte(data: seq<byte>, p: Header, b: nat): byte
    requires p.offset + p.filesz <= |data|
  {
    if PageOffset(p) <= b < PageOffset(p) + p.filesz then data[p.offset + (b - PageOffset(p))] else 0
  }

  lemma SegmentRamBytes(ram: seq<u64>, r: Region, size: nat, data: seq<byte>, p: Header, b: nat)
    requires size == 4096 * r.pages && Usable(ram, r) && p.offset + p.filesz <= |data| && p.filesz + PageOffset(p) <= 4096 * r.pages
    requires b < 4096 * r.pages
    ensures RegionByte(SegmentRam(ram, r.pa, size, data, p), r, b) == SegmentByte(data, p, b)
  {
    hide ByteAt, PageOffset, CopiedRam;
    var zeroed := Zeroed(ram, r.pa / 8, 4096 * r.pages / 8);
    ZeroedByte(ram, r, b);
    CopiedBytes(zeroed, r.pa + PageOffset(p), data, p.offset, p.filesz, r.pa + b);
  }

  lemma ZeroedByte(ram: seq<u64>, r: Region, b: nat)
    requires Usable(ram, r) && b < 4096 * r.pages
    ensures ByteAt(Zeroed(ram, r.pa / 8, 4096 * r.pages / 8), r.pa + b) == 0
  {
    WordOfByte(r, b);
    hide ByteOf, HasWord;
    ByteOfZero((r.pa + b) % 8);
  }

  lemma WordOfByte(r: Region, b: nat)
    requires r.pa % 4096 == 0 && b < 4096 * r.pages
    ensures 4096 * r.pages / 8 == 512 * r.pages
    ensures r.pa / 8 <= (r.pa + b) / 8 < r.pa / 8 + 512 * r.pages && 8 * ((r.pa + b) / 8) < r.pa + 4096 * r.pages
  {
    var q := r.pa / 4096;
    AddMultiple(b, 8, 512 * q);
    AddMultiple(0, 8, 512 * q);
    AddMultiple(0, 8, 512 * r.pages);
  }

  lemma SegmentRamOnlyIn(ram: seq<u64>, r: Region, data: seq<byte>, p: Header)
    requires r.pa % 4096 == 0 && p.offset + p.filesz <= |data| && p.filesz + PageOffset(p) <= 4096 * r.pages
    ensures OnlyIn(ram, SegmentRam(ram, r.pa, 4096 * r.pages, data, p), r)
  {
    hide PageOffset, CopiedRam, Zeroed, HasWord;
    var off, size := PageOffset(p), 4096 * r.pages;
    var zeroed := Zeroed(ram, r.pa / 8, size / 8);
    CopiedLength(zeroed, r.pa + off, data, p.offset, p.filesz);
    forall w: nat | w < |ram| && !HasWord(r, w) ensures CopiedRam(zeroed, r.pa + off, data, p.offset, p.filesz)[w] == ram[w] {
      OutsideWord(r, off, p.filesz, w);
      CopiedElsewhere(zeroed, r.pa + off, data, p.offset, p.filesz, w);
    }
  }

  lemma OutsideWord(r: Region, off: nat, n: nat, w: nat)
    requires r.pa % 4096 == 0 && n + off <= 4096 * r.pages && !HasWord(r, w)
    ensures !(r.pa / 8 <= w < r.pa / 8 + 4096 * r.pages / 8)
    ensures n > 0 ==> w < (r.pa + off) / 8 || (r.pa + off + n - 1) / 8 < w
  {
    var k, m := r.pa / 8, 512 * r.pages;
    PageIsWords(r.pa);
    assert 4096 * r.pages == 8 * m && (w < k || k + m <= w);
    hide HasWord;
    OutsideRange(r.pa, k, m, off, n, w);
    WordRange(4096 * r.pages, m);
  }

  lemma PageIsWords(pa: nat)
    requires pa % 4096 == 0
    ensures pa == 8 * (pa / 8)
  {
    var k := 512 * (pa / 4096);
    assert pa == 8 * k;
    WordRange(pa, k);
  }

  lemma OutsideRange(pa: nat, k: nat, m: nat, off: nat, n: nat, w: nat)
    requires pa == 8 * k && n + off <= 8 * m && (w < k || k + m <= w)
    ensures n > 0 ==> w < (pa + off) / 8 || (pa + off + n - 1) / 8 < w
  {
    if n > 0 {
      WordRange(pa + off, k);
      WordRange(pa + off + n - 1, k + m);
    }
  }

  lemma WordRange(a: nat, k: nat)
    ensures a < 8 * k <==> a / 8 < k
    ensures a == 8 * k ==> a / 8 == k
  {
  }

  lemma {:induction false} CopiedLength(ram: seq<u64>, dst: nat, data: seq<byte>, src: nat, n: nat)
    requires src + n <= |data|
    ensures |CopiedRam(ram, dst, data, src, n)| == |ram|
  {
    if n > 0 {
      CopiedLength(ram, dst, data, src, n - 1);
    }
  }

  // One segment.

  function SegmentPageCount(p: Header): nat {
    AlignedSize(p) / 4096
  }

  /** Page `k` of the segment's range is mapped to page `k` of the region. */
  ghost predicate PageMapped(s: State, t: Tables, d: nat, p: Header, r: Region, k: nat) {
    var q := PageOf(PageStart(p) + 4096 * k);
    PtNode(d, q) in t && Flat(s.ram, t, d, q) == Or(r.pa + 4096 * k, SegmentFlags(p))
  }

  ghost predicate AllMapped(s: State, t: Tables, d: nat, p: Header, r: Region) {
    forall k | 0 <= k < r.pages :: PageMapped(s, t, d, p, r, k)
  }

  function RegionByte(ram: seq<u64>, r: Region, b: nat): byte {
    ByteAt(ram, r.pa + b)
  }

  ghost predicate HoldsBytes(ram: seq<u64>, r: Region, data: seq<byte>, p: Header)
    requires p.offset + p.filesz <= |data|
  {
    forall b | 0 <= b < 4096 * r.pages :: RegionByte(ram, r, b) == SegmentByte(data, p, b)
  }

  /** The segment's pages are mapped to a data region of its own that holds the segment's bytes. */
  ghost predicate SegmentLoaded(s: State, t: Tables, d: nat, data: seq<byte>, p: Header, r: Region)
    requires p.offset + p.filesz <= |data|
  {
    SegmentPageCount(p) > 0 ==>
      && r in s.out && r.pages == SegmentPageCount(p) && !IsTable(t, r)
      && AllMapped(s, t, d, p, r) && HoldsBytes(s.ram, r, data, p)
  }

  lemma AllocKeepsVm(s: State, t: Tables, count: nat)
    requires VmInv(s, t)
    ensures var s' := AllocState(s, count);
      VmInv(s', t) && SameFlat(s.ram, t, s'.ram, t) && Grows(s, t, s', t)
  {
    var s' := AllocState(s, count);
    AllocKeepsInv(s, count);
    hide Inv, TablesOk, AllocState, SameFlat;
    AllocOut(s, count);
    forall r | r in s.out ensures SameIn(s.ram, s'.ram, r) {
      AllocKeepsOthers(s, count, r);
    }
    SameTables(s.ram, s'.ram, t);
  }

  lemma AllocOut(s: State, count: nat)
    ensures s.out <= AllocState(s, count).out && |AllocState(s, count).ram| == |s.ram|
  {
  }

  /** The region just allocated is outstanding and no table. */
  lemma AllocatedIsData(s: State, t: Tables, count: nat)
    requires VmInv(s, t) && count > 0 && AllocResult(s, count) != 0
    ensures var r := Region(AllocResult(s, count), count);
      r in AllocState(s, count).out && r !in s.out && !IsTable(t, r) && Usable(s.ram, r)
  {
    hide AllocState, AllocResult;
    AllocGivesFreshPages(s, count);
    var r := Region(AllocResult(s, count), count);
    assert forall n | n in t :: Region(t[n], 1) in s.out && Region(t[n], 1) != r;
  }

  /** A data region stays one while tables are added. */
  lemma StaysData(s: State, t: Tables, s': State, t': Tables, r: Region)
    requires Grows(s, t, s', t') && r in s.out && !IsTable(t, r)
    ensures r in s'.out && !IsTable(t', r) && SameIn(s.ram, s'.ram, r)
  {
    forall n | n in t' ensures Region(t'[n], 1) != r {
      assert n in t ==> t[n] in t.Values;
    }
  }

  datatype Outcome = Loaded(entry: nat, base: nat, end: nat, phnum: nat, phentsize: nat) | Invalid | NoMemory | Halted

  datatype Progress = Done | OutOfPages | Panic

  /** The addresses and sizes the second loop computes for a header. */
  lemma SegmentNumbers(p: Header)
    requires RangeOk(p) && p.vaddr <= USER_ADDR_END
    ensures p.vaddr - PageOffset(p) == PageStart(p) && AlignUp(Add64(p.memsz, PageOffset(p))) == AlignedSize(p)
    ensures AlignedSize(p) == 4096 * SegmentPageCount(p) && PageCount(AlignedSize(p)) == SegmentPageCount(p)
    ensures PageStart(p) + AlignedSize(p) <= USER_ADDR_END && p.memsz + PageOffset(p) <= AlignedSize(p)
    ensures PageStart(p) % 4096 == 0
  {
    hide RangeOk, PageStart, AlignUp, AlignDown, Add64, PageEnd;
    SegmentPages(p);
  }

  /** One LOAD header in the second loop of `elf_load`. */
  method LoadSegment(vm: PageTables, data: seq<byte>, p: Header, root: u64, ghost d: nat) returns (o: Progress, ghost r: Region)
    requires vm.Valid() && Preallocated(vm.tables) && Root(d) in vm.tables && vm.tables[Root(d)] == root
    requires SegmentOk(p, |data|) && p.vaddr <= USER_ADDR_END
    modifies vm, vm.pmm
    ensures vm.Valid() && Grows(old(vm.pmm.S()), old(vm.tables), vm.pmm.S(), vm.tables)
    ensures o == Done ==> r.pages == SegmentPageCount(p)
    ensures o == Done ==>
      FlatMapped(old(vm.pmm.ram), old(vm.tables), vm.pmm.ram, vm.tables, d, r.pa, PageStart(p), SegmentFlags(p), r.pages)
    ensures o == Done ==> SegmentLoaded(vm.pmm.S(), vm.tables, d, data, p, r)
    ensures o == OutOfPages ==> vm.pmm.S() == old(vm.pmm.S()) && vm.tables == old(vm.tables)
    ensures o == OutOfPages ==> AllocResult(vm.pmm.S(), SegmentPageCount(p)) == 0
    ensures o == Panic ==> AllocResult(vm.pmm.S(), 1) == 0
  {
    hide VmInv, Grows, FlatMapped, SameFlat, SegmentLoaded, Preallocated, RangeOk, SegmentFlags, SegmentRam,
         PageOffset, PageStart, AlignedSize, PageCount, SegmentPageCount, AllocState, AllocResult, AlignUp, Add64;
    ghost var s, t := vm.pmm.S(), vm.tables;
    SegmentNumbers(p);
    SegmentFlagsFit(p);
    ValidHasInv(s, t);
    AllocKeepsVm(s, t, SegmentPageCount(p));
    var alignedSize := AlignUp(Add64(p.memsz, PageOffset(p)));
    var pages := alignedSize / 0x1000;
    assert pages == SegmentPageCount(p);
    var pa := vm.pmm.Alloc(pages);
    r := Region(pa, pages);
    if pa == 0 {
      AllocFails(s, SegmentPageCount(p));
      return OutOfPages, r;
    }
    ghost var s1 := vm.pmm.S();
    AllocBound(s, SegmentPageCount(p));
    var ok := vm.Map(root, pa, p.vaddr - PageOffset(p), alignedSize, SegmentFlags(p), d);
    GrowsTwice(s, t, s1, t, vm.pmm.S(), vm.tables);
    if !ok {
      return Panic, r;
    }
    SegmentDone(s, t, s1, vm.pmm.S(), vm.tables, d, data, p, r);
    FillSegment(vm.pmm, pa, alignedSize, data, p);
    o := Done;
  }

  /** The `memset` and the `memcpy` that give a segment its bytes. */
  method FillSegment(pmm: PageAllocator, pa: nat, size: nat, data: seq<byte>, p: Header)
    requires p.offset + p.filesz <= |data|
    modifies pmm
    ensures pmm.S() == old(pmm.S()).(ram := SegmentRam(old(pmm.ram), pa, size, data, p))
  {
    hide CopiedRam, Zeroed;
    pmm.ram := Zeroed(pmm.ram, pa / 8, size / 8);
    MemCpy(pmm, pa + PageOffset(p), data, p.offset, p.filesz);
  }

  lemma AllocBound(s: State, count: nat)
    requires Inv(s) && AllocResult(s, count) != 0
    ensures AllocResult(s, count) + 4096 * count <= 0x1_0000_0000_0000
    ensures AllocResult(s, count) % 4096 == 0
  {
    assert LinkAt(s.ram, s.free, FirstFit(s.free, count));
  }

  lemma RegionWriteGrows(s: State, t: Tables, s2: State, t2: Tables, r: Region, ram: seq<u64>)
    requires Grows(s, t, s2, t2) && Inv(s2) && r in s2.out && r !in s.out && OnlyIn(s2.ram, ram, r)
    ensures Grows(s, t, s2.(ram := ram), t2)
  {
    forall q | q in s.out && !IsTable(t, q) ensures SameIn(s.ram, ram, q) {
      assert SameIn(s.ram, s2.ram, q);
      hide Inv;
      RegionWriteKeepsOthers(s2, r, q, ram);
    }
  }

  lemma FlatMappedAround(ram: seq<u64>, t: Tables, ram1: seq<u64>, ram2: seq<u64>, t2: Tables, ram3: seq<u64>,
                         d: nat, pa: nat, va: nat, flags: nat, n: nat)
    requires SameFlat(ram, t, ram1, t) && FlatMapped(ram1, t, ram2, t2, d, pa, va, flags, n) && SameFlat(ram2, t2, ram3, t2)
    ensures FlatMapped(ram, t, ram3, t2, d, pa, va, flags, n)
  {
    hide Flat, Overlay;
  }

  lemma MappedPages(s: State, t: Tables, ram0: seq<u64>, t0: Tables, d: nat, p: Header, r: Region)
    requires RangeOk(p) && p.vaddr <= USER_ADDR_END && r.pa % 4096 == 0 && r.pages == SegmentPageCount(p)
    requires FlatMapped(ram0, t0, s.ram, t, d, r.pa, PageStart(p), SegmentFlags(p), r.pages)
    requires forall k | 0 <= k < r.pages :: PtNode(d, PageOf(PageStart(p) + 4096 * k)) in t
    ensures AllMapped(s, t, d, p, r)
  {
    SegmentNumbers(p);
    hide RangeOk, PageStart, SegmentPageCount, SegmentFlags, Flat, Or, PtNode, PageOf, FlatMapped, PageMapped;
    forall k | 0 <= k < r.pages ensures PageMapped(s, t, d, p, r, k) {
      assert PtNode(d, PageOf(PageStart(p) + 4096 * k)) in t;
      MappedPage(s, t, ram0, t0, d, p, r, k);
    }
  }

  lemma MappedPage(s: State, t: Tables, ram0: seq<u64>, t0: Tables, d: nat, p: Header, r: Region, k: nat)
    requires k < r.pages <= 0x10_0000_0000 && r.pa % 4096 == 0
    requires FlatMapped(ram0, t0, s.ram, t, d, r.pa, PageStart(p), SegmentFlags(p), r.pages)
    requires PtNode(d, PageOf(PageStart(p) + 4096 * k)) in t
    ensures PageMapped(s, t, d, p, r, k)
  {
    hide PageStart, SegmentFlags, Flat, Or, PtNode, PageOf;
    var va := PageStart(p) + 4096 * k;
    PageInRange(va);
    WholePages(r.pa, k);
    OverlayInside(d, r.pa, PageStart(p), SegmentFlags(p), r.pages, k, Flat(ram0, t0, d, PageOf(va)));
  }

  lemma WholePages(pa: nat, k: nat)
    requires pa % 4096 == 0
    ensures (pa + 4096 * k) / 4096 * 4096 == pa + 4096 * k
  {
  }

  lemma PageInRange(va: nat)
    ensures InRange(PageOf(va))
  {
  }

  lemma SegmentBytes(s: State, t: Tables, ram: seq<u64>, data: seq<byte>, p: Header, r: Region)
    requires Usable(ram, r) && SegmentOk(p, |data|) && p.vaddr <= USER_ADDR_END && r.pages == SegmentPageCount(p)
    ensures HoldsBytes(SegmentRam(ram, r.pa, AlignedSize(p), data, p), r, data, p)
  {
    SegmentNumbers(p);
    hide RangeOk, SegmentPageCount, SegmentRam, RegionByte, SegmentByte, PageOffset, AlignedSize, PageStart;
    forall b | 0 <= b < 4096 * r.pages
      ensures RegionByte(SegmentRam(ram, r.pa, AlignedSize(p), data, p), r, b) == SegmentByte(data, p, b)
    {
      SegmentRamBytes(ram, r, AlignedSize(p), data, p, b);
    }
  }

  lemma EmptySegment(ram: seq<u64>, pa: nat, data: seq<byte>, p: Header)
    requires SegmentOk(p, |data|) && p.vaddr <= USER_ADDR_END && SegmentPageCount(p) == 0
    ensures SegmentRam(ram, pa, AlignedSize(p), data, p) == ram
  {
    SegmentNumbers(p);
    hide RangeOk, SegmentPageCount, AlignedSize;
    assert Zeroed(ram, pa / 8, 0) == ram;
  }

  /** The state after the copy, from the states after the allocation and after the mapping. */
  lemma SegmentDone(s: State, t: Tables, s1: State, s2: State, t2: Tables, d: nat, data: seq<byte>, p: Header, r: Region)
    requires VmInv(s, t) && VmInv(s2, t2) && SegmentOk(p, |data|) && p.vaddr <= USER_ADDR_END
    requires r == Region(AllocResult(s, SegmentPageCount(p)), SegmentPageCount(p)) && r.pa != 0
    requires s1 == AllocState(s, r.pages) && Grows(s1, t, s2, t2) && Grows(s, t, s2, t2)
    requires FlatMapped(s1.ram, t, s2.ram, t2, d, r.pa, PageStart(p), SegmentFlags(p), PageCount(AlignedSize(p)))
    requires forall k | 0 <= k < PageCount(AlignedSize(p)) :: PtNode(d, PageOf(PageStart(p) + 4096 * k)) in t2
    ensures var s3 := s2.(ram := SegmentRam(s2.ram, r.pa, AlignedSize(p), data, p));
      && VmInv(s3, t2) && Grows(s, t, s3, t2) && SegmentLoaded(s3, t2, d, data, p, r)
      && FlatMapped(s.ram, t, s3.ram, t2, d, r.pa, PageStart(p), SegmentFlags(p), r.pages)
  {
    SegmentNumbers(p);
    hide *;
    AllocKeepsVm(s, t, r.pages);
    ghost var ram3 := SegmentRam(s2.ram, r.pa, AlignedSize(p), data, p);
    if r.pages == 0 {
      EmptySegment(s2.ram, r.pa, data, p);
      GrowsSelf(s2, t2);
      EmptyLoaded(s2, t2, d, data, p, r);
    } else {
      AllocatedIsData(s, t, r.pages);
      StaysData(s1, t, s2, t2, r);
      FilledSegment(s2, t2, data, p, r);
      RegionWriteGrows(s, t, s2, t2, r, ram3);
    }
    FlatMappedAround(s.ram, t, s1.ram, s2.ram, t2, ram3, d, r.pa, PageStart(p), SegmentFlags(p), r.pages);
    if r.pages > 0 {
      DataLoaded(s2.(ram := ram3), t2, s.ram, t, d, data, p, r);
    }
  }

  lemma EmptyLoaded(s: State, t: Tables, d: nat, data: seq<byte>, p: Header, r: Region)
    requires p.offset + p.filesz <= |data| && SegmentPageCount(p) == 0
    ensures SegmentLoaded(s, t, d, data, p, r)
  {
  }

  /** Filling a segment's region keeps the trees and gives the region the segment's bytes. */
  lemma FilledSegment(s: State, t: Tables, data: seq<byte>, p: Header, r: Region)
    requires VmInv(s, t) && r in s.out && !IsTable(t, r) && r.pages == SegmentPageCount(p)
    requires SegmentOk(p, |data|) && p.vaddr <= USER_ADDR_END
    ensures var ram := SegmentRam(s.ram, r.pa, AlignedSize(p), data, p);
      && Inv(s) && VmInv(s.(ram := ram), t) && SameFlat(s.ram, t, ram, t) && OnlyIn(s.ram, ram, r)
      && HoldsBytes(ram, r, data, p)
  {
    SegmentNumbers(p);
    hide VmInv, SameFlat, RangeOk, PageOffset, AlignedSize, SegmentPageCount, SegmentRam, OnlyIn, IsTable, HoldsBytes;
    ValidHasInv(s, t);
    OutIsUsable(s, r);
    SegmentRamOnlyIn(s.ram, r, data, p);
    RegionWriteKeepsVm(s, t, r, SegmentRam(s.ram, r.pa, AlignedSize(p), data, p));
    SegmentBytes(s, t, s.ram, data, p, r);
  }

  lemma DataLoaded(s: State, t: Tables, ram0: seq<u64>, t0: Tables, d: nat, data: seq<byte>, p: Header, r: Region)
    requires VmInv(s, t) && SegmentOk(p, |data|) && p.vaddr <= USER_ADDR_END
    requires r in s.out && !IsTable(t, r) && r.pages == SegmentPageCount(p)
    requires FlatMapped(ram0, t0, s.ram, t, d, r.pa, PageStart(p), SegmentFlags(p), r.pages)
    requires forall k | 0 <= k < PageCount(AlignedSize(p)) :: PtNode(d, PageOf(PageStart(p) + 4096 * k)) in t
    requires HoldsBytes(s.ram, r, data, p)
    ensures SegmentLoaded(s, t, d, data, p, r)
  {
    SegmentNumbers(p);
    hide VmInv, RangeOk, PageStart, SegmentFlags, PageOf, PtNode, FlatMapped, AlignedSize, SegmentPageCount, IsTable, HoldsBytes, AllMapped;
    ValidHasInv(s, t);
    OutIsUsable(s, r);
    MappedPages(s, t, ram0, t0, d, p, r);
  }

  lemma OutIsUsable(s: State, r: Region)
    requires Inv(s) && r in s.out
    ensures Usable(s.ram, r)
  {
  }

  // No later segment disturbs an earlier one.

  lemma UserPagesDiffer(x: nat, y: nat)
    requires x % 4096 == 0 && y % 4096 == 0 && x < y <= USER_ADDR_END
    ensures PageOf(x) != PageOf(y)
  {
    hide PageOf;
    PagesDiffer(x, y);
  }

  lemma NotTouched(d: nat, va: nat, n: nat, x: nat)
    requires va % 4096 == 0 && x % 4096 == 0 && x < va && va + 4096 * n <= USER_ADDR_END
    ensures !Touched(d, va, n, d, PageOf(x))
  {
    hide PageOf;
    TouchedIff(d, va, n, d, PageOf(x));
    forall k | 0 <= k < n ensures !SamePage(d, PageOf(va + 4096 * k), d, PageOf(x)) {
      UserPagesDiffer(x, va + 4096 * k);
    }
  }

  lemma PageStaysMapped(s: State, t: Tables, s': State, t': Tables, d: nat, p: Header, r: Region, k: nat,
                        pa: nat, va: nat, flags: nat, n: nat)
    requires PageMapped(s, t, d, p, r, k) && (forall m | m in t :: m in t')
    requires FlatMapped(s.ram, t, s'.ram, t', d, pa, va, flags, n)
    requires PageStart(p) % 4096 == 0 && va % 4096 == 0 && PageStart(p) + 4096 * k < va && va + 4096 * n <= USER_ADDR_END
    ensures PageMapped(s', t', d, p, r, k)
  {
    hide PageStart, SegmentFlags, Flat, Or, PtNode, PageOf, Touched;
    var x := PageStart(p) + 4096 * k;
    PageInRange(x);
    NotTouched(d, va, n, x);
    OverlayOutside(d, pa, va, flags, n, d, PageOf(x), Flat(s.ram, t, d, PageOf(x)));
  }

  lemma StaysLoaded(s: State, t: Tables, s': State, t': Tables, d: nat, data: seq<byte>, p: Header, r: Region,
                    q: Header, pa: nat, flags: nat)
    requires SegmentOk(p, |data|) && SegmentOk(q, |data|) && p.vaddr <= USER_ADDR_END && q.vaddr <= USER_ADDR_END
    requires PageEnd(p) <= PageStart(q) && SegmentLoaded(s, t, d, data, p, r)
    requires Inv(s) && Grows(s, t, s', t') && FlatMapped(s.ram, t, s'.ram, t', d, pa, PageStart(q), flags, SegmentPageCount(q))
    ensures SegmentLoaded(s', t', d, data, p, r)
  {
    assert p.offset + p.filesz <= |data| && RangeOk(p) && RangeOk(q);
    hide *;
    if SegmentPageCount(p) > 0 {
      LoadedParts(s, t, d, data, p, r);
      StaysData(s, t, s', t', r);
      OutIsUsable(s, r);
      BytesStay(s.ram, s'.ram, r, data, p);
      MappingStays(s, t, s', t', d, p, r, q, pa, flags);
      LoadedFrom(s', t', d, data, p, r);
    } else {
      EmptyLoaded(s', t', d, data, p, r);
    }
  }

  lemma LoadedParts(s: State, t: Tables, d: nat, data: seq<byte>, p: Header, r: Region)
    requires p.offset + p.filesz <= |data| && SegmentLoaded(s, t, d, data, p, r) && SegmentPageCount(p) > 0
    ensures r in s.out && r.pages == SegmentPageCount(p) && !IsTable(t, r) && AllMapped(s, t, d, p, r) && HoldsBytes(s.ram, r, data, p)
  {
  }

  lemma LoadedFrom(s: State, t: Tables, d: nat, data: seq<byte>, p: Header, r: Region)
    requires p.offset + p.filesz <= |data|
    requires r in s.out && r.pages == SegmentPageCount(p) && !IsTable(t, r) && AllMapped(s, t, d, p, r) && HoldsBytes(s.ram, r, data, p)
    ensures SegmentLoaded(s, t, d, data, p, r)
  {
  }

  lemma BytesStay(ram: seq<u64>, ram': seq<u64>, r: Region, data: seq<byte>, p: Header)
    requires p.offset + p.filesz <= |data| && Usable(ram, r) && SameIn(ram, ram', r) && HoldsBytes(ram, r, data, p)
    ensures HoldsBytes(ram', r, data, p)
  {
    hide ByteAt, SameIn, SegmentByte;
    forall b | 0 <= b < 4096 * r.pages ensures RegionByte(ram', r, b) == SegmentByte(data, p, b) {
      assert RegionByte(ram, r, b) == SegmentByte(data, p, b);
      SameBytes(ram, ram', r, r.pa + b);
    }
  }

  lemma MappingStays(s: State, t: Tables, s': State, t': Tables, d: nat, p: Header, r: Region, q: Header, pa: nat, flags: nat)
    requires RangeOk(p) && RangeOk(q) && p.vaddr <= USER_ADDR_END && q.vaddr <= USER_ADDR_END && PageEnd(p) <= PageStart(q)
    requires r.pages == SegmentPageCount(p) && AllMapped(s, t, d, p, r) && Grows(s, t, s', t')
    requires FlatMapped(s.ram, t, s'.ram, t', d, pa, PageStart(q), flags, SegmentPageCount(q))
    ensures AllMapped(s', t', d, p, r)
  {
    SegmentNumbers(p);
    SegmentNumbers(q);
    SegmentPages(p);
    GrownTables(s, t, s', t');
    hide Grows, FlatMapped, RangeOk, PageStart, PageEnd, PageOffset, AlignedSize, SegmentPageCount, PageMapped;
    forall k | 0 <= k < r.pages ensures PageMapped(s', t', d, p, r, k) {
      PageStaysMapped(s, t, s', t', d, p, r, k, pa, PageStart(q), flags, SegmentPageCount(q));
    }
  }

  /** The byte a process reads at `p_vaddr + j` through its page tables is the file's, or zero past `p_filesz`. */
  lemma LoadedByte(s: State, t: Tables, d: nat, data: seq<byte>, p: Header, r: Region, j: nat)
    requires Inv(s) && SegmentOk(p, |data|) && p.vaddr <= USER_ADDR_END && SegmentLoaded(s, t, d, data, p, r) && j < p.memsz
    ensures var va := p.vaddr + j;
      && PtNode(d, PageOf(va)) in t && Permits(Flat(s.ram, t, d, PageOf(va)), p)
      && ByteAt(s.ram, Translate(Flat(s.ram, t, d, PageOf(va)), va)) == if j < p.filesz then data[p.offset + j] else 0
  {
    hide *;
    ByteNumbers(p, data, j);
    LoadedParts(s, t, d, data, p, r);
    RunByte(s.ram, data, p, r, j);
    TranslatedByte(s, t, d, p, r, PageOffset(p) + j, p.vaddr + j);
  }

  lemma ByteNumbers(p: Header, data: seq<byte>, j: nat)
    requires SegmentOk(p, |data|) && p.vaddr <= USER_ADDR_END && j < p.memsz
    ensures p.offset + p.filesz <= |data| && SegmentPageCount(p) > 0 && PageOffset(p) + j < 4096 * SegmentPageCount(p)
    ensures p.vaddr + j == PageStart(p) + (PageOffset(p) + j) && PageStart(p) % 4096 == 0
  {
    SegmentNumbers(p);
    hide RangeOk, PageOffset, PageStart, SegmentPageCount, AlignedSize;
  }

  lemma RunByte(ram: seq<u64>, data: seq<byte>, p: Header, r: Region, j: nat)
    requires p.offset + p.filesz <= |data| && HoldsBytes(ram, r, data, p) && PageOffset(p) + j < 4096 * r.pages
    ensures RegionByte(ram, r, PageOffset(p) + j) == if j < p.filesz then data[p.offset + j] else 0
  {
    hide PageOffset, RegionByte;
    assert RegionByte(ram, r, PageOffset(p) + j) == SegmentByte(data, p, PageOffset(p) + j);
  }

  lemma TranslatedByte(s: State, t: Tables, d: nat, p: Header, r: Region, b: nat, va: nat)
    requires Inv(s) && r in s.out && AllMapped(s, t, d, p, r) && PageStart(p) % 4096 == 0 && b < 4096 * r.pages
    requires va == PageStart(p) + b
    ensures PtNode(d, PageOf(va)) in t && Permits(Flat(s.ram, t, d, PageOf(va)), p)
    ensures ByteAt(s.ram, Translate(Flat(s.ram, t, d, PageOf(va)), va)) == RegionByte(s.ram, r, b)
  {
    var k := b / 4096;
    var f, e := r.pa + 4096 * k, Flat(s.ram, t, d, PageOf(va));
    hide *;
    MappedAt(s, t, d, p, r, b, k, va);
    SegmentFlagsFit(p);
    OutIsUsable(s, r);
    FramesBelow(s, r, k);
    LeafPermits(f, p);
    TranslateLeaf(f, SegmentFlags(p), va);
    SameOffset(PageStart(p), b, k, va);
    ByteInRegion(s.ram, r, b, Translate(e, va));
  }

  lemma MappedAt(s: State, t: Tables, d: nat, p: Header, r: Region, b: nat, k: nat, va: nat)
    requires AllMapped(s, t, d, p, r) && PageStart(p) % 4096 == 0 && b < 4096 * r.pages && k == b / 4096 && va == PageStart(p) + b
    ensures k < r.pages && PtNode(d, PageOf(va)) in t && Flat(s.ram, t, d, PageOf(va)) == Or(r.pa + 4096 * k, SegmentFlags(p))
  {
    assert PageMapped(s, t, d, p, r, k);
    hide PageStart, PtNode, Flat, Or, SegmentFlags, PageOf;
    SamePageOf(PageStart(p), b, k, va);
  }

  lemma ByteInRegion(ram: seq<u64>, r: Region, b: nat, a: nat)
    requires a == r.pa + b
    ensures ByteAt(ram, a) == RegionByte(ram, r, b)
  {
  }

  lemma SamePageOf(start: nat, b: nat, k: nat, va: nat)
    requires start % 4096 == 0 && va == start + b && k == b / 4096
    ensures PageOf(va) == PageOf(start + 4096 * k)
  {
    hide PageOf;
    PageOfBase(va);
    assert va / 4096 * 4096 == start + 4096 * k;
  }

  lemma SameOffset(start: nat, b: nat, k: nat, va: nat)
    requires start % 4096 == 0 && va == start + b && k == b / 4096
    ensures 4096 * k + va % 4096 == b
  {
  }

  lemma FramesBelow(s: State, r: Region, k: nat)
    requires Inv(s) && Usable(s.ram, r) && k < r.pages
    ensures (r.pa + 4096 * k) % 4096 == 0 && r.pa + 4096 * k < 0x1_0000_0000_0000
  {
  }

  // The whole load.

  /** Segment `i` of the list is loaded into region `i`. */
  ghost predicate AllLoaded(s: State, t: Tables, d: nat, data: seq<byte>, ls: seq<Header>, regions: seq<Region>) {
    |regions| == |ls| && forall i | 0 <= i < |ls| ::
      ls[i].offset + ls[i].filesz <= |data| && SegmentLoaded(s, t, d, data, ls[i], regions[i])
  }

  lemma NextLoaded(s: State, t: Tables, s': State, t': Tables, d: nat, data: seq<byte>, ls: seq<Header>, regions: seq<Region>,
                   p: Header, r: Region)
    requires Accepted(ls + [p], |data|) && InUserSpace(ls + [p]) && AllLoaded(s, t, d, data, ls, regions)
    requires VmInv(s, t) && Grows(s, t, s', t') && r.pages == SegmentPageCount(p)
    requires FlatMapped(s.ram, t, s'.ram, t', d, r.pa, PageStart(p), SegmentFlags(p), r.pages)
    requires SegmentOk(p, |data|) && SegmentLoaded(s', t', d, data, p, r)
    ensures AllLoaded(s', t', d, data, ls + [p], regions + [r])
  {
    ValidHasInv(s, t);
    hide VmInv, Inv, Grows, FlatMapped, SegmentLoaded, PageStart, PageEnd, SegmentPageCount, SegmentFlags, RangeOk;
    var ls', regions' := ls + [p], regions + [r];
    forall i | 0 <= i < |ls'|
      ensures ls'[i].offset + ls'[i].filesz <= |data| && SegmentLoaded(s', t', d, data, ls'[i], regions'[i])
    {
      assert SegmentOk(ls'[i], |data|) && ls'[i].vaddr <= USER_ADDR_END && ls'[|ls|] == p && p.vaddr <= USER_ADDR_END;
      if i < |ls| {
        assert ls'[i] == ls[i] && regions'[i] == regions[i];
        SegmentsAscend(ls', |data|, i, |ls|);
        StaysLoaded(s, t, s', t', d, data, ls[i], regions[i], p, r.pa, SegmentFlags(p));
      }
    }
  }

  /** Page `q` of directory `e` belongs to none of the segments loaded into directory `d`. */
  ghost predicate OutsideAll(ls: seq<Header>, d: nat, e: nat, q: Page) {
    forall p | p in ls :: !Touched(d, PageStart(p), SegmentPageCount(p), e, q)
  }

  /** Every such page translates as before. */
  ghost predicate KeptOutside(ram: seq<u64>, t: Tables, ram': seq<u64>, t': Tables, d: nat, ls: seq<Header>) {
    forall e, q | InRange(q) && OutsideAll(ls, d, e, q) :: Flat(ram', t', e, q) == Flat(ram, t, e, q)
  }

  lemma KeptNext(ram: seq<u64>, t: Tables, ram1: seq<u64>, t1: Tables, ram2: seq<u64>, t2: Tables, d: nat, ls: seq<Header>,
                 p: Header, r: Region)
    requires KeptOutside(ram, t, ram1, t1, d, ls) && r.pages == SegmentPageCount(p)
    requires FlatMapped(ram1, t1, ram2, t2, d, r.pa, PageStart(p), SegmentFlags(p), r.pages)
    ensures KeptOutside(ram, t, ram2, t2, d, ls + [p])
  {
    hide Flat, Touched, Overlay, InRange, SegmentPageCount, PageStart, SegmentFlags;
    forall e, q | InRange(q) && OutsideAll(ls + [p], d, e, q) ensures Flat(ram2, t2, e, q) == Flat(ram, t, e, q) {
      assert p in ls + [p] && forall x | x in ls :: x in ls + [p];
      assert OutsideAll(ls, d, e, q);
      OverlayOutside(d, r.pa, PageStart(p), SegmentFlags(p), r.pages, e, q, Flat(ram1, t1, e, q));
    }
  }

  lemma KeptNone(ram: seq<u64>, t: Tables, d: nat)
    ensures KeptOutside(ram, t, ram, t, d, [])
  {
  }

  lemma LoadsTake(ps: seq<Header>, n: nat, k: nat)
    requires n <= |ps| && k == |Loads(ps[..n])|
    ensures k <= |Loads(ps)| && Loads(ps)[..k] == Loads(ps[..n])
    ensures n < |ps| && IsLoad(ps[n]) ==> k < |Loads(ps)| && Loads(ps)[k] == ps[n]
  {
    hide Loads, IsLoad;
    LoadsPrefix(ps, n);
    if n < |ps| && IsLoad(ps[n]) {
      LoadsStep(ps, n);
      LoadsPrefix(ps, n + 1);
      assert Loads(ps)[..k + 1][k] == ps[n];
    }
  }

  /** The second loop of `elf_load`. When it runs out of pages, the segments before stay loaded. */
  method LoadSegments(vm: PageTables, data: seq<byte>, ps: seq<Header>, root: u64, ghost d: nat)
    returns (o: Progress, ghost regions: seq<Region>)
    requires vm.Valid() && Preallocated(vm.tables) && Root(d) in vm.tables && vm.tables[Root(d)] == root
    requires Accepted(Loads(ps), |data|) && InUserSpace(Loads(ps))
    modifies vm, vm.pmm
    ensures vm.Valid() && Grows(old(vm.pmm.S()), old(vm.tables), vm.pmm.S(), vm.tables)
    ensures |regions| <= |Loads(ps)| && (o == Done ==> |regions| == |Loads(ps)|)
    ensures o != Panic ==> AllLoaded(vm.pmm.S(), vm.tables, d, data, Loads(ps)[..|regions|], regions)
    ensures o != Panic ==> KeptOutside(old(vm.pmm.ram), old(vm.tables), vm.pmm.ram, vm.tables, d, Loads(ps)[..|regions|])
    ensures o == OutOfPages ==>
      |regions| < |Loads(ps)| && AllocResult(vm.pmm.S(), SegmentPageCount(Loads(ps)[|regions|])) == 0
    ensures o == Panic ==> AllocResult(vm.pmm.S(), 1) == 0
  {
    hide VmInv, Grows, FlatMapped, Preallocated, AllLoaded, SegmentLoaded, Accepted, InUserSpace, Loads, KeptOutside;
    hide SegmentOk, SegmentPageCount, PageStart, SegmentFlags, AllocResult;
    ghost var s, t := vm.pmm.S(), vm.tables;
    GrowsSelf(s, t);
    EmptyLoads();
    NoneLoaded(s, t, d, data);
    KeptNone(s.ram, t, d);
    regions := [];
    for i := 0 to |ps|
      invariant vm.Valid() && Preallocated(vm.tables) && Root(d) in vm.tables && vm.tables[Root(d)] == root
      invariant Grows(s, t, vm.pmm.S(), vm.tables) && |regions| == |Loads(ps[..i])|
      invariant AllLoaded(vm.pmm.S(), vm.tables, d, data, Loads(ps[..i]), regions)
      invariant KeptOutside(s.ram, t, vm.pmm.ram, vm.tables, d, Loads(ps[..i]))
    {
      LoadsStep(ps, i);
      if !IsLoad(ps[i]) {
        assert Loads(ps[..i]) + [] == Loads(ps[..i]);
        continue;
      }
      ghost var s1, t1, ls := vm.pmm.S(), vm.tables, Loads(ps[..i]);
      PrefixAccepted(ps, i + 1, |data|);
      LastAccepted(ls, ps[i], |data|);
      LoadsTake(ps, i, |ls|);
      ghost var r;
      o, r := LoadSegment(vm, data, ps[i], root, d);
      GrowsTwice(s, t, s1, t1, vm.pmm.S(), vm.tables);
      if o != Done {
        return;
      }
      GrownTables(s1, t1, vm.pmm.S(), vm.tables);
      NextLoaded(s1, t1, vm.pmm.S(), vm.tables, d, data, ls, regions, ps[i], r);
      KeptNext(s.ram, t, s1.ram, t1, vm.pmm.ram, vm.tables, d, ls, ps[i], r);
      regions := regions + [r];
    }
    assert ps[..|ps|] == ps && Loads(ps)[..|regions|] == Loads(ps);
    o := Done;
  }

  lemma NoneLoaded(s: State, t: Tables, d: nat, data: seq<byte>)
    ensures AllLoaded(s, t, d, data, [], [])
  {
  }

  lemma PrefixAccepted(ps: seq<Header>, n: nat, size: nat)
    requires n <= |ps| && Accepted(Loads(ps), size) && InUserSpace(Loads(ps))
    ensures Accepted(Loads(ps[..n]), size) && InUserSpace(Loads(ps[..n]))
  {
    LoadsPrefix(ps, n);
    hide Loads, SegmentOk, PageEnd, PageStart;
    var ls, ls' := Loads(ps), Loads(ps[..n]);
    assert forall i | 0 <= i < |ls'| :: ls'[i] == ls[..|ls'|][i] == ls[i];
  }

  lemma LastAccepted(ls: seq<Header>, p: Header, size: nat)
    requires Accepted(ls + [p], size) && InUserSpace(ls + [p])
    ensures SegmentOk(p, size) && p.vaddr <= USER_ADDR_END
  {
    assert (ls + [p])[|ls|] == p;
  }

  /** What the process sees at `p_vaddr + j`: the walk from `root` over the table words in memory ends in a leaf that is
      present, is open to user mode, and has the write and execute permission of the header, and the page behind it
      holds the file's byte there, or zero past `p_filesz`. */
  ghost predicate ReadsAs(ram: seq<u64>, root: nat, data: seq<byte>, p: Header, j: nat) {
    var va := p.vaddr + j;
    var pt := WalkPt(ram, root, PageOf(va));
    && pt != 0 && Permits(Entry(ram, pt, PageOf(va).i1), p)
    && p.offset + p.filesz <= |data|
    && ByteAt(ram, Translate(Entry(ram, pt, PageOf(va).i1), va)) == if j < p.filesz then data[p.offset + j] else 0
  }

  /** Every byte of every segment reads as the file says. */
  ghost predicate Faithful(ram: seq<u64>, root: nat, data: seq<byte>, ls: seq<Header>) {
    forall i: nat, j: nat {:trigger ReadsAs(ram, root, data, ls[i], j)} | i < |ls| && j < ls[i].memsz ::
      ReadsAs(ram, root, data, ls[i], j)
  }

  lemma SegmentReads(s: State, t: Tables, d: nat, data: seq<byte>, ls: seq<Header>, regions: seq<Region>, i: nat, j: nat)
    requires VmInv(s, t) && Root(d) in t && Accepted(ls, |data|) && InUserSpace(ls) && AllLoaded(s, t, d, data, ls, regions)
    requires i < |ls| && j < ls[i].memsz
    ensures ReadsAs(s.ram, t[Root(d)], data, ls[i], j)
  {
    hide *;
    var p, va := ls[i], ls[i].vaddr + j;
    LoadedAt(s, t, d, data, ls, regions, i);
    ValidHasInv(s, t);
    LoadedByte(s, t, d, data, p, regions[i], j);
    WalkIs(s, t, d, va);
    ReadsFrom(s.ram, t[Root(d)], data, p, j, va, WalkPt(s.ram, t[Root(d)], PageOf(va)), Flat(s.ram, t, d, PageOf(va)));
  }

  lemma LoadedAt(s: State, t: Tables, d: nat, data: seq<byte>, ls: seq<Header>, regions: seq<Region>, i: nat)
    requires Accepted(ls, |data|) && InUserSpace(ls) && AllLoaded(s, t, d, data, ls, regions) && i < |ls|
    ensures i < |regions| && SegmentOk(ls[i], |data|) && ls[i].offset + ls[i].filesz <= |data|
    ensures ls[i].vaddr <= USER_ADDR_END && SegmentLoaded(s, t, d, data, ls[i], regions[i])
  {
    hide SegmentLoaded;
  }

  lemma WalkIs(s: State, t: Tables, d: nat, va: nat)
    requires VmInv(s, t) && Root(d) in t && PtNode(d, PageOf(va)) in t
    ensures var pt := WalkPt(s.ram, t[Root(d)], PageOf(va));
      pt != 0 && Entry(s.ram, pt, PageOf(va).i1) == Flat(s.ram, t, d, PageOf(va))
  {
    assert Usable(s.ram, Region(t[PtNode(d, PageOf(va))], 1));
    PageInRange(va);
    hide Inv, TablesOk, WalkPt, PageOf, Entry, PtNode, Flat;
    WalkReadsFlat(s.ram, t, d, PageOf(va));
  }

  lemma ReadsFrom(ram: seq<u64>, root: nat, data: seq<byte>, p: Header, j: nat, va: nat, pt: nat, e: nat)
    requires va == p.vaddr + j && pt == WalkPt(ram, root, PageOf(va)) != 0 && e == Entry(ram, pt, PageOf(va).i1)
    requires Permits(e, p) && p.offset + p.filesz <= |data|
    requires ByteAt(ram, Translate(e, va)) == if j < p.filesz then data[p.offset + j] else 0
    ensures ReadsAs(ram, root, data, p, j)
  {
    hide WalkPt, PageOf, Entry, Permits, ByteAt, Translate;
  }

  /** Segments loaded into regions of their own read as the file says, through the words in memory alone. */
  lemma ImageIsFaithful(s: State, t: Tables, d: nat, data: seq<byte>, ls: seq<Header>, regions: seq<Region>)
    requires VmInv(s, t) && Root(d) in t && Accepted(ls, |data|) && InUserSpace(ls) && AllLoaded(s, t, d, data, ls, regions)
    ensures Faithful(s.ram, t[Root(d)], data, ls)
  {
    hide ReadsAs, VmInv, Accepted, InUserSpace, AllLoaded;
    forall i: nat, j: nat | i < |ls| && j < ls[i].memsz ensures ReadsAs(s.ram, t[Root(d)], data, ls[i], j) {
      SegmentReads(s, t, d, data, ls, regions, i, j);
    }
  }

  /** `elf_load`. A rejected file leaves memory alone; after a successful load every byte of every LOAD segment,
      found from the process's root as the hardware finds it, is the file's byte or zero, and no page outside the
      segments, and none of another directory, translates differently. Without memory for the next segment the ones
      before it stay mapped and outstanding. The machine halts only when not one page is left for a page table. */
  method ElfLoad(vm: PageTables, data: seq<byte>, root: u64, ghost d: nat) returns (o: Outcome, ghost regions: seq<Region>)
    requires vm.Valid() && Preallocated(vm.tables) && Root(d) in vm.tables && vm.tables[Root(d)] == root
    requires |data| < 0x1_0000_0000_0000_0000
    requires FileAccepted(data) ==> InUserSpace(Loads(Phdrs(data)))
    modifies vm, vm.pmm
    ensures vm.Valid() && Grows(old(vm.pmm.S()), old(vm.tables), vm.pmm.S(), vm.tables)
    ensures o.Invalid? <==> !FileAccepted(data)
    ensures o.Invalid? ==> vm.pmm.S() == old(vm.pmm.S()) && vm.tables == old(vm.tables)
    ensures o.Loaded? ==> |regions| == |Loads(Phdrs(data))|
    ensures o.Loaded? || o.NoMemory? ==>
      var ls := Loads(Phdrs(data));
      && |regions| <= |ls| && AllLoaded(vm.pmm.S(), vm.tables, d, data, ls[..|regions|], regions)
      && KeptOutside(old(vm.pmm.ram), old(vm.tables), vm.pmm.ram, vm.tables, d, ls[..|regions|])
    ensures o.NoMemory? ==>
      var ls := Loads(Phdrs(data));
      |regions| < |ls| && AllocResult(vm.pmm.S(), SegmentPageCount(ls[|regions|])) == 0
    ensures o.Halted? ==> AllocResult(vm.pmm.S(), 1) == 0
    ensures o.Loaded? ==> Faithful(vm.pmm.ram, root, data, Loads(Phdrs(data)))
    ensures o.Loaded? ==> var h, ls := ReadEhdr(data), Loads(Phdrs(data));
      o == Loaded(h.entry, ls[0].vaddr, MaxEnd(ls), h.phnum, h.phentsize)
  {
    assert FileAccepted(data) ==> HeaderOk(data) && Accepted(Loads(Phdrs(data)), |data|) && Loads(Phdrs(data)) != [];
    hide VmInv, Grows, Preallocated, AllLoaded, Accepted, InUserSpace, Loads, MaxEnd, Phdrs, HeaderOk, FileAccepted, Faithful,
         KeptOutside, AllocResult, SegmentPageCount;
    GrowsSelf(vm.pmm.S(), vm.tables);
    regions := [];
    var ok, base, end := ValidateFile(data);
    if !ok {
      return Invalid, regions;
    }
    var progress;
    progress, regions := LoadSegments(vm, data, Phdrs(data), root, d);
    match progress {
      case OutOfPages => o := NoMemory;
      case Panic => o := Halted;
      case Done =>
        GrownTables(old(vm.pmm.S()), old(vm.tables), vm.pmm.S(), vm.tables);
        assert Loads(Phdrs(data))[..|regions|] == Loads(Phdrs(data));
        ImageIsFaithful(vm.pmm.S(), vm.tables, d, data, Loads(Phdrs(data)), regions);
        var h := ReadEhdr(data);
        o := Loaded(h.entry, base, end, h.phnum, h.phentsize);
    }
  }
}
