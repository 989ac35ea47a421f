/** The ELF64 header checks and the validation pass of the loader. */
module Elf {
  import opened Bits
  import opened Bytes

  const USER_ADDR_END: nat := 0x8000_0000_0000

  datatype Ehdr = Ehdr(ident: seq<byte>, etype: nat, machine: nat, entry: nat, phoff: nat, phentsize: nat, phnum: nat)

  datatype Phdr = Phdr(ptype: nat, flags: nat, offset: nat, vaddr: nat, filesz: nat, memsz: nat)

  function ReadEhdr(data: seq<byte>): (h: Ehdr)
    requires |data| >= 64
    ensures |h.ident| == 16
  {
    Ehdr(data[..16], Field(data, 16, 2), Field(data, 18, 2), Field(data, 24, 8), Field(data, 32, 8),
         Field(data, 54, 2), Field(data, 56, 2))
  }

  /** Fields of a program header fit their 64 bits. */
  predicate Sized(p: Phdr) {
    && p.offset < 0x1_0000_0000_0000_0000 && p.vaddr < 0x1_0000_0000_0000_0000
    && p.filesz < 0x1_0000_0000_0000_0000 && p.memsz < 0x1_0000_0000_0000_0000
  }

  type Header = p: Phdr | Sized(p) witness Phdr(0, 0, 0, 0, 0, 0)

  function ReadPhdr(data: seq<byte>, off: nat): Header
    requires off + 56 <= |data|
  {
    TopOfFields();
    Phdr(Field(data, off, 4), Field(data, off + 4, 4), Field(data, off + 8, 8), Field(data, off + 16, 8),
         Field(data, off + 32, 8), Field(data, off + 40, 8))
  }

  predicate CheckFile(h: Ehdr)
    requires |h.ident| == 16
  {
    h.ident[0] == 0x7F && h.ident[1] == 0x45 && h.ident[2] == 0x4C && h.ident[3] == 0x46
  }

  predicate CheckSupported(h: Ehdr)
    requires |h.ident| == 16
  {
    && h.ident[4] == 2 && h.ident[5] == 1 && h.machine == 0x3E
    && (h.etype == 2 || h.etype == 1)
    && h.phnum < 512 && h.phentsize < 512 && h.phoff < 0xFFFF_FFFF
  }

  /** All tests made before the program headers are read. */
  predicate HeaderOk(data: seq<byte>) {
    && |data| >= 64
    && var h := ReadEhdr(data);
       CheckFile(h) && CheckSupported(h) && h.phentsize >= 56 && h.phoff + TableBytes(h.phnum, h.phentsize) <= |data|
  }

  /** The size of `n` program headers. */
  function TableBytes(n: nat, phentsize: nat): nat {
    n * phentsize
  }

  lemma PhdrInside(phoff: nat, phnum: nat, phentsize: nat, i: nat, size: nat)
    requires i < phnum && phentsize >= 56 && phoff + TableBytes(phnum, phentsize) <= size
    ensures phoff + TableBytes(i, phentsize) + 56 <= size
  {
    MulMonotone(i + 1, phnum, phentsize);
    assert (i + 1) * phentsize == i * phentsize + phentsize;
  }

  /** Program header `i`; after the header tests it lies inside the buffer. */
  function PhdrAt(data: seq<byte>, i: nat): Header
    requires HeaderOk(data) && i < ReadEhdr(data).phnum
  {
    hide TableBytes;
    var h := ReadEhdr(data);
    PhdrInside(h.phoff, h.phnum, h.phentsize, i, |data|);
    ReadPhdr(data, h.phoff + TableBytes(i, h.phentsize))
  }

  /** All program headers, in file order. */
  function Phdrs(data: seq<byte>): seq<Header>
    requires HeaderOk(data)
  {
    seq(ReadEhdr(data).phnum, i requires 0 <= i < ReadEhdr(data).phnum => PhdrAt(data, i))
  }

  // 64-bit arithmetic, as the loader does it.

  function Add64(a: nat, b: nat): u64 {
    (a + b) % 0x1_0000_0000_0000_0000
  }

  function Sub64(a: u64, b: u64): u64 {
    if a >= b then a - b else a + 0x1_0000_0000_0000_0000 - b
  }

  predicate IsLoad(p: Phdr) {
    p.ptype == 1
  }

  /** The virtual range test. */
  predicate RangeOk(p: Header) {
    p.vaddr >= 0x1000 && p.memsz <= Sub64(USER_ADDR_END, p.vaddr)
  }

  /** The test keeps a segment inside user space exactly when it starts there: past the end the subtraction wraps. */
  lemma RangeOkMeans(p: Header)
    requires RangeOk(p)
    ensures p.vaddr + p.memsz <= USER_ADDR_END <==> p.vaddr <= USER_ADDR_END
  {
  }

  lemma RangeTestWraps()
    ensures var p := Phdr(1, 0, 0, USER_ADDR_END + 1, 0, 1);
      RangeOk(p) && p.vaddr + p.memsz > USER_ADDR_END
  {
  }

  predicate SegmentOk(p: Header, size: nat) {
    p.filesz <= p.memsz && p.offset <= size && p.filesz <= size - p.offset && RangeOk(p)
  }

  function PageStart(p: Header): nat {
    AlignDown(p.vaddr)
  }

  function PageEnd(p: Header): nat {
    AlignUp(Add64(p.vaddr, p.memsz))
  }

  /** The LOAD headers, in file order. */
  function Loads(ps: seq<Header>): seq<Header> {
    if ps == [] then []
    else
      var last := ps[|ps| - 1];
      Loads(ps[..|ps| - 1]) + if IsLoad(last) then [last] else []
  }

  /** Every LOAD segment passes its own tests and starts no earlier than the page where its predecessor ends. */
  ghost predicate Accepted(ls: seq<Header>, size: nat) {
    && (forall i | 0 <= i < |ls| :: SegmentOk(ls[i], size))
    && (forall i | 0 < i < |ls| :: PageEnd(ls[i - 1]) <= PageStart(ls[i]))
  }

  function MaxEnd(ls: seq<Header>): u64 {
    if ls == [] then 0
    else
      var rest, e := MaxEnd(ls[..|ls| - 1]), Add64(ls[|ls| - 1].vaddr, ls[|ls| - 1].memsz);
      if e > rest then e else rest
  }

  lemma {:induction false} LoadsPrefix(ps: seq<Header>, n: nat)
    requires n <= |ps|
    ensures |Loads(ps[..n])| <= |Loads(ps)| && Loads(ps)[..|Loads(ps[..n])|] == Loads(ps[..n])
  {
    if n < |ps| {
      var m := |ps| - 1;
      LoadsPrefix(ps[..m], n);
      assert ps[..m][..n] == ps[..n];
    } else {
      assert ps[..n] == ps;
    }
  }

  lemma LoadsStep(ps: seq<Header>, i: nat)
    requires i < |ps|
    ensures Loads(ps[..i + 1]) == Loads(ps[..i]) + if IsLoad(ps[i]) then [ps[i]] else []
  {
    assert ps[..i + 1][..i] == ps[..i];
  }

  lemma AcceptedStep(ls: seq<Header>, p: Header, size: nat)
    ensures Accepted(ls + [p], size) <==>
      Accepted(ls, size) && SegmentOk(p, size) && (ls != [] ==> PageEnd(ls[|ls| - 1]) <= PageStart(p))
  {
    var ls' := ls + [p];
    assert forall i | 0 <= i < |ls| :: ls'[i] == ls[i];
    assert ls'[|ls|] == p;
    if Accepted(ls', size) {
      assert SegmentOk(ls'[|ls|], size);
      assert ls != [] ==> PageEnd(ls'[|ls| - 1]) <= PageStart(ls'[|ls|]);
    }
  }

  lemma MaxEndStep(ls: seq<Header>, p: Header)
    ensures var e := Add64(p.vaddr, p.memsz);
      MaxEnd(ls + [p]) == if e > MaxEnd(ls) then e else MaxEnd(ls)
  {
    assert (ls + [p])[..|ls|] == ls;
  }

  lemma {:induction false} NotAccepted(ps: seq<Header>, n: nat, size: nat)
    requires n <= |ps| && !Accepted(Loads(ps[..n]), size)
    ensures !Accepted(Loads(ps), size)
  {
    LoadsPrefix(ps, n);
    var ls, ls' := Loads(ps), Loads(ps[..n]);
    assert forall i | 0 <= i < |ls'| :: ls'[i] == ls[..|ls'|][i] == ls[i];
  }

  /** The first loop of `elf_load`. */
  method ValidateSegments(ps: seq<Header>, size: u64) returns (ok: bool, found: bool, base: u64, end: u64)
    ensures ok <==> Accepted(Loads(ps), size)
    ensures ok ==> found == (Loads(ps) != []) && end == MaxEnd(Loads(ps)) && (found ==> base == Loads(ps)[0].vaddr)
  {
    assert Accepted([], size);
    hide Add64, AlignDown, AlignUp, RangeOk, Accepted, Loads, MaxEnd;
    var prevPageEnd: nat := 0;
    found, base, end := false, 0, 0;
    ghost var ls: seq<Header> := [];
    EmptyLoads();
    for i := 0 to |ps|
      invariant ls == Loads(ps[..i]) && Accepted(ls, size) && found == (ls != []) && end == MaxEnd(ls)
      invariant found ==> base == ls[0].vaddr && prevPageEnd == PageEnd(ls[|ls| - 1])
    {
      var p := ps[i];
      LoadsStep(ps, i);
      if !IsLoad(p) {
        assert ls + [] == ls;
        continue;
      }
      AcceptedStep(ls, p, size);
      MaxEndStep(ls, p);
      ls := ls + [p];
      if p.filesz > p.memsz || p.offset > size || p.filesz > size - p.offset || !RangeOk(p) {
        NotAccepted(ps, i + 1, size);
        return false, false, 0, 0;
      }
      if found && AlignDown(p.vaddr) < prevPageEnd {
        NotAccepted(ps, i + 1, size);
        return false, false, 0, 0;
      }
      prevPageEnd := AlignUp(Add64(p.vaddr, p.memsz));
      if !found {
        base, found := p.vaddr, true;
      }
      if Add64(p.vaddr, p.memsz) > end {
        end := Add64(p.vaddr, p.memsz);
      }
    }
    assert ps[..|ps|] == ps;
    ok := true;
  }

  lemma EmptyLoads()
    ensures Loads([]) == [] && MaxEnd([]) == 0
  {
  }

  /** Everything `elf_load` demands of a file before it touches memory. */
  ghost predicate FileAccepted(data: seq<byte>) {
    && HeaderOk(data)
    && var ls, entry := Loads(Phdrs(data)), ReadEhdr(data).entry;
       Accepted(ls, |data|) && ls != [] && ls[0].vaddr <= entry < MaxEnd(ls)
  }

  /** The tests of `elf_load` up to its second loop. */
  method ValidateFile(data: seq<byte>) returns (ok: bool, base: u64, end: u64)
    requires |data| < 0x1_0000_0000_0000_0000
    ensures ok <==> FileAccepted(data)
    ensures ok ==> base == Loads(Phdrs(data))[0].vaddr && end == MaxEnd(Loads(Phdrs(data)))
  {
    hide Accepted, Loads, MaxEnd, Phdrs, TableBytes, CheckFile, CheckSupported, Field;
    if |data| < 64 {
      return false, 0, 0;
    }
    var h := ReadEhdr(data);
    if !CheckFile(h) || !CheckSupported(h) {
      return false, 0, 0;
    }
    if h.phentsize < 56 || h.phoff + TableBytes(h.phnum, h.phentsize) > |data| {
      return false, 0, 0;
    }
    var found;
    ok, found, base, end := ValidateSegments(Phdrs(data), |data|);
    if !ok || !found || h.entry < base || h.entry >= end {
      return false, 0, 0;
    }
  }

  // What acceptance guarantees for headers that start in user space.

  ghost predicate InUserSpace(ls: seq<Header>) {
    forall i | 0 <= i < |ls| :: ls[i].vaddr <= USER_ADDR_END
  }

  function PageOffset(p: Header): nat {
    p.vaddr % 0x1000
  }

  /** The size in bytes of the page run the second loop allocates. */
  function AlignedSize(p: Header): nat {
    AlignUp(Add64(p.memsz, PageOffset(p)))
  }

  lemma NoWrap(p: Header)
    requires RangeOk(p) && p.vaddr <= USER_ADDR_END
    ensures p.vaddr + p.memsz <= USER_ADDR_END && p.vaddr >= 0x1000
    ensures Add64(p.vaddr, p.memsz) == p.vaddr + p.memsz && Add64(p.memsz, PageOffset(p)) == p.memsz + PageOffset(p)
  {
  }

  lemma SameBoundary(x: nat, y: nat, w: int)
    requires x % 0x1000 == 0 && y % 0x1000 == 0 && w <= x < w + 0x1000 && w <= y < w + 0x1000
    ensures x == y
  {
  }

  lemma StartOf(p: Header)
    requires p.vaddr >= 0x1000
    ensures PageStart(p) == p.vaddr - PageOffset(p) && PageStart(p) % 0x1000 == 0 && PageStart(p) >= 0x1000
  {
    hide AlignDown;
    AlignDownIs(p.vaddr);
    SameBoundary(AlignDown(p.vaddr), p.vaddr - p.vaddr % 0x1000, p.vaddr - 0xFFF);
  }

  lemma SizeOf(p: Header)
    requires p.memsz <= USER_ADDR_END
    ensures AlignedSize(p) % 0x1000 == 0
    ensures p.memsz + PageOffset(p) <= AlignedSize(p) < p.memsz + PageOffset(p) + 0x1000
  {
    hide AlignUp;
    AlignUpIs(p.memsz + PageOffset(p));
  }

  /** The page range tested by the first loop is the one mapped by the second, and no sum wraps. */
  lemma SegmentPages(p: Header)
    requires RangeOk(p) && p.vaddr <= USER_ADDR_END
    ensures PageStart(p) == p.vaddr - PageOffset(p) && PageStart(p) % 0x1000 == 0 && PageStart(p) >= 0x1000
    ensures AlignedSize(p) % 0x1000 == 0 && p.memsz + PageOffset(p) <= AlignedSize(p) < p.memsz + PageOffset(p) + 0x1000
    ensures PageEnd(p) == PageStart(p) + AlignedSize(p) && PageEnd(p) <= USER_ADDR_END
    ensures p.vaddr + p.memsz <= PageEnd(p) && Add64(p.vaddr, p.memsz) == p.vaddr + p.memsz
  {
    NoWrap(p);
    StartOf(p);
    SizeOf(p);
    EndOf(p);
    hide *;
    EndBoundary(p.vaddr, p.memsz, PageOffset(p), PageStart(p), AlignedSize(p), PageEnd(p));
  }

  lemma EndOf(p: Header)
    requires p.vaddr + p.memsz <= USER_ADDR_END
    ensures PageEnd(p) % 0x1000 == 0 && p.vaddr + p.memsz <= PageEnd(p) < p.vaddr + p.memsz + 0x1000
  {
    hide AlignUp;
    AlignUpIs(p.vaddr + p.memsz);
  }

  lemma EndBoundary(v: nat, m: nat, o: nat, start: nat, size: nat, end: nat)
    requires start == v - o && start % 0x1000 == 0 && size % 0x1000 == 0 && m + o <= size < m + o + 0x1000
    requires end % 0x1000 == 0 && v + m <= end < v + m + 0x1000 && v + m <= 0x8000_0000_0000
    ensures end == start + size && end <= 0x8000_0000_0000
  {
    SameBoundary(end, start + size, v + m);
  }

  /** Accepted segments occupy pairwise disjoint page ranges, in ascending order. */
  lemma {:induction false} SegmentsAscend(ls: seq<Header>, size: nat, i: nat, j: nat)
    requires Accepted(ls, size) && InUserSpace(ls) && i < j < |ls|
    ensures PageEnd(ls[i]) <= PageStart(ls[j])
  {
    hide PageEnd, PageStart, AlignedSize, RangeOk;
    assert PageEnd(ls[j - 1]) <= PageStart(ls[j]);
    if i < j - 1 {
      SegmentsAscend(ls, size, i, j - 1);
      assert SegmentOk(ls[j - 1], size);
      SegmentPages(ls[j - 1]);
    }
  }

  /** The image bounds are the true minimum and maximum over all LOAD segments. */
  lemma ImageBounds(ls: seq<Header>, size: nat)
    requires Accepted(ls, size) && InUserSpace(ls) && ls != []
    ensures forall i | 0 <= i < |ls| :: ls[0].vaddr <= ls[i].vaddr && ls[i].vaddr + ls[i].memsz <= MaxEnd(ls)
    ensures exists i | 0 <= i < |ls| :: MaxEnd(ls) == ls[i].vaddr + ls[i].memsz
  {
    hide PageEnd, PageStart, AlignedSize, RangeOk, MaxEnd, Add64;
    forall i | 0 <= i < |ls|
      ensures ls[0].vaddr <= ls[i].vaddr && Add64(ls[i].vaddr, ls[i].memsz) == ls[i].vaddr + ls[i].memsz
    {
      assert SegmentOk(ls[0], size) && SegmentOk(ls[i], size);
      SegmentPages(ls[0]);
      SegmentPages(ls[i]);
      if i > 0 {
        SegmentsAscend(ls, size, 0, i);
      }
    }
    EndIsGreatest(ls);
  }

  lemma {:induction false} EndIsGreatest(ls: seq<Header>)
    requires ls != [] && forall i | 0 <= i < |ls| :: Add64(ls[i].vaddr, ls[i].memsz) == ls[i].vaddr + ls[i].memsz
    ensures forall i | 0 <= i < |ls| :: ls[i].vaddr + ls[i].memsz <= MaxEnd(ls)
    ensures exists i | 0 <= i < |ls| :: MaxEnd(ls) == ls[i].vaddr + ls[i].memsz
  {
    var n := |ls| - 1;
    var init := ls[..n];
    assert init + [ls[n]] == ls && forall i | 0 <= i < n :: init[i] == ls[i];
    MaxEndStep(init, ls[n]);
    hide Add64, MaxEnd;
    if n > 0 {
      EndIsGreatest(init);
      var k :| 0 <= k < n && MaxEnd(init) == init[k].vaddr + init[k].memsz;
      assert MaxEnd(init) == ls[k].vaddr + ls[k].memsz;
    } else {
      EmptyLoads();
    }
    assert MaxEnd(ls) == ls[n].vaddr + ls[n].memsz || MaxEnd(ls) == MaxEnd(init);
  }
}
