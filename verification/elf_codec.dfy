/** The ELF64 file layout as an encoder, and what it takes for an encoded file to be accepted. */
module ElfCodec {
  import opened Bytes
  import opened Elf

  /** `v` in `n` bytes, low byte first. */
  function Le(v: nat, n: nat): (bytes: seq<byte>)
    ensures |bytes| == n
  {
    if n == 0 then [] else [v % 256] + Le(v / 256, n - 1)
  }

  /** Bytes `off` to `off + |bytes|` of the file. */
  ghost predicate Holds(data: seq<byte>, off: nat, bytes: seq<byte>) {
    off + |bytes| <= |data| && data[off..off + |bytes|] == bytes
  }

  lemma {:induction false} FieldOfLe(data: seq<byte>, off: nat, v: nat, n: nat)
    requires v < Top(n) && Holds(data, off, Le(v, n))
    ensures Field(data, off, n) == v
    decreases n
  {
    if n > 0 {
      var rest := Le(v / 256, n - 1);
      assert data[off..off + n] == [v % 256] + rest;
      assert data[off] == data[off..off + n][0];
      assert data[off + 1..off + 1 + (n - 1)] == data[off..off + n][1..] == rest;
      FieldOfLe(data, off + 1, v / 256, n - 1);
    }
  }

  /** And back: a field's value encodes to the very bytes it was read from. */
  lemma {:induction false} LeOfField(data: seq<byte>, off: nat, n: nat)
    requires off + n <= |data|
    ensures Le(Field(data, off, n), n) == data[off..off + n]
    decreases n
  {
    if n > 0 {
      LeOfField(data, off + 1, n - 1);
      var rest := Field(data, off + 1, n - 1);
      LowByte(data[off], rest);
      assert data[off..off + n] == [data[off]] + data[off + 1..off + 1 + (n - 1)];
    }
  }

  lemma LowByte(b: byte, rest: nat)
    ensures (b + 256 * rest) % 256 == b && (b + 256 * rest) / 256 == rest
  {
  }

  /** Word memory is little-endian too: byte `k` of a word is byte `k` of its encoding. */
  lemma {:induction false} WordBytes(w: nat, n: nat, k: nat)
    requires k < n
    ensures Le(w, n)[k] == ByteOf(w, k)
  {
    if k > 0 {
      WordBytes(w / 256, n - 1, k - 1);
    }
  }

  lemma HoldsParts(data: seq<byte>, off: nat, a: seq<byte>, b: seq<byte>)
    requires Holds(data, off, a + b)
    ensures Holds(data, off, a) && Holds(data, off + |a|, b)
  {
    var s := data[off..off + |a + b|];
    assert data[off..off + |a|] == s[..|a|] == a;
    assert data[off + |a|..off + |a| + |b|] == s[|a|..] == b;
  }

  lemma HoldsJoin(data: seq<byte>, off: nat, a: seq<byte>, b: seq<byte>)
    requires Holds(data, off, a) && Holds(data, off + |a|, b)
    ensures Holds(data, off, a + b)
  {
    assert data[off..off + |a + b|] == data[off..off + |a|] + data[off + |a|..off + |a| + |b|];
  }

  /** The field at `off`, in front of bytes already known. */
  lemma HoldsField(data: seq<byte>, off: nat, n: nat, b: seq<byte>)
    requires off + n <= |data| && Holds(data, off + n, b)
    ensures Holds(data, off, Le(Field(data, off, n), n) + b)
  {
    LeOfField(data, off, n);
    hide Le, Field;
    HoldsJoin(data, off, Le(Field(data, off, n), n), b);
  }

  // Program headers.

  /** A program header and the two fields of it that the loader never reads. */
  datatype Record = Record(header: Header, paddr: nat, align: nat)

  predicate RecordFits(r: Record) {
    r.header.ptype < 0x1_0000_0000 && r.header.flags < 0x1_0000_0000
  }

  function EncodePhdr(r: Record): (bytes: seq<byte>)
    ensures |bytes| == 56
  {
    var p := r.header;
    Le(p.ptype, 4) + (Le(p.flags, 4) + (Le(p.offset, 8) + (Le(p.vaddr, 8) +
      (Le(r.paddr, 8) + (Le(p.filesz, 8) + (Le(p.memsz, 8) + Le(r.align, 8)))))))
  }

  lemma PhdrFields(data: seq<byte>, off: nat, r: Record)
    requires Holds(data, off, EncodePhdr(r))
    ensures Holds(data, off, Le(r.header.ptype, 4)) && Holds(data, off + 4, Le(r.header.flags, 4))
    ensures Holds(data, off + 8, Le(r.header.offset, 8)) && Holds(data, off + 16, Le(r.header.vaddr, 8))
    ensures Holds(data, off + 32, Le(r.header.filesz, 8)) && Holds(data, off + 40, Le(r.header.memsz, 8))
  {
    var p := r.header;
    var f7 := Le(r.align, 8);
    var f6 := Le(p.memsz, 8) + f7;
    var f5 := Le(p.filesz, 8) + f6;
    var f4 := Le(r.paddr, 8) + f5;
    var f3 := Le(p.vaddr, 8) + f4;
    var f2 := Le(p.offset, 8) + f3;
    var f1 := Le(p.flags, 4) + f2;
    assert EncodePhdr(r) == Le(p.ptype, 4) + f1;
    hide Holds, EncodePhdr, Le;
    HoldsParts(data, off, Le(p.ptype, 4), f1);
    HoldsParts(data, off + 4, Le(p.flags, 4), f2);
    HoldsParts(data, off + 8, Le(p.offset, 8), f3);
    HoldsParts(data, off + 16, Le(p.vaddr, 8), f4);
    HoldsParts(data, off + 24, Le(r.paddr, 8), f5);
    HoldsParts(data, off + 32, Le(p.filesz, 8), f6);
    HoldsParts(data, off + 40, Le(p.memsz, 8), f7);
  }

  /** A program header reads back from wherever it lies in the file. */
  lemma PhdrReads(data: seq<byte>, off: nat, r: Record)
    requires RecordFits(r) && Holds(data, off, EncodePhdr(r))
    ensures off + 56 <= |data| && ReadPhdr(data, off) == r.header
  {
    var p := r.header;
    PhdrFields(data, off, r);
    TopOfFields();
    hide EncodePhdr, Le, Field, Top;
    FieldOfLe(data, off, p.ptype, 4);
    FieldOfLe(data, off + 4, p.flags, 4);
    FieldOfLe(data, off + 8, p.offset, 8);
    FieldOfLe(data, off + 16, p.vaddr, 8);
    FieldOfLe(data, off + 32, p.filesz, 8);
    FieldOfLe(data, off + 40, p.memsz, 8);
  }

  lemma PhdrRoundTrip(a: seq<byte>, r: Record, b: seq<byte>)
    requires RecordFits(r)
    ensures ReadPhdr(a + EncodePhdr(r) + b, |a|) == r.header
  {
    var data := a + EncodePhdr(r) + b;
    assert data[|a|..|a| + 56] == EncodePhdr(r);
    hide EncodePhdr, RecordFits;
    PhdrReads(data, |a|, r);
  }

  /** The record at `off`, all eight fields of it. */
  function ReadRecord(data: seq<byte>, off: nat): Record
    requires off + 56 <= |data|
  {
    Record(ReadPhdr(data, off), Field(data, off + 24, 8), Field(data, off + 48, 8))
  }

  /** And back: encoding what was read gives the bytes of the file. */
  lemma RecordWritesBack(data: seq<byte>, off: nat)
    requires off + 56 <= |data|
    ensures RecordFits(ReadRecord(data, off)) && Holds(data, off, EncodePhdr(ReadRecord(data, off)))
  {
    TopOfFields();
    LeOfField(data, off + 48, 8);
    hide Le, Field, Top;
    var f7 := Le(Field(data, off + 48, 8), 8);
    HoldsField(data, off + 40, 8, f7);
    var f6 := Le(Field(data, off + 40, 8), 8) + f7;
    HoldsField(data, off + 32, 8, f6);
    var f5 := Le(Field(data, off + 32, 8), 8) + f6;
    HoldsField(data, off + 24, 8, f5);
    var f4 := Le(Field(data, off + 24, 8), 8) + f5;
    HoldsField(data, off + 16, 8, f4);
    var f3 := Le(Field(data, off + 16, 8), 8) + f4;
    HoldsField(data, off + 8, 8, f3);
    var f2 := Le(Field(data, off + 8, 8), 8) + f3;
    HoldsField(data, off + 4, 4, f2);
    HoldsField(data, off, 4, Le(Field(data, off + 4, 4), 4) + f2);
    hide Holds;
  }

  // The file header.

  /** The file header's fields that the loader never reads. */
  datatype Unread = Unread(version: nat, shoff: nat, flags: nat, ehsize: nat, shentsize: nat, shnum: nat, shstrndx: nat)

  predicate EhdrFits(h: Ehdr) {
    && |h.ident| == 16 && h.etype < 0x1_0000 && h.machine < 0x1_0000 && h.entry < 0x1_0000_0000_0000_0000
    && h.phoff < 0x1_0000_0000_0000_0000 && h.phentsize < 0x1_0000 && h.phnum < 0x1_0000
  }

  function EncodeEhdr(h: Ehdr, x: Unread): (bytes: seq<byte>)
    requires |h.ident| == 16
    ensures |bytes| == 64
  {
    h.ident + (Le(h.etype, 2) + (Le(h.machine, 2) + (Le(x.version, 4) + (Le(h.entry, 8) + (Le(h.phoff, 8) +
      (Le(x.shoff, 8) + (Le(x.flags, 4) + (Le(x.ehsize, 2) + (Le(h.phentsize, 2) + (Le(h.phnum, 2) +
      (Le(x.shentsize, 2) + (Le(x.shnum, 2) + Le(x.shstrndx, 2)))))))))))))
  }

  lemma EhdrFields(data: seq<byte>, h: Ehdr, x: Unread)
    requires |h.ident| == 16 && Holds(data, 0, EncodeEhdr(h, x))
    ensures Holds(data, 0, h.ident) && Holds(data, 16, Le(h.etype, 2)) && Holds(data, 18, Le(h.machine, 2))
    ensures Holds(data, 24, Le(h.entry, 8)) && Holds(data, 32, Le(h.phoff, 8))
    ensures Holds(data, 54, Le(h.phentsize, 2)) && Holds(data, 56, Le(h.phnum, 2))
  {
    var f11 := Le(x.shentsize, 2) + (Le(x.shnum, 2) + Le(x.shstrndx, 2));
    var f10 := Le(h.phnum, 2) + f11;
    var f9 := Le(h.phentsize, 2) + f10;
    var f8 := Le(x.ehsize, 2) + f9;
    var f7 := Le(x.flags, 4) + f8;
    var f6 := Le(x.shoff, 8) + f7;
    var f5 := Le(h.phoff, 8) + f6;
    var f4 := Le(h.entry, 8) + f5;
    var f3 := Le(x.version, 4) + f4;
    var f2 := Le(h.machine, 2) + f3;
    var f1 := Le(h.etype, 2) + f2;
    assert EncodeEhdr(h, x) == h.ident + f1;
    hide Holds, EncodeEhdr, Le;
    HoldsParts(data, 0, h.ident, f1);
    HoldsParts(data, 16, Le(h.etype, 2), f2);
    HoldsParts(data, 18, Le(h.machine, 2), f3);
    HoldsParts(data, 20, Le(x.version, 4), f4);
    HoldsParts(data, 24, Le(h.entry, 8), f5);
    HoldsParts(data, 32, Le(h.phoff, 8), f6);
    HoldsParts(data, 40, Le(x.shoff, 8), f7);
    HoldsParts(data, 48, Le(x.flags, 4), f8);
    HoldsParts(data, 52, Le(x.ehsize, 2), f9);
    HoldsParts(data, 54, Le(h.phentsize, 2), f10);
    HoldsParts(data, 56, Le(h.phnum, 2), f11);
  }

  /** The file header reads back from the front of the file. */
  lemma EhdrRoundTrip(h: Ehdr, x: Unread, data: seq<byte>)
    requires EhdrFits(h) && Holds(data, 0, EncodeEhdr(h, x))
    ensures |data| >= 64 && ReadEhdr(data) == h
  {
    EhdrFields(data, h, x);
    TopOfFields();
    hide EncodeEhdr, Le, Field, Top;
    FieldOfLe(data, 16, h.etype, 2);
    FieldOfLe(data, 18, h.machine, 2);
    FieldOfLe(data, 24, h.entry, 8);
    FieldOfLe(data, 32, h.phoff, 8);
    FieldOfLe(data, 54, h.phentsize, 2);
    FieldOfLe(data, 56, h.phnum, 2);
    assert data[..16] == data[0..16];
  }

  function ReadUnread(data: seq<byte>): Unread
    requires |data| >= 64
  {
    Unread(Field(data, 20, 4), Field(data, 40, 8), Field(data, 48, 4), Field(data, 52, 2), Field(data, 58, 2),
           Field(data, 60, 2), Field(data, 62, 2))
  }

  /** And back. */
  lemma EhdrWritesBack(data: seq<byte>)
    requires |data| >= 64
    ensures EhdrFits(ReadEhdr(data)) && Holds(data, 0, EncodeEhdr(ReadEhdr(data), ReadUnread(data)))
  {
    TopOfFields();
    LeOfField(data, 62, 2);
    hide Le, Field, Top;
    var g := Le(Field(data, 62, 2), 2);
    HoldsField(data, 60, 2, g);
    var f12 := Le(Field(data, 60, 2), 2) + g;
    HoldsField(data, 58, 2, f12);
    var f11 := Le(Field(data, 58, 2), 2) + f12;
    HoldsField(data, 56, 2, f11);
    var f10 := Le(Field(data, 56, 2), 2) + f11;
    HoldsField(data, 54, 2, f10);
    var f9 := Le(Field(data, 54, 2), 2) + f10;
    HoldsField(data, 52, 2, f9);
    var f8 := Le(Field(data, 52, 2), 2) + f9;
    HoldsField(data, 48, 4, f8);
    var f7 := Le(Field(data, 48, 4), 4) + f8;
    HoldsField(data, 40, 8, f7);
    var f6 := Le(Field(data, 40, 8), 8) + f7;
    HoldsField(data, 32, 8, f6);
    var f5 := Le(Field(data, 32, 8), 8) + f6;
    HoldsField(data, 24, 8, f5);
    var f4 := Le(Field(data, 24, 8), 8) + f5;
    HoldsField(data, 20, 4, f4);
    var f3 := Le(Field(data, 20, 4), 4) + f4;
    HoldsField(data, 18, 2, f3);
    var f2 := Le(Field(data, 18, 2), 2) + f3;
    HoldsField(data, 16, 2, f2);
    var f1 := Le(Field(data, 16, 2), 2) + f2;
    assert data[0..16] == data[..16];
    HoldsJoin(data, 0, data[..16], f1);
    hide Holds;
  }

  // Whole files.

  datatype File = File(header: Ehdr, unread: Unread, table: seq<Record>)

  ghost predicate RecordAt(data: seq<byte>, off: nat, r: Record) {
    RecordFits(r) && Holds(data, off, EncodePhdr(r))
  }

  /** The bytes hold this file header, and its program headers `e_phentsize` apart from `e_phoff` on. */
  ghost predicate Encodes(data: seq<byte>, f: File) {
    && EhdrFits(f.header) && Holds(data, 0, EncodeEhdr(f.header, f.unread))
    && |f.table| == f.header.phnum
    && forall i | 0 <= i < |f.table| :: RecordAt(data, f.header.phoff + TableBytes(i, f.header.phentsize), f.table[i])
  }

  /** An x86-64 ELF file in little-endian 64-bit form, executable or relocatable, with a table of sane size inside the file. */
  predicate Recognised(h: Ehdr, size: nat)
    requires |h.ident| == 16
  {
    && h.ident[..6] == [0x7F, 'E' as int, 'L' as int, 'F' as int, 2, 1]
    && h.machine == 62 && h.etype in {1, 2}
    && h.phnum < 512 && 56 <= h.phentsize < 512 && h.phoff < 4294967295
    && h.phoff + h.phnum * h.phentsize <= size
  }

  lemma HeaderAccepted(data: seq<byte>, h: Ehdr, x: Unread)
    requires EhdrFits(h) && Holds(data, 0, EncodeEhdr(h, x))
    ensures HeaderOk(data) <==> Recognised(h, |data|)
  {
    EhdrRoundTrip(h, x, data);
    hide ReadEhdr, EncodeEhdr, Holds;
    var m := [0x7F, 'E' as int, 'L' as int, 'F' as int, 2, 1];
    assert h.ident[..6] == m <==> forall i | 0 <= i < 6 :: h.ident[i] == m[i];
    assert (forall i | 0 <= i < 6 :: h.ident[i] == m[i]) <==>
      h.ident[0] == m[0] && h.ident[1] == m[1] && h.ident[2] == m[2] && h.ident[3] == m[3] && h.ident[4] == m[4] && h.ident[5] == m[5];
  }

  function Headers(table: seq<Record>): seq<Header>
  {
    seq(|table|, i requires 0 <= i < |table| => table[i].header)
  }

  lemma EntryReads(data: seq<byte>, f: File, i: nat)
    requires Encodes(data, f) && HeaderOk(data) && i < |f.table|
    ensures i < ReadEhdr(data).phnum && PhdrAt(data, i) == f.table[i].header
  {
    var h := f.header;
    EhdrRoundTrip(h, f.unread, data);
    var off := h.phoff + TableBytes(i, h.phentsize);
    assert RecordAt(data, off, f.table[i]);
    hide ReadEhdr, EncodeEhdr, EncodePhdr, HeaderOk, ReadPhdr, TableBytes, Encodes;
    PhdrReads(data, off, f.table[i]);
  }

  /** The loader reads the program headers of the table, in order. */
  lemma TableReads(data: seq<byte>, f: File)
    requires Encodes(data, f) && HeaderOk(data)
    ensures Phdrs(data) == Headers(f.table)
  {
    EhdrRoundTrip(f.header, f.unread, data);
    assert |f.table| == f.header.phnum;
    hide ReadEhdr, HeaderOk, PhdrAt, Encodes;
    forall i | 0 <= i < |f.table| ensures PhdrAt(data, i) == f.table[i].header {
      EntryReads(data, f, i);
    }
  }

  /** Record `i` of the table; after the header tests it lies inside the file. */
  function RecordOf(data: seq<byte>, i: nat): Record
    requires HeaderOk(data) && i < ReadEhdr(data).phnum
  {
    hide TableBytes;
    var h := ReadEhdr(data);
    PhdrInside(h.phoff, h.phnum, h.phentsize, i, |data|);
    ReadRecord(data, h.phoff + TableBytes(i, h.phentsize))
  }

  /** The file that the bytes encode. */
  function FileOf(data: seq<byte>): File
    requires HeaderOk(data)
  {
    var n := ReadEhdr(data).phnum;
    File(ReadEhdr(data), ReadUnread(data), seq(n, i requires 0 <= i < n => RecordOf(data, i)))
  }

  lemma EntryEncodes(data: seq<byte>, h: Ehdr, i: nat)
    requires HeaderOk(data) && h == ReadEhdr(data) && i < h.phnum
    ensures RecordAt(data, h.phoff + TableBytes(i, h.phentsize), RecordOf(data, i))
  {
    hide TableBytes, RecordFits, Holds, EncodePhdr, ReadRecord, ReadEhdr;
    PhdrInside(h.phoff, h.phnum, h.phentsize, i, |data|);
    RecordWritesBack(data, h.phoff + TableBytes(i, h.phentsize));
  }

  /** Every file that passes the header tests is an encoded one, so the theorem below speaks of all files. */
  lemma EveryFileEncodes(data: seq<byte>)
    requires HeaderOk(data)
    ensures Encodes(data, FileOf(data))
  {
    var h, f := ReadEhdr(data), FileOf(data);
    EhdrWritesBack(data);
    hide HeaderOk, EncodeEhdr, RecordOf, ReadEhdr, ReadUnread, EhdrFits, RecordAt, Holds, TableBytes;
    forall i | 0 <= i < |f.table| ensures RecordAt(data, h.phoff + TableBytes(i, h.phentsize), f.table[i]) {
      EntryEncodes(data, h, i);
    }
  }

  // Acceptance, stated on the table itself.

  /** No more in the file than in memory, all of it in the file, and the whole range in user space past page 0. */
  predicate Loadable(p: Header, size: nat) {
    p.filesz <= p.memsz && p.offset + p.filesz <= size && 4096 <= p.vaddr && p.vaddr + p.memsz <= 0x8000_0000_0000
  }

  ghost predicate LoadAt(ps: seq<Header>, i: int) {
    0 <= i < |ps| && ps[i].ptype == 1
  }

  /** Segments of type LOAD (1) fit, and no later one starts on or before the last page of an earlier one. */
  ghost predicate Ordered(ps: seq<Header>, size: nat) {
    && (forall i | LoadAt(ps, i) :: Loadable(ps[i], size))
    && (forall i, j | LoadAt(ps, i) && LoadAt(ps, j) && i < j :: (ps[i].vaddr + ps[i].memsz + 4095) / 4096 <= ps[j].vaddr / 4096)
  }

  /** Besides, the entry point is at or past the start of one and before the end of one. */
  ghost predicate Runnable(ps: seq<Header>, entry: nat, size: nat) {
    && Ordered(ps, size)
    && (exists i | LoadAt(ps, i) :: ps[i].vaddr <= entry)
    && (exists i | LoadAt(ps, i) :: entry < ps[i].vaddr + ps[i].memsz)
  }

  ghost predicate StartsInUserSpace(ps: seq<Header>) {
    forall i | LoadAt(ps, i) :: ps[i].vaddr <= 0x8000_0000_0000
  }

  /** The positions of the LOAD headers. */
  ghost function Positions(ps: seq<Header>): seq<nat> {
    if ps == [] then []
    else Positions(ps[..|ps| - 1]) + if ps[|ps| - 1].ptype == 1 then [|ps| - 1] else []
  }

  lemma {:induction false} LoadsArePositions(ps: seq<Header>)
    ensures var ks, ls := Positions(ps), Loads(ps);
      && |ks| == |ls|
      && (forall a | 0 <= a < |ks| :: LoadAt(ps, ks[a]) && ls[a] == ps[ks[a]])
      && (forall a, b | 0 <= a < b < |ks| :: ks[a] < ks[b])
      && forall i | LoadAt(ps, i) :: i in ks
  {
    if ps != [] {
      var n := |ps| - 1;
      var init, ks, ls := ps[..n], Positions(ps[..n]), Loads(ps[..n]);
      LoadsArePositions(init);
      forall a | 0 <= a < |ks| ensures LoadAt(ps, ks[a]) && ls[a] == ps[ks[a]] && ks[a] < n {
        assert LoadAt(init, ks[a]);
      }
      forall i | LoadAt(ps, i) ensures i in Positions(ps) {
        assert i < n ==> LoadAt(init, i);
      }
    }
  }

  lemma SegmentLoadable(p: Header, size: nat)
    requires p.vaddr <= 0x8000_0000_0000
    ensures SegmentOk(p, size) <==> Loadable(p, size)
  {
  }

  lemma PageOrder(p: Header, q: Header)
    requires RangeOk(p) && RangeOk(q) && p.vaddr <= USER_ADDR_END && q.vaddr <= USER_ADDR_END
    ensures PageEnd(p) <= PageStart(q) <==> (p.vaddr + p.memsz + 4095) / 4096 <= q.vaddr / 4096
  {
    hide PageEnd, PageStart, AlignedSize, RangeOk, Add64;
    SegmentPages(p);
    SegmentPages(q);
    NoWrap(p);
    EndOf(p);
    hide PageOffset;
    PageNumbers(p.vaddr + p.memsz, PageEnd(p), q.vaddr, PageStart(q));
  }

  lemma PageNumbers(x: nat, up: nat, y: nat, down: nat)
    requires up % 4096 == 0 && x <= up < x + 4096 && down % 4096 == 0 && down <= y < down + 4096
    ensures up <= down <==> (x + 4095) / 4096 <= y / 4096
  {
    assert up == 4096 * ((x + 4095) / 4096) && down == 4096 * (y / 4096);
  }

  lemma LoadsInUserSpace(ps: seq<Header>)
    requires StartsInUserSpace(ps)
    ensures InUserSpace(Loads(ps))
  {
    LoadsArePositions(ps);
    var ks, ls := Positions(ps), Loads(ps);
    hide Loads, Positions;
    forall a | 0 <= a < |ls| ensures ls[a].vaddr <= USER_ADDR_END {
      assert LoadAt(ps, ks[a]);
    }
  }

  lemma OrderedIsAccepted(ps: seq<Header>, size: nat)
    requires StartsInUserSpace(ps) && Ordered(ps, size)
    ensures Accepted(Loads(ps), size)
  {
    LoadsArePositions(ps);
    var ks, ls := Positions(ps), Loads(ps);
    hide Loads, Positions, SegmentOk, Loadable, PageEnd, PageStart, RangeOk;
    forall a | 0 <= a < |ls| ensures SegmentOk(ls[a], size) && RangeOk(ls[a]) && ls[a].vaddr <= USER_ADDR_END {
      assert LoadAt(ps, ks[a]) && Loadable(ps[ks[a]], size);
      SegmentLoadable(ls[a], size);
      OkIsInRange(ls[a], size);
    }
    forall a | 0 < a < |ls| ensures PageEnd(ls[a - 1]) <= PageStart(ls[a]) {
      assert LoadAt(ps, ks[a - 1]) && LoadAt(ps, ks[a]) && ks[a - 1] < ks[a];
      PageOrder(ls[a - 1], ls[a]);
    }
  }

  lemma OkIsInRange(p: Header, size: nat)
    requires SegmentOk(p, size)
    ensures RangeOk(p)
  {
  }

  lemma AcceptedIsOrdered(ps: seq<Header>, size: nat)
    requires StartsInUserSpace(ps) && Accepted(Loads(ps), size)
    ensures Ordered(ps, size)
  {
    LoadsArePositions(ps);
    LoadsInUserSpace(ps);
    var ks, ls := Positions(ps), Loads(ps);
    hide Loads, Positions, SegmentOk, Loadable, PageEnd, PageStart, RangeOk, InUserSpace;
    forall i | LoadAt(ps, i) ensures Loadable(ps[i], size) && RangeOk(ps[i]) {
      var a :| 0 <= a < |ks| && ks[a] == i;
      assert ls[a] == ps[i] && SegmentOk(ls[a], size);
      SegmentLoadable(ps[i], size);
      OkIsInRange(ps[i], size);
    }
    forall i, j | LoadAt(ps, i) && LoadAt(ps, j) && i < j
      ensures (ps[i].vaddr + ps[i].memsz + 4095) / 4096 <= ps[j].vaddr / 4096
    {
      var a :| 0 <= a < |ks| && ks[a] == i;
      var b :| 0 <= b < |ks| && ks[b] == j;
      assert ls[a] == ps[i] && ls[b] == ps[j];
      SegmentsAscend(ls, size, a, b);
      PageOrder(ps[i], ps[j]);
    }
  }

  /** The bounds of the image, for the entry test. */
  lemma EntryInside(ps: seq<Header>, entry: nat, size: nat)
    requires StartsInUserSpace(ps) && Accepted(Loads(ps), size)
    ensures Loads(ps) != [] && Loads(ps)[0].vaddr <= entry < MaxEnd(Loads(ps)) <==>
      && (exists i | LoadAt(ps, i) :: ps[i].vaddr <= entry)
      && (exists i | LoadAt(ps, i) :: entry < ps[i].vaddr + ps[i].memsz)
  {
    LoadsArePositions(ps);
    LoadsInUserSpace(ps);
    var ks, ls := Positions(ps), Loads(ps);
    hide Loads, Positions, SegmentOk, MaxEnd, Accepted, InUserSpace, StartsInUserSpace;
    if ls != [] {
      ImageBounds(ls, size);
      var m :| 0 <= m < |ls| && MaxEnd(ls) == ls[m].vaddr + ls[m].memsz;
      assert LoadAt(ps, ks[0]) && LoadAt(ps, ks[m]) && ls[0] == ps[ks[0]] && ls[m] == ps[ks[m]];
      forall i | LoadAt(ps, i) ensures ls[0].vaddr <= ps[i].vaddr && ps[i].vaddr + ps[i].memsz <= MaxEnd(ls) {
        var a :| 0 <= a < |ks| && ks[a] == i;
        assert ls[a] == ps[i];
      }
    }
  }

  /** Acceptance: a file laid out in the ELF64 format, with its LOAD segments starting in user space, is accepted exactly
      when its header is recognised and its segments can be run. */
  lemma FileIsAccepted(data: seq<byte>, f: File)
    requires Encodes(data, f) && StartsInUserSpace(Headers(f.table))
    ensures FileAccepted(data) <==>
      Recognised(f.header, |data|) && Runnable(Headers(f.table), f.header.entry, |data|)
  {
    var ps, h := Headers(f.table), f.header;
    HeaderAccepted(data, h, f.unread);
    if HeaderOk(data) {
      EhdrRoundTrip(h, f.unread, data);
      TableReads(data, f);
      hide HeaderOk, Encodes, Phdrs, Headers, Accepted, Loads, MaxEnd, LoadAt, Ordered, StartsInUserSpace;
      hide ReadEhdr, Recognised, Loadable;
      if Accepted(Loads(ps), |data|) {
        AcceptedIsOrdered(ps, |data|);
        EntryInside(ps, h.entry, |data|);
      }
      if Ordered(ps, |data|) {
        OrderedIsAccepted(ps, |data|);
      }
    }
  }
}
