/** Giving the frames of a page-table tree back to the allocator. */
module Teardown {
  import opened Bits
  import opened Pmm
  import opened Vmm

  /** The frames `free_table` gives back for entries `i` to 255 of a table, in order: below each present entry
      first the frames of the subtree, then the frame itself. */
  function Reached(ram: seq<u64>, table: nat, level: nat, i: nat): seq<nat>
    decreases level, 256 - i
  {
    if level == 0 || i >= 256 then []
    else
      var e := Entry(ram, table, i);
      if Present(e) then Reached(ram, FrameOf(e), level - 1, 0) + [FrameOf(e)] + Reached(ram, table, level, i + 1)
      else Reached(ram, table, level, i + 1)
  }

  /** What `free_table` does, in order: it looks at an entry of a table, or gives a frame back. */
  datatype Access = Look(table: nat, index: nat) | Give(frame: nat)

  function Trace(ram: seq<u64>, table: nat, level: nat, i: nat): seq<Access>
    decreases level, 256 - i
  {
    if level == 0 || i >= 256 then []
    else
      var e := Entry(ram, table, i);
      [Look(table, i)]
      + (if Present(e) then Trace(ram, FrameOf(e), level - 1, 0) + [Give(FrameOf(e))] else [])
      + Trace(ram, table, level, i + 1)
  }

  ghost predicate Distinct(fs: seq<nat>) {
    forall i, j | 0 <= i < j < |fs| :: fs[i] != fs[j]
  }

  /** The free-list nodes left by freeing single frames one after another: last freed first. */
  function Pushed(fs: seq<nat>): seq<Region> {
    if fs == [] then [] else [Region(fs[|fs| - 1], 1)] + Pushed(fs[..|fs| - 1])
  }

  lemma {:induction false} PushedConcat(fs: seq<nat>, gs: seq<nat>)
    ensures Pushed(fs + gs) == Pushed(gs) + Pushed(fs)
  {
    if gs == [] {
      assert fs + gs == fs;
    } else {
      var n := |gs| - 1;
      assert (fs + gs)[..|fs + gs| - 1] == fs + gs[..n];
      PushedConcat(fs, gs[..n]);
    }
  }

  ghost predicate InFrames(fs: seq<nat>, w: nat) {
    exists f | f in fs :: HasWord(Region(f, 1), w)
  }

  /** Only words of the frames, and the first `i` words of the table, differ. */
  ghost predicate Confined(ram: seq<u64>, ram': seq<u64>, fs: seq<nat>, table: nat, i: nat) {
    |ram'| == |ram| && forall w | 0 <= w < |ram| && ram'[w] != ram[w] ::
      InFrames(fs, w) || table / 8 <= w < table / 8 + i
  }

  ghost predicate GoodFrames(ram: seq<u64>, fs: seq<nat>) {
    forall f | f in fs :: Usable(ram, Region(f, 1))
  }

  /** The subtree below a table is read from the table and from the reached frames only. */
  lemma {:induction false} ReachedSame(ram: seq<u64>, ram': seq<u64>, table: nat, level: nat, i: nat)
    requires forall j | i <= j < 256 :: Entry(ram', table, j) == Entry(ram, table, j)
    requires forall f, j | f in Reached(ram, table, level, i) && 0 <= j < 256 :: Entry(ram', f, j) == Entry(ram, f, j)
    ensures Reached(ram', table, level, i) == Reached(ram, table, level, i)
    decreases level, 256 - i
  {
    if level > 0 && i < 256 {
      var e := Entry(ram, table, i);
      assert Entry(ram', table, i) == e;
      ReachedSame(ram, ram', table, level, i + 1);
      if Present(e) {
        ReachedSame(ram, ram', FrameOf(e), level - 1, 0);
      }
    }
  }

  lemma {:induction false} TraceSame(ram: seq<u64>, ram': seq<u64>, table: nat, level: nat, i: nat)
    requires forall j | i <= j < 256 :: Entry(ram', table, j) == Entry(ram, table, j)
    requires forall f, j | f in Reached(ram, table, level, i) && 0 <= j < 256 :: Entry(ram', f, j) == Entry(ram, f, j)
    ensures Trace(ram', table, level, i) == Trace(ram, table, level, i)
    decreases level, 256 - i
  {
    if level > 0 && i < 256 {
      var e := Entry(ram, table, i);
      assert Entry(ram', table, i) == e;
      TraceSame(ram, ram', table, level, i + 1);
      if Present(e) {
        TraceSame(ram, ram', FrameOf(e), level - 1, 0);
      }
    }
  }

  /** What `free_table` needs of a state: a free list, and frames `fs` to give back that are pairwise distinct,
      not free, not the table itself, and covered by the outstanding count. */
  ghost predicate Ready(s: State, table: nat, fs: seq<nat>) {
    && IsList(s.ram, s.head, s.free) && 8 * |s.ram| <= 0x1_0000_0000_0000
    && Usable(s.ram, Region(table, 1)) && ApartFromAll(Region(table, 1), s.free)
    && Distinct(fs) && table !in fs && GoodFrames(s.ram, fs) && |fs| <= s.refs
    && forall f | f in fs :: ApartFromAll(Region(f, 1), s.free)
  }

  ghost function Singles(fs: seq<nat>): set<Region> {
    set f | f in fs :: Region(f, 1)
  }

  /** The frames are no longer outstanding; nothing else about what is has changed. */
  ghost predicate GivenUp(s: State, s': State, fs: seq<nat>) {
    s'.out == s.out - Singles(fs) && s'.pool == s.pool && s'.empties == s.empties
  }

  lemma GivenUpTwice(s: State, s1: State, s2: State, a: seq<nat>, b: seq<nat>)
    requires GivenUp(s, s1, a) && GivenUp(s1, s2, b)
    ensures GivenUp(s, s2, a + b)
  {
    assert Singles(a + b) == Singles(a) + Singles(b);
  }

  lemma GivenUpOne(s: State, f: nat)
    ensures GivenUp(s, s.(out := s.out - {Region(f, 1)}), [f])
  {
    assert f in [f];
    assert Singles([f]) == {Region(f, 1)};
  }

  /** What it leaves: the frames on the free list, last freed first, and no longer outstanding, the count reduced, all
      other words kept. */
  ghost predicate Freed(s: State, s': State, fs: seq<nat>, table: nat, i: nat) {
    && GivenUp(s, s', fs)
    && s'.free == Pushed(fs) + s.free && s'.refs == s.refs - |fs| && |fs| <= s.refs
    && IsList(s'.ram, s'.head, s'.free) && Confined(s.ram, s'.ram, fs, table, i)
  }

  lemma FramesApart(ram: seq<u64>, f: nat, g: nat)
    requires Usable(ram, Region(f, 1)) && Usable(ram, Region(g, 1)) && f != g
    ensures Apart(Region(f, 1), Region(g, 1))
  {
  }

  lemma {:induction false} ApartFromPushed(ram: seq<u64>, f: nat, fs: seq<nat>)
    requires GoodFrames(ram, fs) && Usable(ram, Region(f, 1)) && f !in fs
    ensures ApartFromAll(Region(f, 1), Pushed(fs))
  {
    if fs != [] {
      var n := |fs| - 1;
      assert fs[n] in fs && forall g | g in fs[..n] :: g in fs;
      FramesApart(ram, f, fs[n]);
      ApartFromPushed(ram, f, fs[..n]);
    }
  }

  lemma ApartConcat(r: Region, a: seq<Region>, b: seq<Region>)
    requires ApartFromAll(r, a) && ApartFromAll(r, b)
    ensures ApartFromAll(r, a + b)
  {
  }

  /** A table or frame that is not among the freed ones keeps its words, apart from the cleared entries. */
  lemma EntryKept(ram: seq<u64>, ram': seq<u64>, fs: seq<nat>, table: nat, i: nat, g: nat, j: nat)
    requires Confined(ram, ram', fs, table, i) && GoodFrames(ram, fs) && Usable(ram, Region(g, 1)) && g !in fs && j < 512
    requires Usable(ram, Region(table, 1)) && i <= 512 && (g == table ==> j >= i)
    ensures Entry(ram', g, j) == Entry(ram, g, j)
  {
    var w := g / 8 + j;
    forall f | f in fs ensures !HasWord(Region(f, 1), w) {
      FramesApart(ram, f, g);
    }
    if g != table {
      FramesApart(ram, g, table);
    }
  }

  lemma RestReached(ram: seq<u64>, ram': seq<u64>, done: seq<nat>, table: nat, level: nat, i: nat)
    requires Confined(ram, ram', done, table, i) && i <= 256 && Usable(ram, Region(table, 1))
    requires var rest := Reached(ram, table, level, i);
      GoodFrames(ram, done + rest) && Distinct(done + rest) && table !in done + rest
    ensures Reached(ram', table, level, i) == Reached(ram, table, level, i)
    ensures Trace(ram', table, level, i) == Trace(ram, table, level, i)
  {
    var rest := Reached(ram, table, level, i);
    hide Reached, Trace, Confined, Entry, Usable;
    assert GoodFrames(ram, done) by {
      assert forall f | f in done :: f in done + rest;
    }
    forall j | i <= j < 256 ensures Entry(ram', table, j) == Entry(ram, table, j) {
      EntryKept(ram, ram', done, table, i, table, j);
    }
    forall f, j | f in rest && 0 <= j < 256 ensures Entry(ram', f, j) == Entry(ram, f, j) {
      assert f in done + rest;
      DistinctParts(done, rest, f);
      EntryKept(ram, ram', done, table, i, f, j);
    }
    ReachedSame(ram, ram', table, level, i);
    TraceSame(ram, ram', table, level, i);
  }

  lemma DistinctParts(a: seq<nat>, b: seq<nat>, f: nat)
    requires Distinct(a + b) && f in b
    ensures f !in a
  {
    var k :| 0 <= k < |b| && b[k] == f;
    assert (a + b)[|a| + k] == f;
    assert forall j | 0 <= j < |a| :: (a + b)[j] == a[j];
  }

  lemma ReadyPart(s: State, table: nat, a: seq<nat>, b: seq<nat>)
    requires Ready(s, table, a + b)
    ensures Ready(s, table, a) && Ready(s, table, b)
  {
    hide IsList, Usable, ApartFromAll;
    assert forall f | f in a :: f in a + b;
    assert forall f | f in b :: f in a + b;
    assert forall j | 0 <= j < |a| :: a[j] == (a + b)[j];
    assert forall j | 0 <= j < |b| :: b[j] == (a + b)[|a| + j];
    forall i, j | 0 <= i < j < |b| ensures b[i] != b[j] {
      assert (a + b)[|a| + i] != (a + b)[|a| + j];
    }
  }

  lemma ReadyBelow(s: State, table: nat, sub: seq<nat>, f: nat)
    requires Ready(s, table, sub + [f])
    ensures Ready(s, f, sub) && f != table && |sub| < s.refs
  {
    ReadyPart(s, table, sub, [f]);
    assert f in sub + [f] && f in [f];
    DistinctParts(sub, [f], f);
  }

  /** Once some frames have been freed, the others are still ready. */
  lemma ReadyAfter(s: State, s': State, table: nat, done: seq<nat>, rest: seq<nat>, i: nat)
    requires Ready(s, table, done + rest) && Freed(s, s', done, table, i)
    ensures Ready(s', table, rest)
  {
    ReadyPart(s, table, done, rest);
    hide IsList, Pushed, Distinct, Confined;
    ConfinedLength(s.ram, s'.ram, done, table, i);
    assert GoodFrames(s.ram, done);
    forall f | f in rest || f == table
      ensures Usable(s'.ram, Region(f, 1)) && ApartFromAll(Region(f, 1), s'.free)
    {
      if f in rest {
        DistinctParts(done, rest, f);
      }
      ApartFromPushed(s.ram, f, done);
      ApartConcat(Region(f, 1), Pushed(done), s.free);
    }
  }

  lemma ConfinedLength(ram: seq<u64>, ram': seq<u64>, fs: seq<nat>, table: nat, i: nat)
    requires Confined(ram, ram', fs, table, i)
    ensures |ram'| == |ram|
  {
  }

  /** `free` of a frame whose subtree has just been freed. */
  lemma FrameFreed(s: State, s1: State, sub: seq<nat>, f: nat, table: nat)
    requires Ready(s, f, sub) && Freed(s, s1, sub, f, 256) && |sub| < s.refs
    ensures f / 8 + 2 < |s1.ram| && Freed(s, FreeState(s1, Region(f, 1)), sub + [f], table, 0)
  {
    assert sub + [] == sub;
    ReadyAfter(s, s1, f, sub, [], 256);
    PushedConcat(sub, [f]);
    assert Pushed([f]) == [Region(f, 1)];
    hide Pushed;
    PushKeepsList(s1.ram, s1.head, s1.free, Region(f, 1));
    PushConfined(s.ram, s1.ram, s1.head, sub, f, table);
    assert Pushed(sub + [f]) + s.free == [Region(f, 1)] + (Pushed(sub) + s.free);
    GivenUpOne(s1, f);
    hide GivenUp;
    assert GivenUp(s1, FreeState(s1, Region(f, 1)), [f]) by { SameGiven(s1, FreeState(s1, Region(f, 1)), f); }
    GivenUpTwice(s, s1, FreeState(s1, Region(f, 1)), sub, [f]);
  }

  lemma SameGiven(s: State, s': State, f: nat)
    requires s'.out == s.out - {Region(f, 1)} && s'.pool == s.pool && s'.empties == s.empties
    ensures GivenUp(s, s', [f])
  {
    GivenUpOne(s, f);
  }

  lemma PushConfined(ram: seq<u64>, ram1: seq<u64>, head: nat, sub: seq<nat>, f: nat, table: nat)
    requires Confined(ram, ram1, sub, f, 256) && Usable(ram, Region(f, 1))
    ensures Confined(ram, PushRam(ram1, Region(f, 1), head), sub + [f], table, 0)
  {
    var ram2 := PushRam(ram1, Region(f, 1), head);
    forall w | 0 <= w < |ram| && ram2[w] != ram[w] ensures InFrames(sub + [f], w) {
      assert f in sub + [f];
      if ram1[w] != ram[w] && InFrames(sub, w) {
        var g :| g in sub && HasWord(Region(g, 1), w);
        assert g in sub + [f];
      } else {
        assert HasWord(Region(f, 1), w);
      }
    }
  }

  /** Clearing the table's entry afterwards. */
  lemma EntryCleared(s: State, s2: State, fs: seq<nat>, table: nat, i: nat)
    requires Ready(s, table, fs) && Freed(s, s2, fs, table, 0) && i < 256
    ensures Freed(s, s2.(ram := Store(s2.ram, table / 8 + i, 0)), fs, table, i + 1)
  {
    var ram3 := Store(s2.ram, table / 8 + i, 0);
    assert fs + [] == fs;
    ReadyAfter(s, s2, table, fs, [], 0);
    forall k | 0 <= k < |s2.free| ensures SameIn(s2.ram, ram3, s2.free[k]) {
      assert LinkAt(s2.ram, s2.free, k);
      hide Pushed, GoodFrames, Confined, IsList;
      StoreElsewhere(s2.ram, Region(table, 1), table / 8 + i, 0, s2.free[k]);
    }
    hide Pushed, GoodFrames, Distinct, Usable, ApartFromAll;
    ListSame(s2.ram, ram3, s2.head, s2.free);
  }

  lemma FreedTwice(s: State, s1: State, s2: State, a: seq<nat>, b: seq<nat>, table: nat, i: nat)
    requires Freed(s, s1, a, table, i) && Freed(s1, s2, b, table, i + 1)
    ensures Freed(s, s2, a + b, table, i + 1)
  {
    PushedConcat(a, b);
    GivenUpTwice(s, s1, s2, a, b);
    hide IsList, Pushed, GivenUp;
    assert Pushed(a + b) + s.free == Pushed(b) + (Pushed(a) + s.free);
    forall w | 0 <= w < |s.ram| && s2.ram[w] != s.ram[w]
      ensures InFrames(a + b, w) || table / 8 <= w < table / 8 + (i + 1)
    {
      if InFrames(a, w) || InFrames(b, w) {
        var f :| (f in a || f in b) && HasWord(Region(f, 1), w);
        assert f in a + b;
      }
    }
  }

  /** The part of the tree not yet visited reads the same after a step. */
  lemma RestUnchanged(s: State, s': State, fs: seq<nat>, table: nat, level: nat, i: nat)
    requires Ready(s, table, fs + Reached(s.ram, table, level, i)) && Freed(s, s', fs, table, i) && i <= 256
    ensures Reached(s'.ram, table, level, i) == Reached(s.ram, table, level, i)
    ensures Trace(s'.ram, table, level, i) == Trace(s.ram, table, level, i)
  {
    hide IsList, Pushed, Reached, Trace, Confined, Distinct, GoodFrames, ApartFromAll;
    RestReached(s.ram, s'.ram, fs, table, level, i);
  }

  lemma NothingFreed(s: State, table: nat, i: nat)
    requires IsList(s.ram, s.head, s.free)
    ensures Freed(s, s, [], table, i)
  {
    assert [] + s.free == s.free;
    assert Singles([]) == {};
  }

  lemma ReadyBounds(s: State, table: nat, fs: seq<nat>)
    requires Ready(s, table, fs)
    ensures table / 8 + 512 <= |s.ram| && IsList(s.ram, s.head, s.free)
  {
  }

  lemma Level1(ram: seq<u64>, table: nat, level: nat)
    requires level <= 1
    ensures level == 1 ==> Reached(ram, table, level - 1, 0) == [] && Trace(ram, table, level - 1, 0) == []
  {
  }

  /** The frame and its entry, once the subtree below has been given back. */
  method GiveBack(pmm: PageAllocator, table: u64, i: nat, pa: u64, ghost s: State, ghost sub: seq<nat>)
    requires i < 256 && Ready(s, table, sub + [pa]) && Freed(s, pmm.S(), sub, pa, 256)
    modifies pmm
    ensures Freed(s, pmm.S(), sub + [pa], table, i + 1)
  {
    hide Ready, Freed, FreeState, Store;
    ReadyBelow(s, table, sub, pa);
    FrameFreed(s, pmm.S(), sub, pa, table);
    pmm.Free(pa, 1);
    EntryCleared(s, pmm.S(), sub + [pa], table, i);
    pmm.ram := Store(pmm.ram, table / 8 + i, 0);
  }

  /** One present entry: subtree, frame, entry. */
  method FreeEntry(pmm: PageAllocator, table: u64, level: nat, i: nat, pa: u64) returns (ghost trace: seq<Access>)
    requires level > 0 && i < 256
    requires var sub := Reached(pmm.ram, pa, level - 1, 0); Ready(pmm.S(), table, sub + [pa])
    modifies pmm
    ensures Freed(old(pmm.S()), pmm.S(), Reached(old(pmm.ram), pa, level - 1, 0) + [pa], table, i + 1)
    ensures trace == Trace(old(pmm.ram), pa, level - 1, 0) + [Give(pa)]
    decreases level, 0
  {
    hide Ready, Freed, Reached, Trace;
    ghost var s := pmm.S();
    ghost var sub := Reached(pmm.ram, pa, level - 1, 0);
    ReadyBelow(s, table, sub, pa);
    if level > 1 {
      trace := FreeTable(pmm, pa, level - 1);
    } else {
      trace := [];
      Level1(pmm.ram, pa, level);
      ReadyBounds(s, pa, sub);
      NothingFreed(s, pa, 256);
    }
    GiveBack(pmm, table, i, pa, s, sub);
    trace := trace + [Give(pa)];
  }

  /** The only place where an entry is read. */
  method LookAt(pmm: PageAllocator, table: u64, i: nat, ghost trace: seq<Access>) returns (entry: u64, ghost trace': seq<Access>)
    requires table / 8 + i < |pmm.ram|
    ensures entry == pmm.ram[table / 8 + i] && trace' == trace + [Look(table, i)]
  {
    entry := pmm.ram[table / 8 + i];
    trace' := trace + [Look(table, i)];
  }

  /** `free_table`: the lower 256 entries of the table at `table`, `level` levels above the pages. `trace` records what
      it does in order. */
  method FreeTable(pmm: PageAllocator, table: u64, level: nat) returns (ghost trace: seq<Access>)
    requires level > 0 && Ready(pmm.S(), table, Reached(pmm.ram, table, level, 0))
    modifies pmm
    ensures Freed(old(pmm.S()), pmm.S(), Reached(old(pmm.ram), table, level, 0), table, 256)
    ensures trace == Trace(old(pmm.ram), table, level, 0)
    decreases level, 1
  {
    hide Ready, Freed, Reached, Trace;
    ghost var s := pmm.S();
    ghost var all, done := Reached(pmm.ram, table, level, 0), [];
    ghost var whole := Trace(pmm.ram, table, level, 0);
    trace := [];
    assert [] + whole == whole;
    ReadyBounds(s, table, all);
    NothingFreed(s, table, 0);
    for i := 0 to 256
      invariant all == done + Reached(pmm.ram, table, level, i) && Freed(s, pmm.S(), done, table, i)
      invariant whole == trace + Trace(pmm.ram, table, level, i)
    {
      ghost var s1 := pmm.S();
      ghost var rest, next, later := Reached(pmm.ram, table, level, i), Reached(pmm.ram, table, level, i + 1),
                                     Trace(pmm.ram, table, level, i + 1);
      ReadyAfter(s, s1, table, done, rest, i);
      ReadyBounds(s1, table, rest);
      ReachedStep(pmm.ram, table, level, i);
      var entry;
      entry, trace := LookAt(pmm, table, i, trace);
      if And(entry, PRESENT) == 0 {
        NothingFreed(s1, table, i + 1);
        FreedTwice(s, s1, s1, done, [], table, i);
        assert done + [] == done;
        continue;
      }
      var pa := And(entry, PADDR_MASK);
      ghost var sub, below := Reached(pmm.ram, pa, level - 1, 0), Trace(pmm.ram, pa, level - 1, 0);
      ReadyPart(s1, table, sub + [pa], next);
      ghost var part := FreeEntry(pmm, table, level, i, pa);
      RestUnchanged(s1, pmm.S(), sub + [pa], table, level, i + 1);
      FreedTwice(s, s1, pmm.S(), done, sub + [pa], table, i);
      assert done + (sub + [pa] + next) == (done + (sub + [pa])) + next;
      assert trace + (below + [Give(pa)] + later) == (trace + part) + later;
      done, trace := done + (sub + [pa]), trace + part;
    }
    ReachedEnd(pmm.ram, table, level);
    assert done + [] == done && trace + [] == trace;
  }

  lemma ReachedStep(ram: seq<u64>, table: nat, level: nat, i: nat)
    requires level > 0 && i < 256 && table / 8 + i < |ram|
    ensures var e, next := ram[table / 8 + i], Reached(ram, table, level, i + 1);
      Reached(ram, table, level, i) ==
        if And(e, PRESENT) == 0 then next else Reached(ram, And(e, PADDR_MASK), level - 1, 0) + [And(e, PADDR_MASK)] + next
    ensures forall trace: seq<Access> :: var e, later := ram[table / 8 + i], Trace(ram, table, level, i + 1);
      trace + Trace(ram, table, level, i) ==
        if And(e, PRESENT) == 0 then (trace + [Look(table, i)]) + later
        else (trace + [Look(table, i)]) + (Trace(ram, And(e, PADDR_MASK), level - 1, 0) + [Give(And(e, PADDR_MASK))] + later)
  {
  }

  lemma ReachedEnd(ram: seq<u64>, table: nat, level: nat)
    ensures Reached(ram, table, level, 256) == [] && Trace(ram, table, level, 256) == []
  {
  }

  /** `free_pagemap`: the frames that `free_table` reaches, and the root last. A null directory is left alone. */
  method FreePagemap(pmm: PageAllocator, root: u64) returns (root': u64, ghost trace: seq<Access>)
    requires root != 0 ==> Ready(pmm.S(), root, Reached(pmm.ram, root, 4, 0)) && pmm.refAlloc > |Reached(pmm.ram, root, 4, 0)|
    modifies pmm
    ensures root' == 0
    ensures root == 0 ==> pmm.S() == old(pmm.S()) && trace == []
    ensures root != 0 ==> Freed(old(pmm.S()), pmm.S(), Reached(old(pmm.ram), root, 4, 0) + [root], root, 0)
    ensures root != 0 ==> trace == Trace(old(pmm.ram), root, 4, 0) + [Give(root)] && Safe(trace)
  {
    hide Ready, Freed, Reached, Trace, Safe;
    if root == 0 {
      return 0, [];
    }
    ghost var s, fs := pmm.S(), Reached(pmm.ram, root, 4, 0);
    ReadyTraceSafe(s, root);
    trace := FreeTable(pmm, root, 4);
    FrameFreed(s, pmm.S(), fs, root, root);
    pmm.Free(root, 1);
    root', trace := 0, trace + [Give(root)];
  }

  // No freed frame is read again.

  /** No entry of a frame is looked at once the frame has been given back. */
  ghost predicate Safe(trace: seq<Access>) {
    forall i, j | 0 <= i < j < |trace| && trace[i].Give? && trace[j].Look? :: trace[j].table != trace[i].frame
  }

  function Gives(trace: seq<Access>): seq<nat> {
    if trace == [] then [] else (if trace[0].Give? then [trace[0].frame] else []) + Gives(trace[1..])
  }

  lemma {:induction false} GivesConcat(a: seq<Access>, b: seq<Access>)
    ensures Gives(a + b) == Gives(a) + Gives(b)
  {
    if a == [] {
      assert [] + b == b;
    } else {
      var h := if a[0].Give? then [a[0].frame] else [];
      assert (a + b)[0] == a[0] && (a + b)[1..] == a[1..] + b;
      assert Gives(a) == h + Gives(a[1..]) && Gives(a + b) == h + Gives(a[1..] + b);
      hide Gives;
      GivesConcat(a[1..], b);
    }
  }

  /** The frames given back along the way are the ones reached, in that order. */
  lemma {:induction false} TraceGives(ram: seq<u64>, table: nat, level: nat, i: nat)
    ensures Gives(Trace(ram, table, level, i)) == Reached(ram, table, level, i)
    decreases level, 256 - i
  {
    if level > 0 && i < 256 {
      var e := Entry(ram, table, i);
      var head, rest := [Look(table, i)], Trace(ram, table, level, i + 1);
      TraceGives(ram, table, level, i + 1);
      if Present(e) {
        var f, below := FrameOf(e), Trace(ram, FrameOf(e), level - 1, 0);
        assert Trace(ram, table, level, i) == head + (below + [Give(f)]) + rest;
        assert Reached(ram, table, level, i) == Reached(ram, f, level - 1, 0) + [f] + Reached(ram, table, level, i + 1);
        TraceGives(ram, f, level - 1, 0);
        hide *;
        GivesOne(Look(table, i));
        GivesOne(Give(f));
        GivesConcat(below, [Give(f)]);
        GivesConcat(head, below + [Give(f)]);
        GivesConcat(head + (below + [Give(f)]), rest);
      } else {
        assert Trace(ram, table, level, i) == head + rest && Reached(ram, table, level, i) == Reached(ram, table, level, i + 1);
        hide *;
        GivesOne(Look(table, i));
        GivesConcat(head, rest);
      }
    }
  }

  lemma GivesOne(a: Access)
    ensures Gives([a]) == if a.Give? then [a.frame] else []
  {
  }

  /** Only the table and the frames reached are looked at. */
  lemma {:induction false} TraceStays(ram: seq<u64>, table: nat, level: nat, i: nat, a: Access)
    requires a in Trace(ram, table, level, i)
    ensures if a.Look? then a.table == table || a.table in Reached(ram, table, level, i) else a.frame in Reached(ram, table, level, i)
    decreases level, 256 - i
  {
    var e := Entry(ram, table, i);
    hide Entry, Present, FrameOf;
    if a in Trace(ram, table, level, i + 1) {
      TraceStays(ram, table, level, i + 1, a);
    } else if Present(e) && a in Trace(ram, FrameOf(e), level - 1, 0) {
      TraceStays(ram, FrameOf(e), level - 1, 0, a);
    }
  }

  lemma SafeConcat(a: seq<Access>, b: seq<Access>)
    requires Safe(a) && Safe(b)
    requires forall x, y | x in a && y in b && x.Give? && y.Look? :: y.table != x.frame
    ensures Safe(a + b)
  {
    var t := a + b;
    forall i, j | 0 <= i < j < |t| && t[i].Give? && t[j].Look? ensures t[j].table != t[i].frame {
      if i < |a| && j >= |a| {
        assert t[i] in a && t[j] in b;
      }
    }
  }

  lemma {:induction false} TraceSafe(ram: seq<u64>, table: nat, level: nat, i: nat)
    requires Distinct(Reached(ram, table, level, i)) && table !in Reached(ram, table, level, i)
    ensures Safe(Trace(ram, table, level, i))
    decreases level, 256 - i
  {
    if level > 0 && i < 256 {
      var e := Entry(ram, table, i);
      var head, rest, next := [Look(table, i)], Trace(ram, table, level, i + 1), Reached(ram, table, level, i + 1);
      if Present(e) {
        var f, below, sub := FrameOf(e), Trace(ram, FrameOf(e), level - 1, 0), Reached(ram, FrameOf(e), level - 1, 0);
        assert Reached(ram, table, level, i) == (sub + [f]) + next;
        assert Trace(ram, table, level, i) == (head + (below + [Give(f)])) + rest;
        DistinctSplit(sub + [f], next);
        DistinctSplit(sub, [f]);
        assert f in [f] && f in sub + [f];
        TraceSafe(ram, table, level, i + 1);
        TraceSafe(ram, f, level - 1, 0);
        hide *;
        EntrySafe(ram, table, level, i, f, head, below, rest, sub, next);
      } else {
        assert Reached(ram, table, level, i) == next && Trace(ram, table, level, i) == (head + []) + rest;
        TraceSafe(ram, table, level, i + 1);
        assert head + [] == head;
        assert Safe(head);
        SafeConcat(head, rest);
      }
    }
  }

  lemma DistinctSplit(a: seq<nat>, b: seq<nat>)
    requires Distinct(a + b)
    ensures Distinct(a) && Distinct(b) && forall f | f in a :: f !in b
  {
    var t := a + b;
    forall i, j | 0 <= i < j < |a| ensures a[i] != a[j] {
      assert t[i] == a[i] && t[j] == a[j];
    }
    forall i, j | 0 <= i < j < |b| ensures b[i] != b[j] {
      assert t[|a| + i] == b[i] && t[|a| + j] == b[j];
    }
    forall f | f in a && f in b ensures false {
      DistinctParts(a, b, f);
    }
  }

  lemma EntrySafe(ram: seq<u64>, table: nat, level: nat, i: nat, f: nat, head: seq<Access>, below: seq<Access>,
                  rest: seq<Access>, sub: seq<nat>, next: seq<nat>)
    requires level > 0 && head == [Look(table, i)] && Safe(below) && Safe(rest)
    requires below == Trace(ram, f, level - 1, 0) && sub == Reached(ram, f, level - 1, 0)
    requires rest == Trace(ram, table, level, i + 1) && next == Reached(ram, table, level, i + 1)
    requires table !in sub && table != f && forall g | g in sub + [f] :: g !in next
    ensures Safe((head + (below + [Give(f)])) + rest)
  {
    hide Reached, Trace;
    var last := [Give(f)];
    assert Safe(head) && Safe(last);
    hide Safe;
    SafeConcat(below, last);
    SafeConcat(head, below + last);
    forall x, y | x in head + (below + last) && y in rest && x.Give? && y.Look? ensures y.table != x.frame {
      TraceStays(ram, table, level, i + 1, y);
      if x in below {
        TraceStays(ram, f, level - 1, 0, x);
        assert x.frame in sub + [f];
      } else {
        assert f in sub + [f];
      }
    }
    SafeConcat(head + (below + last), rest);
  }

  lemma ReadyTraceSafe(s: State, root: nat)
    requires Ready(s, root, Reached(s.ram, root, 4, 0))
    ensures Safe(Trace(s.ram, root, 4, 0) + [Give(root)])
  {
    assert Safe([Give(root)]);
    hide Reached, Trace, IsList, Safe;
    TraceSafe(s.ram, root, 4, 0);
    SafeConcat(Trace(s.ram, root, 4, 0), [Give(root)]);
  }
}
