/** The physical page allocator: a first-fit free list threaded through the free pages themselves.
    Physical memory is a sequence of 64-bit words; the word at physical address `pa` has index `pa / 8`.
    Addresses in the direct map are written as the physical address they stand for, and null as 0. */
module Pmm {
  import opened Bits

  /** A run of whole pages. */
  datatype Region = Region(pa: nat, pages: nat)

  ghost predicate Usable(ram: seq<u64>, r: Region) {
    r.pa % 4096 == 0 && r.pa > 0 && r.pages > 0 && r.pa + 4096 * r.pages <= 8 * |ram|
  }

  predicate Apart(r: Region, s: Region) {
    r.pa + 4096 * r.pages <= s.pa || s.pa + 4096 * s.pages <= r.pa
  }

  /** Page number `p` lies in the region. */
  predicate Covers(r: Region, p: nat) {
    r.pa <= 4096 * p < r.pa + 4096 * r.pages
  }

  /** Memory word `w` lies in the region. */
  predicate HasWord(r: Region, w: nat) {
    r.pa / 8 <= w < r.pa / 8 + 512 * r.pages
  }

  /** The two memories agree on every word of the region. */
  ghost predicate SameIn(ram: seq<u64>, ram': seq<u64>, r: Region) {
    |ram'| == |ram| && forall w | 0 <= w < |ram| && HasWord(r, w) :: ram'[w] == ram[w]
  }

  // The list in memory: word 0 of a free region is `next`, word 1 `num_pages`, word 2 `pa`.

  function NextPa(fl: seq<Region>, i: int): nat
    requires -1 <= i < |fl|
  {
    if i + 1 < |fl| then fl[i + 1].pa else 0
  }

  predicate NodeAt(ram: seq<u64>, r: Region, next: nat) {
    r.pa / 8 + 2 < |ram| && ram[r.pa / 8] == next && ram[r.pa / 8 + 1] == r.pages && ram[r.pa / 8 + 2] == r.pa
  }

  ghost predicate LinkAt(ram: seq<u64>, fl: seq<Region>, i: nat) {
    i < |fl| && Usable(ram, fl[i]) && NodeAt(ram, fl[i], NextPa(fl, i))
  }

  /** Following `next` from `head` reads exactly the regions `fl`, in order, and then stops. */
  ghost predicate IsList(ram: seq<u64>, head: nat, fl: seq<Region>) {
    head == NextPa(fl, -1) && forall i | 0 <= i < |fl| :: LinkAt(ram, fl, i)
  }

  ghost predicate AllApart(fl: seq<Region>) {
    forall i, j | 0 <= i < j < |fl| :: Apart(fl[i], fl[j])
  }

  ghost predicate ApartFromAll(r: Region, fl: seq<Region>) {
    forall i | 0 <= i < |fl| :: Apart(r, fl[i])
  }

  ghost predicate Covered(fl: seq<Region>, p: nat) {
    exists i | 0 <= i < |fl| :: Covers(fl[i], p)
  }

  ghost predicate CoveredOut(out: set<Region>, p: nat) {
    exists r | r in out :: Covers(r, p)
  }

  /** Every page of the pool is in exactly one region, free or outstanding, and no other page is in any. */
  ghost predicate Layout(fl: seq<Region>, out: set<Region>, pool: set<nat>) {
    && AllApart(fl)
    && (forall r | r in out :: ApartFromAll(r, fl))
    && (forall r, s | r in out && s in out && r != s :: Apart(r, s))
    && (forall p: nat :: p in pool <==> Covered(fl, p) || CoveredOut(out, p))
  }

  /** The allocator state: memory, `freelist_head` and `g_ref_alloc`, and beside them what they stand for:
      the decoded free list, the outstanding allocations, the number of zero-page allocations made, and the
      page numbers handed over at start-up. */
  datatype State = State(ram: seq<u64>, head: nat, refs: nat,
                         free: seq<Region>, out: set<Region>, empties: nat, pool: set<nat>)

  ghost predicate Inv(s: State) {
    && IsList(s.ram, s.head, s.free)
    && Layout(s.free, s.out, s.pool)
    && (forall r | r in s.out :: Usable(s.ram, r))
    && s.refs == |s.out| + s.empties
    && 8 * |s.ram| <= 0x1_0000_0000_0000
  }

  /** The list in memory has one reading only: no cycle, no ambiguity. */
  lemma ListIsUnique(ram: seq<u64>, head: nat, fl: seq<Region>, gl: seq<Region>)
    requires IsList(ram, head, fl) && IsList(ram, head, gl)
    ensures fl == gl
  {
    var n := if |fl| <= |gl| then |fl| else |gl|;
    SamePrefix(ram, head, fl, gl, n);
    assert n < |fl| ==> LinkAt(ram, fl, n);
    assert n < |gl| ==> LinkAt(ram, gl, n);
  }

  lemma {:induction false} SamePrefix(ram: seq<u64>, head: nat, fl: seq<Region>, gl: seq<Region>, n: nat)
    requires IsList(ram, head, fl) && IsList(ram, head, gl)
    requires n <= |fl| && n <= |gl|
    ensures forall i | 0 <= i < n :: fl[i] == gl[i]
    ensures NextPa(fl, n - 1) == NextPa(gl, n - 1)
  {
    if n > 0 {
      SamePrefix(ram, head, fl, gl, n - 1);
      assert LinkAt(ram, fl, n - 1) && LinkAt(ram, gl, n - 1);
      SameNode(ram, fl[n - 1], NextPa(fl, n - 1), gl[n - 1], NextPa(gl, n - 1));
    }
  }

  lemma SameNode(ram: seq<u64>, r: Region, m: nat, s: Region, n: nat)
    requires NodeAt(ram, r, m) && NodeAt(ram, s, n) && r.pa == s.pa
    ensures r == s && m == n
  {
  }

  lemma ListSame(ram: seq<u64>, ram': seq<u64>, head: nat, fl: seq<Region>)
    requires IsList(ram, head, fl)
    requires forall i | 0 <= i < |fl| :: SameIn(ram, ram', fl[i])
    ensures IsList(ram', head, fl)
  {
    forall i | 0 <= i < |fl|
      ensures LinkAt(ram', fl, i)
    {
      assert LinkAt(ram, fl, i);
      NodeSame(ram, ram', fl[i], NextPa(fl, i));
    }
  }

  lemma NodeSame(ram: seq<u64>, ram': seq<u64>, r: Region, next: nat)
    requires Usable(ram, r) && NodeAt(ram, r, next) && SameIn(ram, ram', r)
    ensures Usable(ram', r) && NodeAt(ram', r, next)
  {
    assert HasWord(r, r.pa / 8) && HasWord(r, r.pa / 8 + 1) && HasWord(r, r.pa / 8 + 2);
  }

  lemma ApartWords(r: Region, s: Region, w: nat)
    requires r.pa % 4096 == 0 && s.pa % 4096 == 0 && (Apart(r, s) || Apart(s, r)) && HasWord(r, w)
    ensures !HasWord(s, w)
  {
  }

  /** Only words of outstanding regions differ. */
  ghost predicate ClientWrite(s: State, ram: seq<u64>) {
    && |ram| == |s.ram|
    && forall w | 0 <= w < |ram| && ram[w] != s.ram[w] :: exists r | r in s.out :: HasWord(r, w)
  }

  /** Whatever a client writes into pages it has been given, the free list decodes as before. */
  lemma ClientWriteKeepsInv(s: State, ram: seq<u64>)
    requires Inv(s) && ClientWrite(s, ram)
    ensures Inv(s.(ram := ram))
  {
    forall i | 0 <= i < |s.free|
      ensures SameIn(s.ram, ram, s.free[i])
    {
      forall w | 0 <= w < |ram| && HasWord(s.free[i], w)
        ensures ram[w] == s.ram[w]
      {
        forall r | r in s.out
          ensures !HasWord(r, w)
        {
          assert LinkAt(s.ram, s.free, i);
          ApartWords(s.free[i], r, w);
        }
      }
    }
    ListSame(s.ram, ram, s.head, s.free);
  }

  // The two list surgeries, on memory values.

  function Store(ram: seq<u64>, w: nat, v: nat): (ram': seq<u64>)
    ensures |ram'| == |ram|
  {
    if w < |ram| && v < 0x1_0000_0000_0000_0000 then ram[w := v] else ram
  }

  lemma StoreElsewhere(ram: seq<u64>, r: Region, w: nat, v: nat, s: Region)
    requires r.pa % 4096 == 0 && s.pa % 4096 == 0 && (Apart(r, s) || Apart(s, r)) && HasWord(r, w)
    ensures SameIn(ram, Store(ram, w, v), s)
  {
    ApartWords(r, s, w);
  }

  function Without(fl: seq<Region>, i: nat): seq<Region>
    requires i < |fl|
  {
    fl[..i] + fl[i + 1..]
  }

  /** Memory after region `i` has been unlinked. */
  function UnlinkRam(ram: seq<u64>, fl: seq<Region>, i: nat): seq<u64>
    requires i < |fl|
  {
    if i == 0 then ram else Store(ram, fl[i - 1].pa / 8, NextPa(fl, i))
  }

  lemma UnlinkKeepsList(ram: seq<u64>, head: nat, fl: seq<Region>, i: nat)
    requires IsList(ram, head, fl) && AllApart(fl) && i < |fl| && 8 * |ram| <= 0x1_0000_0000_0000
    ensures IsList(UnlinkRam(ram, fl, i), NextPa(Without(fl, i), -1), Without(fl, i))
  {
    var gl, ram' := Without(fl, i), UnlinkRam(ram, fl, i);
    forall j | 0 <= j < |gl|
      ensures LinkAt(ram', gl, j)
    {
      var k := if j < i then j else j + 1;
      assert gl[j] == fl[k];
      UnlinkedNode(ram, head, fl, i, k);
    }
  }

  lemma UnlinkedNode(ram: seq<u64>, head: nat, fl: seq<Region>, i: nat, k: nat)
    requires IsList(ram, head, fl) && AllApart(fl) && i < |fl| && 8 * |ram| <= 0x1_0000_0000_0000 && k < |fl| && k != i
    ensures Usable(UnlinkRam(ram, fl, i), fl[k])
    ensures NodeAt(UnlinkRam(ram, fl, i), fl[k], NextPa(Without(fl, i), if k < i then k else k - 1))
  {
    assert LinkAt(ram, fl, k);
    assert i > 0 ==> LinkAt(ram, fl, i - 1);
    assert i + 1 < |fl| ==> LinkAt(ram, fl, i + 1);
    assert NextPa(Without(fl, i), if k < i then k else k - 1) == if k == i - 1 then NextPa(fl, i) else NextPa(fl, k);
    if k == i - 1 {
      StoredNext(ram, fl[k], NextPa(fl, k), NextPa(fl, i));
    } else if i > 0 {
      OtherNode(ram, fl, k, i - 1, NextPa(fl, i));
    }
  }

  lemma StoredNext(ram: seq<u64>, r: Region, next: nat, v: nat)
    requires NodeAt(ram, r, next) && v < 0x1_0000_0000_0000_0000
    ensures NodeAt(Store(ram, r.pa / 8, v), r, v)
  {
  }

  /** Storing into the `next` field of one node leaves every other node as it was. */
  lemma OtherNode(ram: seq<u64>, fl: seq<Region>, k: nat, m: nat, v: nat)
    requires AllApart(fl) && k < |fl| && m < |fl| && k != m
    requires Usable(ram, fl[k]) && Usable(ram, fl[m]) && NodeAt(ram, fl[k], NextPa(fl, k))
    ensures NodeAt(Store(ram, fl[m].pa / 8, v), fl[k], NextPa(fl, k))
  {
    assert Apart(fl[if k < m then k else m], fl[if k < m then m else k]);
    StoreElsewhere(ram, fl[m], fl[m].pa / 8, v, fl[k]);
    NodeSame(ram, Store(ram, fl[m].pa / 8, v), fl[k], NextPa(fl, k));
  }

  /** Memory after the region has been made the head node. */
  function PushRam(ram: seq<u64>, r: Region, head: nat): seq<u64> {
    Store(Store(Store(ram, r.pa / 8, head), r.pa / 8 + 1, r.pages), r.pa / 8 + 2, r.pa)
  }

  lemma PushKeepsList(ram: seq<u64>, head: nat, fl: seq<Region>, r: Region)
    requires IsList(ram, head, fl) && Usable(ram, r) && ApartFromAll(r, fl) && 8 * |ram| <= 0x1_0000_0000_0000
    ensures IsList(PushRam(ram, r, head), r.pa, [r] + fl)
  {
    var ram', gl := PushRam(ram, r, head), [r] + fl;
    assert fl != [] ==> LinkAt(ram, fl, 0);
    PushedNode(ram, r, head);
    forall j | 0 <= j < |gl|
      ensures LinkAt(ram', gl, j)
    {
      if j > 0 {
        assert LinkAt(ram, fl, j - 1) && Apart(r, fl[j - 1]);
        assert gl[j] == fl[j - 1] && NextPa(gl, j) == NextPa(fl, j - 1);
        PushElsewhere(ram, head, r, fl[j - 1]);
        NodeSame(ram, ram', fl[j - 1], NextPa(fl, j - 1));
      }
    }
  }

  lemma PushedNode(ram: seq<u64>, r: Region, head: nat)
    requires Usable(ram, r) && 8 * |ram| <= 0x1_0000_0000_0000 && head < 8 * |ram|
    ensures NodeAt(PushRam(ram, r, head), r, head)
  {
  }

  lemma PushElsewhere(ram: seq<u64>, head: nat, r: Region, s: Region)
    requires Usable(ram, r) && s.pa % 4096 == 0 && (Apart(r, s) || Apart(s, r))
    ensures SameIn(ram, PushRam(ram, r, head), s)
  {
    forall w | 0 <= w < |ram| && HasWord(s, w) ensures !HasWord(r, w) {
      ApartWords(s, r, w);
    }
    assert HasWord(r, r.pa / 8) && HasWord(r, r.pa / 8 + 1) && HasWord(r, r.pa / 8 + 2);
  }

  /** Index of the first region with at least `count` pages, or the length of the list. */
  function FirstFit(fl: seq<Region>, count: nat): (i: nat)
    ensures i <= |fl|
    ensures i < |fl| ==> fl[i].pages >= count
    ensures forall j | 0 <= j < i :: fl[j].pages < count
  {
    if fl == [] || fl[0].pages >= count then 0 else 1 + FirstFit(fl[1..], count)
  }

  lemma FirstFitIs(fl: seq<Region>, count: nat, i: nat)
    requires i <= |fl| && (i < |fl| ==> fl[i].pages >= count)
    requires forall j | 0 <= j < i :: fl[j].pages < count
    ensures FirstFit(fl, count) == i
  {
  }

  /** What is left of a region after its first `count` pages. */
  function Rest(r: Region, count: nat): Region
    requires count <= r.pages
  {
    Region(r.pa + 4096 * count, r.pages - count)
  }

  /** The free list after `count` pages have been taken from region `i`: the region leaves the list and its
      unused tail goes to the front. */
  function Taken(fl: seq<Region>, i: nat, count: nat): seq<Region>
    requires i < |fl| && count <= fl[i].pages
  {
    if count == fl[i].pages then Without(fl, i) else [Rest(fl[i], count)] + Without(fl, i)
  }

  function TakenRam(ram: seq<u64>, fl: seq<Region>, i: nat, count: nat): seq<u64>
    requires i < |fl| && count <= fl[i].pages
  {
    var ram' := UnlinkRam(ram, fl, i);
    if count == fl[i].pages then ram' else PushRam(ram', Rest(fl[i], count), NextPa(Without(fl, i), -1))
  }

  lemma TakenKeepsList(ram: seq<u64>, head: nat, fl: seq<Region>, i: nat, count: nat)
    requires IsList(ram, head, fl) && AllApart(fl) && i < |fl| && count <= fl[i].pages && 8 * |ram| <= 0x1_0000_0000_0000
    ensures IsList(TakenRam(ram, fl, i, count), NextPa(Taken(fl, i, count), -1), Taken(fl, i, count))
  {
    assert LinkAt(ram, fl, i);
    UnlinkKeepsList(ram, head, fl, i);
    if count < fl[i].pages {
      RestIsApart(ram, fl, i, count);
      hide IsList;
      PushKeepsList(UnlinkRam(ram, fl, i), NextPa(Without(fl, i), -1), Without(fl, i), Rest(fl[i], count));
    }
  }

  lemma RestIsApart(ram: seq<u64>, fl: seq<Region>, i: nat, count: nat)
    requires AllApart(fl) && i < |fl| && Usable(ram, fl[i]) && count < fl[i].pages
    ensures Usable(ram, Rest(fl[i], count)) && ApartFromAll(Rest(fl[i], count), Without(fl, i))
  {
    var gl := Without(fl, i);
    forall j | 0 <= j < |gl| ensures Apart(fl[i], gl[j]) {
      var k := if j < i then j else j + 1;
      assert gl[j] == fl[k];
      assert Apart(fl[if k < i then k else i], fl[if k < i then i else k]);
    }
  }

  lemma TakenElsewhere(ram: seq<u64>, fl: seq<Region>, i: nat, count: nat, r: Region)
    requires forall k | 0 <= k < |fl| :: Usable(ram, fl[k])
    requires i < |fl| && count <= fl[i].pages && r.pa % 4096 == 0 && ApartFromAll(r, fl)
    ensures SameIn(ram, TakenRam(ram, fl, i, count), r)
  {
    assert Usable(ram, fl[i]) && Apart(r, fl[i]);
    if i > 0 {
      assert Usable(ram, fl[i - 1]) && Apart(r, fl[i - 1]);
      StoreElsewhere(ram, fl[i - 1], fl[i - 1].pa / 8, NextPa(fl, i), r);
    }
    if count < fl[i].pages {
      PushElsewhere(UnlinkRam(ram, fl, i), NextPa(Without(fl, i), -1), Rest(fl[i], count), r);
    }
  }

  // Moving regions between the free list and the outstanding set.

  lemma TakeOut(fl: seq<Region>, i: nat, out: set<Region>, pool: set<nat>)
    requires Layout(fl, out, pool) && i < |fl| && fl[i].pages > 0
    ensures fl[i] !in out && Layout(Without(fl, i), out + {fl[i]}, pool)
  {
    var gl := Without(fl, i);
    assert forall j | 0 <= j < |gl| :: gl[j] == fl[if j < i then j else j + 1];
    assert fl[i] in out ==> Apart(fl[i], fl[i]);
    assert ApartFromAll(fl[i], gl) by {
      forall j | 0 <= j < |gl| ensures Apart(fl[i], gl[j]) {
        var k := if j < i then j else j + 1;
        assert Apart(fl[if k < i then k else i], fl[if k < i then i else k]);
      }
    }
    forall p: nat
      ensures p in pool <==> Covered(gl, p) || CoveredOut(out + {fl[i]}, p)
    {
      CoveredWithout(fl, i, p);
      CoveredPlus(out, fl[i], p);
    }
  }

  lemma CoveredWithout(fl: seq<Region>, i: nat, p: nat)
    requires i < |fl|
    ensures Covered(fl, p) <==> Covered(Without(fl, i), p) || Covers(fl[i], p)
  {
    var gl := Without(fl, i);
    if k :| 0 <= k < |fl| && Covers(fl[k], p) && k != i {
      assert gl[if k < i then k else k - 1] == fl[k];
    }
    if j :| 0 <= j < |gl| && Covers(gl[j], p) {
      assert gl[j] == fl[if j < i then j else j + 1];
    }
  }

  lemma CoveredPlus(out: set<Region>, r: Region, p: nat)
    ensures CoveredOut(out + {r}, p) <==> CoveredOut(out, p) || Covers(r, p)
  {
    if s :| s in out && Covers(s, p) {
      assert s in out + {r};
    }
    if Covers(r, p) {
      assert r in out + {r};
    }
  }

  lemma PutBack(fl: seq<Region>, r: Region, out: set<Region>, pool: set<nat>)
    requires Layout(fl, out + {r}, pool) && r !in out
    ensures Layout([r] + fl, out, pool)
  {
    var gl := [r] + fl;
    assert r in out + {r} && ApartFromAll(r, fl);
    forall i, j | 0 <= i < j < |gl| ensures Apart(gl[i], gl[j]) {
      assert gl[j] == fl[j - 1] && (i > 0 ==> gl[i] == fl[i - 1]);
    }
    forall s | s in out ensures ApartFromAll(s, gl) {
      assert s in out + {r} && Apart(s, r) && ApartFromAll(s, fl);
      assert forall j | 0 < j < |gl| :: gl[j] == fl[j - 1];
    }
    forall p: nat
      ensures p in pool <==> Covered(gl, p) || CoveredOut(out, p)
    {
      CoveredFront(r, fl, p);
      CoveredPlus(out, r, p);
    }
  }

  lemma SplitOut(fl: seq<Region>, r: Region, n: nat, out: set<Region>, pool: set<nat>)
    requires Layout(fl, out + {r}, pool) && r !in out && 0 < n < r.pages
    ensures var (a, b) := (Region(r.pa, n), Region(r.pa + 4096 * n, r.pages - n));
      a !in out && b !in out + {a} && Layout(fl, out + {a} + {b}, pool)
  {
    var a, b := Region(r.pa, n), Region(r.pa + 4096 * n, r.pages - n);
    assert r in out + {r};
    forall s | s in out ensures Apart(s, r) && Apart(s, a) && Apart(s, b) && s != a && s != b {
      assert s in out + {r};
    }
    assert ApartFromAll(r, fl);
    forall p: nat
      ensures p in pool <==> Covered(fl, p) || CoveredOut(out + {a} + {b}, p)
    {
      CoveredPlus(out, r, p);
      CoveredPlus(out, a, p);
      CoveredPlus(out + {a}, b, p);
    }
  }

  lemma TakenKeepsLayout(fl: seq<Region>, i: nat, count: nat, out: set<Region>, pool: set<nat>)
    requires Layout(fl, out, pool) && i < |fl| && count <= fl[i].pages && fl[i].pages > 0
    ensures count == 0 ==> Layout(Taken(fl, i, count), out, pool)
    ensures count > 0 ==> Region(fl[i].pa, count) !in out
                          && Layout(Taken(fl, i, count), out + {Region(fl[i].pa, count)}, pool)
  {
    hide Layout;
    TakeOut(fl, i, out, pool);
    if count == 0 {
      assert Rest(fl[i], 0) == fl[i];
      PutBack(Without(fl, i), fl[i], out, pool);
    } else if count < fl[i].pages {
      SplitOut(Without(fl, i), fl[i], count, out, pool);
      PutBack(Without(fl, i), Rest(fl[i], count), out + {Region(fl[i].pa, count)}, pool);
    } else {
      assert fl[i] == Region(fl[i].pa, count);
    }
  }

  // The allocator's operations on whole states.

  function AllocState(s: State, count: nat): State {
    var i := FirstFit(s.free, count);
    if i == |s.free| then s
    else if count == 0 then
      s.(ram := TakenRam(s.ram, s.free, i, 0), free := Taken(s.free, i, 0), head := NextPa(Taken(s.free, i, 0), -1),
         refs := s.refs + 1, empties := s.empties + 1)
    else
      s.(ram := TakenRam(s.ram, s.free, i, count), free := Taken(s.free, i, count),
         head := NextPa(Taken(s.free, i, count), -1),
         refs := s.refs + 1, out := s.out + {Region(s.free[i].pa, count)})
  }

  lemma TakenIsAlloc(s: State, count: nat, t: State)
    requires FirstFit(s.free, count) < |s.free|
    requires var i := FirstFit(s.free, count);
      t == State(TakenRam(s.ram, s.free, i, count), NextPa(Taken(s.free, i, count), -1), s.refs + 1, Taken(s.free, i, count),
                 if count == 0 then s.out else s.out + {Region(s.free[i].pa, count)},
                 s.empties + if count == 0 then 1 else 0, s.pool)
    ensures t == AllocState(s, count)
  {
  }

  lemma AllocKeepsInv(s: State, count: nat)
    requires Inv(s)
    ensures Inv(AllocState(s, count))
  {
    var i := FirstFit(s.free, count);
    if i < |s.free| {
      TakenKeepsList(s.ram, s.head, s.free, i, count);
      assert LinkAt(s.ram, s.free, i);
      TakenKeepsLayout(s.free, i, count, s.out, s.pool);
      hide IsList, Layout, FirstFit, Taken, TakenRam;
    }
  }

  /** An allocation changes no word of any region already handed out. */
  lemma AllocKeepsOthers(s: State, count: nat, r: Region)
    requires Inv(s) && r in s.out
    ensures SameIn(s.ram, AllocState(s, count).ram, r)
  {
    var i := FirstFit(s.free, count);
    if i < |s.free| {
      assert Usable(s.ram, r);
      assert forall k | 0 <= k < |s.free| :: LinkAt(s.ram, s.free, k) && Usable(s.ram, s.free[k]);
      TakenElsewhere(s.ram, s.free, i, count, r);
    }
  }

  /** The address `alloc(count)` returns: the first fit's, or 0. */
  function AllocResult(s: State, count: nat): nat {
    var i := FirstFit(s.free, count);
    if i == |s.free| then 0 else s.free[i].pa
  }

  /** An allocation fails only when no free region is large enough; otherwise the pages it returns were free, start
      the first region that is, are now outstanding, and are apart from every earlier allocation. */
  lemma AllocGivesFreshPages(s: State, count: nat)
    requires Inv(s) && count > 0
    ensures AllocResult(s, count) == 0 <==> forall i | 0 <= i < |s.free| :: s.free[i].pages < count
    ensures AllocResult(s, count) != 0 ==>
      var r := Region(AllocResult(s, count), count);
      && Usable(s.ram, r) && r !in s.out && AllocState(s, count).out == s.out + {r}
      && (forall q | q in s.out :: Apart(q, r))
      && (forall p: nat | Covers(r, p) :: Covered(s.free, p))
      && exists i | 0 <= i < |s.free| ::
           s.free[i].pa == r.pa && s.free[i].pages >= count && forall j | 0 <= j < i :: s.free[j].pages < count
  {
    var i := FirstFit(s.free, count);
    if i < |s.free| {
      assert LinkAt(s.ram, s.free, i);
      var r := Region(s.free[i].pa, count);
      forall q | q in s.out ensures Apart(q, r) && q != r {
        assert Apart(q, s.free[i]) && Usable(s.ram, q);
      }
      forall p: nat | Covers(r, p) ensures Covered(s.free, p) {
        assert Covers(s.free[i], p);
      }
    }
  }

  /** The pages a successful allocation returns are off the free list if and only if any were asked for: asked for none,
      `alloc` returns the first region, leaves the list as it was, and counts the call. */
  lemma AllocOfNone(s: State, count: nat)
    requires Inv(s) && AllocResult(s, count) != 0
    ensures Covered(AllocState(s, count).free, AllocResult(s, count) / 4096) <==> count == 0
    ensures count == 0 ==> s.free != [] && AllocResult(s, count) == s.free[0].pa
    ensures count == 0 ==>
      AllocState(s, count) == s.(ram := AllocState(s, count).ram, refs := s.refs + 1, empties := s.empties + 1)
  {
    if count == 0 {
      ZeroTaken(s);
    } else {
      AllocKeepsInv(s, count);
      AllocGivesFreshPages(s, count);
      hide Inv, AllocState, AllocResult;
      NotCovered(AllocState(s, count), Region(AllocResult(s, count), count));
    }
  }

  lemma NotCovered(s: State, r: Region)
    requires Inv(s) && r in s.out && r.pages > 0
    ensures !Covered(s.free, r.pa / 4096)
  {
    assert ApartFromAll(r, s.free) && Usable(s.ram, r);
    hide IsList, Layout;
  }

  lemma ZeroTaken(s: State)
    requires Inv(s) && AllocResult(s, 0) != 0
    ensures s.free != [] && AllocResult(s, 0) == s.free[0].pa && Covered(AllocState(s, 0).free, s.free[0].pa / 4096)
    ensures AllocState(s, 0) == s.(refs := s.refs + 1, empties := s.empties + 1, ram := AllocState(s, 0).ram)
  {
    assert s.free != [];
    assert FirstFit(s.free, 0) == 0;
    var r := s.free[0];
    assert LinkAt(s.ram, s.free, 0);
    assert Rest(r, 0) == r;
    assert Taken(s.free, 0, 0) == s.free;
    hide Layout, TakenRam;
    assert Covers(r, r.pa / 4096);
  }

  lemma AllocFails(s: State, count: nat)
    requires Inv(s) && AllocResult(s, count) == 0
    ensures AllocState(s, count) == s
  {
    var i := FirstFit(s.free, count);
    assert i < |s.free| ==> LinkAt(s.ram, s.free, i);
  }

  function FreeState(s: State, r: Region): State {
    if s.refs == 0 then s
    else s.(ram := PushRam(s.ram, r, s.head), head := r.pa, free := [r] + s.free, refs := s.refs - 1, out := s.out - {r})
  }

  /** Giving back an outstanding region is never refused and keeps the invariant. */
  lemma FreeKeepsInv(s: State, r: Region)
    requires Inv(s) && r in s.out
    ensures s.refs > 0 && Inv(FreeState(s, r)) && FreeState(s, r).free == [r] + s.free
  {
    var t := FreeState(s, r);
    assert s.out == (s.out - {r}) + {r};
    PutBack(s.free, r, s.out - {r}, s.pool);
    assert Usable(s.ram, r) && ApartFromAll(r, s.free);
    PushKeepsList(s.ram, s.head, s.free, r);
    hide IsList, Layout, PushRam;
    assert |s.out| == |s.out - {r}| + 1;
    assert forall q | q in t.out :: Usable(s.ram, q) && Usable(t.ram, q);
  }

  /** A free keeps the invariant exactly when the region is outstanding, or nothing is, and then it is ignored. */
  lemma StrayFree(s: State, r: Region)
    requires Inv(s)
    ensures Inv(FreeState(s, r)) <==> r in s.out || s.refs == 0
    ensures s.refs == 0 ==> FreeState(s, r) == s
  {
    if r in s.out {
      FreeKeepsInv(s, r);
    } else {
      assert s.out - {r} == s.out;
    }
  }

  /** Freeing a region changes no word of any other. */
  lemma FreeKeepsOthers(s: State, r: Region, q: Region)
    requires Inv(s) && r in s.out && q in s.out && q != r
    ensures SameIn(s.ram, FreeState(s, r).ram, q)
  {
    assert Usable(s.ram, r) && Usable(s.ram, q) && Apart(r, q);
    hide IsList, PushRam;
    if s.refs > 0 {
      PushElsewhere(s.ram, s.head, r, q);
    }
  }

  /** The pages freed last are the next ones handed out, and the list is then as it was. */
  lemma FreeThenAlloc(s: State, r: Region)
    requires Inv(s) && r in s.out
    ensures AllocResult(FreeState(s, r), r.pages) == r.pa
    ensures var t := AllocState(FreeState(s, r), r.pages); t.free == s.free && t.out == s.out && t.refs == s.refs
  {
    FreeKeepsInv(s, r);
    assert Usable(s.ram, r);
    var gl := [r] + s.free;
    FirstFitIs(gl, r.pages, 0);
    assert Without(gl, 0) == s.free;
    assert (s.out - {r}) + {r} == s.out;
  }

  /** Handing a new region over to the allocator. */
  function GrowState(s: State, r: Region): State {
    s.(ram := PushRam(s.ram, r, s.head), head := r.pa, free := [r] + s.free, pool := s.pool + PagesOf(r))
  }

  function PagesOf(r: Region): set<nat> {
    set p: nat | p < r.pa + 4096 * r.pages && Covers(r, p)
  }

  lemma PagesAreCovered(r: Region, p: nat)
    ensures p in PagesOf(r) <==> Covers(r, p)
  {
  }

  lemma CoveredFront(r: Region, fl: seq<Region>, p: nat)
    ensures Covered([r] + fl, p) <==> Covered(fl, p) || Covers(r, p)
  {
    assert Without([r] + fl, 0) == fl;
    CoveredWithout([r] + fl, 0, p);
  }

  lemma GrowKeepsLayout(fl: seq<Region>, r: Region, out: set<Region>, pool: set<nat>)
    requires Layout(fl, out, pool) && r.pa % 4096 == 0 && ApartFromAll(r, fl) && forall q | q in out :: Apart(q, r)
    ensures Layout([r] + fl, out, pool + PagesOf(r))
  {
    var gl := [r] + fl;
    forall i, j | 0 <= i < j < |gl| ensures Apart(gl[i], gl[j]) {
      assert gl[j] == fl[j - 1] && (i > 0 ==> gl[i] == fl[i - 1]);
    }
    forall s | s in out ensures ApartFromAll(s, gl) {
      assert ApartFromAll(s, fl);
      assert forall j | 0 < j < |gl| :: gl[j] == fl[j - 1];
    }
    hide Apart, ApartFromAll, Covered, CoveredOut, Covers, PagesOf;
    forall p: nat
      ensures p in pool + PagesOf(r) <==> Covered(gl, p) || CoveredOut(out, p)
    {
      CoveredFront(r, fl, p);
      PagesAreCovered(r, p);
    }
  }

  lemma GrowKeepsInv(s: State, r: Region)
    requires Inv(s) && Usable(s.ram, r) && ApartFromAll(r, s.free) && forall q | q in s.out :: Apart(q, r)
    ensures Inv(GrowState(s, r))
  {
    GrowKeepsLayout(s.free, r, s.out, s.pool);
    PushKeepsList(s.ram, s.head, s.free, r);
    hide IsList, Layout, PushRam;
    assert forall q | q in s.out :: Usable(s.ram, q) && Usable(GrowState(s, r).ram, q);
  }

  // Whole runs: allocations, matched frees, and clients writing into what they were given.

  datatype Event = DoAlloc(count: nat) | DoFree(region: Region) | DoWrite(memory: seq<u64>)

  ghost predicate Legal(s: State, e: Event) {
    match e
    case DoAlloc(_) => true
    case DoFree(r) => r in s.out
    case DoWrite(ram) => ClientWrite(s, ram)
  }

  function Next(s: State, e: Event): State {
    match e
    case DoAlloc(count) => AllocState(s, count)
    case DoFree(r) => FreeState(s, r)
    case DoWrite(ram) => s.(ram := ram)
  }

  function Run(s: State, es: seq<Event>): State {
    if es == [] then s else Next(Run(s, es[..|es| - 1]), es[|es| - 1])
  }

  ghost predicate LegalRun(s: State, es: seq<Event>) {
    forall i | 0 <= i < |es| :: Legal(Run(s, es[..i]), es[i])
  }

  /** The words in memory from the head on read as this list. */
  ghost predicate Decodes(s: State, fl: seq<Region>) {
    IsList(s.ram, s.head, fl)
  }

  lemma InvDecodes(s: State)
    requires Inv(s)
    ensures Decodes(s, s.free)
  {
  }

  lemma LegalPrefix(s: State, es: seq<Event>, n: nat)
    requires LegalRun(s, es) && n < |es|
    ensures LegalRun(s, es[..n]) && Legal(Run(s, es[..n]), es[n])
  {
    hide Legal, Run;
    forall i | 0 <= i < n ensures Legal(Run(s, es[..n][..i]), es[..n][i]) {
      assert es[..n][..i] == es[..i] && Legal(Run(s, es[..i]), es[i]);
    }
  }

  /** After every run the list in memory decodes, the pool is split exactly between free and outstanding
      regions, the count is right, and after a write memory still decodes to the list there was before. */
  lemma {:induction false} RunKeepsInv(s: State, es: seq<Event>)
    requires Inv(s) && LegalRun(s, es)
    ensures Inv(Run(s, es)) && Run(s, es).pool == s.pool
    ensures forall i | 0 <= i < |es| && es[i].DoWrite? :: Decodes(Run(s, es[..i + 1]), Run(s, es[..i]).free)
    ensures forall i | 0 <= i < |es| && es[i].DoFree? :: Run(s, es[..i]).refs > 0
  {
    if es != [] {
      var n := |es| - 1;
      var init, last, t := es[..n], es[n], Run(s, es[..n]);
      assert forall i | 0 <= i <= n :: init[..i] == es[..i];
      LegalPrefix(s, es, n);
      RunKeepsInv(s, init);
      assert es[..n + 1] == es;
      hide Inv, LegalRun, AllocState, FreeState, ClientWrite, Decodes;
      match last {
        case DoAlloc(count) => AllocKeepsInv(t, count);
        case DoFree(r) => FreeKeepsInv(t, r);
        case DoWrite(ram) => ClientWriteKeepsInv(t, ram);
      }
      PoolKept(t, last);
      assert Decodes(Run(s, es), Run(s, es).free) by { InvDecodes(Run(s, es)); }
      forall i | 0 <= i < |es| && es[i].DoWrite? ensures Decodes(Run(s, es[..i + 1]), Run(s, es[..i]).free) {
        if i < n {
          assert init[i].DoWrite? && init[..i + 1] == es[..i + 1];
        }
      }
      forall i | 0 <= i < |es| && es[i].DoFree? ensures Run(s, es[..i]).refs > 0 {
        if i < n {
          assert init[i].DoFree?;
        }
      }
    }
  }

  lemma PoolKept(s: State, e: Event)
    ensures Next(s, e).pool == s.pool && (e.DoWrite? ==> Next(s, e).free == s.free)
  {
  }

  /** Nothing in the run frees `q` or writes into it. */
  ghost predicate LeavesAlone(s: State, es: seq<Event>, q: Region) {
    forall i | 0 <= i < |es| ::
      es[i] != DoFree(q) && (es[i].DoWrite? ==> SameIn(Run(s, es[..i]).ram, es[i].memory, q))
  }

  lemma StepKeepsData(s: State, e: Event, q: Region)
    requires Inv(s) && Legal(s, e) && q in s.out && e != DoFree(q) && (e.DoWrite? ==> SameIn(s.ram, e.memory, q))
    ensures q in Next(s, e).out && SameIn(s.ram, Next(s, e).ram, q)
  {
    hide Inv, SameIn, ClientWrite, TakenRam, Taken, FirstFit;
    match e {
      case DoAlloc(count) => AllocKeepsOthers(s, count, q);
      case DoFree(r) => FreeKeepsOthers(s, r, q);
      case DoWrite(_) =>
    }
  }

  /** Isolation: an outstanding region keeps every word over every run of allocations, frees and writes of others. */
  lemma {:induction false} RunKeepsData(s: State, es: seq<Event>, q: Region)
    requires Inv(s) && LegalRun(s, es) && q in s.out && LeavesAlone(s, es, q)
    ensures q in Run(s, es).out && SameIn(s.ram, Run(s, es).ram, q)
  {
    if es != [] {
      var n := |es| - 1;
      var init, t := es[..n], Run(s, es[..n]);
      LegalPrefix(s, es, n);
      forall i | 0 <= i < n
        ensures init[i] != DoFree(q) && (init[i].DoWrite? ==> SameIn(Run(s, init[..i]).ram, init[i].memory, q))
      {
        assert init[..i] == es[..i] && es[i] != DoFree(q) && (es[i].DoWrite? ==> SameIn(Run(s, es[..i]).ram, es[i].memory, q));
      }
      assert LeavesAlone(s, init, q);
      RunKeepsInv(s, init);
      RunKeepsData(s, init, q);
      StepKeepsData(t, es[n], q);
      hide Inv, Next, Run, Legal;
    }
  }

  datatype MemmapEntry = MemmapEntry(base: u64, length: u64, kind: Kind)
  datatype Kind = UsableRam | Bootloader | KernelAndModules | Framebuffer | Reserved

  function EntryRegion(e: MemmapEntry): Region {
    Region(e.base, e.length / 4096)
  }

  /** The state after the usable entries have been handed over in order. */
  function Grown(s: State, entries: seq<MemmapEntry>): State {
    if entries == [] then s
    else
      var t := Grown(s, entries[..|entries| - 1]);
      var e := entries[|entries| - 1];
      if e.kind == UsableRam then GrowState(t, EntryRegion(e)) else t
  }

  /** A memory map whose usable entries are whole, non-empty page runs, apart from each other and from
      everything the allocator already knows. */
  ghost predicate Handover(s: State, entries: seq<MemmapEntry>) {
    && (forall i | 0 <= i < |entries| && entries[i].kind == UsableRam :: Acceptable(s, EntryRegion(entries[i])))
    && (forall i, j | 0 <= i < j < |entries| && entries[i].kind == entries[j].kind == UsableRam ::
          Apart(EntryRegion(entries[j]), EntryRegion(entries[i])))
  }

  ghost predicate Acceptable(s: State, r: Region) {
    Usable(s.ram, r) && ApartFromAll(r, s.free) && forall q | q in s.out :: Apart(q, r)
  }

  lemma {:induction false} GrownKeepsInv(s: State, entries: seq<MemmapEntry>, n: nat)
    requires Inv(s) && Handover(s, entries) && n <= |entries|
    ensures Inv(Grown(s, entries[..n])) && Grown(s, entries[..n]).out == s.out
    ensures forall i | n <= i < |entries| && entries[i].kind == UsableRam ::
      Acceptable(Grown(s, entries[..n]), EntryRegion(entries[i]))
  {
    if n > 0 {
      GrownKeepsInv(s, entries, n - 1);
      var t, r := Grown(s, entries[..n - 1]), EntryRegion(entries[n - 1]);
      assert entries[..n][..n - 1] == entries[..n - 1];
      if entries[n - 1].kind == UsableRam {
        assert Acceptable(t, r);
        GrowKeepsInv(t, r);
        forall i | n <= i < |entries| && entries[i].kind == UsableRam
          ensures Acceptable(GrowState(t, r), EntryRegion(entries[i]))
        {
          assert Acceptable(t, EntryRegion(entries[i])) && Apart(EntryRegion(entries[i]), r);
          hide Inv, PushRam;
          assert forall j | 0 < j < |GrowState(t, r).free| :: GrowState(t, r).free[j] == t.free[j - 1];
        }
      }
    }
  }

  /** Page number `p` is a whole page of a usable entry. */
  predicate Hands(e: MemmapEntry, p: nat) {
    e.kind == UsableRam && e.base <= 4096 * p < e.base + e.length / 4096 * 4096
  }

  ghost predicate HandedOver(entries: seq<MemmapEntry>, p: nat) {
    exists i | 0 <= i < |entries| :: Hands(entries[i], p)
  }

  lemma HandedLast(entries: seq<MemmapEntry>, p: nat)
    requires entries != []
    ensures HandedOver(entries, p) <==> HandedOver(entries[..|entries| - 1], p) || Hands(entries[|entries| - 1], p)
  {
    var n := |entries| - 1;
    if HandedOver(entries[..n], p) {
      var i :| 0 <= i < n && Hands(entries[..n][i], p);
      assert Hands(entries[i], p);
    }
    if HandedOver(entries, p) && !Hands(entries[n], p) {
      var i :| 0 <= i < |entries| && Hands(entries[i], p);
      assert Hands(entries[..n][i], p);
    }
  }

  /** What a region adds: its pages to the pool and to the free list. */
  lemma GrowAdds(s: State, r: Region, p: nat)
    ensures var t := GrowState(s, r);
      && (p in t.pool <==> p in s.pool || Covers(r, p))
      && (Covered(t.free, p) <==> Covered(s.free, p) || Covers(r, p))
      && t.refs == s.refs && t.out == s.out
  {
    PagesAreCovered(r, p);
    CoveredFront(r, s.free, p);
    hide PagesOf, Covered, Covers, PushRam;
  }

  /** Start-up, stated through the memory map alone: exactly the whole pages of the usable entries join the pool, and
      all of them are free. Nothing counts as allocated. */
  lemma {:induction false} GrownIs(s: State, entries: seq<MemmapEntry>, p: nat)
    ensures var t := Grown(s, entries);
      && (p in t.pool <==> p in s.pool || HandedOver(entries, p))
      && (Covered(t.free, p) <==> Covered(s.free, p) || HandedOver(entries, p))
      && t.refs == s.refs && t.out == s.out
  {
    if entries != [] {
      var n := |entries| - 1;
      GrownIs(s, entries[..n], p);
      GrowAdds(Grown(s, entries[..n]), EntryRegion(entries[n]), p);
      HandedLast(entries, p);
      assert entries[n].kind == UsableRam ==> (Hands(entries[n], p) <==> Covers(EntryRegion(entries[n]), p));
      hide GrowState, Covered, HandedOver;
    }
  }

  class PageAllocator {
    var ram: seq<u64>
    var freelistHead: u64
    var refAlloc: nat
    ghost var free: seq<Region>
    ghost var out: set<Region>
    ghost var empties: nat
    ghost var pool: set<nat>

    ghost function S(): State
      reads this
    {
      State(ram, freelistHead, refAlloc, free, out, empties, pool)
    }

    ghost predicate Valid()
      reads this
    {
      Inv(S())
    }

    constructor (memory: seq<u64>)
      requires 8 * |memory| <= 0x1_0000_0000_0000
      ensures Valid() && S() == State(memory, 0, 0, [], {}, 0, {})
    {
      ram, freelistHead, refAlloc := memory, 0, 0;
      free, out, empties, pool := [], {}, 0, {};
    }

    /** `push_list`: the region's own first three words become the new head node. */
    method PushList(phys: u64, pages: u64)
      requires phys / 8 + 2 < |ram|
      modifies this
      ensures S() == old(S()).(ram := PushRam(old(ram), Region(phys, pages), old(freelistHead)), head := phys,
                               free := [Region(phys, pages)] + old(free))
    {
      ram := ram[phys / 8 := freelistHead];
      ram := ram[phys / 8 + 1 := pages];
      ram := ram[phys / 8 + 2 := phys];
      freelistHead := phys;
      free := [Region(phys, pages)] + free;
    }

    /** The walk of `alloc`: the first node with at least `count` pages and its predecessor. */
    method FindFit(count: u64) returns (prev: u64, curr: u64, ghost i: nat)
      requires IsList(ram, freelistHead, free)
      ensures i == FirstFit(free, count)
      ensures curr == NextPa(free, i - 1) && prev == if i == 0 then 0 else free[i - 1].pa
    {
      prev, curr, i := 0, freelistHead, 0;
      while curr != 0
        invariant 0 <= i <= |free| && curr == NextPa(free, i - 1)
        invariant prev == if i == 0 then 0 else free[i - 1].pa
        invariant forall j | 0 <= j < i :: free[j].pages < count
        decreases |free| - i
      {
        assert LinkAt(ram, free, i);
        if ram[curr / 8 + 1] >= count {
          FirstFitIs(free, count, i);
          return;
        }
        prev, curr, i := curr, ram[curr / 8], i + 1;
      }
      assert i < |free| ==> LinkAt(ram, free, i);
      FirstFitIs(free, count, i);
    }

    method Alloc(count: u64) returns (pa: u64)
      requires Valid()
      modifies this
      ensures Valid() && S() == AllocState(old(S()), count) && pa == AllocResult(old(S()), count)
    {
      var prev, curr, i := FindFit(count);
      AllocKeepsInv(S(), count);
      if curr == 0 {
        assert i < |free| ==> LinkAt(ram, free, i);
        return 0;
      }
      pa := Take(prev, curr, count, i);
    }

    method Unlink(prev: u64, curr: u64, ghost i: nat)
      requires IsList(ram, freelistHead, free) && AllApart(free) && i < |free|
      requires curr == free[i].pa && prev == if i == 0 then 0 else free[i - 1].pa
      modifies this
      ensures S() == old(S()).(ram := UnlinkRam(old(ram), old(free), i), free := Without(old(free), i),
                               head := NextPa(Without(old(free), i), -1))
      ensures NodeAt(ram, old(free)[i], NextPa(old(free), i))
    {
      assert LinkAt(ram, free, i) && (i > 0 ==> LinkAt(ram, free, i - 1) && Apart(free[i - 1], free[i]));
      if prev != 0 {
        ram := ram[prev / 8 := ram[curr / 8]];
      } else {
        freelistHead := ram[curr / 8];
      }
      free := Without(free, i);
    }

    /** The part of the unlinked node beyond the first `count` pages goes back to the list. */
    method PushRest(curr: u64, count: u64, ghost found: Region, ghost next: nat)
      requires Usable(ram, found) && NodeAt(ram, found, next) && curr == found.pa && count <= found.pages
      requires 8 * |ram| <= 0x1_0000_0000_0000
      modifies this
      ensures count == found.pages ==> S() == old(S())
      ensures count < found.pages ==>
        S() == old(S()).(ram := PushRam(old(ram), Rest(found, count), old(freelistHead)), head := Rest(found, count).pa,
                         free := [Rest(found, count)] + old(free))
      ensures ram[curr / 8 + 2] == found.pa
    {
      if ram[curr / 8 + 1] > count {
        PushList(curr + count * 0x1000, ram[curr / 8 + 1] - count);
      }
    }

    /** The fitting branch of `alloc`: unlink the node, give the unused tail back, count the allocation. */
    method Take(prev: u64, curr: u64, count: u64, ghost i: nat) returns (pa: u64)
      requires IsList(ram, freelistHead, free) && AllApart(free) && 8 * |ram| <= 0x1_0000_0000_0000
      requires i == FirstFit(free, count) < |free|
      requires curr == free[i].pa && prev == if i == 0 then 0 else free[i - 1].pa
      modifies this
      ensures S() == AllocState(old(S()), count) && pa == old(free)[i].pa
    {
      ghost var s := S();
      assert LinkAt(ram, free, i);
      hide IsList, FirstFit, Without, UnlinkRam, PushRam, AllocState, NodeAt;
      Unlink(prev, curr, i);
      PushRest(curr, count, s.free[i], NextPa(s.free, i));
      refAlloc := refAlloc + 1;
      empties, out := s.empties + (if count == 0 then 1 else 0), if count == 0 then s.out else s.out + {Region(curr, count)};
      TakenIsAlloc(s, count, S());
      pa := ram[curr / 8 + 2];
    }

    /** A free of pages that are outstanding keeps the allocator valid. */
    method Free(phys: u64, count: u64)
      requires phys / 8 + 2 < |ram|
      modifies this
      ensures S() == FreeState(old(S()), Region(phys, count))
      ensures old(Valid()) && Region(phys, count) in old(out) ==> Valid()
    {
      hide Inv;
      ghost var s := S();
      if Inv(s) && Region(phys, count) in s.out {
        FreeKeepsInv(s, Region(phys, count));
      }
      if refAlloc == 0 {
        return;
      }
      PushList(phys, count);
      refAlloc := refAlloc - 1;
      out := out - {Region(phys, count)};
    }

    method InitPmm(entries: seq<MemmapEntry>)
      requires Valid() && Handover(S(), entries)
      modifies this
      ensures Valid() && S() == Grown(old(S()), entries)
    {
      ghost var s := S();
      for i := 0 to |entries|
        invariant S() == Grown(s, entries[..i])
      {
        assert entries[..i + 1][..i] == entries[..i];
        GrownKeepsInv(s, entries, i);
        if entries[i].kind == UsableRam {
          assert Acceptable(S(), EntryRegion(entries[i]));
          hide Inv, Handover, Acceptable, PushRam;
          PushList(entries[i].base, entries[i].length / 0x1000);
          pool := pool + PagesOf(EntryRegion(entries[i]));
        }
      }
      GrownKeepsInv(s, entries, |entries|);
      assert entries[..|entries|] == entries;
    }

    method ReclaimBootloader(kind: Kind, phys: u64, pages: u64)
      requires Valid() && (kind == Bootloader && pages != 0 ==> Acceptable(S(), Region(phys, pages)))
      modifies this
      ensures Valid()
      ensures S() == if kind == Bootloader && pages != 0 then GrowState(old(S()), Region(phys, pages)) else old(S())
    {
      if kind == Bootloader && pages != 0 {
        GrowKeepsInv(S(), Region(phys, pages));
        PushList(phys, pages);
        pool := pool + PagesOf(Region(phys, pages));
      }
    }
  }
}
