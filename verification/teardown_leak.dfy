/** A directory with one page mapped at 0x100000, whose frame teardown does not give back. */
module TeardownLeak {
  import opened Bits
  import opened Vmm
  import opened Pmm
  import opened VmmLaws
  import opened Teardown
  import opened TeardownLaws

  const VA := 0x10_0000

  /** Memory of six pages: page 1 is the root, 2 to 4 are the tables below it, and page 5 is mapped. */
  function Word(w: nat): u64 {
    if w == 0x200 then 0x2007 else if w == 0x400 then 0x3007 else if w == 0x600 then 0x4007 else if w == 0x900 then 0x5007 else 0
  }

  function Ram(): seq<u64> {
    seq(0xC00, w requires 0 <= w < 0xC00 => Word(w))
  }

  function Trees(): Tables {
    map[Root(1) := 0x1000, Pdpt(1, 0) := 0x2000, Pd(1, 0, 0) := 0x3000, Pt(1, 0, 0, 0) := 0x4000]
  }

  lemma Words()
    ensures !Present(0)
    ensures Present(0x2007) && Present(0x3007) && Present(0x4007) && Present(0x5007)
    ensures FrameOf(0x2007) == 0x2000 && FrameOf(0x3007) == 0x3000 && FrameOf(0x4007) == 0x4000 && FrameOf(0x5007) == 0x5000
  {
    hide Present, FrameOf;
    AbsentZero();
    PresentIsOdd(0x2007);
    PresentIsOdd(0x3007);
    PresentIsOdd(0x4007);
    PresentIsOdd(0x5007);
    FrameIsMasked(0x2007);
    FrameIsMasked(0x3007);
    FrameIsMasked(0x4007);
    FrameIsMasked(0x5007);
  }

  lemma Entries(table: nat, i: nat)
    requires table in {0x1000, 0x2000, 0x3000, 0x4000} && i < 512
    ensures Entry(Ram(), table, i) ==
      if table == 0x4000 then (if i == 256 then 0x5007 else 0) else if i == 0 then table + 0x1007 else 0
  {
  }

  lemma Kids(n: Node, i: nat)
    requires n in Trees() && !n.Pt? && i < 512
    ensures Trees()[n] in {0x1000, 0x2000, 0x3000}
    ensures Child(n, i) in Trees() <==> i == 0
    ensures i == 0 ==> Trees()[Child(n, i)] == Trees()[n] + 0x1000
  {
  }

  lemma Slots(n: Node, i: nat)
    requires n in Trees() && !n.Pt? && i < 512
    ensures SlotOk(Ram(), Trees(), n, i)
  {
    Kids(n, i);
    Words();
    hide Ram, Trees, Present, FrameOf, Entry;
    Entries(Trees()[n], i);
  }

  lemma Frames(n: Node, m: Node)
    requires n in Trees() && m in Trees()
    ensures Usable(Ram(), Region(Trees()[n], 1)) && Parented(Trees(), n) && (Trees()[n] == Trees()[m] ==> n == m)
  {
    assert |Ram()| == 0xC00;
    hide Ram;
  }

  lemma TreesOk()
    ensures TablesOk(Ram(), Trees())
  {
    hide Ram, Trees, Usable, Parented, SlotOk;
    forall n, m | n in Trees() && m in Trees()
      ensures Usable(Ram(), Region(Trees()[n], 1)) && Parented(Trees(), n) && (Trees()[n] == Trees()[m] ==> n == m)
    {
      Frames(n, m);
    }
    forall n, i | n in Trees() && !n.Pt? && 0 <= i < 512 ensures SlotOk(Ram(), Trees(), n, i) {
      Slots(n, i);
    }
  }

  lemma TheTable(m: Node)
    requires m in Trees()
    ensures m.Pt? ==> m == Pt(1, 0, 0, 0)
    ensures Trees()[m] != 0x5000 && Pt(1, 0, 0, 0) in Trees() && Root(1) in Trees()
    ensures Trees()[Pt(1, 0, 0, 0)] == 0x4000 && Trees()[Root(1)] == 0x1000
  {
  }

  lemma ThePage()
    ensures PageOf(VA) == Page(0, 0, 0, 256) && PtNode(1, PageOf(VA)) == Pt(1, 0, 0, 0)
    ensures InRange(PageOf(VA)) && !LowPage(PageOf(VA))
  {
  }

  lemma OnlyThere()
    ensures MappedOnlyAt(Ram(), Trees(), 1, PageOf(VA), 0x5000)
  {
    assert Pt(1, 0, 0, 0) in Trees();
    hide Ram, Trees, Present, FrameOf, Entry, PageOf, PtNode;
    ThePage();
    Words();
    Entries(0x4000, 256);
    TheTable(Pt(1, 0, 0, 0));
    forall m, j: nat | m in Trees() && LeafAt(Ram(), Trees(), 1, m, j, 0x5000) ensures m == Pt(1, 0, 0, 0) && j == 256 {
      TheTable(m);
      OneLeaf(j);
    }
    forall m | m in Trees() ensures Trees()[m] != 0x5000 {
      TheTable(m);
    }
  }

  lemma OneLeaf(j: nat)
    requires Present(Entry(Ram(), 0x4000, j)) && FrameOf(Entry(Ram(), 0x4000, j)) == 0x5000
    ensures j == 256
  {
    Words();
    hide Present, FrameOf;
    assert j < 0xC00;
  }

  /** The address translates to page 5, and page 5 is not given back. */
  lemma LeakExample()
    ensures WalkPt(Ram(), 0x1000, PageOf(VA)) == 0x4000
    ensures Translate(Entry(Ram(), 0x4000, PageOf(VA).i1), VA) == 0x5000
    ensures 0x5000 !in Reached(Ram(), 0x1000, 4, 0)
  {
    assert Root(1) in Trees();
    hide *;
    ThePage();
    Entries(0x4000, 256);
    TheTable(Root(1));
    TreesOk();
    OnlyThere();
    WalkReadsFlat(Ram(), Trees(), 1, PageOf(VA));
    Mapped();
    PageGivenBack(Ram(), Trees(), 1, PageOf(VA), 0x5000);
  }

  lemma Mapped()
    ensures Translate(0x5007, VA) == 0x5000
  {
    hide And, Or;
    FrameIsMasked(7);
    assert Or(0x5000, 7) == 0x5007 by { AlignedOr(0x5000, 7); }
    TranslateLeaf(0x5000, 7, VA);
  }
}
