/** What `map` and `unmap` mean for address translation. */
module VmmLaws {
  import opened Bits
  import opened Vmm

  /** The page number the four indices spell. */
  function Number(p: Page): nat {
    p.i4 * 0x800_0000 + p.i3 * 0x4_0000 + p.i2 * 0x200 + p.i1
  }

  lemma NumberOfPage(va: nat)
    ensures Number(PageOf(va)) == va / 0x1000 % 0x10_0000_0000
  {
    var v := va / 0x1000;
    DivProduct(va, 0x1000, 0x800_0000);
    DivProduct(va, 0x1000, 0x4_0000);
    DivProduct(va, 0x1000, 0x200);
    DigitSplit(v);
  }

  lemma DigitSplit(v: nat)
    ensures v / 0x800_0000 % 512 * 0x800_0000 + v / 0x4_0000 % 512 * 0x4_0000 + v / 0x200 % 512 * 0x200 + v % 512
            == v % 0x10_0000_0000
  {
    var a := v / 0x200;
    var b := a / 0x200;
    DivProduct(v, 0x200, 0x200);
    DivProduct(v, 0x200, 0x4_0000);
    DivProduct(a, 0x200, 0x200);
    var c := b / 0x200;
    var q := c / 512;
    assert v == q * 0x10_0000_0000 + (c % 512 * 0x800_0000 + b % 512 * 0x4_0000 + a % 512 * 0x200 + v % 512);
    DivUnique(v, 0x10_0000_0000, q, c % 512 * 0x800_0000 + b % 512 * 0x4_0000 + a % 512 * 0x200 + v % 512);
  }

  /** Within one address space of 2^48 bytes, different pages have different indices. */
  lemma PagesDiffer(x: nat, y: nat)
    requires x / 4096 < y / 4096 < x / 4096 + 0x10_0000_0000
    ensures PageOf(x) != PageOf(y)
  {
    hide PageOf;
    NumberOfPage(x);
    NumberOfPage(y);
    ModDiffers(x / 4096, y / 4096 - x / 4096, 0x10_0000_0000);
  }

  lemma ModDiffers(x: nat, d: nat, m: nat)
    requires 0 < d < m
    ensures x % m != (x + d) % m
  {
    var k := (x + d) / m - x / m;
    if x % m == (x + d) % m {
      assert k * m == d by {
        assert x == x / m * m + x % m;
        assert x + d == (x + d) / m * m + (x + d) % m;
      }
      SmallMultiple(m, k, d);
    }
  }

  /** Mapping a range gives its k-th page the k-th frame. */
  lemma {:induction false} OverlayInside(d: nat, pa: nat, va: nat, flags: nat, n: nat, k: nat, v: nat)
    requires k < n <= 0x10_0000_0000
    ensures Overlay(d, pa, va, flags, n, d, PageOf(va + 4096 * k), v) == Or((pa + 4096 * k) / 4096 * 4096, flags)
  {
    hide PageOf, Or;
    if k < n - 1 {
      assert (va + 4096 * k) / 4096 == va / 4096 + k && (va + 4096 * (n - 1)) / 4096 == va / 4096 + n - 1;
      PagesDiffer(va + 4096 * k, va + 4096 * (n - 1));
      OverlayInside(d, pa, va, flags, n - 1, k, v);
    }
  }

  /** Mapping a range changes no page outside it. */
  lemma {:induction false} OverlayOutside(d: nat, pa: nat, va: nat, flags: nat, n: nat, d': nat, q: Page, v: nat)
    requires !Touched(d, va, n, d', q)
    ensures Overlay(d, pa, va, flags, n, d', q, v) == v
  {
    if n > 0 {
      OverlayOutside(d, pa, va, flags, n - 1, d', q, v);
    }
  }

  lemma {:induction false} TouchedIff(d: nat, va: nat, n: nat, d': nat, q: Page)
    ensures Touched(d, va, n, d', q) <==> exists k :: 0 <= k < n && SamePage(d, PageOf(va + 4096 * k), d', q)
  {
    hide PageOf;
    if n > 0 {
      TouchedIff(d, va, n - 1, d', q);
      if Touched(d, va, n, d', q) && !SamePage(d, PageOf(va + 4096 * (n - 1)), d', q) {
        var k :| 0 <= k < n - 1 && SamePage(d, PageOf(va + 4096 * k), d', q);
      }
    }
  }

  /** After mapping page-aligned ranges, every byte of the virtual range translates to its own physical byte. */
  lemma MapThenTranslate(d: nat, pa: nat, va: nat, flags: u64, length: nat, k: nat, v: nat)
    requires pa % 4096 == 0 && va % 4096 == 0 && k < length && pa + length <= 0x1_0000_0000_0000
    requires FrameOf(flags) == 0
    ensures Translate(Overlay(d, pa, va, flags, PageCount(length), d, PageOf(va + k), v), va + k) == pa + k
  {
    hide PageOf, Or, And, FrameOf;
    var i := k / 4096;
    PageOfBase(va + k);
    PageOfBase(va + 4096 * i);
    assert (va + k) / 4096 * 4096 == va + 4096 * i;
    OverlayInside(d, pa, va, flags, PageCount(length), i, v);
    TranslateLeaf(pa + 4096 * i, flags, va + k);
  }

  /** After a call of `map`, `va_to_pa(va + k)` is `pa + k` over the whole range. */
  lemma MappedRangeTranslates(ram: seq<u64>, t: Tables, ram': seq<u64>, t': Tables, d: nat, pa: nat, va: nat, flags: u64,
                              length: nat, k: nat)
    requires FlatMapped(ram, t, ram', t', d, pa, va, flags, PageCount(length))
    requires pa % 4096 == 0 && va % 4096 == 0 && k < length && pa + length <= 0x1_0000_0000_0000 && FrameOf(flags) == 0
    ensures Translate(Flat(ram', t', d, PageOf(va + k)), va + k) == pa + k
  {
    var q := PageOf(va + k);
    assert InRange(q);
    hide PageOf, Or, And, FrameOf, Flat, Translate, Overlay;
    MapThenTranslate(d, pa, va, flags, length, k, Flat(ram, t, d, q));
  }

  /** Unmapping a range just mapped clears it and leaves every other page as it was before both calls. */
  lemma MapThenUnmap(ram: seq<u64>, t: Tables, ram1: seq<u64>, t1: Tables, ram2: seq<u64>, d: nat, pa: nat, va: nat,
                     flags: nat, n: nat, d': nat, q: Page)
    requires FlatMapped(ram, t, ram1, t1, d, pa, va, flags, n) && FlatUnmapped(ram1, ram2, t1, d, va, n) && InRange(q)
    ensures Flat(ram2, t1, d', q) == if Touched(d, va, n, d', q) then 0 else Flat(ram, t, d', q)
  {
    hide Flat, Overlay, Touched;
    if !Touched(d, va, n, d', q) {
      OverlayOutside(d, pa, va, flags, n, d', q, Flat(ram, t, d', q));
    }
  }

  lemma TranslateLeaf(f: nat, flags: u64, va: nat)
    requires f % 4096 == 0 && f < 0x1_0000_0000_0000 && FrameOf(flags) == 0
    ensures Translate(Or(f, flags), va) == f + va % 4096
  {
    hide Or, And;
    EntryFields(f, flags);
    AndOffset(va);
    AlignedOr(f, va % 4096);
  }

  lemma AlignedOr(f: nat, o: nat)
    requires f % 4096 == 0 && o < 4096
    ensures Or(f, o) == f + o
  {
    hide Or, And;
    AndCommutes(f, o);
    AndBelow(o, f, 12);
    OrDisjoint(f, o);
  }

  /** A word below 2^n has no bit in common with a multiple of 2^n. */
  lemma {:induction false} AndBelow(o: nat, f: nat, n: nat)
    requires o < Pow2(n) && f % Pow2(n) == 0
    ensures And(o, f) == 0
  {
    if n > 0 && o != 0 && f != 0 {
      ModTwice(f, Pow2(n - 1));
      AndBelow(o / 2, f / 2, n - 1);
    }
  }
}
