/** Machine words and the bitwise operators of the page-table code, on naturals. */
module Bits {

  type u64 = x: int | 0 <= x < 0x1_0000_0000_0000_0000

  function Pow2(n: nat): (p: nat)
    ensures p >= 1
  {
    if n == 0 then 1 else 2 * Pow2(n - 1)
  }

  /** Bitwise and. */
  function And(x: nat, y: nat): (r: nat)
    ensures r <= x && r <= y
  {
    if x == 0 || y == 0 then 0
    else (if x % 2 == 1 && y % 2 == 1 then 1 else 0) + 2 * And(x / 2, y / 2)
  }

  /** Bitwise or. */
  function Or(x: nat, y: nat): (r: nat)
    ensures r >= x && r >= y && r <= x + y
  {
    if x == 0 then y
    else if y == 0 then x
    else (if x % 2 == 1 || y % 2 == 1 then 1 else 0) + 2 * Or(x / 2, y / 2)
  }

  function Shl(x: nat, k: nat): nat {
    if k == 0 then x else 2 * Shl(x, k - 1)
  }

  function Shr(x: nat, k: nat): nat {
    if k == 0 then x else Shr(x / 2, k - 1)
  }

  lemma {:induction false} ShlIsTimes(x: nat, k: nat)
    ensures Shl(x, k) == x * Pow2(k)
  {
    if k > 0 {
      ShlIsTimes(x, k - 1);
      EvenProduct(x, Pow2(k - 1));
    }
  }

  lemma {:induction false} ShrIsDiv(x: nat, k: nat)
    ensures Shr(x, k) == x / Pow2(k)
  {
    if k > 0 {
      ShrIsDiv(x / 2, k - 1);
      DivTwice(x, Pow2(k - 1));
    }
  }

  lemma {:induction false} AndShl(x: nat, k: nat, y: nat)
    ensures And(x, Shl(y, k)) == Shl(And(Shr(x, k), y), k)
  {
    if k > 0 {
      AndShl(x / 2, k - 1, y);
      AndEven(x, Shl(y, k - 1));
    }
  }

  /** Anding with a run of `m` ones that starts at bit `k` cuts out exactly those bits. */
  lemma AndRun(x: nat, k: nat, m: nat)
    ensures And(x, (Pow2(m) - 1) * Pow2(k)) == x / Pow2(k) % Pow2(m) * Pow2(k)
  {
    AndShl(x, k, Pow2(m) - 1);
    ShrIsDiv(x, k);
    AndOnes(Shr(x, k), m);
    ShlIsTimes(Pow2(m) - 1, k);
    ShlIsTimes(Shr(x, k) % Pow2(m), k);
  }

  lemma AndEven(x: nat, y: nat)
    ensures And(x, 2 * y) == 2 * And(x / 2, y)
  {
    assert 2 * y / 2 == y;
  }

  lemma EvenProduct(y: nat, p: nat)
    ensures y * (2 * p) == 2 * (y * p)
  {
  }

  lemma {:induction false} AndOnes(x: nat, m: nat)
    ensures And(x, Pow2(m) - 1) == x % Pow2(m)
  {
    if m > 0 {
      var p, h := Pow2(m - 1), x / 2;
      assert Pow2(m) == 2 * p;
      hide And, Pow2;
      AndOnes(h, m - 1);
      OnesStep(x, h, p, p - 1);
    }
  }

  lemma OnesStep(x: nat, h: nat, p: nat, y: nat)
    requires h == x / 2 && p > 0 && y == p - 1 && And(h, y) == h % p
    ensures And(x, 2 * p - 1) == x % (2 * p)
  {
    hide And;
    ModTwice(x, p);
    AndOdd(x, y);
    assert 1 + 2 * y == 2 * p - 1;
  }

  lemma AndOdd(x: nat, y: nat)
    ensures And(x, 1 + 2 * y) == x % 2 + 2 * And(x / 2, y)
  {
    assert (1 + 2 * y) / 2 == y;
  }

  lemma DivTwice(x: nat, p: nat)
    requires p > 0
    ensures x / 2 / p == x / (2 * p)
  {
    var q := x / 2 / p;
    var r := x / 2 % p;
    assert x / 2 == q * p + r;
    assert x == q * (2 * p) + (2 * r + x % 2);
    DivUnique(x, 2 * p, q, 2 * r + x % 2);
  }

  lemma ModTwice(x: nat, p: nat)
    requires p > 0
    ensures x % (2 * p) == x % 2 + 2 * (x / 2 % p)
  {
    var q := x / 2 / p;
    var r := x / 2 % p;
    assert x / 2 == q * p + r;
    assert x == q * (2 * p) + (2 * r + x % 2);
    DivUnique(x, 2 * p, q, 2 * r + x % 2);
  }

  lemma DivUnique(x: nat, d: nat, q: nat, r: nat)
    requires d > 0 && r < d && x == q * d + r
    ensures x / d == q && x % d == r
  {
    SmallMultiple(d, x / d - q, r - x % d);
  }

  lemma SmallMultiple(d: nat, k: int, e: int)
    requires 0 - d < e < d && k * d == e
    ensures k == 0 && e == 0
  {
    if k > 0 {
      MulMonotone(1, k, d);
    } else if k < 0 {
      MulMonotone(k, -1, d);
    }
  }

  lemma MulMonotone(a: int, b: int, d: nat)
    requires a <= b
    ensures a * d <= b * d
  {
  }

  /** The low bit and the remaining bits of an and, and of an or. */
  lemma {:induction false} AndParts(x: nat, y: nat)
    ensures And(x, y) % 2 == (if x % 2 + y % 2 == 2 then 1 else 0) && And(x, y) / 2 == And(x / 2, y / 2)
  {
  }

  lemma {:induction false} OrParts(x: nat, y: nat)
    ensures Or(x, y) % 2 == (if x % 2 + y % 2 > 0 then 1 else 0) && Or(x, y) / 2 == Or(x / 2, y / 2)
  {
  }

  /** Or distributes out of and. */
  lemma {:induction false} AndOr(x: nat, y: nat, z: nat)
    ensures And(Or(x, y), z) == Or(And(x, z), And(y, z))
  {
    if x != 0 && y != 0 && z != 0 {
      var l, r := And(Or(x, y), z), Or(And(x, z), And(y, z));
      assert l / 2 == r / 2 by {
        AndOr(x / 2, y / 2, z / 2);
        AndOrHalves(x, y, z);
      }
      assert l % 2 == r % 2 by {
        AndOrHalves(x, y, z);
      }
    }
  }

  lemma AndOrHalves(x: nat, y: nat, z: nat)
    ensures And(Or(x, y), z) / 2 == And(Or(x / 2, y / 2), z / 2)
    ensures Or(And(x, z), And(y, z)) / 2 == Or(And(x / 2, z / 2), And(y / 2, z / 2))
    ensures And(Or(x, y), z) % 2 == Or(And(x, z), And(y, z)) % 2
  {
    AndParts(Or(x, y), z);
    OrParts(x, y);
    OrParts(And(x, z), And(y, z));
    AndParts(x, z);
    AndParts(y, z);
  }

  /** Words without a common one bit add without carries. */
  lemma {:induction false} OrDisjoint(x: nat, y: nat)
    requires And(x, y) == 0
    ensures Or(x, y) == x + y
  {
    if x != 0 && y != 0 {
      OrDisjoint(x / 2, y / 2);
    }
  }

  lemma {:induction false} OrBound(x: nat, y: nat, n: nat)
    requires x < Pow2(n) && y < Pow2(n)
    ensures Or(x, y) < Pow2(n)
  {
    if x != 0 && y != 0 {
      OrBound(x / 2, y / 2, n - 1);
    }
  }

  lemma {:induction false} AndCommutes(x: nat, y: nat)
    ensures And(x, y) == And(y, x)
  {
    if x != 0 && y != 0 {
      AndCommutes(x / 2, y / 2);
    }
  }

  lemma {:induction false} Pow2Sum(a: nat, b: nat)
    ensures Pow2(a + b) == Pow2(a) * Pow2(b)
  {
    if b > 0 {
      Pow2Sum(a, b - 1);
      EvenProduct(Pow2(a), Pow2(b - 1));
    }
  }

  lemma Powers()
    ensures Pow2(9) == 0x200 && Pow2(12) == 0x1000
    ensures Pow2(21) == 0x20_0000 && Pow2(30) == 0x4000_0000 && Pow2(39) == 0x80_0000_0000
    ensures Pow2(36) == 0x10_0000_0000 && Pow2(52) == 0x10_0000_0000_0000 && Pow2(64) == 0x1_0000_0000_0000_0000
  {
    assert Pow2(9) == 0x200;
    assert Pow2(12) == 0x1000;
    assert Pow2(4) == 16;
    hide Pow2;
    Pow2Sum(12, 9);
    Pow2Sum(21, 9);
    Pow2Sum(30, 9);
    Pow2Sum(12, 12);
    Pow2Sum(24, 12);
    Pow2Sum(36, 12);
    Pow2Sum(48, 4);
    Pow2Sum(52, 12);
  }

  /** The physical-address field of an entry: bits 12 to 47. */
  lemma AndFrame(x: nat)
    ensures And(x, 0x0000_FFFF_FFFF_F000) == x / 0x1000 % 0x10_0000_0000 * 0x1000
  {
    Powers();
    AndRun(x, 12, 36);
  }

  /** A nine-bit table index, cut out and shifted down. */
  lemma AndIndex(x: nat)
    ensures And(x, 0x1ff * 0x80_0000_0000) / 0x80_0000_0000 == x / 0x80_0000_0000 % 512
    ensures And(x, 0x1ff * 0x4000_0000) / 0x4000_0000 == x / 0x4000_0000 % 512
    ensures And(x, 0x1ff * 0x20_0000) / 0x20_0000 == x / 0x20_0000 % 512
    ensures And(x, 0x1ff * 0x1000) / 0x1000 == x / 0x1000 % 512
  {
    hide And;
    Powers();
    AndRun(x, 39, 9);
    AndRun(x, 30, 9);
    AndRun(x, 21, 9);
    AndRun(x, 12, 9);
  }

  lemma AndOffset(x: nat)
    ensures And(x, 0xFFF) == x % 0x1000
  {
    Powers();
    AndOnes(x, 12);
  }

  // `align_down` and `align_up` to the page size, on 64-bit words.

  function AlignDown(x: u64): nat {
    And(x, 0x1_0000_0000_0000_0000 - 0x1000)
  }

  function AlignUp(x: u64): nat {
    And((x + 0xFFF) % 0x1_0000_0000_0000_0000, 0x1_0000_0000_0000_0000 - 0x1000)
  }

  lemma AndPageMask(x: u64)
    ensures And(x, 0x1_0000_0000_0000_0000 - 0x1000) == x / 0x1000 * 0x1000
  {
    hide And;
    Powers();
    AndRun(x, 12, 52);
    assert (0x10_0000_0000_0000 - 1) * 0x1000 == 0x1_0000_0000_0000_0000 - 0x1000;
  }

  lemma AlignDownIs(x: u64)
    ensures AlignDown(x) % 0x1000 == 0 && AlignDown(x) <= x < AlignDown(x) + 0x1000
  {
    AndPageMask(x);
  }

  /** Rounding up gives the next page boundary unless the sum wraps, and then it gives 0. */
  lemma AlignUpIs(x: u64)
    ensures x <= 0x1_0000_0000_0000_0000 - 0x1000 ==>
      AlignUp(x) % 0x1000 == 0 && x <= AlignUp(x) < x + 0x1000
    ensures x > 0x1_0000_0000_0000_0000 - 0x1000 ==> AlignUp(x) == 0
  {
    hide And;
    var y := (x + 0xFFF) % 0x1_0000_0000_0000_0000;
    AndPageMask(y);
    assert y == if x <= 0x1_0000_0000_0000_0000 - 0x1000 then x + 0xFFF else x + 0xFFF - 0x1_0000_0000_0000_0000;
  }

  lemma AddMultiple(y: nat, d: nat, k: nat)
    requires d > 0
    ensures (k * d + y) / d == k + y / d && (k * d + y) % d == y % d
  {
    var q, r := y / d, y % d;
    assert (k + q) * d == k * d + q * d;
    DivUnique(k * d + y, d, k + q, r);
  }

  lemma DivProduct(x: nat, a: nat, b: nat)
    requires a > 0 && b > 0
    ensures a * b > 0 && x / (a * b) == x / a / b
  {
    var q, r := x / a / b, x / a % b;
    MulMonotone(r, b - 1, a);
    assert q * b * a == q * (a * b) && (b - 1) * a == a * b - a;
    assert x == (q * b + r) * a + x % a;
    assert (q * b + r) * a == q * b * a + r * a;
    DivUnique(x, a * b, q, r * a + x % a);
  }
}
