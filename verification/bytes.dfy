/** The byte view of word memory, and little-endian fields of a byte buffer. */
module Bytes {
  import opened Bits
  import opened Pmm

  type byte = b: int | 0 <= b < 256

  /** 256 to the power `n`. */
  function Top(n: nat): (t: nat)
    ensures t >= 1
  {
    if n == 0 then 1 else 256 * Top(n - 1)
  }

  /** Byte `k` of a word, counted from the least significant. */
  function ByteOf(w: nat, k: nat): byte {
    if k == 0 then w % 256 else ByteOf(w / 256, k - 1)
  }

  function SetByte(w: nat, k: nat, b: byte): nat {
    if k == 0 then w / 256 * 256 + b else w % 256 + 256 * SetByte(w / 256, k - 1, b)
  }

  lemma {:induction false} ByteOfSet(w: nat, k: nat, b: byte, j: nat)
    ensures ByteOf(SetByte(w, k, b), j) == if j == k then b else ByteOf(w, j)
  {
    if k == 0 {
      assert (w / 256 * 256 + b) / 256 == w / 256;
    } else {
      var x := SetByte(w / 256, k - 1, b);
      assert (w % 256 + 256 * x) / 256 == x && (w % 256 + 256 * x) % 256 == w % 256;
      if j > 0 {
        ByteOfSet(w / 256, k - 1, b, j - 1);
      }
    }
  }

  lemma {:induction false} SetByteFits(w: nat, k: nat, b: byte, n: nat)
    requires w < Top(n) && k < n
    ensures SetByte(w, k, b) < Top(n)
  {
    if k > 0 {
      SetByteFits(w / 256, k - 1, b, n - 1);
    }
  }

  lemma TopOfWord()
    ensures Top(8) == 0x1_0000_0000_0000_0000
  {
  }

  lemma {:induction false} ByteOfZero(k: nat)
    ensures ByteOf(0, k) == 0
  {
    if k > 0 {
      ByteOfZero(k - 1);
    }
  }

  /** The byte at physical address `a`. */
  function ByteAt(ram: seq<u64>, a: nat): byte {
    if a / 8 < |ram| then ByteOf(ram[a / 8], a % 8) else 0
  }

  function PutByte(ram: seq<u64>, a: nat, b: byte): seq<u64> {
    if a / 8 < |ram| then Store(ram, a / 8, SetByte(ram[a / 8], a % 8, b)) else ram
  }

  /** A byte store changes that byte and no other. */
  lemma PutThenByteAt(ram: seq<u64>, a: nat, b: byte, c: nat)
    requires a / 8 < |ram|
    ensures ByteAt(PutByte(ram, a, b), c) == if c == a then b else ByteAt(ram, c)
  {
    TopOfWord();
    SetByteFits(ram[a / 8], a % 8, b, 8);
    ByteOfSet(ram[a / 8], a % 8, b, c % 8);
  }

  /** Bytes of a region depend on its words only. */
  lemma SameBytes(ram: seq<u64>, ram': seq<u64>, r: Region, a: nat)
    requires SameIn(ram, ram', r) && r.pa % 4096 == 0 && r.pa <= a < r.pa + 4096 * r.pages
    ensures ByteAt(ram', a) == ByteAt(ram, a)
  {
    hide ByteOf;
    ByteWord(r, a);
    hide HasWord;
  }

  lemma ByteWord(r: Region, a: nat)
    requires r.pa % 4096 == 0 && r.pa <= a < r.pa + 4096 * r.pages
    ensures HasWord(r, a / 8)
  {
    AddMultiple(a - r.pa, 8, 512 * (r.pa / 4096));
  }

  /** A little-endian field. */
  function Field(data: seq<byte>, off: nat, n: nat): (v: nat)
    requires off + n <= |data|
    ensures v < Top(n)
    decreases n
  {
    if n == 0 then 0 else data[off] + 256 * Field(data, off + 1, n - 1)
  }

  lemma TopOfFields()
    ensures Top(2) == 0x1_0000 && Top(4) == 0x1_0000_0000 && Top(8) == 0x1_0000_0000_0000_0000
  {
  }

  /** Memory after `n` bytes of `data` from `src` on were copied to `dst`. */
  function CopiedRam(ram: seq<u64>, dst: nat, data: seq<byte>, src: nat, n: nat): seq<u64>
    requires src + n <= |data|
  {
    if n == 0 then ram else PutByte(CopiedRam(ram, dst, data, src, n - 1), dst + n - 1, data[src + n - 1])
  }

  /** `memcpy` puts each byte in its place and leaves every other byte alone. */
  lemma {:induction false} CopiedBytes(ram: seq<u64>, dst: nat, data: seq<byte>, src: nat, n: nat, a: nat)
    requires src + n <= |data| && dst + n <= 8 * |ram|
    ensures |CopiedRam(ram, dst, data, src, n)| == |ram|
    ensures ByteAt(CopiedRam(ram, dst, data, src, n), a) == if dst <= a < dst + n then data[src + (a - dst)] else ByteAt(ram, a)
  {
    if n > 0 {
      CopiedBytes(ram, dst, data, src, n - 1, a);
      hide ByteAt, PutByte;
      var ram1 := CopiedRam(ram, dst, data, src, n - 1);
      PutThenByteAt(ram1, dst + n - 1, data[src + n - 1], a);
      PutLength(ram1, dst + n - 1, data[src + n - 1]);
    }
  }

  lemma PutLength(ram: seq<u64>, a: nat, b: byte)
    ensures |PutByte(ram, a, b)| == |ram|
  {
  }

  lemma {:induction false} CopiedElsewhere(ram: seq<u64>, dst: nat, data: seq<byte>, src: nat, n: nat, w: nat)
    requires src + n <= |data| && w < |ram| && (n > 0 ==> w < dst / 8 || (dst + n - 1) / 8 < w)
    ensures |CopiedRam(ram, dst, data, src, n)| == |ram| && CopiedRam(ram, dst, data, src, n)[w] == ram[w]
  {
    if n > 0 {
      CopiedElsewhere(ram, dst, data, src, n - 1, w);
    }
  }
}
