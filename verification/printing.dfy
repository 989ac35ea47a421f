/** The integer conversions of the kernel's formatter. */
module Printing {

  const U64 := 0x1_0000_0000_0000_0000
  const INT_MIN := -0x8000_0000

  function Digit(n: nat): char
    requires n < 16
  {
    if n < 10 then ('0' as int + n) as char else ('a' as int + n - 10) as char
  }

  /** The digits of a positive number, least significant first; none for zero. */
  function LowFirst(v: nat, base: nat): seq<char>
    requires 2 <= base <= 16
  {
    if v == 0 then [] else [Digit(v % base)] + LowFirst(v / base, base)
  }

  function Reversed(s: seq<char>): (r: seq<char>)
    ensures |r| == |s|
  {
    if s == [] then [] else Reversed(s[1..]) + [s[0]]
  }

  /** What a number looks like. */
  function Text(v: nat, base: nat): seq<char>
    requires 2 <= base <= 16
  {
    if v == 0 then ['0'] else Reversed(LowFirst(v, base))
  }

  function SignedText(v: int): string {
    if v == INT_MIN then "-" else (if v < 0 then "-" else "") + Text(if v < 0 then -v else v, 10)
  }

  // Reading a number back.

  function Value(c: char): nat {
    if '0' <= c <= '9' then c as int - '0' as int else if 'a' <= c <= 'f' then c as int - 'a' as int + 10 else 0
  }

  function Parse(s: seq<char>, base: nat): nat {
    if s == [] then 0 else Parse(s[..|s| - 1], base) * base + Value(s[|s| - 1])
  }

  function ParseSigned(s: string): int {
    if s != [] && s[0] == '-' then 0 - Parse(s[1..], 10) else Parse(s, 10)
  }

  lemma DigitValue(n: nat)
    requires n < 16
    ensures Value(Digit(n)) == n && (Digit(n) == '0' <==> n == 0)
  {
  }

  /** One digit more: `q` and `d` are quotient and remainder. */
  lemma Unfold(v: nat, base: nat, q: nat, d: nat)
    requires 2 <= base <= 16 && v > 0 && q == v / base && d == v % base
    ensures d < base && q < v && v == q * base + d && LowFirst(v, base) == [Digit(d)] + LowFirst(q, base)
  {
    Divides(v, base);
  }

  lemma Divides(v: nat, base: nat)
    requires base >= 2
    ensures v == (v / base) * base + v % base && (v > 0 ==> v / base < v)
  {
  }

  lemma {:induction false} ParseReversed(v: nat, base: nat)
    requires 2 <= base <= 16
    ensures Parse(Reversed(LowFirst(v, base)), base) == v
    decreases v
  {
    if v > 0 {
      var q, d := v / base, v % base;
      Unfold(v, base, q, d);
      ParseReversed(q, base);
      hide LowFirst, Digit, Value;
      DigitValue(d);
      ReversedCons(Digit(d), LowFirst(q, base));
      ParseSnoc(Reversed(LowFirst(q, base)), Digit(d), base);
    }
  }

  lemma ReversedCons(c: char, s: seq<char>)
    ensures Reversed([c] + s) == Reversed(s) + [c]
  {
    assert ([c] + s)[1..] == s;
  }

  lemma ParseSnoc(s: seq<char>, c: char, base: nat)
    ensures Parse(s + [c], base) == Parse(s, base) * base + Value(c)
  {
    assert (s + [c])[..|s|] == s;
  }

  /** What is printed reads back as the number, in every base. */
  lemma TextRoundTrip(v: nat, base: nat)
    requires 2 <= base <= 16
    ensures Parse(Text(v, base), base) == v
  {
    ParseReversed(v, base);
    assert Parse([], base) == 0;
    assert ['0'][..0] == [];
  }

  lemma {:induction false} HighDigit(v: nat, base: nat)
    requires 2 <= base <= 16 && v > 0
    ensures LowFirst(v, base) != [] && LowFirst(v, base)[|LowFirst(v, base)| - 1] != '0'
    decreases v
  {
    var q, d := v / base, v % base;
    Unfold(v, base, q, d);
    if q > 0 {
      HighDigit(q, base);
    } else {
      assert v == d;
      DigitValue(d);
      assert LowFirst(q, base) == [];
    }
  }

  lemma {:induction false} ReversedEnds(s: seq<char>)
    requires s != []
    ensures Reversed(s)[0] == s[|s| - 1]
  {
    if |s| > 1 {
      ReversedEnds(s[1..]);
    }
  }

  lemma NoLeadingZero(v: nat, base: nat)
    requires 2 <= base <= 16
    ensures Text(v, base) != [] && (Text(v, base)[0] == '0' <==> v == 0)
  {
    if v > 0 {
      HighDigit(v, base);
      ReversedEnds(LowFirst(v, base));
    }
  }

  function Pow(base: nat, k: nat): nat {
    if k == 0 then 1 else base * Pow(base, k - 1)
  }

  lemma {:induction false} DigitCount(v: nat, base: nat, k: nat)
    requires 2 <= base <= 16 && v < Pow(base, k)
    ensures |LowFirst(v, base)| <= k
    decreases k
  {
    if v > 0 {
      var q := v / base;
      QuotientBound(v, base, Pow(base, k - 1));
      Unfold(v, base, q, v % base);
      DigitCount(q, base, k - 1);
    }
  }

  lemma QuotientBound(v: nat, base: nat, p: nat)
    requires base > 0 && v < base * p
    ensures v / base < p
  {
  }

  lemma FitsTwenty(v: nat)
    requires v < U64
    ensures |LowFirst(v, 10)| <= 20
  {
    assert Pow(10, 5) == 100000;
    PowSplit(10, 5, 5);
    PowSplit(10, 10, 10);
    DigitCount(v, 10, 20);
  }

  lemma FitsSixteen(v: nat)
    requires v < U64
    ensures |LowFirst(v, 16)| <= 16
  {
    assert Pow(16, 4) == 0x1_0000;
    PowSplit(16, 4, 4);
    PowSplit(16, 8, 8);
    DigitCount(v, 16, 16);
  }

  lemma {:induction false} PowSplit(base: nat, i: nat, j: nat)
    ensures Pow(base, i + j) == Pow(base, i) * Pow(base, j)
  {
    if i > 0 {
      PowSplit(base, i - 1, j);
      assert Pow(base, i) == base * Pow(base, i - 1) && Pow(base, i + j) == base * Pow(base, i - 1 + j);
      hide Pow;
      Regroup(base, Pow(base, i - 1), Pow(base, j));
    }
  }

  lemma Regroup(a: nat, b: nat, c: nat)
    ensures a * (b * c) == (a * b) * c
  {
  }

  lemma ReversedSnoc(s: seq<char>, i: nat)
    requires i < |s|
    ensures Reversed(s[i..]) == Reversed(s[i + 1..]) + [s[i]]
  {
    assert s[i..][1..] == s[i + 1..];
  }

  /** Copies `tmp[..n]` backwards to the output. */
  method CopyBackwards(tmp: array<char>, n: nat, buf: array<char>, start: nat) returns (str: nat)
    requires n <= tmp.Length && tmp != buf && start + n <= buf.Length
    modifies buf
    ensures str == start + n && buf[..str] == old(buf[..start]) + Reversed(tmp[..n]) && buf[str..] == old(buf[start + n..])
  {
    str := start;
    var i := n;
    ghost var s := tmp[..n];
    assert s[n..] == [];
    while i > 0
      invariant 0 <= i <= n && str == start + n - i && tmp[..n] == s
      invariant buf[..str] == old(buf[..start]) + Reversed(s[i..])
      invariant buf[str..] == old(buf[str..])
    {
      i := i - 1;
      ReversedSnoc(s, i);
      ghost var before := buf[..str];
      buf[str] := tmp[i];
      str := str + 1;
      assert buf[..str] == before + [s[i]];
      assert buf[str..] == old(buf[str..]);
    }
    assert s[0..] == s;
  }

  /** The digit loop. `tmp` is large enough, so no store is out of bounds. */
  method Fill(tmp: array<char>, value: nat, base: nat) returns (i: nat)
    requires 2 <= base <= 16 && tmp.Length > 0 && |LowFirst(value, base)| <= tmp.Length
    modifies tmp
    ensures i <= tmp.Length && Reversed(tmp[..i]) == Text(value, base)
  {
    hide LowFirst, Digit, Reversed, Text;
    var val: nat := value;
    i := 0;
    TextIs(value, base);
    if val == 0 {
      tmp[i] := '0';
      i := i + 1;
      assert tmp[..i] == ['0'];
    } else {
      assert tmp[..0] + LowFirst(value, base) == LowFirst(value, base);
      while val > 0
        invariant i <= tmp.Length && tmp[..i] + LowFirst(val, base) == LowFirst(value, base)
        decreases val
      {
        ghost var done := tmp[..i];
        var q, d := val / base, val % base;
        Unfold(val, base, q, d);
        Prepend(done, Digit(d), LowFirst(q, base));
        tmp[i] := Digit(d);
        i := i + 1;
        val := q;
        assert tmp[..i] == done + [Digit(d)];
      }
      assert tmp[..i] + [] == tmp[..i];
    }
  }

  lemma TextIs(v: nat, base: nat)
    requires 2 <= base <= 16
    ensures Text(v, base) == if v == 0 then Reversed(['0']) else Reversed(LowFirst(v, base))
    ensures LowFirst(0, base) == []
  {
    assert ['0'][1..] == [];
  }

  lemma Prepend(s: seq<char>, c: char, t: seq<char>)
    ensures s + ([c] + t) == (s + [c]) + t && |s| < |s + ([c] + t)|
  {
  }

  /** `%u` and `%llu`, and `%d` after its sign. */
  method PutDecimal(buf: array<char>, start: nat, value: nat) returns (str: nat)
    requires value < U64 && start + |Text(value, 10)| <= buf.Length
    modifies buf
    ensures str == start + |Text(value, 10)|
    ensures buf[..str] == old(buf[..start]) + Text(value, 10) && buf[str..] == old(buf[start + |Text(value, 10)|..])
  {
    hide LowFirst, Text, Reversed;
    FitsTwenty(value);
    var tmp := new char[20];
    var i := Fill(tmp, value, 10);
    str := CopyBackwards(tmp, i, buf, start);
  }

  /** `%x` and `%llx`. */
  method PutHex(buf: array<char>, start: nat, value: nat) returns (str: nat)
    requires value < U64 && start + |Text(value, 16)| <= buf.Length
    modifies buf
    ensures str == start + |Text(value, 16)|
    ensures buf[..str] == old(buf[..start]) + Text(value, 16) && buf[str..] == old(buf[start + |Text(value, 16)|..])
  {
    hide LowFirst, Text, Reversed;
    FitsSixteen(value);
    var tmp := new char[16];
    var i := Fill(tmp, value, 16);
    str := CopyBackwards(tmp, i, buf, start);
  }

  /** Two's-complement negation: the overflow at the smallest int is taken to wrap. */
  function Negated(v: int): int {
    if v == INT_MIN then INT_MIN else -v
  }

  /** `%d`. With wrap-around the smallest int is its own negation, so nothing follows its sign. */
  method PutSigned(buf: array<char>, start: nat, value: int) returns (str: nat)
    requires INT_MIN <= value < -INT_MIN && start + |SignedText(value)| <= buf.Length
    modifies buf
    ensures str == start + |SignedText(value)|
    ensures buf[..str] == old(buf[..start]) + SignedText(value) && buf[str..] == old(buf[start + |SignedText(value)|..])
  {
    hide SignedText, Text, Unsigned;
    SignedParts(value);
    ghost var before, rest := buf[..start], buf[start + |SignedText(value)|..];
    str := start;
    var val := value;
    if val < 0 {
      buf[str] := '-';
      str := str + 1;
      val := Negated(val);
      assert buf[..str] == before + "-" && buf[start + |SignedText(value)|..] == rest;
    } else {
      assert buf[..str] == before + "";
    }
    ghost var sign := if value < 0 then "-" else "";
    UnsignedIs(value, val);
    if val >= 0 {
      str := PutDecimal(buf, str, val);
    }
    assert (before + sign) + Unsigned(value) == before + (sign + Unsigned(value));
  }

  /** What follows the sign. */
  function Unsigned(v: int): string {
    var n := if v < 0 then Negated(v) else v;
    if n < 0 then "" else Text(n, 10)
  }

  lemma UnsignedIs(v: int, n: int)
    requires n == if v < 0 then Negated(v) else v
    ensures Unsigned(v) == if n < 0 then [] else Text(n, 10)
  {
  }

  lemma SignedParts(v: int)
    requires INT_MIN <= v < -INT_MIN
    ensures SignedText(v) == (if v < 0 then "-" else "") + Unsigned(v)
  {
    hide Text;
    assert "-" + "" == "-";
  }

  lemma {:induction false} DigitsOnly(v: nat)
    ensures '-' !in LowFirst(v, 10)
  {
    if v > 0 {
      DigitsOnly(v / 10);
    }
  }

  lemma {:induction false} ReversedSame(s: seq<char>, c: char)
    ensures c in Reversed(s) <==> c in s
  {
    if s != [] {
      assert s == [s[0]] + s[1..];
      ReversedSame(s[1..], c);
    }
  }

  /** What `%d` prints reads back as the number for every int but the smallest, and for no other. */
  lemma SignedRoundTrip(v: int)
    requires INT_MIN <= v < -INT_MIN
    ensures ParseSigned(SignedText(v)) == v <==> v != INT_MIN
  {
    if v == INT_MIN {
      assert "-"[1..] == [];
    } else {
      var n := if v < 0 then -v else v;
      TextRoundTrip(n, 10);
      NoLeadingZero(n, 10);
      DigitsOnly(n);
      ReversedSame(LowFirst(n, 10), '-');
      hide LowFirst, Reversed;
      assert '-' !in Text(n, 10);
      assert ("-" + Text(n, 10))[1..] == Text(n, 10) && "" + Text(n, 10) == Text(n, 10);
    }
  }
}
