/** The bounded ring buffer. */
module RingBuffers {
  import opened Bits

  /** One past `x`, around the end. */
  lemma Wrapped(x: nat, n: nat)
    requires x < n
    ensures (x + 1) % n == if x + 1 == n then 0 else x + 1
  {
    if x + 1 == n {
      DivUnique(n, n, 1, 0);
    } else {
      DivUnique(x + 1, n, 0, x + 1);
    }
  }

  /** The slot `i` places after `read`. */
  function Slot(read: nat, i: nat, n: nat): (k: nat)
    requires read < n && i < n
    ensures k < n
  {
    if read + i < n then read + i else read + i - n
  }

  lemma SlotsDiffer(read: nat, i: nat, j: nat, n: nat)
    requires read < n && i < n && j < n && i != j
    ensures Slot(read, i, n) != Slot(read, j, n)
  {
  }

  /** The distance from `read` to `write`, modulo the length. */
  lemma SizeIs(read: nat, size: nat, n: nat)
    requires read < n && size < n
    ensures size == (Slot(read, size, n) + n - read) % n
  {
    var k := Slot(read, size, n);
    if read + size < n {
      DivUnique(k + n - read, n, 1, size);
    } else {
      DivUnique(k + n - read, n, 0, size);
    }
  }

  class RingBuffer<T(0)> {
    const cap: array<T>
    var read: nat
    var write: nat
    var size: nat

    ghost predicate Valid()
      reads this
    {
      read < cap.Length && size < cap.Length && write == Slot(read, size, cap.Length)
    }

    ghost function Contents(): (s: seq<T>)
      requires Valid()
      reads this, cap
      ensures |s| == size
    {
      seq(size, i requires 0 <= i < size reads this, cap requires Valid() => cap[Slot(read, i, cap.Length)])
    }

    constructor (n: nat)
      requires n > 0
      ensures Valid() && Contents() == [] && cap.Length == n && fresh(cap)
    {
      cap := new T[n];
      read, write, size := 0, 0, 0;
    }

    /** One slot always stays free. */
    predicate IsFull()
      requires Valid()
      reads this
      ensures IsFull() <==> size == cap.Length - 1
    {
      Wrapped(write, cap.Length);
      (write + 1) % cap.Length == read
    }

    predicate IsEmpty()
      requires Valid()
      reads this
      ensures IsEmpty() <==> size == 0
    {
      write == read
    }

    /** `ok == false` is the panic that halts the machine. */
    method BufRead() returns (ok: bool)
      requires Valid()
      modifies this`read, this`size
      ensures Valid() && ok == (old(Contents()) != [])
      ensures Contents() == if ok then old(Contents())[1..] else old(Contents())
    {
      if IsEmpty() {
        return false;
      }
      Wrapped(read, cap.Length);
      read := (read + 1) % cap.Length;
      size := size - 1;
      return true;
    }

    method BufWrite(data: T) returns (ok: bool)
      requires Valid()
      modifies this`write, this`size, cap
      ensures Valid() && ok == (|old(Contents())| < cap.Length - 1)
      ensures Contents() == if ok then old(Contents()) + [data] else old(Contents())
    {
      if IsFull() {
        return false;
      }
      forall i | 0 <= i < size ensures Slot(read, i, cap.Length) != write {
        SlotsDiffer(read, i, size, cap.Length);
      }
      cap[write] := data;
      Wrapped(write, cap.Length);
      write := (write + 1) % cap.Length;
      size := size + 1;
      return true;
    }

    /** The oldest element, when there is one. */
    method GetRead() returns (data: T)
      requires Valid()
      ensures Contents() != [] ==> data == Contents()[0]
    {
      data := cap[read];
    }

    method GetSize() returns (n: nat)
      requires Valid()
      ensures n == |Contents()| && n == (write + cap.Length - read) % cap.Length
    {
      SizeIs(read, size, cap.Length);
      return size;
    }
  }
}
