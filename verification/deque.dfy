/** Thread blocks and the intrusive queue that links them through one hook. */
module Deque {
  import opened SchedSpec

  /** The fields the scheduler and its queues use; `next` is the hook. */
  class ThreadBlock {
    var state: ThreadState
    var registers: IrqFrame
    var execStartMs: nat
    var totalRuntimeMs: nat
    var scheduledTime: nat
    var sleepTime: nat
    var next: ThreadBlock?

    constructor (entry: IrqFrame)
      ensures next == null && state == Ready && registers == entry && scheduledTime == 6
      ensures execStartMs == 0 && totalRuntimeMs == 0 && sleepTime == 0
    {
      state, registers, execStartMs, totalRuntimeMs, scheduledTime, sleepTime, next := Ready, entry, 0, 0, 6, 0, null;
    }
  }

  ghost predicate Distinct(nodes: seq<ThreadBlock>) {
    forall i, j | 0 <= i < j < |nodes| :: nodes[i] != nodes[j]
  }

  /** The hook of the `i`-th node points to its successor. */
  ghost predicate Linked(nodes: seq<ThreadBlock>, i: nat)
    requires i < |nodes|
    reads nodes`next
  {
    nodes[i].next == if i + 1 < |nodes| then nodes[i + 1] else null
  }

  ghost predicate Chain(nodes: seq<ThreadBlock>)
    reads nodes`next
  {
    Distinct(nodes) && forall i: nat {:trigger Linked(nodes, i)} | i < |nodes| :: Linked(nodes, i)
  }

  /** An iterator reads the successor before its node is used, so the node may be relinked meanwhile. */
  datatype Iterator = Iterator(ptr: ThreadBlock?, next: ThreadBlock?)

  function Begin(start: ThreadBlock?): Iterator
    reads start
  {
    Iterator(start, if start == null then null else start.next)
  }

  function Advance(it: Iterator): Iterator
    reads it.next
  {
    Iterator(it.next, if it.next == null then it.next else it.next.next)
  }

  class SingleDeque {
    var head: ThreadBlock?
    var tail: ThreadBlock?
    ghost var nodes: seq<ThreadBlock>

    ghost predicate Valid()
      reads this, nodes`next
    {
      && Chain(nodes)
      && head == (if nodes == [] then null else nodes[0])
      && tail == (if nodes == [] then null else nodes[|nodes| - 1])
    }

    constructor ()
      ensures Valid() && nodes == []
    {
      head, tail, nodes := null, null, [];
    }

    function Empty(): (b: bool)
      requires Valid()
      reads this, nodes`next
      ensures b == (nodes == [])
    {
      head == null && tail == null
    }

    method Size() returns (n: nat)
      requires Valid()
      ensures n == |nodes|
    {
      if head == null {
        return 0;
      }
      n := 0;
      var it := Begin(head);
      assert Linked(nodes, 0);
      while it.ptr != null
        invariant n <= |nodes|
        invariant it.ptr == if n < |nodes| then nodes[n] else null
        invariant it.ptr != null ==> it.next == it.ptr.next
        decreases |nodes| - n
      {
        assert Linked(nodes, n);
        n := n + 1;
        it := Advance(it);
      }
    }

    method ClearAll()
      modifies this
      ensures Valid() && nodes == []
    {
      head, tail, nodes := null, null, [];
    }

    method PushHead(value: ThreadBlock)
      requires Valid() && value !in nodes
      modifies this, value`next
      ensures Valid() && nodes == [value] + old(nodes)
    {
      if head == null {
        value.next := null;
        tail := value;
        head := value;
        nodes := [value];
        assert Linked(nodes, 0);
        return;
      }
      value.next := head;
      head := value;
      nodes := [value] + nodes;
      forall i: nat | i < |nodes| ensures Linked(nodes, i) {
        if i > 0 {
          assert old(Linked(nodes, i - 1));
        }
      }
    }

    method PushTail(value: ThreadBlock)
      requires Valid() && value !in nodes
      modifies this, value`next, nodes`next
      ensures Valid() && nodes == old(nodes) + [value]
    {
      value.next := null;
      if tail == null {
        head := value;
        tail := value;
        nodes := [value];
        assert Linked(nodes, 0);
        return;
      }
      tail.next := value;
      tail := value;
      nodes := nodes + [value];
      forall i: nat | i < |nodes| ensures Linked(nodes, i) {
        if i < |nodes| - 1 {
          assert old(Linked(nodes, i));
        }
      }
    }

    method PopHead() returns (value: ThreadBlock?)
      requires Valid()
      modifies this
      ensures Valid()
      ensures if old(nodes) == [] then value == null && nodes == []
              else value == old(nodes)[0] && nodes == old(nodes)[1..]
    {
      if head == null {
        return null;
      }
      value := head;
      assert Linked(nodes, 0);
      head := value.next;
      if head == null {
        tail := null;
      }
      nodes := nodes[1..];
      forall i: nat | i < |nodes| ensures Linked(nodes, i) {
        assert old(Linked(nodes, i + 1));
      }
    }

    /** The node whose successor is `value`, found by walking from the head; null if there is none. */
    method Predecessor(value: ThreadBlock) returns (prev: ThreadBlock?, ghost k: nat)
      requires Valid() && head != null
      ensures if prev == null then value !in nodes[1..]
              else k + 1 < |nodes| && prev == nodes[k] && value == nodes[k + 1]
    {
      prev, k := head, 0;
      assert Linked(nodes, 0);
      while prev.next != value
        invariant k < |nodes| && prev == nodes[k] && Linked(nodes, k)
        invariant forall i | 0 < i <= k :: nodes[i] != value
        decreases |nodes| - k
      {
        prev := prev.next;
        if prev == null {
          return;
        }
        k := k + 1;
        assert Linked(nodes, k);
      }
    }

    method PopTail() returns (value: ThreadBlock?)
      requires Valid()
      modifies this, nodes`next
      ensures Valid()
      ensures if old(nodes) == [] then value == null && nodes == []
              else value == old(nodes)[|old(nodes)| - 1] && nodes == old(nodes)[..|old(nodes)| - 1]
    {
      if tail == null {
        return null;
      }
      value := tail;
      ghost var n := |nodes| - 1;
      if head == tail {
        assert n == 0;
        head := null;
        tail := null;
      } else {
        var newTail, k := Predecessor(tail);
        assert nodes[1..][n - 1] == tail;
        assert k == n - 1;
        newTail.next := null;
        tail := newTail;
      }
      nodes := nodes[..n];
      forall i: nat | i < |nodes| ensures Linked(nodes, i) {
        assert old(Linked(nodes, i));
      }
    }

    /** Unlinks the successor of the `k`-th node. */
    method Unlink(prev: ThreadBlock, value: ThreadBlock, ghost k: nat)
      requires Valid() && k + 2 < |nodes| && prev == nodes[k] && value == nodes[k + 1]
      modifies this`nodes, prev`next
      ensures Valid() && nodes == old(nodes)[..k + 1] + old(nodes)[k + 2..]
    {
      assert Linked(nodes, k + 1);
      prev.next := value.next;
      nodes := nodes[..k + 1] + nodes[k + 2..];
      forall i: nat | i < |nodes| ensures Linked(nodes, i) {
        if i <= k {
          assert old(Linked(nodes, i));
        } else {
          assert old(Linked(nodes, i + 1));
        }
      }
    }

    /** Unlinks `value`; a value that is not linked here is left alone. */
    method Remove(value: ThreadBlock?)
      requires Valid()
      modifies this, nodes`next
      ensures Valid()
      ensures nodes == if value == null then old(nodes) else SchedSpec.Remove<ThreadBlock>(old(nodes), value)
    {
      ChainIsDistinct(nodes);
      hide SchedSpec.Remove, Chain, Distinct;
      if value == null || head == null {
        if value != null {
          Absent(nodes, value);
        }
        return;
      }
      if value == tail {
        CutAt(nodes, |nodes| - 1);
        assert nodes[..|nodes| - 1] + nodes[|nodes|..] == nodes[..|nodes| - 1];
        var _ := PopTail();
        return;
      } else if value == head {
        CutAt(nodes, 0);
        assert nodes[..0] + nodes[1..] == nodes[1..];
        var _ := PopHead();
        return;
      }
      var prev, k := Predecessor(value);
      if prev == null {
        Absent(nodes, value);
        return;
      }
      CutAt(nodes, k + 1);
      Unlink(prev, value, k);
    }
  }

  lemma ChainIsDistinct(q: seq<ThreadBlock>)
    requires Chain(q)
    ensures Distinct(q)
  {
  }

  lemma {:induction false} CutAt(q: seq<ThreadBlock>, k: nat)
    requires Distinct(q) && k < |q|
    ensures Remove(q, q[k]) == q[..k] + q[k + 1..]
  {
    if k > 0 {
      assert q[1..][k - 1] == q[k];
      CutAt(q[1..], k - 1);
      assert [q[0]] + (q[1..][..k - 1] + q[1..][k..]) == q[..k] + q[k + 1..];
    }
  }

  lemma {:induction false} Absent(q: seq<ThreadBlock>, t: ThreadBlock)
    requires t !in q
    ensures Remove(q, t) == q
  {
    if q != [] {
      assert q == [q[0]] + q[1..];
      Absent(q[1..], t);
    }
  }
}
