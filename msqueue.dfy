/** The Michael-Scott lock-free queue: a singly linked chain that always starts
    with a sentinel node, an atomic head pointing at the sentinel and an atomic
    tail that is either the last node or one step behind it. Links and pointers
    change only by compare-and-swap; whoever finds tail lagging helps it one
    step forward. The model is sequential: a compare-and-swap fails only when
    its target no longer holds the value read, which leaves the state unchanged
    and sends the loop round again. The ghost sequence Nodes lists the chain
    from the sentinel to the last node, and TailAt is the index of tail in it. */
module MsQueue {
  import opened Containers
  import SglQueue

  class Node {
    var value: int
    var next: Node?

    constructor (v: int)
      ensures value == v && next == null
    {
      value := v;
      next := null;
    }

    /** compare_exchange on the atomic next link. */
    method CasNext(expected: Node?, desired: Node?) returns (ok: bool)
      modifies this`next
      ensures ok == (old(next) == expected)
      ensures next == if ok then desired else old(next)
    {
      ok := next == expected;
      if ok {
        next := desired;
      }
    }
  }

  /** The values held by nodes, in order. */
  ghost function NodeValues(nodes: seq<Node>): (vs: seq<int>)
    reads nodes
    ensures |vs| == |nodes|
    ensures forall i :: 0 <= i < |nodes| ==> vs[i] == nodes[i].value
  {
    if nodes == [] then [] else [nodes[0].value] + NodeValues(nodes[1..])
  }

  class Queue {
    var head: Node
    var tail: Node
    ghost var Nodes: seq<Node>
    ghost var TailAt: nat
    ghost var Repr: set<object>

    /** head is the sentinel Nodes[0]; each node links to the next and the
        last to null; no node appears twice; tail is the last node or the one
        before it. */
    ghost predicate Valid()
      reads this, Repr
    {
      this in Repr
      && (forall i :: 0 <= i < |Nodes| ==> Nodes[i] in Repr)
      && |Nodes| > 0 && head == Nodes[0]
      && (forall i :: 0 <= i < |Nodes| - 1 ==> Nodes[i].next == Nodes[i + 1])
      && Nodes[|Nodes| - 1].next == null
      && (forall i, j :: 0 <= i < j < |Nodes| ==> Nodes[i] != Nodes[j])
      && |Nodes| - 2 <= TailAt < |Nodes| && tail == Nodes[TailAt]
    }

    /** The abstract queue, front first; the sentinel's value is not part of it. */
    ghost function Contents(): seq<int>
      reads this, Repr
      requires Valid()
    {
      NodeValues(Nodes[1..])
    }

    /** The last node of the chain, whose next link is null. */
    ghost function Last(): Node
      reads this
      requires |Nodes| > 0
    {
      Nodes[|Nodes| - 1]
    }

    constructor ()
      ensures Valid() && fresh(Repr)
      ensures head == tail && head.next == null && Nodes == [head]
      ensures Contents() == []
    {
      var dummy := new Node(0);
      head := dummy;
      tail := dummy;
      Nodes := [dummy];
      TailAt := 0;
      Repr := {this, dummy};
    }

    /** compare_exchange on tail. */
    method CasTail(expected: Node, desired: Node) returns (ok: bool)
      modifies this`tail
      ensures ok == (old(tail) == expected)
      ensures tail == if ok then desired else old(tail)
    {
      ok := tail == expected;
      if ok {
        tail := desired;
      }
    }

    /** compare_exchange on head. */
    method CasHead(expected: Node, desired: Node) returns (ok: bool)
      modifies this`head
      ensures ok == (old(head) == expected)
      ensures head == if ok then desired else old(head)
    {
      ok := head == expected;
      if ok {
        head := desired;
      }
    }

    /** The helping step: tail lags, so compare-and-swap it one step forward
        to its successor. Single-threaded, tail still holds the node just
        read, so the swap cannot fail. */
    method HelpTail(last: Node, next: Node) returns (swung: bool)
      requires Valid() && last == tail && last.next == next
      modifies this`tail, this`TailAt
      ensures Valid() && swung
      ensures tail == next && TailAt == old(TailAt) + 1
    {
      swung := CasTail(last, next);
      if swung {
        TailAt := TailAt + 1;
      }
    }

    /** The linking step of enqueue: compare-and-swap n into the null next
        link of last, and on success try once to swing tail to n.
        Single-threaded, both targets still hold the values just read, so
        neither swap can fail and the enqueue loop ends on its first pass. */
    method TryLink(last: Node, n: Node) returns (ok: bool)
      requires Valid() && last == tail && last.next == null
      requires n !in Repr && n.next == null
      modifies this, last`next
      ensures Valid() && head == old(head)
      ensures ok
      ensures Nodes == old(Nodes) + [n] && Repr == old(Repr) + {n} && tail == n
      ensures Contents() == old(Contents()) + [n.value]
    {
      ok := last.CasNext(null, n);
      if ok {
        Nodes := Nodes + [n];
        Repr := Repr + {n};
        assert Nodes[1..] == old(Nodes)[1..] + [n];
        var swung := CasTail(last, n);
        if swung {
          TailAt := |Nodes| - 1;
        }
      }
    }

    /** The retry loop of enqueue: links n after the last node, helping a
        lagging tail forward first, then swings tail to n. */
    method LinkNode(n: Node)
      requires Valid() && n !in Repr && n.next == null
      modifies this, Last()`next
      ensures Valid() && head == old(head)
      ensures Nodes == old(Nodes) + [n] && Repr == old(Repr) + {n} && tail == n
      ensures Contents() == old(Contents()) + [n.value]
    {
      var done := false;
      while !done
        invariant Valid() && head == old(head)
        invariant n !in old(Repr) && n.value == old(n.value) && n.next == null
        invariant !done ==> Nodes == old(Nodes) && Repr == old(Repr) && Contents() == old(Contents())
        invariant done ==> Nodes == old(Nodes) + [n] && Repr == old(Repr) + {n} && tail == n
                           && Contents() == old(Contents()) + [n.value]
        decreases if done then 0 else 1, |Nodes| - 1 - TailAt
      {
        var last := tail;
        var next := last.next;
        if last == tail {
          if next == null {
            // tail is the last node: try to link n after it
            done := TryLink(last, n);
          } else {
            // tail is lagging: help it forward
            var _ := HelpTail(last, next);
          }
        }
      }
    }

    /** Links a fresh node holding value after the last node, helping a lagging
        tail forward first, then swings tail to the new node. */
    method Enqueue(value: int)
      requires Valid()
      modifies this, Last()`next
      ensures Valid() && fresh(Repr - old(Repr))
      ensures Contents() == old(Contents()) + [value]
      ensures SglQueue.Run(old(Contents()), [SglQueue.EnqueueOp(value)]) == Trace([], Contents())
      ensures head == old(head)
      ensures |Nodes| == |old(Nodes)| + 1 && Nodes[..|old(Nodes)|] == old(Nodes)
      ensures fresh(tail) && tail == Nodes[|Nodes| - 1] && tail.next == null
    {
      var n := new Node(value);
      LinkNode(n);
      SglQueue.RunOneEnqueue(old(Contents()), value);
    }

    /** The unlinking step of dequeue: tail is past the sentinel first, so
        compare-and-swap head from first to its successor next, which becomes
        the new sentinel. Single-threaded, head still holds first, so the swap
        cannot fail and the dequeue loop ends on this pass. */
    method TryUnlink(first: Node, next: Node) returns (ok: bool)
      requires Valid() && first == head && first != tail && first.next == next
      modifies this`head, this`Nodes, this`TailAt
      ensures Valid() && ok
      ensures |old(Nodes)| > 1 && Nodes == old(Nodes)[1..] && head == next
    {
      assert TailAt != 0 && Nodes[0].next == Nodes[1];
      ok := CasHead(first, next);
      if ok {
        Nodes := Nodes[1..];
        TailAt := TailAt - 1;
      }
    }

    /** The retry loop of dequeue: swings head from the sentinel to its
        successor, helping a lagging tail forward first, or gives up with
        Empty when the sentinel has no successor. */
    method UnlinkHead() returns (r: Outcome)
      requires Valid()
      modifies this`head, this`tail, this`Nodes, this`TailAt
      ensures Valid()
      ensures |old(Nodes)| == 1 ==> r == Empty && Nodes == old(Nodes) && head == old(head)
      ensures |old(Nodes)| > 1 ==> r == Value(old(Nodes)[1].value) && Nodes == old(Nodes)[1..]
    {
      var done := false;
      r := Empty;
      while !done
        invariant Valid()
        invariant !done ==> head == old(head) && Nodes == old(Nodes)
        invariant done && |old(Nodes)| == 1 ==> r == Empty && Nodes == old(Nodes) && head == old(head)
        invariant done && |old(Nodes)| > 1 ==>
                    r == Value(old(Nodes)[1].value) && Nodes == old(Nodes)[1..]
        decreases if done then 0 else 1, |Nodes| - 1 - TailAt
      {
        var first := head;
        var last := tail;
        var next := first.next;
        if first == head {
          if first == last {
            if next == null {
              // throws "empty": the sentinel has no successor
              r := Empty;
              done := true;
            } else {
              // tail is lagging behind the only element: help it forward
              var _ := HelpTail(last, next);
            }
          } else {
            assert TailAt != 0 && Nodes[0].next == Nodes[1];
            var v := next.value;
            done := TryUnlink(first, next);
            r := Value(v);
          }
        }
      }
    }

    /** Swings head from the sentinel to its successor, whose value is
        returned and which becomes the new sentinel; reports Empty when the
        sentinel has no successor. A lagging tail is helped forward first. */
    method Dequeue() returns (r: Outcome)
      requires Valid()
      modifies this
      ensures Valid() && Repr == old(Repr)
      ensures r == Empty <==> old(head == tail && head.next == null)
      ensures r == Empty <==> old(Contents()) == []
      ensures old(Contents()) == [] ==> Contents() == old(Contents()) && head == old(head)
      ensures old(Contents()) != [] ==>
                r == Value(old(Contents())[0]) && Contents() == old(Contents())[1..]
                && head == old(head.next)
      ensures SglQueue.Run(old(Contents()), [SglQueue.DequeueOp]) == Trace([r], Contents())
    {
      r := UnlinkHead();
      assert |old(Nodes)| > 1 ==> old(Nodes)[1..][1..] == Nodes[1..];
      SglQueue.RunOneDequeue(old(Contents()));
    }
  }

  /** A dequeue on a fresh queue reports Empty; enqueues 1, 2, 3 then dequeue
      as 1, 2, 3; the queue is then empty again. */
  method FifoScenario() returns (e: Outcome, a: Outcome, b: Outcome, c: Outcome, f: Outcome)
    ensures e == Empty && f == Empty
    ensures a == Value(1) && b == Value(2) && c == Value(3)
  {
    var q := new Queue();
    e := q.Dequeue();
    q.Enqueue(1);
    q.Enqueue(2);
    q.Enqueue(3);
    a := q.Dequeue();
    b := q.Dequeue();
    c := q.Dequeue();
    f := q.Dequeue();
  }
}
