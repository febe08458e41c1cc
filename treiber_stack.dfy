/** The Treiber lock-free stack: a singly linked chain of nodes hanging from an
    atomic top pointer that only a compare-and-swap ever moves. The model is
    sequential: a compare-and-swap fails only when top no longer holds the
    value read, which leaves the state unchanged and sends the loop round again.
    The ghost sequence Nodes lists the chain from top to the last node. */
module TreiberStack {
  import opened Containers
  import SglStack

  class Node {
    var value: int
    var next: Node?

    constructor (v: int)
      ensures value == v && next == null
    {
      value := v;
      next := null;
    }
  }

  /** nodes is the chain from top: each node links to the one after it, the
      last one to null, and top is the first one (null when nodes is empty). */
  ghost predicate Chain(top: Node?, nodes: seq<Node>)
    reads nodes
  {
    (top == if nodes == [] then null else nodes[0])
    && (forall i :: 0 <= i < |nodes| - 1 ==> nodes[i].next == nodes[i + 1])
    && (nodes != [] ==> nodes[|nodes| - 1].next == null)
  }

  /** The values held by the chain, top first. */
  ghost function ChainValues(nodes: seq<Node>): (vs: seq<int>)
    reads nodes
    ensures |vs| == |nodes|
    ensures forall i :: 0 <= i < |nodes| ==> vs[i] == nodes[i].value
  {
    if nodes == [] then [] else [nodes[0].value] + ChainValues(nodes[1..])
  }

  /** A chain visits no node twice, so following next from top reaches null
      after exactly |nodes| steps and never loops. */
  lemma ChainAcyclic(top: Node?, nodes: seq<Node>)
    requires Chain(top, nodes)
    ensures forall i, j :: 0 <= i < j < |nodes| ==> nodes[i] != nodes[j]
  {
    forall i, j | 0 <= i < j < |nodes| ensures nodes[i] != nodes[j] {
      NoRepeat(nodes, i, j);
    }
  }

  lemma {:induction false} NoRepeat(nodes: seq<Node>, i: nat, j: nat)
    requires forall k :: 0 <= k < |nodes| - 1 ==> nodes[k].next == nodes[k + 1]
    requires nodes != [] ==> nodes[|nodes| - 1].next == null
    requires i < j < |nodes|
    ensures nodes[i] != nodes[j]
    decreases |nodes| - j
  {
    assert nodes[i].next == nodes[i + 1];
    if j < |nodes| - 1 {
      assert nodes[j].next == nodes[j + 1];
      NoRepeat(nodes, i + 1, j + 1);
    }
  }

  class Stack {
    var top: Node?
    ghost var Nodes: seq<Node>

    ghost predicate Valid()
      reads this, Nodes
    {
      Chain(top, Nodes)
    }

    /** The abstract stack, top first. */
    ghost function Contents(): seq<int>
      reads this, Nodes
      requires Valid()
    {
      ChainValues(Nodes)
    }

    constructor ()
      ensures Valid() && top == null && Contents() == []
    {
      top := null;
      Nodes := [];
    }

    /** compare_exchange on top: succeeds, and installs desired, exactly when
        top still holds expected. */
    method CasTop(expected: Node?, desired: Node?) returns (ok: bool)
      modifies this`top
      ensures ok == (old(top) == expected)
      ensures top == if ok then desired else old(top)
    {
      ok := top == expected;
      if ok {
        top := desired;
      }
    }

    method Push(value: int)
      requires Valid()
      modifies this
      ensures Valid()
      ensures Contents() == [value] + old(Contents())
      ensures SglStack.Run(old(Contents()), [SglStack.PushOp(value)]) == Trace([], Contents())
      ensures top != null && fresh(top) && top.next == old(top)
    {
      var n := new Node(value);
      var done := false;
      while !done
        invariant Valid() && fresh(n) && n.value == value
        invariant !done ==> top == old(top) && Nodes == old(Nodes)
        invariant done ==> top == n && n.next == old(top) && Nodes == [n] + old(Nodes)
        decreases if done then 0 else 1
      {
        var oldTop := top;
        n.next := oldTop;
        done := CasTop(oldTop, n);
        if done {
          Nodes := [n] + Nodes;
        }
      }
      assert ChainValues(Nodes)[1..] == ChainValues(old(Nodes));
    }

    method Pop() returns (r: Outcome)
      requires Valid()
      modifies this
      ensures Valid()
      ensures old(Contents()) == [] ==> r == Empty && Contents() == old(Contents())
      ensures old(Contents()) != [] ==>
                r == Value(old(Contents())[0]) && Contents() == old(Contents())[1..]
      ensures old(top) != null ==> top == old(top.next)
      ensures SglStack.Run(old(Contents()), [SglStack.PopOp]) == Trace([r], Contents())
    {
      var done := false;
      r := Empty;
      while !done
        invariant Valid()
        invariant !done ==> top == old(top) && Nodes == old(Nodes)
        invariant done && old(Nodes) == [] ==> r == Empty && Nodes == old(Nodes)
        invariant done && old(Nodes) != [] ==>
                    r == Value(old(Nodes)[0].value) && Nodes == old(Nodes)[1..]
                    && top == old(top.next)
        decreases if done then 0 else 1
      {
        var oldTop := top;
        if oldTop == null {
          // throws "empty"; nothing has been changed
          r := Empty;
          done := true;
        } else {
          var next := oldTop.next;
          var v := oldTop.value;
          var ok := CasTop(oldTop, next);
          if ok {
            Nodes := Nodes[1..];
            r := Value(v);
            done := true;
          }
        }
      }
      assert old(Nodes) != [] ==> ChainValues(old(Nodes))[1..] == ChainValues(Nodes);
    }

    /** The destructor's drain loop: it unlinks node after node and stops with
        top null, because the chain ends in null. */
    method Drain()
      requires Valid()
      modifies this
      ensures Valid() && top == null && Contents() == []
    {
      while top != null
        invariant Valid()
        decreases |Nodes|
      {
        var n := top;
        top := n.next;
        Nodes := Nodes[1..];
      }
    }
  }

  /** A pop on a fresh stack reports Empty; pushes 1, 2, 3 then pop as 3, 2, 1;
      the stack is then empty again. */
  method LifoScenario() returns (e: Outcome, a: Outcome, b: Outcome, c: Outcome, f: Outcome)
    ensures e == Empty && f == Empty
    ensures a == Value(3) && b == Value(2) && c == Value(1)
  {
    var st := new Stack();
    e := st.Pop();
    st.Push(1);
    st.Push(2);
    st.Push(3);
    a := st.Pop();
    b := st.Pop();
    c := st.Pop();
    f := st.Pop();
  }
}
