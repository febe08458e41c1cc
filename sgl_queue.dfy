/** The single-global-lock queue: a sequential queue behind one mutex. In a
    single-threaded model the lock has no effect, so this module also holds the
    reference FIFO discipline (Run) that every other queue is measured against.
    A queue is a seq<int> whose element 0 is the front. */
module SglQueue {
  import opened Containers

  datatype QueueOp = EnqueueOp(value: int) | DequeueOp

  /** Applies ops in order to the queue s: an enqueue appends its value at the
      back, a dequeue removes and reports the front, or reports Empty and
      changes nothing. */
  function Run(s: seq<int>, ops: seq<QueueOp>): Trace
    decreases |ops|
  {
    if ops == [] then Trace([], s)
    else match ops[0]
      case EnqueueOp(x) => Run(s + [x], ops[1..])
      case DequeueOp =>
        if s == [] then Prepend(Empty, Run(s, ops[1..]))
        else Prepend(Value(s[0]), Run(s[1..], ops[1..]))
  }

  /** A single enqueue appends its value and reports nothing. */
  lemma RunOneEnqueue(s: seq<int>, x: int)
    ensures Run(s, [EnqueueOp(x)]) == Trace([], s + [x])
  {
    assert [EnqueueOp(x)][1..] == [];
  }

  /** A single dequeue reports the front, or Empty on an empty queue, and
      drops the front if there is one. */
  lemma RunOneDequeue(s: seq<int>)
    ensures s == [] ==> Run(s, [DequeueOp]) == Trace([Empty], s)
    ensures s != [] ==> Run(s, [DequeueOp]) == Trace([Value(s[0])], s[1..])
  {
    assert [DequeueOp][1..] == [];
  }

  /** Continues the run t with the operations ops. */
  function Then(t: Trace, ops: seq<QueueOp>): Trace
  {
    var u := Run(t.final, ops);
    Trace(t.popped + u.popped, u.final)
  }

  function Enqueues(xs: seq<int>): (ops: seq<QueueOp>)
    ensures |ops| == |xs|
  {
    if xs == [] then [] else [EnqueueOp(xs[0])] + Enqueues(xs[1..])
  }

  function Dequeues(k: nat): (ops: seq<QueueOp>)
    ensures |ops| == k
  {
    if k == 0 then [] else [DequeueOp] + Dequeues(k - 1)
  }

  /** The values that the enqueues among ops insert, in order. */
  function Enqueued(ops: seq<QueueOp>): seq<int>
  {
    if ops == [] then []
    else (if ops[0].EnqueueOp? then [ops[0].value] else []) + Enqueued(ops[1..])
  }

  /** Running a + b is running a, then b from where a left the queue. */
  lemma {:induction false} RunAppend(s: seq<int>, a: seq<QueueOp>, b: seq<QueueOp>)
    ensures Run(s, a + b) == Then(Run(s, a), b)
    decreases |a|
  {
    if a == [] {
      assert a + b == b;
    } else {
      assert (a + b)[0] == a[0];
      assert (a + b)[1..] == a[1..] + b;
      match a[0]
      case EnqueueOp(x) =>
        RunAppend(s + [x], a[1..], b);
      case DequeueOp =>
        if s == [] {
          RunAppend(s, a[1..], b);
        } else {
          RunAppend(s[1..], a[1..], b);
        }
    }
  }

  /** Enqueuing xs one by one appends them behind s, in order. */
  lemma {:induction false} RunEnqueues(s: seq<int>, xs: seq<int>)
    ensures Run(s, Enqueues(xs)) == Trace([], s + xs)
    decreases |xs|
  {
    if xs != [] {
      RunEnqueues(s + [xs[0]], xs[1..]);
      assert s + [xs[0]] + xs[1..] == s + xs;
    }
  }

  /** k dequeues on a queue holding at least k values report its first k
      values, front first, and leave the rest. */
  lemma {:induction false} RunDequeues(s: seq<int>, k: nat)
    requires k <= |s|
    ensures Run(s, Dequeues(k)) == Trace(Values(s[..k]), s[k..])
  {
    if k > 0 {
      RunDequeues(s[1..], k - 1);
      assert s[1..][..k - 1] == s[1..k];
      assert s[1..][k - 1..] == s[k..];
      assert Values(s[..k]) == [Value(s[0])] + Values(s[1..k]);
    }
  }

  /** The FIFO law: after enqueuing xs behind s, dequeuing everything returns
      the values of s and then xs, in order, and empties the queue. */
  lemma FifoLaw(s: seq<int>, xs: seq<int>)
    ensures Run(s, Enqueues(xs) + Dequeues(|s| + |xs|)) == Trace(Values(s + xs), [])
  {
    RunAppend(s, Enqueues(xs), Dequeues(|s| + |xs|));
    RunEnqueues(s, xs);
    var t := s + xs;
    RunDequeues(t, |t|);
    assert t[..|t|] == t;
  }

  /** The multiset balance that Conservation establishes for a run. */
  ghost predicate Balanced(s: seq<int>, ops: seq<QueueOp>)
  {
    multiset(s) + multiset(Enqueued(ops))
      == multiset(Delivered(Run(s, ops).popped)) + multiset(Run(s, ops).final)
  }

  /** Nothing is lost or duplicated: what was there plus what was enqueued is
      exactly what was dequeued plus what is left. */
  lemma {:induction false} Conservation(s: seq<int>, ops: seq<QueueOp>)
    ensures multiset(s) + multiset(Enqueued(ops))
         == multiset(Delivered(Run(s, ops).popped)) + multiset(Run(s, ops).final)
    decreases |ops|
  {
    if ops != [] {
      var rest := ops[1..];
      if ops[0].EnqueueOp? {
        Conservation(s + [ops[0].value], rest);
        BalancedEnqueue(s, ops);
      } else if s == [] {
        Conservation(s, rest);
        BalancedEmptyDequeue(ops);
      } else {
        Conservation(s[1..], rest);
        BalancedDequeue(s, ops);
      }
    }
  }

  lemma BalancedEnqueue(s: seq<int>, ops: seq<QueueOp>)
    requires ops != [] && ops[0].EnqueueOp?
    requires Balanced(s + [ops[0].value], ops[1..])
    ensures Balanced(s, ops)
  {
    var x, rest := ops[0].value, ops[1..];
    var t := Run(s + [x], rest);
    assert Run(s, ops) == t;
    assert Enqueued(ops) == [x] + Enqueued(rest);
    calc {
      multiset(s) + multiset(Enqueued(ops));
      (multiset(s) + multiset{x}) + multiset(Enqueued(rest));
      multiset(s + [x]) + multiset(Enqueued(rest));
    }
  }

  lemma BalancedEmptyDequeue(ops: seq<QueueOp>)
    requires ops != [] && ops[0].DequeueOp?
    requires Balanced([], ops[1..])
    ensures Balanced([], ops)
  {
    var t := Run([], ops[1..]);
    assert Run([], ops) == Prepend(Empty, t);
    assert ([Empty] + t.popped)[1..] == t.popped;
    assert Delivered([Empty] + t.popped) == Delivered(t.popped);
    assert Enqueued(ops) == Enqueued(ops[1..]);
  }

  lemma BalancedDequeue(s: seq<int>, ops: seq<QueueOp>)
    requires ops != [] && ops[0].DequeueOp? && s != []
    requires Balanced(s[1..], ops[1..])
    ensures Balanced(s, ops)
  {
    var t := Run(s[1..], ops[1..]);
    assert Run(s, ops) == Prepend(Value(s[0]), t);
    assert ([Value(s[0])] + t.popped)[1..] == t.popped;
    assert Delivered([Value(s[0])] + t.popped) == [s[0]] + Delivered(t.popped);
    assert Enqueued(ops) == Enqueued(ops[1..]);
    assert s == [s[0]] + s[1..];
    calc {
      multiset(s) + multiset(Enqueued(ops));
      multiset{s[0]} + (multiset(s[1..]) + multiset(Enqueued(ops[1..])));
      multiset{s[0]} + (multiset(Delivered(t.popped)) + multiset(t.final));
      multiset([s[0]] + Delivered(t.popped)) + multiset(t.final);
    }
  }

  /** std::queue guarded by a mutex; the lock is not modelled. */
  class Queue {
    var data: seq<int>

    constructor ()
      ensures data == []
    {
      data := [];
    }

    method Enqueue(value: int)
      modifies this
      ensures data == old(data) + [value]
      ensures Run(old(data), [EnqueueOp(value)]) == Trace([], data)
    {
      data := data + [value];
    }

    method Dequeue() returns (r: Outcome)
      modifies this
      ensures old(data) == [] ==> r == Empty && data == old(data)
      ensures old(data) != [] ==> r == Value(old(data)[0]) && data == old(data)[1..]
      ensures Run(old(data), [DequeueOp]) == Trace([r], data)
    {
      if data == [] {
        r := Empty;
      } else {
        r := Value(data[0]);
        data := data[1..];
      }
    }
  }

  /** A dequeue on a fresh queue reports Empty; enqueues 1, 2, 3 then dequeue
      as 1, 2, 3; the queue is then empty again. */
  method FifoScenario() returns (e: Outcome, a: Outcome, b: Outcome, c: Outcome, f: Outcome)
    ensures e == Empty && f == Empty
    ensures a == Value(1) && b == Value(2) && c == Value(3)
  {
    var q := new Queue();
    e := q.Dequeue();
    q.Enqueue(1);
    q.Enqueue(2);
    q.Enqueue(3);
    a := q.Dequeue();
    b := q.Dequeue();
    c := q.Dequeue();
    f := q.Dequeue();
  }
}
