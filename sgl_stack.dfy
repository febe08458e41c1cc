/** The single-global-lock stack: a sequential stack behind one mutex. In a
    single-threaded model the lock has no effect, so this module also holds the
    reference LIFO discipline (Run) that every other stack is measured against.
    A stack is a seq<int> whose element 0 is the top. */
module SglStack {
  import opened Containers

  datatype StackOp = PushOp(value: int) | PopOp

  /** Applies ops in order to the stack s: a push places its value on top, a
      pop removes and reports the top, or reports Empty and changes nothing. */
  function Run(s: seq<int>, ops: seq<StackOp>): Trace
    decreases |ops|
  {
    if ops == [] then Trace([], s)
    else match ops[0]
      case PushOp(x) => Run([x] + s, ops[1..])
      case PopOp =>
        if s == [] then Prepend(Empty, Run(s, ops[1..]))
        else Prepend(Value(s[0]), Run(s[1..], ops[1..]))
  }

  /** Continues the run t with the operations ops. */
  function Then(t: Trace, ops: seq<StackOp>): Trace
  {
    var u := Run(t.final, ops);
    Trace(t.popped + u.popped, u.final)
  }

  function Pushes(xs: seq<int>): (ops: seq<StackOp>)
    ensures |ops| == |xs|
  {
    if xs == [] then [] else [PushOp(xs[0])] + Pushes(xs[1..])
  }

  function Pops(k: nat): (ops: seq<StackOp>)
    ensures |ops| == k
  {
    if k == 0 then [] else [PopOp] + Pops(k - 1)
  }

  function Reversed(xs: seq<int>): (r: seq<int>)
    ensures |r| == |xs|
  {
    if xs == [] then [] else Reversed(xs[1..]) + [xs[0]]
  }

  /** The values that the pushes among ops insert, in order. */
  function Pushed(ops: seq<StackOp>): seq<int>
  {
    if ops == [] then []
    else (if ops[0].PushOp? then [ops[0].value] else []) + Pushed(ops[1..])
  }

  /** Running a + b is running a, then b from where a left the stack. */
  lemma {:induction false} RunAppend(s: seq<int>, a: seq<StackOp>, b: seq<StackOp>)
    ensures Run(s, a + b) == Then(Run(s, a), b)
    decreases |a|
  {
    if a == [] {
      assert a + b == b;
    } else {
      assert (a + b)[0] == a[0];
      assert (a + b)[1..] == a[1..] + b;
      match a[0]
      case PushOp(x) =>
        RunAppend([x] + s, a[1..], b);
      case PopOp =>
        if s == [] {
          RunAppend(s, a[1..], b);
        } else {
          RunAppend(s[1..], a[1..], b);
        }
    }
  }

  /** Pushing xs one by one leaves them on top of s, the last one uppermost. */
  lemma {:induction false} RunPushes(s: seq<int>, xs: seq<int>)
    ensures Run(s, Pushes(xs)) == Trace([], Reversed(xs) + s)
    decreases |xs|
  {
    if xs != [] {
      RunPushes([xs[0]] + s, xs[1..]);
      assert Reversed(xs[1..]) + ([xs[0]] + s) == Reversed(xs) + s;
    }
  }

  /** k pops on a stack holding at least k values report its top k values, top
      first, and leave the rest. */
  lemma {:induction false} RunPops(s: seq<int>, k: nat)
    requires k <= |s|
    ensures Run(s, Pops(k)) == Trace(Values(s[..k]), s[k..])
  {
    if k > 0 {
      RunPops(s[1..], k - 1);
      assert s[1..][..k - 1] == s[1..k];
      assert s[1..][k - 1..] == s[k..];
      assert Values(s[..k]) == [Value(s[0])] + Values(s[1..k]);
    }
  }

  /** The LIFO law: pushing xs and then popping as often returns xs reversed
      and restores the stack. */
  lemma LifoLaw(s: seq<int>, xs: seq<int>)
    ensures Run(s, Pushes(xs) + Pops(|xs|)) == Trace(Values(Reversed(xs)), s)
  {
    RunAppend(s, Pushes(xs), Pops(|xs|));
    RunPushes(s, xs);
    var t := Reversed(xs) + s;
    RunPops(t, |xs|);
    assert t[..|xs|] == Reversed(xs);
    assert t[|xs|..] == s;
  }

  /** The multiset balance that Conservation establishes for a run. */
  ghost predicate Balanced(s: seq<int>, ops: seq<StackOp>)
  {
    multiset(s) + multiset(Pushed(ops))
      == multiset(Delivered(Run(s, ops).popped)) + multiset(Run(s, ops).final)
  }

  /** Nothing is lost or duplicated: what was there plus what was pushed is
      exactly what was popped plus what is left. */
  lemma {:induction false} Conservation(s: seq<int>, ops: seq<StackOp>)
    ensures multiset(s) + multiset(Pushed(ops))
         == multiset(Delivered(Run(s, ops).popped)) + multiset(Run(s, ops).final)
    decreases |ops|
  {
    if ops != [] {
      var rest := ops[1..];
      if ops[0].PushOp? {
        Conservation([ops[0].value] + s, rest);
        BalancedPush(s, ops);
      } else if s == [] {
        Conservation(s, rest);
        BalancedEmptyPop(ops);
      } else {
        Conservation(s[1..], rest);
        BalancedPop(s, ops);
      }
    }
  }

  lemma BalancedPush(s: seq<int>, ops: seq<StackOp>)
    requires ops != [] && ops[0].PushOp?
    requires Balanced([ops[0].value] + s, ops[1..])
    ensures Balanced(s, ops)
  {
    var x, rest := ops[0].value, ops[1..];
    var t := Run([x] + s, rest);
    assert Run(s, ops) == t;
    assert Pushed(ops) == [x] + Pushed(rest);
    assert multiset([x] + s) == multiset{x} + multiset(s);
    assert multiset([x] + Pushed(rest)) == multiset{x} + multiset(Pushed(rest));
  }

  lemma BalancedEmptyPop(ops: seq<StackOp>)
    requires ops != [] && ops[0].PopOp?
    requires Balanced([], ops[1..])
    ensures Balanced([], ops)
  {
    var t := Run([], ops[1..]);
    assert Run([], ops) == Prepend(Empty, t);
    assert ([Empty] + t.popped)[1..] == t.popped;
    assert Delivered([Empty] + t.popped) == Delivered(t.popped);
    assert Pushed(ops) == Pushed(ops[1..]);
  }

  lemma BalancedPop(s: seq<int>, ops: seq<StackOp>)
    requires ops != [] && ops[0].PopOp? && s != []
    requires Balanced(s[1..], ops[1..])
    ensures Balanced(s, ops)
  {
    var t := Run(s[1..], ops[1..]);
    assert Run(s, ops) == Prepend(Value(s[0]), t);
    assert ([Value(s[0])] + t.popped)[1..] == t.popped;
    assert Delivered([Value(s[0])] + t.popped) == [s[0]] + Delivered(t.popped);
    assert Pushed(ops) == Pushed(ops[1..]);
    assert s == [s[0]] + s[1..];
    calc {
      multiset(s) + multiset(Pushed(ops));
      multiset{s[0]} + (multiset(s[1..]) + multiset(Pushed(ops[1..])));
      multiset{s[0]} + (multiset(Delivered(t.popped)) + multiset(t.final));
      multiset([s[0]] + Delivered(t.popped)) + multiset(t.final);
    }
  }

  /** std::stack guarded by a mutex; the lock is not modelled. */
  class Stack {
    var data: seq<int>

    constructor ()
      ensures data == []
    {
      data := [];
    }

    method Push(value: int)
      modifies this
      ensures data == [value] + old(data)
      ensures Run(old(data), [PushOp(value)]) == Trace([], data)
    {
      data := [value] + data;
    }

    method Pop() returns (r: Outcome)
      modifies this
      ensures old(data) == [] ==> r == Empty && data == old(data)
      ensures old(data) != [] ==> r == Value(old(data)[0]) && data == old(data)[1..]
      ensures Run(old(data), [PopOp]) == Trace([r], data)
    {
      if data == [] {
        r := Empty;
      } else {
        r := Value(data[0]);
        data := data[1..];
      }
    }
  }

  /** A pop on a fresh stack reports Empty; pushes 1, 2, 3 then pop as 3, 2, 1;
      the stack is then empty again. */
  method LifoScenario() returns (e: Outcome, a: Outcome, b: Outcome, c: Outcome, f: Outcome)
    ensures e == Empty && f == Empty
    ensures a == Value(3) && b == Value(2) && c == Value(1)
  {
    var st := new Stack();
    e := st.Pop();
    st.Push(1);
    st.Push(2);
    st.Push(3);
    a := st.Pop();
    b := st.Pop();
    c := st.Pop();
    f := st.Pop();
  }
}
