/** The flat-combining stack: a sequential stack guarded by a lock, and a table
    of MAX_THREADS request slots. A thread publishes its request in its own
    slot and, holding the lock, runs a combining pass that serves every pending
    slot in ascending order against the stack. In the single-threaded model
    try_lock always succeeds, so the calling thread is the combiner; the stack
    is a seq<int> whose element 0 is the top. */
module FcStack {
  import opened Containers
  import SglStack

  /** One step of the combining pass on a slot: a PUSH slot's value goes on top
      and the slot is done; a POP slot receives the top, which is removed, and
      is done, but on an empty stack it is only marked done and keeps its old
      result; any other slot is left alone. */
  function Serve(slot: Slot, d: seq<int>): (Slot, seq<int>)
  {
    if slot.op == PUSH then (slot.(done := true), [slot.val] + d)
    else if slot.op == POP then
      if d != [] then (slot.(result := d[0], done := true), d[1..])
      else (slot.(done := true), d)
    else (slot, d)
  }

  /** The combining pass over the slots ss, in ascending order, starting from
      the stack d. The pass writes only result and done: it never changes a
      slot's op or val, leaves non-pending slots untouched, marks every
      pending slot done, and never changes a PUSH slot's result. */
  function CombinePass(ss: seq<Slot>, d: seq<int>): (p: Pass)
    ensures |p.slots| == |ss|
    ensures forall i :: 0 <= i < |ss| ==> p.slots[i].op == ss[i].op && p.slots[i].val == ss[i].val
    ensures forall i :: 0 <= i < |ss| && !Pending(ss[i]) ==> p.slots[i] == ss[i]
    ensures forall i :: 0 <= i < |ss| && Pending(ss[i]) ==> p.slots[i].done
    ensures forall i :: 0 <= i < |ss| && ss[i].op == PUSH ==> p.slots[i].result == ss[i].result
    decreases |ss|
  {
    if ss == [] then Pass([], d)
    else
      var pre := CombinePass(ss[..|ss| - 1], d);
      var served := Serve(ss[|ss| - 1], pre.data);
      Pass(pre.slots + [served.0], served.1)
  }

  /** The stack operation a slot requests, if any. */
  function RequestOf(slot: Slot): seq<SglStack.StackOp>
  {
    if slot.op == PUSH then [SglStack.PushOp(slot.val)]
    else if slot.op == POP then [SglStack.PopOp]
    else []
  }

  /** The requests of the slots ss, in the order the combiner serves them. */
  function Requests(ss: seq<Slot>): seq<SglStack.StackOp>
    decreases |ss|
  {
    if ss == [] then [] else Requests(ss[..|ss| - 1]) + RequestOf(ss[|ss| - 1])
  }

  /** The pass leaves the stack exactly as the reference stack is left by
      running the pending requests one after another in slot order. */
  lemma {:induction false} CombineLinearizes(ss: seq<Slot>, d: seq<int>)
    ensures CombinePass(ss, d).data == SglStack.Run(d, Requests(ss)).final
    decreases |ss|
  {
    if ss != [] {
      var init := ss[..|ss| - 1];
      var last := ss[|ss| - 1];
      CombineLinearizes(init, d);
      SglStack.RunAppend(d, Requests(init), RequestOf(last));
      RunRequest(CombinePass(init, d).data, last);
    }
  }

  /** Serving a slot does to the stack what the reference stack does with the
      slot's request. */
  lemma RunRequest(d: seq<int>, slot: Slot)
    ensures SglStack.Run(d, RequestOf(slot)).final == Serve(slot, d).1
  {
    if slot.op == PUSH {
      assert RequestOf(slot)[1..] == [];
    } else if slot.op == POP {
      assert RequestOf(slot)[1..] == [];
    }
  }

  /** The slots before k are served the same way whatever follows them. */
  lemma {:induction false} CombinePrefix(ss: seq<Slot>, d: seq<int>, k: nat)
    requires k <= |ss|
    ensures CombinePass(ss[..k], d).slots == CombinePass(ss, d).slots[..k]
    decreases |ss|
  {
    if k < |ss| {
      var init := ss[..|ss| - 1];
      CombinePrefix(init, d, k);
      assert init[..k] == ss[..k];
    } else {
      assert ss[..k] == ss;
    }
  }

  /** A POP slot at index i receives the top of the reference stack as it
      stands after the requests of the slots before i, and keeps its old
      result when that stack is empty. */
  lemma PopGetsReferenceTop(ss: seq<Slot>, d: seq<int>, i: nat)
    requires i < |ss| && ss[i].op == POP
    ensures var before := SglStack.Run(d, Requests(ss[..i])).final;
            CombinePass(ss, d).slots[i].result == if before != [] then before[0] else ss[i].result
  {
    CombinePrefix(ss, d, i + 1);
    assert ss[..i + 1][..i] == ss[..i];
    CombineLinearizes(ss[..i], d);
  }

  /** When only slot s is pending, the pass serves it alone and nothing else
      changes. */
  lemma {:induction false} CombineAlone(ss: seq<Slot>, d: seq<int>, s: nat)
    requires s < |ss| && OthersIdle(ss, s)
    ensures var served := Serve(ss[s], d);
            CombinePass(ss, d) == Pass(ss[s := served.0], served.1)
    decreases |ss|
  {
    var init := ss[..|ss| - 1];
    if s < |ss| - 1 {
      CombineAlone(init, d, s);
      assert ss[s := Serve(ss[s], d).0] == init[s := Serve(ss[s], d).0] + [ss[|ss| - 1]];
    } else {
      IdlePass(init, d);
      assert init + [ss[s]] == ss;
    }
  }

  /** A pass over slots none of which is pending changes nothing. */
  lemma {:induction false} IdlePass(ss: seq<Slot>, d: seq<int>)
    requires forall j :: 0 <= j < |ss| ==> !Pending(ss[j])
    ensures CombinePass(ss, d) == Pass(ss, d)
    decreases |ss|
  {
    if ss != [] {
      IdlePass(ss[..|ss| - 1], d);
      assert ss[..|ss| - 1] + [ss[|ss| - 1]] == ss;
    }
  }

  /** The slot table once a push of value is published in slot s. */
  function PublishPush(ss: seq<Slot>, s: nat, value: int): seq<Slot>
    requires s < |ss|
  {
    ss[s := ss[s].(op := PUSH, val := value, done := false)]
  }

  /** The slot table once a pop is published in slot s. */
  function PublishPop(ss: seq<Slot>, s: nat): seq<Slot>
    requires s < |ss|
  {
    ss[s := ss[s].(op := POP, done := false)]
  }

  class Stack {
    var data: seq<int>
    const slots: array<Slot>

    ghost predicate Valid()
    {
      slots.Length == MAX_THREADS
    }

    /** No slot holds a request: the state between operations of a single
        thread. */
    ghost predicate Quiet()
      reads slots
    {
      Valid() && forall j :: 0 <= j < MAX_THREADS ==> slots[j].op == IDLE
    }

    /** Every slot starts with op IDLE and done false; val and result are left
        unset. */
    constructor ()
      ensures Valid() && data == [] && fresh(slots)
      ensures forall i :: 0 <= i < MAX_THREADS ==> slots[i].op == IDLE && !slots[i].done
      ensures Quiet()
    {
      data := [];
      var a := new Slot[MAX_THREADS];
      for i := 0 to MAX_THREADS
        invariant forall k :: 0 <= k < i ==> a[k].op == IDLE && !a[k].done
      {
        a[i] := a[i].(op := IDLE, done := false);
      }
      slots := a;
    }

    /** The combining pass: visits the slots in ascending order and serves each
        pending request against data. */
    method Combine()
      requires Valid()
      modifies this`data, slots
      ensures Pass(slots[..], data) == CombinePass(old(slots[..]), old(data))
    {
      ghost var ss := slots[..];
      for i := 0 to MAX_THREADS
        invariant slots[i..] == ss[i..]
        invariant Pass(slots[..i], data) == CombinePass(ss[..i], old(data))
      {
        assert ss[..i + 1][..i] == ss[..i];
        ServeSlot(i);
        assert slots[..i + 1] == slots[..i] + [slots[i]];
      }
      assert slots[..MAX_THREADS] == slots[..] && ss[..MAX_THREADS] == ss;
    }

    /** One iteration of the combining loop, on slot i. */
    method ServeSlot(i: nat)
      requires Valid() && i < MAX_THREADS
      modifies this`data, slots
      ensures (slots[i], data) == Serve(old(slots[i]), old(data))
      ensures slots[..] == old(slots[..])[i := slots[i]]
    {
      var op := slots[i].op;
      if op == PUSH {
        data := [slots[i].val] + data;
        slots[i] := slots[i].(done := true);
      } else if op == POP {
        if data != [] {
          slots[i] := slots[i].(result := data[0]);
          data := data[1..];
        }
        slots[i] := slots[i].(done := true);
      }
    }

    /** push through the slot that get_slot handed this thread: publish, combine,
        retire the slot. Alone, it pushes value on top. */
    method Push(slot: nat, value: int)
      requires Valid() && slot < MAX_THREADS
      modifies this`data, slots
      ensures Valid()
      ensures var p := CombinePass(PublishPush(old(slots[..]), slot, value), old(data));
              data == p.data && slots[..] == p.slots[slot := p.slots[slot].(op := IDLE)]
      ensures data == SglStack.Run(old(data), Requests(PublishPush(old(slots[..]), slot, value))).final
      ensures OthersIdle(old(slots[..]), slot) ==>
                data == [value] + old(data)
                && slots[..] == old(slots[..])[slot := old(slots[slot]).(op := IDLE, val := value, done := true)]
      ensures old(Quiet()) ==> Quiet() && data == [value] + old(data)
    {
      ghost var published := PublishPush(slots[..], slot, value);
      slots[slot] := slots[slot].(op := PUSH);
      slots[slot] := slots[slot].(val := value);
      slots[slot] := slots[slot].(done := false);
      assert slots[..] == published;
      // try_lock succeeds: this thread is the combiner
      Combine();
      slots[slot] := slots[slot].(op := IDLE);
      CombineLinearizes(published, old(data));
      if OthersIdle(old(slots[..]), slot) {
        CombineAlone(published, old(data), slot);
      }
    }

    /** pop through the slot that get_slot handed this thread: publish, combine,
        retire the slot, then report the slot's result, or Empty when that
        result is EMPTY_MARK. Alone, it takes the top; on an empty stack the
        slot's previous result comes back. */
    method Pop(slot: nat) returns (r: Outcome)
      requires Valid() && slot < MAX_THREADS
      modifies this`data, slots
      ensures Valid()
      ensures var p := CombinePass(PublishPop(old(slots[..]), slot), old(data));
              data == p.data && slots[..] == p.slots[slot := p.slots[slot].(op := IDLE)]
      ensures r == Answer(slots[slot].result)
      ensures data == SglStack.Run(old(data), Requests(PublishPop(old(slots[..]), slot))).final
      ensures OthersIdle(old(slots[..]), slot) && old(data) != [] ==>
                r == Answer(old(data)[0]) && data == old(data)[1..]
                && slots[..] == old(slots[..])[slot := old(slots[slot]).(op := IDLE, result := old(data)[0], done := true)]
      ensures OthersIdle(old(slots[..]), slot) && old(data) == [] ==>
                r == Answer(old(slots[slot].result)) && data == []
                && slots[..] == old(slots[..])[slot := old(slots[slot]).(op := IDLE, done := true)]
      ensures old(Quiet()) ==> Quiet()
      ensures old(Quiet()) && old(data) != [] ==>
                r == Answer(old(data)[0]) && data == old(data)[1..] && slots[slot].result == old(data)[0]
      ensures old(Quiet()) && old(data) == [] ==>
                r == Answer(old(slots[slot].result)) && data == [] && slots[slot].result == old(slots[slot].result)
    {
      ghost var published := PublishPop(slots[..], slot);
      slots[slot] := slots[slot].(op := POP);
      slots[slot] := slots[slot].(done := false);
      assert slots[..] == published;
      // try_lock succeeds: this thread is the combiner
      Combine();
      slots[slot] := slots[slot].(op := IDLE);
      r := Answer(slots[slot].result);
      CombineLinearizes(published, old(data));
      if OthersIdle(old(slots[..]), slot) {
        CombineAlone(published, old(data), slot);
      }
    }
  }

  /** One thread on slot 0: pushes 1, 2, 3 then pop as 3, 2, 1. */
  method LifoScenario() returns (a: Outcome, b: Outcome, c: Outcome)
    ensures a == Value(3) && b == Value(2) && c == Value(1)
  {
    var st := new Stack();
    st.Push(0, 1);
    st.Push(0, 2);
    st.Push(0, 3);
    a := st.Pop(0);
    b := st.Pop(0);
    c := st.Pop(0);
  }

  /** How pop signals emptiness: a pop on the empty stack returns the value the
      slot received last time instead of failing, and a pushed EMPTY_MARK is
      reported as Empty although it was removed from the stack. */
  method EmptySignalScenario() returns (x: Outcome, y: Outcome, z: Outcome, left: seq<int>)
    ensures x == Value(5) && y == Value(5) && z == Empty && left == []
  {
    var st := new Stack();
    st.Push(0, 5);
    x := st.Pop(0);
    y := st.Pop(0);
    st.Push(0, EMPTY_MARK);
    z := st.Pop(0);
    left := st.data;
  }
}
