/** The elimination stack: a Treiber stack with an array of ELIM_SIZE collision
    slots, each a tag (FREE, PUSH_WAITING, POP_WAITING) and a value. A push
    first tries to claim a slot whose pop is waiting and hand its value over; a
    pop first tries to claim a slot whose push is waiting and take its value;
    either falls back to the Treiber protocol on a miss. No code ever stores a
    waiting tag, so every tag stays FREE (an invariant of Valid), no
    elimination ever succeeds, and the structure behaves exactly as a Treiber
    stack. */
module EliminationStack {
  import opened Containers
  import TreiberStack
  import SglStack

  /** Collision-slot tags. */
  const FREE: int := 0
  const PUSH_WAITING: int := 1
  const POP_WAITING: int := 2

  /** Every collision tag is FREE. */
  ghost predicate AllFree(tags: seq<int>)
  {
    forall i :: 0 <= i < |tags| ==> tags[i] == FREE
  }

  /** The index that rand() % ELIM_SIZE selects. */
  function SlotOf(rnd: nat): (slot: nat)
    ensures slot < ELIM_SIZE
    ensures rnd < ELIM_SIZE ==> slot == rnd
  {
    rnd % ELIM_SIZE
  }

  class EliminationStack {
    /** The shared top pointer and its chain: elimination_stack repeats the
        Treiber protocol line for line, so it is that stack. */
    const stack: TreiberStack.Stack
    const elimOps: array<int>
    const elimVals: array<int>

    ghost predicate Valid()
      reads this, stack, stack.Nodes, elimOps
    {
      stack.Valid()
      && elimOps.Length == ELIM_SIZE && elimVals.Length == ELIM_SIZE
      && elimOps != elimVals
      && AllFree(elimOps[..])
    }

    /** The abstract stack, top first. */
    ghost function Contents(): seq<int>
      reads this, stack, stack.Nodes
      requires stack.Valid()
    {
      stack.Contents()
    }

    constructor ()
      ensures Valid() && stack.top == null && Contents() == []
      ensures fresh(stack) && fresh(elimOps) && fresh(elimVals)
      ensures forall i :: 0 <= i < ELIM_SIZE ==> elimOps[i] == FREE && elimVals[i] == 0
    {
      var ops := new int[ELIM_SIZE];
      var vals := new int[ELIM_SIZE];
      for i := 0 to ELIM_SIZE
        invariant forall k :: 0 <= k < i ==> ops[k] == FREE && vals[k] == 0
      {
        ops[i] := FREE;
        vals[i] := 0;
      }
      stack := new TreiberStack.Stack();
      elimOps := ops;
      elimVals := vals;
    }

    /** compare_exchange_strong on the tag of slot i. */
    method CasTag(i: nat, expected: int, desired: int) returns (ok: bool)
      requires i < elimOps.Length
      modifies elimOps
      ensures ok == (old(elimOps[i]) == expected)
      ensures elimOps[..] == if ok then old(elimOps[..])[i := desired] else old(elimOps[..])
    {
      ok := elimOps[i] == expected;
      if ok {
        elimOps[i] := desired;
      }
    }

    /** The push side of elimination: claim slot from POP_WAITING and deposit
        value there. This touches neither top nor the chain. */
    method TryEliminatePush(slot: nat, value: int) returns (eliminated: bool)
      requires slot < ELIM_SIZE == elimOps.Length == elimVals.Length
      requires elimOps != elimVals
      modifies elimOps, elimVals
      ensures eliminated == (old(elimOps[slot]) == POP_WAITING)
      ensures eliminated ==>
                elimOps[..] == old(elimOps[..])[slot := FREE]
                && elimVals[..] == old(elimVals[..])[slot := value]
      ensures !eliminated ==> elimOps[..] == old(elimOps[..]) && elimVals[..] == old(elimVals[..])
    {
      eliminated := CasTag(slot, POP_WAITING, FREE);
      if eliminated {
        elimVals[slot] := value;
      }
    }

    /** The pop side of elimination: claim slot from PUSH_WAITING and take the
        value deposited there. */
    method TryEliminatePop(slot: nat) returns (eliminated: bool, v: int)
      requires slot < ELIM_SIZE == elimOps.Length == elimVals.Length
      requires elimOps != elimVals
      modifies elimOps
      ensures eliminated == (old(elimOps[slot]) == PUSH_WAITING)
      ensures eliminated ==> elimOps[..] == old(elimOps[..])[slot := FREE] && v == elimVals[slot]
      ensures !eliminated ==> elimOps[..] == old(elimOps[..])
    {
      v := 0;
      eliminated := CasTag(slot, PUSH_WAITING, FREE);
      if eliminated {
        v := elimVals[slot];
      }
    }

    /** push, with rnd standing for the value of rand(): the elimination
        attempt misses, and the Treiber push links the value in. */
    method Push(rnd: nat, value: int)
      requires Valid()
      modifies stack, elimOps, elimVals
      ensures Valid()
      ensures Contents() == [value] + old(Contents())
      ensures SglStack.Run(old(Contents()), [SglStack.PushOp(value)]) == Trace([], Contents())
      ensures elimOps[..] == old(elimOps[..]) && elimVals[..] == old(elimVals[..])
    {
      var slot := SlotOf(rnd);
      var eliminated := TryEliminatePush(slot, value);
      assert !eliminated;  // every tag is FREE: no pop is ever waiting
      stack.Push(value);
    }

    /** pop, with rnd standing for the value of rand(): the elimination
        attempt misses, and the Treiber pop takes the top or reports Empty. */
    method Pop(rnd: nat) returns (r: Outcome)
      requires Valid()
      modifies stack, elimOps
      ensures Valid()
      ensures old(Contents()) == [] ==> r == Empty && Contents() == old(Contents())
      ensures old(Contents()) != [] ==>
                r == Value(old(Contents())[0]) && Contents() == old(Contents())[1..]
      ensures SglStack.Run(old(Contents()), [SglStack.PopOp]) == Trace([r], Contents())
      ensures elimOps[..] == old(elimOps[..])
    {
      var slot := SlotOf(rnd);
      var eliminated, _ := TryEliminatePop(slot);
      assert !eliminated;  // every tag is FREE: no push is ever waiting
      r := stack.Pop();
    }

    /** The destructor's drain loop, the same as the Treiber stack's. */
    method Drain()
      requires Valid()
      modifies stack
      ensures Valid() && stack.top == null && Contents() == []
    {
      stack.Drain();
    }
  }

  /** Whatever slots rand() picks, pushes 1, 2, 3 then pop as 3, 2, 1, and a
      pop on the empty stack reports Empty before and after. */
  method LifoScenario(r0: nat, r1: nat, r2: nat, r3: nat, r4: nat, r5: nat, r6: nat, r7: nat)
    returns (e: Outcome, a: Outcome, b: Outcome, c: Outcome, f: Outcome)
    ensures e == Empty && f == Empty
    ensures a == Value(3) && b == Value(2) && c == Value(1)
  {
    var st := new EliminationStack();
    e := st.Pop(r0);
    st.Push(r1, 1);
    st.Push(r2, 2);
    st.Push(r3, 3);
    a := st.Pop(r4);
    b := st.Pop(r5);
    c := st.Pop(r6);
    f := st.Pop(r7);
  }
}
