/** Declarations shared by every container: the compile-time constants of the
    header, the outcome of a pop/dequeue, and the per-thread request slot of the
    flat-combining containers. */
module Containers {

  /** Number of entries in the elimination stack's collision array. */
  const ELIM_SIZE: nat := 8

  /** Number of request slots of a flat-combining container. */
  const MAX_THREADS: nat := 32

  /** What a pop or dequeue hands back: a value, or the "empty" error that the
      source throws as a runtime_error. */
  datatype Outcome = Value(v: int) | Empty

  /** The ordered record of what a run of operations popped, and the contents
      left behind. */
  datatype Trace = Trace(popped: seq<Outcome>, final: seq<int>)

  /** The trace t preceded by one more outcome. */
  function Prepend(o: Outcome, t: Trace): Trace
  {
    Trace([o] + t.popped, t.final)
  }

  /** Operation tags of a flat-combining slot; the queue's ENQUEUE and DEQUEUE
      share the stack's codes. */
  const IDLE: int := 0
  const PUSH: int := 1
  const POP: int := 2
  const ENQUEUE: int := 1
  const DEQUEUE: int := 2

  /** A flat-combining request slot: the published operation, its operand, the
      answer the combiner wrote back, and the completion flag. */
  datatype Slot = Slot(op: int, val: int, result: int, done: bool)

  /** The combiner acts only on PUSH and POP slots. */
  predicate Pending(slot: Slot)
  {
    slot.op == PUSH || slot.op == POP
  }

  /** Every slot but s holds no pending request. */
  ghost predicate OthersIdle(ss: seq<Slot>, s: nat)
  {
    forall j :: 0 <= j < |ss| && j != s ==> !Pending(ss[j])
  }

  /** The result a pop/dequeue of a flat-combining container reads as
      "empty". */
  const EMPTY_MARK: int := -1

  /** What a flat-combining pop/dequeue reports for the result left in its
      slot: the empty error for EMPTY_MARK, the value otherwise. */
  function Answer(result: int): (r: Outcome)
    ensures r == Empty <==> result == EMPTY_MARK
    ensures r.Value? ==> r.v == result
  {
    if result == EMPTY_MARK then Empty else Value(result)
  }

  /** A combining pass: the slot table and the container afterwards. */
  datatype Pass = Pass(slots: seq<Slot>, data: seq<int>)

  /** Each value as a successful outcome, in order. */
  function Values(xs: seq<int>): (r: seq<Outcome>)
    ensures |r| == |xs|
    ensures forall i :: 0 <= i < |xs| ==> r[i] == Value(xs[i])
  {
    if xs == [] then [] else [Value(xs[0])] + Values(xs[1..])
  }

  /** The values actually delivered by a sequence of outcomes, in order. */
  function Delivered(outs: seq<Outcome>): seq<int>
  {
    if outs == [] then []
    else (if outs[0].Value? then [outs[0].v] else []) + Delivered(outs[1..])
  }

  lemma {:induction false} DeliveredAppend(a: seq<Outcome>, b: seq<Outcome>)
    ensures Delivered(a + b) == Delivered(a) + Delivered(b)
  {
    if a == [] {
      assert a + b == b;
    } else {
      assert (a + b)[1..] == a[1..] + b;
      DeliveredAppend(a[1..], b);
    }
  }

  lemma {:induction false} DeliveredValues(xs: seq<int>)
    ensures Delivered(Values(xs)) == xs
  {
    if xs != [] {
      assert Values(xs)[1..] == Values(xs[1..]);
      DeliveredValues(xs[1..]);
    }
  }
}
