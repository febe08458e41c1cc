/** The flat-combining queue: a sequential queue guarded by a lock, and a table
    of MAX_THREADS request slots, with the same publish-and-combine protocol as
    the flat-combining stack. In the single-threaded model try_lock always
    succeeds, so the calling thread is the combiner; the queue is a seq<int>
    whose element 0 is the front. */
module FcQueue {
  import opened Containers
  import SglQueue

  /** One step of the combining pass on a slot: an enqueue slot's value goes at
      the back and the slot is done; a dequeue slot receives the front, which is
      removed, and is done, but on an empty queue it is only marked done and
      keeps its old result; any other slot is left alone. */
  function Serve(slot: Slot, d: seq<int>): (Slot, seq<int>)
  {
    if slot.op == ENQUEUE then (slot.(done := true), d + [slot.val])
    else if slot.op == DEQUEUE then
      if d != [] then (slot.(result := d[0], done := true), d[1..])
      else (slot.(done := true), d)
    else (slot, d)
  }

  /** The combining pass over the slots ss, in ascending order, starting from
      the queue d. The pass writes only result and done: it never changes a
      slot's op or val, leaves non-pending slots untouched, marks every
      pending slot done, and never changes an enqueue slot's result. */
  function CombinePass(ss: seq<Slot>, d: seq<int>): (p: Pass)
    ensures |p.slots| == |ss|
    ensures forall i :: 0 <= i < |ss| ==> p.slots[i].op == ss[i].op && p.slots[i].val == ss[i].val
    ensures forall i :: 0 <= i < |ss| && !Pending(ss[i]) ==> p.slots[i] == ss[i]
    ensures forall i :: 0 <= i < |ss| && Pending(ss[i]) ==> p.slots[i].done
    ensures forall i :: 0 <= i < |ss| && ss[i].op == ENQUEUE ==> p.slots[i].result == ss[i].result
    decreases |ss|
  {
    if ss == [] then Pass([], d)
    else
      var pre := CombinePass(ss[..|ss| - 1], d);
      var served := Serve(ss[|ss| - 1], pre.data);
      Pass(pre.slots + [served.0], served.1)
  }

  /** The queue operation a slot requests, if any. */
  function RequestOf(slot: Slot): seq<SglQueue.QueueOp>
  {
    if slot.op == ENQUEUE then [SglQueue.EnqueueOp(slot.val)]
    else if slot.op == DEQUEUE then [SglQueue.DequeueOp]
    else []
  }

  /** The requests of the slots ss, in the order the combiner serves them. */
  function Requests(ss: seq<Slot>): seq<SglQueue.QueueOp>
    decreases |ss|
  {
    if ss == [] then [] else Requests(ss[..|ss| - 1]) + RequestOf(ss[|ss| - 1])
  }

  /** The pass leaves the queue exactly as the reference queue is left by
      running the pending requests one after another in slot order. */
  lemma {:induction false} CombineLinearizes(ss: seq<Slot>, d: seq<int>)
    ensures CombinePass(ss, d).data == SglQueue.Run(d, Requests(ss)).final
    decreases |ss|
  {
    if ss != [] {
      var init := ss[..|ss| - 1];
      var last := ss[|ss| - 1];
      CombineLinearizes(init, d);
      SglQueue.RunAppend(d, Requests(init), RequestOf(last));
      RunRequest(CombinePass(init, d).data, last);
    }
  }

  /** Serving a slot does to the queue what the reference queue does with the
      slot's request. */
  lemma RunRequest(d: seq<int>, slot: Slot)
    ensures SglQueue.Run(d, RequestOf(slot)).final == Serve(slot, d).1
  {
    if slot.op == ENQUEUE {
      assert RequestOf(slot)[1..] == [];
    } else if slot.op == DEQUEUE {
      assert RequestOf(slot)[1..] == [];
    }
  }

  /** The slots before k are served the same way whatever follows them. */
  lemma {:induction false} CombinePrefix(ss: seq<Slot>, d: seq<int>, k: nat)
    requires k <= |ss|
    ensures CombinePass(ss[..k], d).slots == CombinePass(ss, d).slots[..k]
    decreases |ss|
  {
    if k < |ss| {
      var init := ss[..|ss| - 1];
      CombinePrefix(init, d, k);
      assert init[..k] == ss[..k];
    } else {
      assert ss[..k] == ss;
    }
  }

  /** A dequeue slot at index i receives the front of the reference queue as
      it stands after the requests of the slots before i, and keeps its old
      result when that queue is empty. */
  lemma DequeueGetsReferenceFront(ss: seq<Slot>, d: seq<int>, i: nat)
    requires i < |ss| && ss[i].op == DEQUEUE
    ensures var before := SglQueue.Run(d, Requests(ss[..i])).final;
            CombinePass(ss, d).slots[i].result == if before != [] then before[0] else ss[i].result
  {
    CombinePrefix(ss, d, i + 1);
    assert ss[..i + 1][..i] == ss[..i];
    CombineLinearizes(ss[..i], d);
  }

  /** When only slot s is pending, the pass serves it alone and nothing else
      changes. */
  lemma {:induction false} CombineAlone(ss: seq<Slot>, d: seq<int>, s: nat)
    requires s < |ss| && OthersIdle(ss, s)
    ensures var served := Serve(ss[s], d);
            CombinePass(ss, d) == Pass(ss[s := served.0], served.1)
    decreases |ss|
  {
    var init := ss[..|ss| - 1];
    if s < |ss| - 1 {
      CombineAlone(init, d, s);
      assert ss[s := Serve(ss[s], d).0] == init[s := Serve(ss[s], d).0] + [ss[|ss| - 1]];
    } else {
      IdlePass(init, d);
      assert init + [ss[s]] == ss;
    }
  }

  /** A pass over slots none of which is pending changes nothing. */
  lemma {:induction false} IdlePass(ss: seq<Slot>, d: seq<int>)
    requires forall j :: 0 <= j < |ss| ==> !Pending(ss[j])
    ensures CombinePass(ss, d) == Pass(ss, d)
    decreases |ss|
  {
    if ss != [] {
      IdlePass(ss[..|ss| - 1], d);
      assert ss[..|ss| - 1] + [ss[|ss| - 1]] == ss;
    }
  }

  /** The slot table once an enqueue of value is published in slot s. */
  function PublishEnqueue(ss: seq<Slot>, s: nat, value: int): seq<Slot>
    requires s < |ss|
  {
    ss[s := ss[s].(op := ENQUEUE, val := value, done := false)]
  }

  /** The slot table once a dequeue is published in slot s. */
  function PublishDequeue(ss: seq<Slot>, s: nat): seq<Slot>
    requires s < |ss|
  {
    ss[s := ss[s].(op := DEQUEUE, done := false)]
  }

  /** get_slot: the n-th thread to ask draws ticket n from a shared counter and
      gets slot n modulo MAX_THREADS, always inside the table; the first
      MAX_THREADS threads get distinct slots. */
  function GetSlot(ticket: nat): (s: nat)
    ensures s < MAX_THREADS
    ensures ticket < MAX_THREADS ==> s == ticket
  {
    ticket % MAX_THREADS
  }

  class Queue {
    var data: seq<int>
    const slots: array<Slot>

    ghost predicate Valid()
    {
      slots.Length == MAX_THREADS
    }

    /** No slot holds a request: the state between operations of a single
        thread. */
    ghost predicate Quiet()
      reads slots
    {
      Valid() && forall j :: 0 <= j < MAX_THREADS ==> slots[j].op == IDLE
    }

    /** Every slot starts with op IDLE and done false; val and result are left
        unset. */
    constructor ()
      ensures Valid() && data == [] && fresh(slots)
      ensures forall i :: 0 <= i < MAX_THREADS ==> slots[i].op == IDLE && !slots[i].done
      ensures Quiet()
    {
      data := [];
      var a := new Slot[MAX_THREADS];
      for i := 0 to MAX_THREADS
        invariant forall k :: 0 <= k < i ==> a[k].op == IDLE && !a[k].done
      {
        a[i] := a[i].(op := IDLE, done := false);
      }
      slots := a;
    }

    /** The combining pass: visits the slots in ascending order and serves each
        pending request against data. */
    method Combine()
      requires Valid()
      modifies this`data, slots
      ensures Pass(slots[..], data) == CombinePass(old(slots[..]), old(data))
    {
      ghost var ss := slots[..];
      for i := 0 to MAX_THREADS
        invariant slots[i..] == ss[i..]
        invariant Pass(slots[..i], data) == CombinePass(ss[..i], old(data))
      {
        assert ss[..i + 1][..i] == ss[..i];
        ServeSlot(i);
        assert slots[..i + 1] == slots[..i] + [slots[i]];
      }
      assert slots[..MAX_THREADS] == slots[..] && ss[..MAX_THREADS] == ss;
    }

    /** One iteration of the combining loop, on slot i. */
    method ServeSlot(i: nat)
      requires Valid() && i < MAX_THREADS
      modifies this`data, slots
      ensures (slots[i], data) == Serve(old(slots[i]), old(data))
      ensures slots[..] == old(slots[..])[i := slots[i]]
    {
      var op := slots[i].op;
      if op == ENQUEUE {
        data := data + [slots[i].val];
        slots[i] := slots[i].(done := true);
      } else if op == DEQUEUE {
        if data != [] {
          slots[i] := slots[i].(result := data[0]);
          data := data[1..];
        }
        slots[i] := slots[i].(done := true);
      }
    }

    /** enqueue by the thread that drew ticket from the slot counter: publish in
        slot GetSlot(ticket), combine, retire the slot. Alone, it appends value
        at the back. */
    method Enqueue(ticket: nat, value: int)
      requires Valid()
      modifies this`data, slots
      ensures Valid()
      ensures var p := CombinePass(PublishEnqueue(old(slots[..]), GetSlot(ticket), value), old(data));
              data == p.data && slots[..] == p.slots[GetSlot(ticket) := p.slots[GetSlot(ticket)].(op := IDLE)]
      ensures data == SglQueue.Run(old(data), Requests(PublishEnqueue(old(slots[..]), GetSlot(ticket), value))).final
      ensures OthersIdle(old(slots[..]), GetSlot(ticket)) ==>
                data == old(data) + [value]
                && slots[..] == old(slots[..])[GetSlot(ticket) := old(slots[GetSlot(ticket)]).(op := IDLE, val := value, done := true)]
      ensures old(Quiet()) ==> Quiet() && data == old(data) + [value]
    {
      var slot := GetSlot(ticket);
      ghost var published := PublishEnqueue(slots[..], slot, value);
      slots[slot] := slots[slot].(op := ENQUEUE);
      slots[slot] := slots[slot].(val := value);
      slots[slot] := slots[slot].(done := false);
      assert slots[..] == published;
      // try_lock succeeds: this thread is the combiner
      Combine();
      slots[slot] := slots[slot].(op := IDLE);
      CombineLinearizes(published, old(data));
      if OthersIdle(old(slots[..]), slot) {
        CombineAlone(published, old(data), slot);
      }
    }

    /** dequeue by the thread that drew ticket from the slot counter: publish
        in slot GetSlot(ticket), combine, retire the slot, then report the
        slot's result, or Empty when that result is EMPTY_MARK. Alone, it takes
        the front; on an empty queue the slot's previous result comes back. */
    method Dequeue(ticket: nat) returns (r: Outcome)
      requires Valid()
      modifies this`data, slots
      ensures Valid()
      ensures var p := CombinePass(PublishDequeue(old(slots[..]), GetSlot(ticket)), old(data));
              data == p.data && slots[..] == p.slots[GetSlot(ticket) := p.slots[GetSlot(ticket)].(op := IDLE)]
      ensures r == Answer(slots[GetSlot(ticket)].result)
      ensures data == SglQueue.Run(old(data), Requests(PublishDequeue(old(slots[..]), GetSlot(ticket)))).final
      ensures OthersIdle(old(slots[..]), GetSlot(ticket)) && old(data) != [] ==>
                r == Answer(old(data)[0]) && data == old(data)[1..]
                && slots[..] == old(slots[..])[GetSlot(ticket) := old(slots[GetSlot(ticket)]).(op := IDLE, result := old(data)[0], done := true)]
      ensures OthersIdle(old(slots[..]), GetSlot(ticket)) && old(data) == [] ==>
                r == Answer(old(slots[GetSlot(ticket)].result)) && data == []
                && slots[..] == old(slots[..])[GetSlot(ticket) := old(slots[GetSlot(ticket)]).(op := IDLE, done := true)]
      ensures old(Quiet()) ==> Quiet()
      ensures old(Quiet()) && old(data) != [] ==>
                r == Answer(old(data)[0]) && data == old(data)[1..] && slots[GetSlot(ticket)].result == old(data)[0]
      ensures old(Quiet()) && old(data) == [] ==>
                r == Answer(old(slots[GetSlot(ticket)].result)) && data == [] && slots[GetSlot(ticket)].result == old(slots[GetSlot(ticket)].result)
    {
      var slot := GetSlot(ticket);
      ghost var published := PublishDequeue(slots[..], slot);
      slots[slot] := slots[slot].(op := DEQUEUE);
      slots[slot] := slots[slot].(done := false);
      assert slots[..] == published;
      // try_lock succeeds: this thread is the combiner
      Combine();
      slots[slot] := slots[slot].(op := IDLE);
      r := Answer(slots[slot].result);
      CombineLinearizes(published, old(data));
      if OthersIdle(old(slots[..]), slot) {
        CombineAlone(published, old(data), slot);
      }
    }
  }

  /** One thread with ticket 0: enqueues 1, 2, 3 then dequeue as 1, 2, 3. */
  method FifoScenario() returns (a: Outcome, b: Outcome, c: Outcome)
    ensures a == Value(1) && b == Value(2) && c == Value(3)
  {
    var q := new Queue();
    q.Enqueue(0, 1);
    q.Enqueue(0, 2);
    q.Enqueue(0, 3);
    assert q.data == [1, 2, 3];
    a := q.Dequeue(0);
    b := q.Dequeue(0);
    c := q.Dequeue(0);
  }

  /** How dequeue signals emptiness: a dequeue on the empty queue returns the
      value the slot received last time instead of failing, and an enqueued
      EMPTY_MARK is reported as Empty although it was removed from the
      queue. */
  method EmptySignalScenario() returns (x: Outcome, y: Outcome, z: Outcome, left: seq<int>)
    ensures x == Value(5) && y == Value(5) && z == Empty && left == []
  {
    var q := new Queue();
    q.Enqueue(0, 5);
    x := q.Dequeue(0);
    y := q.Dequeue(0);
    q.Enqueue(0, EMPTY_MARK);
    z := q.Dequeue(0);
    left := q.data;
  }
}
