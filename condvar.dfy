/** The epoch condition variable and the bounded blocking queue built on it.
    The condition variable is a generation counter that every signal and
    broadcast advances by one; a waiter records the counter on entry and
    returns only once it has changed, so a native wakeup that finds the
    counter unchanged puts it back to sleep. The bounded queue is a circular
    buffer of SIZE cells with head, tail and count, guarded by one lock and two
    such condition variables. In the single-threaded model nobody else can
    make room or supply an element, so the wait loops become preconditions. */
module Condvar {
  import opened Containers
  import SglQueue

  /** Capacity of the bounded queue. */
  const SIZE: nat := 50

  datatype Option<T> = None | Some(value: T)

  /** The test wait makes at each native wakeup: a waiter that recorded the
      epoch recorded resumes when the epoch it now sees differs. */
  predicate Resumes(recorded: nat, seen: nat)
  {
    seen != recorded
  }

  class EpochCondVar {
    var epoch: nat

    constructor ()
      ensures epoch == 0
    {
      epoch := 0;
    }

    /** The test wait applies at a wakeup, against the current epoch: the
        epoch has moved on since the waiter recorded it. */
    predicate MayResume(recorded: nat)
      reads this
    {
      Resumes(recorded, epoch)
    }

    /** Advances the epoch and wakes one waiter; a waiter that recorded the
        old epoch may now resume. */
    method Signal()
      modifies this
      ensures epoch == old(epoch) + 1
      ensures MayResume(old(epoch))
    {
      epoch := epoch + 1;
    }

    /** Advances the epoch and wakes every waiter. */
    method Broadcast()
      modifies this
      ensures epoch == old(epoch) + 1
      ensures MayResume(old(epoch))
    {
      epoch := epoch + 1;
    }

    /** wait: the epoch is recorded on entry. wakeups lists the epoch seen at
        each native wakeup, in order (other threads' signals, which change it,
        are outside the model). wait returns at the first wakeup that sees a
        different epoch, and sleeps on after each one that does not; None means
        it is still asleep after all of them. */
    method Wait(wakeups: seq<nat>) returns (resumed: Option<nat>)
      ensures resumed.Some? ==>
                resumed.value < |wakeups| && Resumes(epoch, wakeups[resumed.value])
                && forall k :: 0 <= k < resumed.value ==> !Resumes(epoch, wakeups[k])
      ensures resumed.None? ==> forall k :: 0 <= k < |wakeups| ==> !Resumes(epoch, wakeups[k])
    {
      var recorded := epoch;
      var i := 0;
      while i < |wakeups|
        invariant 0 <= i <= |wakeups|
        invariant forall k :: 0 <= k < i ==> !Resumes(recorded, wakeups[k])
      {
        if Resumes(recorded, wakeups[i]) {
          return Some(i);
        }
        i := i + 1;
      }
      resumed := None;
    }
  }

  /** The live cells of a ring buffer b: c cells starting at index h, wrapping
      round at the end, front first. */
  ghost function RingLive(b: seq<int>, h: int, c: int): (r: seq<int>)
    requires |b| == SIZE && 0 <= h < SIZE && 0 <= c <= SIZE
    ensures |r| == c
    ensures forall k :: 0 <= k < c ==> r[k] == b[(h + k) % SIZE]
  {
    seq(c, k requires 0 <= k < c => b[(h + k) % SIZE])
  }

  /** Two distinct offsets below SIZE from the same start name different cells. */
  lemma CellsDistinct(h: int, k: int, c: int)
    requires 0 <= h < SIZE && 0 <= k < c < SIZE
    ensures (h + k) % SIZE != (h + c) % SIZE
  {
    assert (h + k) % SIZE == if h + k < SIZE then h + k else h + k - SIZE;
    assert (h + c) % SIZE == if h + c < SIZE then h + c else h + c - SIZE;
  }

  /** Writing v into the cell just past the live ones (the cell tail names)
      appends v at the back and disturbs no live cell. */
  lemma RingEnqueue(b: seq<int>, h: int, c: int, v: int)
    requires |b| == SIZE && 0 <= h < SIZE && 0 <= c < SIZE
    ensures RingLive(b[(h + c) % SIZE := v], h, c + 1) == RingLive(b, h, c) + [v]
  {
    var b' := b[(h + c) % SIZE := v];
    forall k | 0 <= k < c
      ensures RingLive(b', h, c + 1)[k] == RingLive(b, h, c)[k]
    {
      CellsDistinct(h, k, c);
    }
  }

  /** Advancing the start past the front cell drops exactly the front. */
  lemma RingDequeue(b: seq<int>, h: int, c: int)
    requires |b| == SIZE && 0 <= h < SIZE && 0 < c <= SIZE
    ensures RingLive(b, (h + 1) % SIZE, c - 1) == RingLive(b, h, c)[1..]
  {
    var rest := RingLive(b, h, c)[1..];
    forall k | 0 <= k < c - 1
      ensures RingLive(b, (h + 1) % SIZE, c - 1)[k] == rest[k]
    {
      assert (h + 1) % SIZE == if h + 1 < SIZE then h + 1 else 0;
    }
  }

  class BoundedQueue {
    const buffer: array<int>
    var head: int
    var tail: int
    var count: int
    const notFull: EpochCondVar
    const notEmpty: EpochCondVar

    /** head and tail are cell indices, 0 <= count <= SIZE, and tail is count
        cells past head, modulo SIZE. */
    ghost predicate Valid()
      reads this
    {
      buffer.Length == SIZE
      && 0 <= head < SIZE && 0 <= tail < SIZE
      && 0 <= count <= SIZE
      && tail == (head + count) % SIZE
      && notFull != notEmpty
    }

    /** The abstract queue held in the live cells, front first. */
    ghost function Live(): seq<int>
      reads this, buffer
      requires Valid()
    {
      RingLive(buffer[..], head, count)
    }

    /** head, tail and count start at 0; the cells are left unset. */
    constructor ()
      ensures Valid() && head == 0 && tail == 0 && count == 0 && Live() == []
      ensures fresh(buffer) && fresh(notFull) && fresh(notEmpty)
      ensures notFull.epoch == 0 && notEmpty.epoch == 0
    {
      buffer := new int[SIZE];
      head := 0;
      tail := 0;
      count := 0;
      notFull := new EpochCondVar();
      notEmpty := new EpochCondVar();
    }

    /** enqueue, once the queue is not full: stores v in the tail cell and no
        other, advances tail round the ring, counts it, and signals
        not-empty. */
    method Enqueue(v: int)
      requires Valid() && count < SIZE
      modifies this, buffer, notEmpty
      ensures Valid()
      ensures buffer[..] == old(buffer[..])[old(tail) := v]
      ensures tail == (old(tail) + 1) % SIZE && head == old(head) && count == old(count) + 1
      ensures Live() == old(Live()) + [v]
      ensures SglQueue.Run(old(Live()), [SglQueue.EnqueueOp(v)]) == Trace([], Live())
      ensures notEmpty.epoch == old(notEmpty.epoch) + 1 && notFull.epoch == old(notFull.epoch)
    {
      buffer[tail] := v;
      tail := (tail + 1) % SIZE;
      count := count + 1;
      notEmpty.Signal();
      RingEnqueue(old(buffer[..]), head, old(count), v);
    }

    /** dequeue, once the queue is not empty: takes the head cell's value,
        advances head round the ring, uncounts it, and signals not-full. */
    method Dequeue() returns (v: int)
      requires Valid() && count > 0
      modifies this, notFull
      ensures Valid()
      ensures v == old(buffer[head]) && v == old(Live())[0]
      ensures head == (old(head) + 1) % SIZE && tail == old(tail) && count == old(count) - 1
      ensures buffer[..] == old(buffer[..])
      ensures Live() == old(Live())[1..]
      ensures SglQueue.Run(old(Live()), [SglQueue.DequeueOp]) == Trace([Value(v)], Live())
      ensures notFull.epoch == old(notFull.epoch) + 1 && notEmpty.epoch == old(notEmpty.epoch)
    {
      v := buffer[head];
      head := (head + 1) % SIZE;
      count := count - 1;
      notFull.Signal();
      RingDequeue(buffer[..], old(head), old(count));
    }
  }

  /** The producer/consumer exchange run one side after the other: SIZE
      enqueues of 0, 1, ... fill the queue exactly, and SIZE dequeues give
      them back in order, each operation signalling once. */
  method ProducerConsumerScenario() returns (received: seq<int>, signalsNotEmpty: nat, signalsNotFull: nat)
    ensures |received| == SIZE && forall i :: 0 <= i < SIZE ==> received[i] == i
    ensures signalsNotEmpty == SIZE && signalsNotFull == SIZE
  {
    var q := new BoundedQueue();
    for i := 0 to SIZE
      invariant q.Valid() && fresh(q.buffer) && fresh(q.notEmpty) && fresh(q.notFull)
      invariant q.count == i && |q.Live()| == i
      invariant forall k :: 0 <= k < i ==> q.Live()[k] == k
      invariant q.notEmpty.epoch == i && q.notFull.epoch == 0
    {
      q.Enqueue(i);
    }
    received := [];
    for i := 0 to SIZE
      invariant q.Valid() && fresh(q.notEmpty) && fresh(q.notFull)
      invariant q.count == SIZE - i && |q.Live()| == SIZE - i
      invariant forall k :: 0 <= k < SIZE - i ==> q.Live()[k] == i + k
      invariant |received| == i && forall k :: 0 <= k < i ==> received[k] == k
      invariant q.notEmpty.epoch == SIZE && q.notFull.epoch == i
    {
      var v := q.Dequeue();
      received := received + [v];
    }
    signalsNotEmpty := q.notEmpty.epoch;
    signalsNotFull := q.notFull.epoch;
  }
}
