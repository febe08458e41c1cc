# Concurrent containers, sequential model

This project models a small library of concurrent containers and proves
properties of the model. The library has:

- two mutex-guarded baselines, a stack and a queue (`SglStack`, `SglQueue`);
- the Treiber lock-free stack (`TreiberStack`);
- the Michael–Scott lock-free queue, with its sentinel node and tail helping
  (`MsQueue`);
- an elimination stack, which is a Treiber stack with a collision array
  (`EliminationStack`);
- a flat-combining stack and queue (`FcStack`, `FcQueue`);
- an epoch condition variable and a bounded blocking ring-buffer queue built
  on it (`Condvar`).

`Containers` holds the shared constants of the header
(`ELIM_SIZE = 8`, `MAX_THREADS = 32`), the outcome of a pop or dequeue
(`Value(v)` or `Empty`, which stands for the thrown "empty" error), and the slot
record of the flat-combining containers. The bounded queue's `SIZE = 50` is in
`Condvar`.

The model is single-threaded:

- The mutexes have no effect. `try_lock` always succeeds, so the calling
  thread is the combiner.
- A compare-and-swap is a method that succeeds exactly when its target still
  holds the expected value. It is used inside the source's retry loops.
- The linked structures live on the heap as `Node` objects linked by `next`.
  Each container keeps a ghost sequence `Nodes` that lists its chain.

The mutex baselines double as reference specifications. `SglStack.Run` and
`SglQueue.Run` apply a sequence of operations and record what each pop or
dequeue returned and what is left. Every other container's operations are
tied to these functions. The LIFO law, the FIFO law and multiset
conservation are proved about them.

In a few places the code does less than its comments and its `-1` empty
test promise; the model follows the code:

- A flat-combining pop or dequeue on an empty container does not write
  `result`; it only sets `done`. The caller then reports `Empty` only when the
  stale result left in its slot is `-1`. So an empty pop normally returns the
  value the slot received last time, and a pushed `-1` is reported as `Empty`
  even though it was removed, although the `-1` test in `pop` and `dequeue`
  is the source's own empty signal. `FcStack.EmptySignalScenario` and
  `FcQueue.EmptySignalScenario` prove the behaviour as written.
- The elimination path is written to pair a push with a waiting pop and to
  deliver the value directly. The source never stores a waiting tag, so every tag
  stays free and no elimination ever succeeds. The model proves this
  invariant. Apart from the missed elimination attempt, the elimination
  stack is exactly its Treiber stack.
- `get_slot` of the flat-combining stack hands out the shared counter's value
  unreduced. The slot index is therefore in range only for the first
  `MAX_THREADS` threads, which `FcStack.Stack.Push` and `FcStack.Stack.Pop`
  require. `get_slot` of the queue reduces it modulo `MAX_THREADS`.

## Model

| member | source | states |
|---|---|---|
| Containers.Answer | fc_stack.cpp:71-72 | the outcome is Empty exactly when the slot's result is -1, otherwise that result |
| SglStack.Stack.constructor | containers.h:23-29 | a new stack is empty |
| SglStack.Stack.Push | sgl_stack.cpp:11-14 | places value on top and keeps the rest; agrees with the reference Run of one push |
| SglStack.Stack.Pop | sgl_stack.cpp:17-23 | on an empty stack reports Empty and changes nothing; otherwise returns the top and removes exactly that element; agrees with Run of one pop |
| SglStack.RunAppend | sgl_stack.cpp:11-23 | running a then b equals running b from where a left the stack, with the outcomes concatenated |
| SglStack.RunPushes | sgl_stack.cpp:11-14 | pushing xs leaves them on top in reverse order, with nothing popped |
| SglStack.RunPops | sgl_stack.cpp:17-23 | k pops on a stack of at least k values return its top k values in order and leave the rest |
| SglStack.LifoLaw | sgl_stack.cpp:11-23 | pushing xs then popping as often returns xs reversed and restores the stack |
| SglStack.Conservation | sgl_stack.cpp:11-23 | for any run, the initial contents plus the pushed values equal the popped values plus the final contents, as multisets |
| SglStack.LifoScenario | main.cpp:19-25 | pushes 1, 2, 3 pop as 3, 2, 1; pops on the empty stack report Empty |
| SglQueue.Queue.constructor | containers.h:32-38 | a new queue is empty |
| SglQueue.Queue.Enqueue | sgl_queue.cpp:11-14 | appends value at the back; agrees with the reference Run of one enqueue |
| SglQueue.Queue.Dequeue | sgl_queue.cpp:17-23 | on an empty queue reports Empty and changes nothing; otherwise returns the front and removes only it; agrees with Run of one dequeue |
| SglQueue.RunAppend | sgl_queue.cpp:11-23 | running a then b equals running b from where a left the queue |
| SglQueue.RunEnqueues | sgl_queue.cpp:11-14 | enqueuing xs appends them in order, with nothing dequeued |
| SglQueue.RunDequeues | sgl_queue.cpp:17-23 | k dequeues on a queue of at least k values return its first k values in order and leave the rest |
| SglQueue.FifoLaw | sgl_queue.cpp:11-23 | enqueuing xs onto s and dequeuing everything returns s then xs, in order, and empties the queue |
| SglQueue.Conservation | sgl_queue.cpp:11-23 | for any run, the initial contents plus the enqueued values equal the dequeued values plus the final contents, as multisets |
| SglQueue.FifoScenario | main.cpp:27-33 | enqueues 1, 2, 3 dequeue as 1, 2, 3; dequeues on the empty queue report Empty |
| TreiberStack.Node.constructor | containers.h:45 | a node holds its value and a null next |
| TreiberStack.ChainAcyclic | treiber_stack.cpp:11-17 | a chain from top visits no node twice, so following next reaches null |
| TreiberStack.Stack.constructor | containers.h:49 | top starts null and the stack is empty |
| TreiberStack.Stack.CasTop | treiber_stack.cpp:27 | succeeds and installs desired exactly when top holds expected; a failed swap changes nothing |
| TreiberStack.Stack.Push | treiber_stack.cpp:20-29 | links a fresh node whose next is the old top and makes it top; the chain stays valid and the contents gain value on top, as Run says |
| TreiberStack.Stack.Pop | treiber_stack.cpp:33-46 | null top reports Empty with the state unchanged; otherwise returns the top node's value, sets top to its next, and the contents lose their top, as Run says |
| TreiberStack.Stack.Drain | treiber_stack.cpp:11-17 | the destructor loop terminates with top null and an empty chain |
| TreiberStack.LifoScenario | main.cpp:35-41 | pushes 1, 2, 3 pop as 3, 2, 1; pops on the empty stack report Empty |
| MsQueue.Node.constructor | containers.h:60 | a node holds its value and a null next |
| MsQueue.Node.CasNext | msqueue.cpp:39 | succeeds and installs desired exactly when next holds expected |
| MsQueue.Queue.constructor | msqueue.cpp:11-15 | head and tail are one fresh sentinel whose next is null; the queue is empty |
| MsQueue.Queue.CasTail | msqueue.cpp:41 | succeeds and installs desired exactly when tail holds expected |
| MsQueue.Queue.CasHead | msqueue.cpp:71 | succeeds and installs desired exactly when head holds expected |
| MsQueue.Queue.HelpTail | msqueue.cpp:44-47 | with tail lagging, the helping swap moves tail exactly one node forward, to its successor, and keeps the queue valid |
| MsQueue.Queue.TryLink | msqueue.cpp:37-43 | the new node is linked only onto the last node, whose next is null; the chain grows by that node, the contents gain its value at the back, and tail swings to it |
| MsQueue.Queue.LinkNode | msqueue.cpp:31-49 | the retry loop ends with the node linked after the last node and tail on it; the chain grows by exactly that node and the contents gain its value at the back, head unchanged |
| MsQueue.Queue.Enqueue | msqueue.cpp:28-50 | appends value at the back, helping a lagging tail first; head is unchanged, the old chain is a prefix of the new one, and tail ends on the new last node; agrees with the reference Run of one enqueue |
| MsQueue.Queue.TryUnlink | msqueue.cpp:68-73 | with tail past the sentinel, the head swap succeeds and drops exactly the sentinel, its successor becoming the new one |
| MsQueue.Queue.UnlinkHead | msqueue.cpp:55-76 | the retry loop gives up with Empty exactly when the chain is the sentinel alone, and otherwise returns the successor's value and drops the sentinel |
| MsQueue.Queue.Dequeue | msqueue.cpp:54-77 | reports Empty exactly when head == tail and head.next is null; otherwise returns the sentinel's successor's value, which becomes the new sentinel, and the contents lose their front, as Run says |
| MsQueue.FifoScenario | main.cpp:43-49 | enqueues 1, 2, 3 dequeue as 1, 2, 3; dequeues on the empty queue report Empty |
| EliminationStack.SlotOf | elimination_stack.cpp:22 | the slot rand() % ELIM_SIZE picks is below ELIM_SIZE |
| EliminationStack.EliminationStack.constructor | containers.h:82-87 | top starts null and every tag and value cell is 0 |
| EliminationStack.EliminationStack.CasTag | elimination_stack.cpp:26 | compare_exchange_strong on one tag: succeeds, and writes desired, exactly when the tag holds expected |
| EliminationStack.EliminationStack.TryEliminatePush | elimination_stack.cpp:24-31 | eliminates exactly when the tag is POP_WAITING; then the tag becomes FREE and value is deposited, and the stack is not touched |
| EliminationStack.EliminationStack.TryEliminatePop | elimination_stack.cpp:45-50 | eliminates exactly when the tag is PUSH_WAITING; then the tag becomes FREE and the deposited value is returned |
| EliminationStack.EliminationStack.Push | elimination_stack.cpp:20-39 | every tag stays FREE, the elimination misses, and the value is pushed on top as by a Treiber push |
| EliminationStack.EliminationStack.Pop | elimination_stack.cpp:42-61 | every tag stays FREE, the elimination misses, and the Treiber pop returns the top or reports Empty on an empty stack |
| EliminationStack.EliminationStack.Drain | elimination_stack.cpp:11-17 | the destructor loop terminates with top null |
| EliminationStack.LifoScenario | main.cpp:51-57 | whatever slots rand() picks, pushes 1, 2, 3 pop as 3, 2, 1 |
| FcStack.CombinePass | fc_stack.cpp:19-36 | the pass never changes op or val, leaves non-pending slots untouched, marks every pending slot done, and leaves a push slot's result alone |
| FcStack.RunRequest | fc_stack.cpp:23-34 | serving one slot changes the stack as the reference Run of that slot's request does |
| FcStack.CombineLinearizes | fc_stack.cpp:19-36 | after the pass, the stack equals the reference stack after running the pending requests in slot order |
| FcStack.CombinePrefix | fc_stack.cpp:20 | the slots before k come out the same whichever slots follow, since the scan is in ascending order |
| FcStack.PopGetsReferenceTop | fc_stack.cpp:27-34 | a pop slot receives the top of the reference stack left by the slots before it, or keeps its old result if that stack is empty |
| FcStack.CombineAlone | fc_stack.cpp:19-36 | with one pending slot, the pass serves that slot alone and changes no other |
| FcStack.IdlePass | fc_stack.cpp:21-35 | a pass over slots with nothing pending changes nothing |
| FcStack.Stack.constructor | containers.h:106-111 | every slot starts with op 0 and done false; val and result are not set |
| FcStack.Stack.ServeSlot | fc_stack.cpp:21-34 | one loop iteration serves slot i and changes no other slot |
| FcStack.Stack.Combine | fc_stack.cpp:19-36 | the slot table and stack end as CombinePass says |
| FcStack.Stack.Push | fc_stack.cpp:39-54 | publishes op 1 with val and done false, combines, then resets op to 0; alone, it pushes value on top and marks its slot done |
| FcStack.Stack.Pop | fc_stack.cpp:57-73 | publishes op 2 with done false, combines, resets op to 0, and reports the slot's result or Empty for -1; alone, it takes the top, or on an empty stack returns the slot's previous result |
| FcStack.LifoScenario | main.cpp:59-65 | pushes 1, 2, 3 pop as 3, 2, 1 |
| FcStack.EmptySignalScenario | fc_stack.cpp:29-33 | a pop on the empty stack returns the previous pop's value, and a pushed -1 pops as Empty |
| FcQueue.CombinePass | fc_queue.cpp:22-39 | the pass never changes op or val, leaves non-pending slots untouched, marks every pending slot done, and leaves an enqueue slot's result alone |
| FcQueue.RunRequest | fc_queue.cpp:26-37 | serving one slot changes the queue as the reference Run of that slot's request does |
| FcQueue.CombineLinearizes | fc_queue.cpp:22-39 | after the pass, the queue equals the reference queue after running the pending requests in slot order |
| FcQueue.CombinePrefix | fc_queue.cpp:23 | the slots before k come out the same whichever slots follow |
| FcQueue.DequeueGetsReferenceFront | fc_queue.cpp:30-37 | a dequeue slot receives the front of the reference queue left by the slots before it, or keeps its old result if that queue is empty |
| FcQueue.CombineAlone | fc_queue.cpp:22-39 | with one pending slot, the pass serves that slot alone and changes no other |
| FcQueue.IdlePass | fc_queue.cpp:24-38 | a pass over slots with nothing pending changes nothing |
| FcQueue.GetSlot | fc_queue.cpp:12-19 | the slot is always below MAX_THREADS, and the first MAX_THREADS tickets get distinct slots |
| FcQueue.Queue.constructor | containers.h:129-134 | every slot starts with op 0 and done false; val and result are not set |
| FcQueue.Queue.ServeSlot | fc_queue.cpp:24-37 | one loop iteration serves slot i and changes no other slot |
| FcQueue.Queue.Combine | fc_queue.cpp:22-39 | the slot table and queue end as CombinePass says |
| FcQueue.Queue.Enqueue | fc_queue.cpp:42-57 | publishes op 1 with val and done false in slot GetSlot(ticket), combines, resets op to 0; alone, it appends value at the back |
| FcQueue.Queue.Dequeue | fc_queue.cpp:60-76 | publishes op 2 with done false, combines, resets op to 0, and reports the slot's result or Empty for -1; alone, it takes the front, or on an empty queue returns the slot's previous result |
| FcQueue.FifoScenario | main.cpp:67-73 | enqueues 1, 2, 3 dequeue as 1, 2, 3 |
| FcQueue.EmptySignalScenario | fc_queue.cpp:32-36 | a dequeue on the empty queue returns the previous dequeue's value, and an enqueued -1 dequeues as Empty |
| Condvar.EpochCondVar.constructor | containers.h:142 | the epoch starts at 0 |
| Condvar.EpochCondVar.Signal | condvar.cpp:37-40 | increases the epoch by exactly 1, so a waiter that recorded the old epoch may resume |
| Condvar.EpochCondVar.Broadcast | condvar.cpp:42-45 | increases the epoch by exactly 1, so every waiter that recorded the old epoch may resume |
| Condvar.EpochCondVar.Wait | condvar.cpp:32-35 | returns only at a wakeup whose epoch differs from the one recorded on entry, the first such; without one it does not return |
| Condvar.RingEnqueue | condvar.cpp:53-55 | writing the cell at head + count appends the value to the live cells and disturbs none of them |
| Condvar.RingDequeue | condvar.cpp:64-66 | moving head one cell forward drops exactly the front live cell |
| Condvar.BoundedQueue.constructor | containers.h:157 | head, tail and count start at 0; the queue is empty and both epochs are 0 |
| Condvar.BoundedQueue.Enqueue | condvar.cpp:48-57 | needs count < SIZE; stores v at tail and changes no other cell, advances tail modulo SIZE, increments count, keeps 0 <= count <= SIZE and tail == (head + count) % SIZE, appends v to the live contents as the reference Run of one enqueue does, and signals not-empty once |
| Condvar.BoundedQueue.Dequeue | condvar.cpp:59-70 | needs count > 0; returns the head cell, the front of the live contents, advances head modulo SIZE, decrements count, keeps the invariants, agrees with the reference Run of one dequeue, and signals not-full once |
| Condvar.ProducerConsumerScenario | main.cpp:75-90 | 50 enqueues of 0..49 fit and come back in order from 50 dequeues, with 50 signals on each condition variable |

## Left out

- Concurrency: thread interleavings, linearizability under contention,
  lock-freedom and progress, memory ordering, and ABA cannot be stated in a
  sequential model. A compare-and-swap fails only when its target has
  changed.
- The spurious failure of `compare_exchange_weak` is left out. At
  treiber_stack.cpp:27 and 42, msqueue.cpp:39, 46, 67 and 71, and
  elimination_stack.cpp:37 and 59 it would only send a retry loop round once
  more, with the state unchanged.
- `MsQueue.Queue.TryLink`, `MsQueue.Queue.LinkNode`, `MsQueue.Queue.Enqueue`:
  the tail swing after a successful link (msqueue.cpp:41) is tried once and
  not retried, so a spurious failure there returns with `tail` one node
  behind the last. `Valid` admits that state. The next enqueue helps `tail`
  forward (`HelpTail`), and so does a dequeue that finds `head == tail`; a
  dequeue that finds two or more values moves only `head`. The `tail == n` ensures of
  these three methods assume that the swing succeeds.
- `std::mutex`, `lock_guard`, `try_lock` and `unique_lock` are left out;
  `try_lock` is taken to succeed.
- The non-combiner path of the flat-combining containers (spinning with
  `yield` until `done`) is not modelled. Alone, the caller is always the
  combiner.
- `Condvar.BoundedQueue.Enqueue`: the `while (count == SIZE)` wait loop
  becomes the precondition `count < SIZE`. Alone, a full queue would block
  forever.
- `Condvar.BoundedQueue.Dequeue`: the `while (count == 0)` wait loop becomes
  the precondition `count > 0`.
- `Condvar.EpochCondVar.Wait`: the native `condition_variable`, its blocking
  and its notifications are not modelled. The epochs observed at successive
  native wakeups are a parameter. `notify_one` and `notify_all` are modelled
  only through the epoch bump.
- `rand()` in the elimination stack is a parameter. Only its remainder modulo
  `ELIM_SIZE` matters.
- `get_slot`'s `thread_local` cache and its shared counter are foreign
  per-thread state. The counter value a thread drew is a parameter: `slot`
  for the stack, `ticket` for the queue.
- `FcStack.Stack.Push`, `FcStack.Stack.Pop`: the model does not cover a
  thread whose counter value is `MAX_THREADS` or more. There the source
  indexes past the slot table; the model requires `slot < MAX_THREADS`.
- `new` and `delete` are left out: the deliberate leaks of unlinked nodes,
  and the node the elimination push allocates and deletes on a successful
  elimination. Nodes live on the garbage-collected heap, and the
  destructors' drain loops are modelled without the freeing.
- The Michael–Scott queue's destructor is left out: it only frees memory.
- The width of `size_t` is not modelled, so the epoch is unbounded.
- The width of `int` is not modelled either. No container operation does
  arithmetic on element values. `head` and `tail` stay below `SIZE`, and
  `count` is at most `SIZE`.
- `FcQueue.GetSlot`: the ticket is a `nat`, so the model does not capture the
  wrap of the `std::atomic<int>` counter past `INT_MAX`. After the wrap the
  counter is negative, and C++ `%` truncates toward zero, so such a thread
  would get a negative slot index, or 0 when the counter is a multiple of
  `MAX_THREADS`.
- The elimination stack's fallback loops are the same code as the Treiber
  loops, so the model reuses `TreiberStack.Stack`. Its push and pop are the
  elimination attempt followed by that stack's push or pop.
- The Michael–Scott queue's steps are separate methods where the source
  inlines them: the linking step (`TryLink`), the helping step (`HelpTail`),
  the head swap (`TryUnlink`), and the two retry loops (`LinkNode` for
  enqueue, `UnlinkHead` for dequeue). `Enqueue` allocates the node and calls
  `LinkNode`; `Dequeue` calls `UnlinkHead`.
- `main.cpp` is not modelled: the benchmarks, the contention test, timing and
  printing. Its single-threaded assertions become the scenario methods.
- `Condvar.ProducerConsumerScenario`: the condition-variable test runs a
  producer thread and a consumer thread and asserts nothing. The scenario is
  one sequential order of that test, producer first. Its ensures (the values
  come back in order, 50 signals on each condition variable) are the model's
  own additions, not promises of the test.
