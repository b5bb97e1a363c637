# Countdown futures

A Dafny model of the countdown-future coordination engine in the benchmark
utilities of futures-concurrency (`benches/utils/countdown_futures.rs`).

A batch holds N countdown futures. Each future has an index in `0..N` and its
own state: `Init`, `Polled` or `Done`. All futures in a batch share a heap of
(index, waker) entries and a completion counter. The order in which the heap
pops is decided by the ordering of `PrioritizedWaker`, which is not part of
this model; see "Which entry the heap pops" below. One poll does four things
in order:

1. The fast path. If the heap holds N - 1 entries, the state is forced to `Polled`.
2. From `Init`, the future pushes its own entry, moves to `Polled` and is pending.
3. From `Polled`, it pops one entry and wakes that entry's waker. Then it
   checks the counter:
   - if the counter equals the future's index, the future becomes `Done`,
     the counter goes up by one, and the future is ready;
   - otherwise it pushes its own entry again and is pending.
4. From `Done`, it is ready.

Because of the counter check, futures finish in the index order 0, 1, 2, …
whatever order the executor polls them in.

Which entry the heap pops: the model takes two views.

- The batch results in `Batch` hold whichever entry each pop takes. Every
  poll of a trace carries a `pick`, the heap position it pops from, and each
  result holds for every sequence of picks. This covers every order the
  source's `BinaryHeap` could pop in.
- The objects (`WakerHeap.Pop`, `CountdownFuture.Poll`) and the concrete
  runs in `Scenarios` assume an order of this model's choosing: lowest index
  first, and the earliest pushed among equal indices.

The project has four modules:

- `WakeHeap` (heap.dfy): the prioritized waker entries, the lowest-index pop
  (`PopAt` for any position, `MinPos` and `PopMin` for the lowest index), and
  the shared heap as a class with `Push` and `Pop`.
  A ghost log `woken` on the heap records every wake.
- `Countdown` (countdown.dfy): the state machine.
  - `StepAt` is the specification function of one poll that pops a given
    position. `WakeAndGate` is its `Polled` branch. One lemma covers each
    branch. `Step` is `StepAt` with the lowest-index pop.
  - The classes `CompletionCounter` and `CountdownFuture`. `CountdownFuture`'s
    `Poll` follows the source statement by statement, and its postcondition
    ties the new state to `Step`.
  - The counter carries a ghost log `finished` of completed indices. Its
    invariant `Valid()` says the log is exactly 0, 1, …, value - 1, and
    `Poll` preserves it.
  - The batch constructors.
- `Batch` (batch.dfy): the whole batch as one value (`World`).
  - `PollAt` is one poll. `Run` is any sequence of polls.
  - The invariant `Inv` holds under every interleaving and every pop order. It says:
    completions happen in index order, each index at most once and at most
    N in all; a done future's index is below the counter; and the heap never
    holds more wakers than there are futures in `Polled`.
  - `PollOne` and `FreshBatch` show that polling the objects built by the
    constructors moves the batch exactly as `PollAt` says, starting from
    `Initial`.
- `Scenarios` (scenarios.dfy): concrete runs of batches of three futures and
  of one future.

Where the code's behaviour differs from its design intent, the model follows
the code:

- The future that takes the fast path on its first poll runs the `Polled`
  branch in the same call. If the counter equals its index, it is ready on
  that first poll. So not every future needs two polls: a batch of one is
  ready on its first poll (`Scenarios.SingleFutureReadyOnFirstPoll`), and so
  is future 0 in the three-future run.
- The fast path fires in every state, `Done` included. Re-polling a finished
  future is therefore not always ready and not always free of side effects.
  In a batch of one, a finished future polled again moves back to `Polled`,
  pushes its waker and is pending (`Scenarios.DoneFutureForcedBack`). It
  still never completes a second time (`Batch.NoSecondCompletion`).
- Which waker a pop wakes follows from the heap's order, not from this file.
  Take the run that polls futures 2, 1, 0, 1, 2 and pops the lowest index
  first. There, the fast-path poll of future 0 wakes future 1, not future 2.
  If the heap popped future 2's entry instead, it would wake future 2
  (`Scenarios.ThreeFutures`). Either way future 0 completes.
- One future can have two entries in the heap at once. A future whose turn
  has not come pops and re-pushes on every poll, and it may pop another
  future's entry instead of its own. Take the run that polls futures 1, 1, 2,
  2 of a batch of three, popping the lowest index first. It leaves future 2's
  entry in the heap twice (`Scenarios.TwoEntriesOfOneIndex`). The heap still
  never holds more entries than there are futures in `Polled`.

## Model

| member | source | states |
|---|---|---|
| `WakeHeap.PopAt` | benches/utils/countdown_futures.rs:95-99 | A pop at a given position returns nothing exactly when the heap is empty. Otherwise it returns the entry at that position, and the rest is the heap minus exactly that one entry (as a multiset). |
| `WakeHeap.MinPos` | benches/utils/countdown_futures.rs:95-99 | The position of the entry that pops next: its index is no larger than any other entry's, and strictly smaller than every entry before it. |
| `WakeHeap.PopMin` | benches/utils/countdown_futures.rs:95-99 | Pop returns nothing exactly when the heap is empty. Otherwise it returns an entry of the heap with the lowest index, and the rest is the heap minus exactly that one entry (as a multiset). |
| `WakeHeap.WakerHeap.constructor` | benches/utils/countdown_futures.rs:13 | A new shared heap is empty, with no wakes logged. |
| `WakeHeap.WakerHeap.Push` | benches/utils/countdown_futures.rs:87-89 | Pushing adds exactly the given entry to the shared heap. |
| `WakeHeap.WakerHeap.Pop` | benches/utils/countdown_futures.rs:95-98 | Popping takes what `PopMin` says out of the shared heap. |
| `Countdown.StepAt` | benches/utils/countdown_futures.rs:79-114 | For whichever entry the pop takes: after any poll the state is never `Init`. The future is ready exactly when its new state is `Done`. The counter changes by at most one, and only when the future's index equals the old counter. At most one entry is added to the heap, and only this future's own. A woken waker is the popped entry's. |
| `Countdown.Step` | benches/utils/countdown_futures.rs:79-114 | With the lowest-index pop, a woken waker belongs to an entry of lowest index in the heap. |
| `Countdown.WakeAndGate` | benches/utils/countdown_futures.rs:93-112 | The `Polled` branch: ready exactly when the counter equals the index, and then `Done` with the counter one higher; otherwise `Polled` with the counter unchanged. The popped entry's waker is woken, and nothing is woken from an empty heap. The heap loses the popped entry and regains the future's own entry unless the future completed. |
| `Countdown.InitBranch` | benches/utils/countdown_futures.rs:85-92 | For any pop position, without the fast path, a future in `Init`: pushes exactly its own (index, waker); moves to `Polled`; is pending; leaves the counter unchanged; wakes nothing. |
| `Countdown.FastPathForcesPolled` | benches/utils/countdown_futures.rs:79-82 | For any pop position, when the heap holds max_count - 1 entries, a poll behaves as if the state were `Polled`, whatever it was, `Done` included. |
| `Countdown.WakeForward` | benches/utils/countdown_futures.rs:93-99 | With the lowest-index pop, in the `Polled` branch, an empty heap means nothing is woken. Otherwise exactly one lowest-index entry is removed and its waker is woken once. The heap then loses that entry, and gains the future's own entry if the future is not ready. |
| `Countdown.CompletionGate` | benches/utils/countdown_futures.rs:101-104 | For any pop position, in the `Polled` branch the future is ready iff the counter equals its index. It then becomes `Done`, the counter rises by exactly one, and nothing is pushed. |
| `Countdown.NotMyTurn` | benches/utils/countdown_futures.rs:105-111 | For any pop position, when the counter is not the future's index: its own entry is pushed back; it stays `Polled` and pending; the counter is unchanged. The heap keeps its length, or goes from 0 to 1. |
| `Countdown.DoneIdempotent` | benches/utils/countdown_futures.rs:113 | For any pop position, without the fast path, a poll of a `Done` future is ready and changes neither the heap, nor the counter, nor the state. |
| `Countdown.CompletionCounter.constructor` | benches/utils/countdown_futures.rs:14 | A new counter is zero, with no completions logged. |
| `Countdown.CountdownFuture.constructor` | benches/utils/countdown_futures.rs:58-71 | A new future is in `Init` with the given index and max_count, and holds the given shared heap and counter. |
| `Countdown.CountdownFuture.Poll` | benches/utils/countdown_futures.rs:76-115 | The new state, heap, counter and result are those of `Step` on the old ones. The wake log grows by the woken waker. The completion log grows by this index exactly when the counter rose. The counter invariant (completions are 0, 1, …, value - 1) is preserved. |
| `Countdown.CountdownFuture.WakeNextThenGate` | benches/utils/countdown_futures.rs:93-112 | The `Polled` branch in place: its effect is `WakeAndGate` on the old heap and counter, and it keeps the counter invariant. |
| `Countdown.NewBatch` | benches/utils/countdown_futures.rs:13-17 | Builds `len` distinct fresh futures with indices 0..len in order. Each is in `Init` with max_count = len. All share one fresh empty heap and one fresh zero counter. |
| `Countdown.FuturesVec` | benches/utils/countdown_futures.rs:12-20 | The same batch in the shuffled order. Position k holds the future with index perm[k], and the indices are 0..len, each exactly once. |
| `Countdown.FuturesArray` | benches/utils/countdown_futures.rs:22-29 | The same batch, shuffled, as a fresh array of length N. |
| `Countdown.Shuffled` | benches/utils/countdown_futures.rs:18 | Shuffling only rearranges: the result holds the same elements, each as often as before (equal multisets), and position k holds element perm[k]. |
| `Countdown.IndicesOnce` | benches/utils/countdown_futures.rs:15-17 | The constructor's indices 0..n each occur exactly once, and nothing else occurs. |
| `Countdown.PermutationDistinct` | benches/utils/countdown_futures.rs:18 | After the shuffle, distinct positions hold distinct indices. |
| `Batch.PollAt` | benches/utils/countdown_futures.rs:76-115 | For any pick, a poll changes only the polled future's state, never any index or max_count. The counter rises by 0 or 1. The wake and completion logs only grow. |
| `Batch.Run` | benches/utils/countdown_futures.rs:76-115 | Any sequence of polls keeps the batch size, every index and every max_count. |
| `Batch.PollKeepsOrder` | benches/utils/countdown_futures.rs:101-104 | One poll keeps the completions exactly 0, 1, …, counter - 1, the counter at most N, and every `Done` future's index below the counter. |
| `Batch.PollKeepsHeapBound` | benches/utils/countdown_futures.rs:85-111 | One poll keeps the heap no larger than the number of futures in `Polled`. |
| `Batch.RunPreservesInv` | benches/utils/countdown_futures.rs:79-114 | Every interleaving of polls preserves the batch invariant. |
| `Batch.RunMonotone` | benches/utils/countdown_futures.rs:103 | Over any sequence of polls the counter never decreases, and earlier completions and wakes are never undone. The counter rises by exactly the number of completions. |
| `Batch.Initial` | benches/utils/countdown_futures.rs:12-20 | A freshly built, shuffled batch satisfies the batch invariant. |
| `Batch.CompletionOrder` | benches/utils/countdown_futures.rs:101-104 | For every shuffle and every interleaving of polls, the futures complete in the order 0, 1, 2, … Completions are strictly ascending, with no index twice and at most N in all. |
| `Batch.QueueBounded` | benches/utils/countdown_futures.rs:85-111 | For every interleaving, the heap never holds more wakers than there are suspended futures, and every `Done` future's index is below the counter. |
| `Batch.NoSecondCompletion` | benches/utils/countdown_futures.rs:80-104 | In every batch state, a future whose index the counter has passed never moves the counter again, even when the fast path forces it back to `Polled`. |
| `Batch.FreshBatch` | benches/utils/countdown_futures.rs:12-20 | The futures a constructor returns, seen as a batch, are exactly `Initial(perm, n)`. |
| `Batch.PollOne` | benches/utils/countdown_futures.rs:76-115 | Polling one future of a batch of objects moves the whole batch exactly as `PollAt` says for the lowest-index pick, and reports the result that poll gives. |
| `Scenarios.ThreeFutures` | benches/utils/countdown_futures.rs:79-113 | Three futures polled 2, 1, 0, 1, 2 with the lowest-index pop reply pending, pending, ready, ready, ready. The fast-path poll of 0 wakes 1. All end `Done`, with completions 0, 1, 2 and wakes of 1's then 2's waker. If that pop took 2's entry instead, it would wake 2 and still complete 0. |
| `Scenarios.TwoEntriesOfOneIndex` | benches/utils/countdown_futures.rs:84-111 | Polls of futures 1, 1, 2, 2 of a batch of three, with the lowest-index pop, leave future 2's entry in the heap twice. |
| `Scenarios.SingleFutureReadyOnFirstPoll` | benches/utils/countdown_futures.rs:79-104 | In a batch of one, whatever the pick, the first poll takes the fast path and is ready at once. |
| `Scenarios.DoneFutureForcedBack` | benches/utils/countdown_futures.rs:79-111 | In a batch of one, a finished future polled again goes back to `Polled`, pushes its waker and is pending. The counter stays at 1. |

## Left out

- `futures_tuple` (countdown_futures.rs:31-45) only destructures a ten-future array into a tuple. It has no behaviour of its own beyond `FuturesArray`.
- `Pin`, `pin_project`, `Context` and the `Future` trait are not modelled. `Poll` takes the waker id directly and returns `true` for ready and `false` for pending.
- `Rc<RefCell<…>>` and `Rc<Cell<…>>` become two shared objects, a `WakerHeap` and a `CompletionCounter`, that every future refers to. The runtime borrow checks cannot fail in this single-threaded code, so they are not modelled.
- `Waker::wake` and the executor's re-poll are outside this code. A wake is an append of the waker's id to the ghost log `woken`. Which future the executor polls next is any sequence of polls (`Batch.Run`).
- `shuffle` is outside this code. It is a parameter `perm`, which is required to list 0..n in some order. Randomness is not modelled.
- `PrioritizedWaker`, its ordering and `State` are not part of this model. The batch results hold for every pop order. The objects and the concrete runs assume the lowest index first, and among equal indices the earliest pushed.
- `BinaryHeap` is a sequence in push order. Its logarithmic cost is not modelled.
- `usize` overflow is not modelled: indices, counts and the counter are unbounded naturals. The only arithmetic is `len() + 1` and the counter increment, which cannot overflow for a real batch.
- Liveness under an arbitrary executor (every future is eventually ready) depends on executor fairness and is not modelled. Only safety properties are proved.
- `CountdownFuture.Poll` is split in two: the `Polled` branch is the helper `WakeNextThenGate`. This keeps each proof small. It does not change what a poll does.
