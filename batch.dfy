/** A whole batch of countdown futures as one value, polled by an executor in
    any order, and the properties that hold however the polls interleave. */
module Batch {
  import opened WakeHeap
  import opened Countdown

  /** What one future holds for itself. */
  datatype Task = Task(state: State, index: nat, maxCount: nat)

  /** A batch: its futures in the order the executor holds them, the shared
      heap and counter, every wake issued and every completion, in order. */
  datatype World = World(tasks: seq<Task>, heap: seq<Entry>, completed: nat, woken: seq<WakerId>, finished: seq<nat>)

  /** The executor polls the future at position `pos` with waker `waker`; if
      the poll pops, the heap's order selects the entry at position `pick`
      (the last one when `pick` is past the end). Every entry of a non-empty
      heap is some pick, so traces cover every order the heap may pop in. */
  datatype Call = Call(pos: nat, waker: WakerId, pick: nat)

  /** The heap position a poll pops from. */
  function PopPos(heap: seq<Entry>, pick: nat): (k: nat)
    ensures heap == [] || k < |heap|
  {
    if heap == [] then 0 else if pick < |heap| then pick else |heap| - 1
  }

  /** Every poll of `trace` names one of `n` futures. */
  predicate CallsIn(trace: seq<Call>, n: nat)
  {
    forall i :: 0 <= i < |trace| ==> trace[i].pos < n
  }

  /** The effect of polling the future at `c.pos`. */
  function EffectAt(wd: World, c: Call): Countdown.Effect
    requires c.pos < |wd.tasks|
  {
    var t := wd.tasks[c.pos];
    StepAt(t.state, t.index, t.maxCount, wd.heap, wd.completed, c.waker, PopPos(wd.heap, c.pick))
  }

  /** The batch after the future at `c.pos` is polled: only that future's
      state, the shared heap and counter, and the logs can change. */
  function PollAt(wd: World, c: Call): (r: World)
    requires c.pos < |wd.tasks|
    ensures |r.tasks| == |wd.tasks|
    ensures forall t :: 0 <= t < |wd.tasks| ==>
      r.tasks[t].index == wd.tasks[t].index && r.tasks[t].maxCount == wd.tasks[t].maxCount
    ensures forall t :: 0 <= t < |wd.tasks| && t != c.pos ==> r.tasks[t] == wd.tasks[t]
    ensures wd.completed <= r.completed <= wd.completed + 1
    ensures wd.finished <= r.finished && wd.woken <= r.woken
  {
    var t := wd.tasks[c.pos];
    var e := EffectAt(wd, c);
    World(wd.tasks[c.pos := t.(state := e.state)], e.heap, e.completed,
          wd.woken + WakeLog(e.woken), wd.finished + Completions(e, t.index, wd.completed))
  }

  /** The batch after the polls of `trace`, one after another. */
  function Run(wd: World, trace: seq<Call>): (r: World)
    requires CallsIn(trace, |wd.tasks|)
    ensures |r.tasks| == |wd.tasks|
    ensures forall t :: 0 <= t < |wd.tasks| ==>
      r.tasks[t].index == wd.tasks[t].index && r.tasks[t].maxCount == wd.tasks[t].maxCount
    decreases |trace|
  {
    if trace == [] then wd else Run(PollAt(wd, trace[0]), trace[1..])
  }

  /** What each poll of `trace` reported: true for ready, false for pending. */
  function Replies(wd: World, trace: seq<Call>): (r: seq<bool>)
    requires CallsIn(trace, |wd.tasks|)
    ensures |r| == |trace|
    decreases |trace|
  {
    if trace == [] then [] else [EffectAt(wd, trace[0]).ready] + Replies(PollAt(wd, trace[0]), trace[1..])
  }

  /** A new batch of `n` futures, in the order `perm` the shuffle picked:
      all in their initial state, with an empty heap and a zero counter. */
  function Initial(perm: seq<nat>, n: nat): (r: World)
    requires IsPermutation(perm, n)
    ensures Inv(r)
  {
    World(seq(n, k requires 0 <= k < n => Task(Init, perm[k], n)), [], 0, [], [])
  }

  /** The number of futures suspended in the polled state. */
  function CountPolled(tasks: seq<Task>): (n: nat)
    ensures n <= |tasks|
  {
    if tasks == [] then 0
    else CountPolled(tasks[..|tasks| - 1]) + (if tasks[|tasks| - 1].state == Polled then 1 else 0)
  }

  /** Every index is below the batch size. */
  ghost predicate IndicesInRange(wd: World)
  {
    forall t :: 0 <= t < |wd.tasks| ==> wd.tasks[t].index < |wd.tasks|
  }

  /** The tasks 0, 1, ..., completed - 1 completed, in that order, each once;
      and a done future is one whose turn has passed. */
  ghost predicate CompletedInOrder(wd: World)
  {
    && wd.finished == Indices(wd.completed)
    && wd.completed <= |wd.tasks|
    && (forall t :: 0 <= t < |wd.tasks| && wd.tasks[t].state == Done ==> wd.tasks[t].index < wd.completed)
  }

  /** The heap holds no more wakers than there are suspended futures. */
  ghost predicate HeapBounded(wd: World)
  {
    |wd.heap| <= CountPolled(wd.tasks)
  }

  /** What holds of every batch, before and after every poll. */
  ghost predicate Inv(wd: World)
  {
    IndicesInRange(wd) && CompletedInOrder(wd) && HeapBounded(wd)
  }

  // ---- Counting suspended futures ----

  function PolledBit(t: Task): nat
  {
    if t.state == Polled then 1 else 0
  }

  /** Changing one future's state changes the count by the difference. */
  lemma {:induction false} CountPolledUpdate(tasks: seq<Task>, k: nat, t: Task)
    requires k < |tasks|
    ensures CountPolled(tasks[k := t]) + PolledBit(tasks[k]) == CountPolled(tasks) + PolledBit(t)
    decreases |tasks|
  {
    var n := |tasks| - 1;
    var u := tasks[k := t];
    assert u[..n] == if k == n then tasks[..n] else tasks[..n][k := t];
    if k < n {
      CountPolledUpdate(tasks[..n], k, t);
    }
  }

  /** A suspended future is counted. */
  lemma {:induction false} CountPolledPositive(tasks: seq<Task>, k: nat)
    requires k < |tasks| && tasks[k].state == Polled
    ensures CountPolled(tasks) >= 1
    decreases |tasks|
  {
    var n := |tasks| - 1;
    if k < n {
      assert tasks[..n][k] == tasks[k];
      CountPolledPositive(tasks[..n], k);
    }
  }

  // ---- The invariant ----

  /** A poll keeps the indices in range and the completions in order. */
  lemma PollKeepsOrder(wd: World, c: Call)
    requires IndicesInRange(wd) && CompletedInOrder(wd) && c.pos < |wd.tasks|
    ensures IndicesInRange(PollAt(wd, c)) && CompletedInOrder(PollAt(wd, c))
  {
    var t := wd.tasks[c.pos];
    var e := EffectAt(wd, c);
    var r := PollAt(wd, c);
    if e.completed != wd.completed {
      assert r.finished == Indices(wd.completed) + [wd.completed];
    } else {
      assert r.finished == wd.finished;
    }
  }

  /** A poll keeps the heap no larger than the number of suspended futures. */
  lemma PollKeepsHeapBound(wd: World, c: Call)
    requires HeapBounded(wd) && c.pos < |wd.tasks|
    ensures HeapBounded(PollAt(wd, c))
  {
    var t := wd.tasks[c.pos];
    var e := EffectAt(wd, c);
    var r := PollAt(wd, c);
    var t' := t.(state := e.state);
    CountPolledUpdate(wd.tasks, c.pos, t');
    assert r.tasks == wd.tasks[c.pos := t'];
    var s := if FastPath(|wd.heap|, t.maxCount) then Polled else t.state;
    if s == Polled {
      assert e == WakeAndGate(t.index, wd.heap, wd.completed, c.waker, PopPos(wd.heap, c.pick));
      if wd.heap == [] && wd.completed != t.index {
        CountPolledPositive(r.tasks, c.pos);
      } else if wd.heap == [] && t.state == Polled {
        CountPolledPositive(wd.tasks, c.pos);
      }
    }
  }

  /** A poll of any future, in any state, preserves the invariant. */
  lemma PollPreservesInv(wd: World, c: Call)
    requires Inv(wd) && c.pos < |wd.tasks|
    ensures Inv(PollAt(wd, c))
  {
    PollKeepsOrder(wd, c);
    PollKeepsHeapBound(wd, c);
  }

  /** So does any sequence of polls. */
  lemma {:induction false} RunPreservesInv(wd: World, trace: seq<Call>)
    requires Inv(wd) && CallsIn(trace, |wd.tasks|)
    ensures Inv(Run(wd, trace))
    decreases |trace|
  {
    if trace != [] {
      PollPreservesInv(wd, trace[0]);
      RunPreservesInv(PollAt(wd, trace[0]), trace[1..]);
    }
  }

  /** Polling never takes back a completion or a wake, and moves the counter
      by exactly one for each completion. */
  lemma {:induction false} RunMonotone(wd: World, trace: seq<Call>)
    requires CallsIn(trace, |wd.tasks|)
    ensures var r := Run(wd, trace);
      && wd.completed <= r.completed
      && wd.finished <= r.finished && wd.woken <= r.woken
      && r.completed - wd.completed == |r.finished| - |wd.finished|
    decreases |trace|
  {
    if trace != [] {
      var next := PollAt(wd, trace[0]);
      assert next.completed - wd.completed == |next.finished| - |wd.finished|;
      RunMonotone(next, trace[1..]);
    }
  }

  // ---- The ordering guarantees of a batch ----

  /** Whatever order the executor polls a fresh batch in, the futures
      complete in index order 0, 1, 2, ..., no index twice and no more than
      the batch holds. */
  lemma CompletionOrder(perm: seq<nat>, n: nat, trace: seq<Call>)
    requires IsPermutation(perm, n) && CallsIn(trace, n)
    ensures var r := Run(Initial(perm, n), trace);
      && r.completed <= n
      && |r.finished| == r.completed
      && (forall k :: 0 <= k < |r.finished| ==> r.finished[k] == k)
      && (forall i, j :: 0 <= i < j < |r.finished| ==> r.finished[i] < r.finished[j])
  {
    RunPreservesInv(Initial(perm, n), trace);
  }

  /** The heap never holds more wakers than there are suspended futures, and
      every done future's index is below the counter. */
  lemma QueueBounded(perm: seq<nat>, n: nat, trace: seq<Call>)
    requires IsPermutation(perm, n) && CallsIn(trace, n)
    ensures var r := Run(Initial(perm, n), trace);
      && |r.heap| <= CountPolled(r.tasks)
      && forall t :: 0 <= t < n && r.tasks[t].state == Done ==> r.tasks[t].index < r.completed
  {
    RunPreservesInv(Initial(perm, n), trace);
  }

  /** A future whose index the counter has passed never completes again, even
      when the fast path drags it back into the polled state. */
  lemma NoSecondCompletion(wd: World, c: Call)
    requires c.pos < |wd.tasks|
    requires wd.tasks[c.pos].index < wd.completed
    ensures PollAt(wd, c).completed == wd.completed && PollAt(wd, c).finished == wd.finished
  {
  }

  // ---- The futures of a batch, seen as a World ----

  ghost function Tasks(fs: seq<CountdownFuture>): seq<Task>
    reads fs
  {
    seq(|fs|, k requires 0 <= k < |fs| reads fs => Task(fs[k].state, fs[k].index, fs[k].maxCount))
  }

  ghost function Snapshot(fs: seq<CountdownFuture>, heap: WakerHeap, counter: CompletionCounter): World
    reads fs, heap, counter
  {
    World(Tasks(fs), heap.entries, counter.value, heap.woken, counter.finished)
  }

  /** Distinct futures sharing one heap and one counter. */
  ghost predicate Shares(fs: seq<CountdownFuture>, heap: WakerHeap, counter: CompletionCounter)
    reads fs
  {
    && (forall k :: 0 <= k < |fs| ==> fs[k].wakers == heap && fs[k].completedCount == counter)
    && (forall i, j :: 0 <= i < j < |fs| ==> fs[i] != fs[j])
  }

  /** The futures a batch constructor returns are the batch `Initial(perm, n)`. */
  lemma FreshBatch(fs: seq<CountdownFuture>, heap: WakerHeap, counter: CompletionCounter, perm: seq<nat>, n: nat)
    requires IsPermutation(perm, n) && |fs| == n
    requires forall k :: 0 <= k < n ==> fs[k].state == Init && fs[k].index == perm[k] && fs[k].maxCount == n
    requires heap.entries == [] && heap.woken == [] && counter.value == 0 && counter.finished == []
    ensures Snapshot(fs, heap, counter) == Initial(perm, n)
  {
    assert Tasks(fs) == Initial(perm, n).tasks;
  }

  /** The executor polls the future at `pos` with waker `w`: the batch moves
      as `PollAt` says for the pick of the lowest-index entry. */
  method PollOne(fs: seq<CountdownFuture>, heap: WakerHeap, counter: CompletionCounter, pos: nat, w: WakerId)
    returns (ready: bool)
    requires pos < |fs| && Shares(fs, heap, counter) && counter.Valid()
    modifies fs[pos], heap, counter
    ensures counter.Valid()
    ensures var c := Call(pos, w, Lowest(old(heap.entries)));
      && ready == old(EffectAt(Snapshot(fs, heap, counter), c)).ready
      && Snapshot(fs, heap, counter) == PollAt(old(Snapshot(fs, heap, counter)), c)
  {
    ghost var c := Call(pos, w, Lowest(heap.entries));
    assert PopPos(heap.entries, c.pick) == Lowest(heap.entries);
    ready := fs[pos].Poll(w);
    assert Tasks(fs) == PollAt(old(Snapshot(fs, heap, counter)), c).tasks;
  }
}
