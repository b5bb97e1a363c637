/** A countdown future: a task that must be polled several times before it is
    ready, and whose batch completes in ascending index order whatever order
    the executor polls it in. */
module Countdown {
  import opened WakeHeap

  datatype State = Init | Polled | Done

  /** What one poll leaves behind: the task's new state, the new heap and
      counter, the waker it woke (if any) and whether it reported ready. */
  datatype Effect = Effect(state: State, heap: seq<Entry>, completed: nat, woken: Option<WakerId>, ready: bool)

  /** The fast path: every other task of the batch already waits in the heap. */
  predicate FastPath(heapLen: nat, maxCount: nat)
  {
    heapLen + 1 == maxCount
  }

  /** One poll of the task `index` of a batch of `maxCount` tasks, holding
      `state`, given the shared heap and completion counter and the waker `w`
      the executor passes in. If the poll pops, it pops the entry at position
      `k`, whichever entry the heap's order selects. */
  function StepAt(state: State, index: nat, maxCount: nat, heap: seq<Entry>, completed: nat, w: WakerId, k: nat): (r: Effect)
    requires heap == [] || k < |heap|
    // a polled task never returns to its initial state
    ensures r.state != Init
    // the future is ready exactly when it ends up done
    ensures r.ready <==> r.state == Done
    // the counter moves by one at most, and only for the task whose turn it is
    ensures r.completed == completed || (r.completed == completed + 1 && index == completed && r.state == Done)
    ensures index != completed ==> r.completed == completed
    // at most one entry is added, and it is this task's own
    ensures |r.heap| <= |heap| + 1
    ensures multiset(r.heap) <= multiset(heap) + multiset{Entry(index, w)}
    // a wake only ever goes to the waker of the popped entry
    ensures r.woken.Some? ==> heap != [] && r.woken.value == heap[k].waker
  {
    var s := if FastPath(|heap|, maxCount) then Polled else state;
    match s
    case Init => Effect(Polled, heap + [Entry(index, w)], completed, None, false)
    case Polled => WakeAndGate(index, heap, completed, w, k)
    case Done => Effect(Done, heap, completed, None, true)
  }

  /** A poll with this model's heap, which pops the first entry of lowest index. */
  function Step(state: State, index: nat, maxCount: nat, heap: seq<Entry>, completed: nat, w: WakerId): (r: Effect)
    // a wake goes to a waiting waker of the lowest index
    ensures r.woken.Some? ==>
      exists e :: e in heap && e.waker == r.woken.value && forall f :: f in heap ==> e.index <= f.index
  {
    var k := Lowest(heap);
    assert heap != [] ==> heap[k] in heap;
    StepAt(state, index, maxCount, heap, completed, w, k)
  }

  /** The polled branch of a poll: wake the waker of the entry popped at `k`,
      then complete if the counter has reached `index`, or else register again. */
  function WakeAndGate(index: nat, heap: seq<Entry>, completed: nat, w: WakerId, k: nat): (r: Effect)
    requires heap == [] || k < |heap|
    // ready exactly on this task's turn, and then the counter counts it
    ensures r.ready <==> completed == index
    ensures r.ready ==> r.state == Done && r.completed == completed + 1
    ensures !r.ready ==> r.state == Polled && r.completed == completed
    // the popped entry's waker is woken once; nothing is woken from an empty heap
    ensures r.woken == if heap == [] then None else Some(heap[k].waker)
    // the heap loses the popped entry and regains this task's own unless it completed
    ensures multiset(r.heap) + (if heap == [] then multiset{} else multiset{heap[k]})
      == multiset(heap) + (if r.ready then multiset{} else multiset{Entry(index, w)})
  {
    var popped := PopAt(heap, k);
    var woken := if popped.0.Some? then Some(popped.0.value.waker) else None;
    if completed == index then Effect(Done, popped.1, completed + 1, woken, true)
    else Effect(Polled, popped.1 + [Entry(index, w)], completed, woken, false)
  }

  /** The indices that completed in a poll with effect `e`. */
  function Completions(e: Effect, index: nat, completed: nat): seq<nat>
  {
    if e.completed != completed then [index] else []
  }

  // ---- The branches of a poll, one lemma each, for whichever entry is popped ----

  /** Without the fast path, a first poll registers the waker and suspends. */
  lemma InitBranch(index: nat, maxCount: nat, heap: seq<Entry>, completed: nat, w: WakerId, k: nat)
    requires heap == [] || k < |heap|
    requires !FastPath(|heap|, maxCount)
    ensures var r := StepAt(Init, index, maxCount, heap, completed, w, k);
      && r.heap == heap + [Entry(index, w)]
      && r.state == Polled && !r.ready
      && r.completed == completed && r.woken == None
  {
  }

  /** The fast path overrides the state, whatever it was, done included. */
  lemma FastPathForcesPolled(state: State, index: nat, maxCount: nat, heap: seq<Entry>, completed: nat, w: WakerId, k: nat)
    requires heap == [] || k < |heap|
    requires FastPath(|heap|, maxCount)
    ensures StepAt(state, index, maxCount, heap, completed, w, k) == StepAt(Polled, index, maxCount, heap, completed, w, k)
  {
  }

  /** A polled task wakes the popped entry's waker exactly once, and nothing
      when the heap is empty; with this model's heap that entry has the
      lowest index. */
  lemma WakeForward(state: State, index: nat, maxCount: nat, heap: seq<Entry>, completed: nat, w: WakerId)
    requires state == Polled || FastPath(|heap|, maxCount)
    ensures var r := Step(state, index, maxCount, heap, completed, w);
      && (heap == [] ==> r.woken == None && r.heap == (if r.ready then [] else [Entry(index, w)]))
      && (heap != [] ==>
            exists e :: e in heap && (forall f :: f in heap ==> e.index <= f.index) && r.woken == Some(e.waker) &&
              multiset(r.heap) + multiset{e} == multiset(heap) + (if r.ready then multiset{} else multiset{Entry(index, w)}))
  {
    var k := Lowest(heap);
    var r := WakeAndGate(index, heap, completed, w, k);
    assert Step(state, index, maxCount, heap, completed, w) == r;
    if heap != [] {
      var e := heap[k];
      assert e in heap && r.woken == Some(e.waker);
      assert forall f :: f in heap ==> e.index <= f.index by {
        forall f | f in heap
          ensures e.index <= f.index
        {
          var j :| 0 <= j < |heap| && heap[j] == f;
        }
      }
    }
  }

  /** A polled task completes exactly when the counter has reached its index;
      it then counts itself and puts nothing back. */
  lemma CompletionGate(state: State, index: nat, maxCount: nat, heap: seq<Entry>, completed: nat, w: WakerId, k: nat)
    requires heap == [] || k < |heap|
    requires state == Polled || FastPath(|heap|, maxCount)
    ensures var r := StepAt(state, index, maxCount, heap, completed, w, k);
      && (r.ready <==> completed == index)
      && (r.ready ==> r.state == Done && r.completed == completed + 1 && |r.heap| == if heap == [] then 0 else |heap| - 1)
  {
  }

  /** Not this task's turn: it re-registers its waker and suspends; the heap
      keeps its length unless it was empty. */
  lemma NotMyTurn(state: State, index: nat, maxCount: nat, heap: seq<Entry>, completed: nat, w: WakerId, k: nat)
    requires heap == [] || k < |heap|
    requires state == Polled || FastPath(|heap|, maxCount)
    requires completed != index
    ensures var r := StepAt(state, index, maxCount, heap, completed, w, k);
      && !r.ready && r.state == Polled && r.completed == completed
      && Entry(index, w) in r.heap
      && |r.heap| == if heap == [] then 1 else |heap|
  {
  }

  /** Without the fast path, polling a finished task changes nothing. */
  lemma DoneIdempotent(index: nat, maxCount: nat, heap: seq<Entry>, completed: nat, w: WakerId, k: nat)
    requires heap == [] || k < |heap|
    requires !FastPath(|heap|, maxCount)
    ensures StepAt(Done, index, maxCount, heap, completed, w, k) == Effect(Done, heap, completed, None, true)
  {
  }

  // ---- The shared state and the futures ----

  /** The completion counter shared by every task of a batch. */
  class CompletionCounter {
    var value: nat
    /** The indices of the tasks that completed, in order. */
    ghost var finished: seq<nat>

    /** Exactly the tasks 0, 1, ..., value - 1 completed, in that order. */
    ghost predicate Valid()
      reads this
    {
      |finished| == value && forall k :: 0 <= k < |finished| ==> finished[k] == k
    }

    constructor ()
      ensures value == 0 && finished == [] && Valid()
    {
      value := 0;
      finished := [];
    }
  }

  class CountdownFuture {
    var state: State
    const wakers: WakerHeap
    const index: nat
    const maxCount: nat
    const completedCount: CompletionCounter

    constructor (index: nat, maxCount: nat, wakers: WakerHeap, completedCount: CompletionCounter)
      ensures state == Init && this.index == index && this.maxCount == maxCount
      ensures this.wakers == wakers && this.completedCount == completedCount
    {
      state := Init;
      this.wakers := wakers;
      this.maxCount := maxCount;
      this.index := index;
      this.completedCount := completedCount;
    }

    /** Polls the future with waker `w`; true is ready, false is pending. */
    method Poll(w: WakerId) returns (ready: bool)
      requires completedCount.Valid()
      modifies this, wakers, completedCount
      ensures completedCount.Valid()
      ensures var r := Step(old(state), index, maxCount, old(wakers.entries), old(completedCount.value), w);
        && state == r.state && wakers.entries == r.heap && completedCount.value == r.completed && ready == r.ready
        && wakers.woken == old(wakers.woken) + WakeLog(r.woken)
        && completedCount.finished == old(completedCount.finished) + Completions(r, index, old(completedCount.value))
    {
      // the last task to be polled skips straight to the polled state
      if |wakers.entries| + 1 == maxCount {
        state := Polled;
      }
      match state
      case Init =>
        wakers.Push(Entry(index, w));
        state := Polled;
        ready := false;
      case Polled =>
        ready := WakeNextThenGate(w);
      case Done =>
        ready := true;
    }

    /** The polled branch: wake the next waiting task, then complete if it is
        this task's turn, or else register again. */
    method WakeNextThenGate(w: WakerId) returns (ready: bool)
      requires state == Polled && completedCount.Valid()
      modifies this, wakers, completedCount
      ensures completedCount.Valid()
      ensures var r := WakeAndGate(index, old(wakers.entries), old(completedCount.value), w, Lowest(old(wakers.entries)));
        && state == r.state && wakers.entries == r.heap && completedCount.value == r.completed && ready == r.ready
        && wakers.woken == old(wakers.woken) + WakeLog(r.woken)
        && completedCount.finished == old(completedCount.finished) + Completions(r, index, old(completedCount.value))
    {
      // wake up the next one
      var top := wakers.Pop();
      if top.Some? {
        wakers.woken := wakers.woken + [top.value.waker];
      }
      if completedCount.value == index {
        state := Done;
        completedCount.value := completedCount.value + 1;
        completedCount.finished := completedCount.finished + [index];
        ready := true;
      } else {
        // not done yet: ask to be woken again
        wakers.Push(Entry(index, w));
        ready := false;
      }
    }
  }

  // ---- Building a batch ----

  /** 0, 1, ..., n - 1. */
  function Indices(n: nat): (r: seq<nat>)
    ensures |r| == n && forall k :: 0 <= k < n ==> r[k] == k
  {
    if n == 0 then [] else Indices(n - 1) + [n - 1]
  }

  /** Each of 0, ..., n - 1 occurs once in `Indices(n)`, and nothing else does. */
  lemma {:induction false} IndicesOnce(n: nat, i: nat)
    ensures multiset(Indices(n))[i] == if i < n then 1 else 0
  {
    if n > 0 {
      var m: nat := n - 1;
      IndicesOnce(m, i);
      assert multiset(Indices(n)) == multiset(Indices(m)) + multiset{m};
    }
  }

  /** `perm` lists 0, ..., n - 1 in some order: what the external shuffle
      yields (the bounds are spelled out so that `perm` can index a batch). */
  predicate IsPermutation(perm: seq<nat>, n: nat)
  {
    && |perm| == n
    && (forall k :: 0 <= k < n ==> perm[k] < n)
    && multiset(perm) == multiset(Indices(n))
  }

  /** `s` rearranged so that position k holds the element at `perm[k]`: the
      same elements, each as often as before. */
  function Shuffled<T>(s: seq<T>, perm: seq<nat>): (r: seq<T>)
    requires IsPermutation(perm, |s|)
    ensures |r| == |s| && forall k :: 0 <= k < |s| ==> r[k] == s[perm[k]]
    ensures multiset(r) == multiset(s)
  {
    GatherPermuted(s, perm, Indices(|s|));
    assert Gather(s, Indices(|s|)) == s;
    Gather(s, perm)
  }

  /** The elements of `s` at the positions `idx`, in that order. */
  function Gather<T>(s: seq<T>, idx: seq<nat>): seq<T>
    requires forall k :: 0 <= k < |idx| ==> idx[k] < |s|
  {
    seq(|idx|, k requires 0 <= k < |idx| => s[idx[k]])
  }

  /** Gathering the same positions in another order gathers the same elements. */
  lemma {:induction false} GatherPermuted<T>(s: seq<T>, a: seq<nat>, b: seq<nat>)
    requires forall k :: 0 <= k < |a| ==> a[k] < |s|
    requires forall k :: 0 <= k < |b| ==> b[k] < |s|
    requires multiset(a) == multiset(b)
    ensures multiset(Gather(s, a)) == multiset(Gather(s, b))
    decreases |a|
  {
    if a == [] {
      assert |multiset(b)| == 0;
    } else {
      var i, rest := DropMatching(a, b, |s|);
      GatherPermuted(s, a[..|a| - 1], rest);
      GatherLast(s, a, b, i, rest);
    }
  }

  /** A position of `b` that matches the last one of `a`, and `b` without it:
      what remains of `a` and of `b` are still equal as multisets. */
  lemma DropMatching(a: seq<nat>, b: seq<nat>, len: nat) returns (i: nat, rest: seq<nat>)
    requires a != [] && multiset(a) == multiset(b)
    requires forall k :: 0 <= k < |b| ==> b[k] < len
    ensures i < |b| && b[i] == a[|a| - 1]
    ensures rest == b[..i] + b[i + 1..]
    ensures forall k :: 0 <= k < |rest| ==> rest[k] < len
    ensures multiset(a[..|a| - 1]) == multiset(rest)
  {
    var n, j := |a| - 1, a[|a| - 1];
    assert j in multiset(b);
    i :| 0 <= i < |b| && b[i] == j;
    var pre, post := b[..i], b[i + 1..];
    rest := pre + post;
    assert a == a[..n] + [j];
    assert b == pre + [j] + post;
    assert multiset(a[..n]) + multiset{j} == multiset(pre + post) + multiset{j};
    CancelOne(multiset(a[..n]), multiset(pre + post), j);
    forall k | 0 <= k < |rest|
      ensures rest[k] < len
    {
      if k < i { assert rest[k] == b[k]; } else { assert rest[k] == b[k + 1]; }
    }
  }

  /** The step of `GatherPermuted`: gathering the last position of `a` and the
      matching position `i` of `b` adds the same element to both sides. */
  lemma GatherLast<T>(s: seq<T>, a: seq<nat>, b: seq<nat>, i: nat, rest: seq<nat>)
    requires forall k :: 0 <= k < |a| ==> a[k] < |s|
    requires forall k :: 0 <= k < |b| ==> b[k] < |s|
    requires a != [] && i < |b| && b[i] == a[|a| - 1] && rest == b[..i] + b[i + 1..]
    requires multiset(Gather(s, a[..|a| - 1])) == multiset(Gather(s, rest))
    ensures multiset(Gather(s, a)) == multiset(Gather(s, b))
  {
    var n, j := |a| - 1, b[i];
    GatherSplit(s, a[..n], j, []);
    GatherSplit(s, b[..i], j, b[i + 1..]);
    assert a == a[..n] + [j] + [];
    assert a[..n] + [] == a[..n];
    assert b == b[..i] + [j] + b[i + 1..];
  }

  /** Gathering with one more position `j` in the middle adds exactly `s[j]`. */
  lemma GatherSplit<T>(s: seq<T>, pre: seq<nat>, j: nat, post: seq<nat>)
    requires j < |s|
    requires forall k :: 0 <= k < |pre| ==> pre[k] < |s|
    requires forall k :: 0 <= k < |post| ==> post[k] < |s|
    ensures multiset(Gather(s, pre + [j] + post)) == multiset(Gather(s, pre + post)) + multiset{s[j]}
  {
    assert Gather(s, pre + [j] + post) == Gather(s, pre) + [s[j]] + Gather(s, post);
    assert Gather(s, pre + post) == Gather(s, pre) + Gather(s, post);
  }

  lemma CancelOne(x: multiset<nat>, y: multiset<nat>, j: nat)
    requires x + multiset{j} == y + multiset{j}
    ensures x == y
  {
    assert forall v :: x[v] == (x + multiset{j})[v] - multiset{j}[v];
  }

  /** The tasks 0, ..., len - 1 of a new batch, in index order, sharing one
      fresh empty heap and one fresh counter at zero. */
  method NewBatch(len: nat) returns (futures: seq<CountdownFuture>, wakers: WakerHeap, counter: CompletionCounter)
    ensures fresh(wakers) && fresh(counter)
    ensures wakers.entries == [] && wakers.woken == [] && counter.value == 0 && counter.Valid()
    ensures |futures| == len
    ensures forall k :: 0 <= k < len ==>
      && fresh(futures[k]) && futures[k].state == Init && futures[k].index == k && futures[k].maxCount == len
      && futures[k].wakers == wakers && futures[k].completedCount == counter
    ensures forall i, j :: 0 <= i < j < len ==> futures[i] != futures[j]
  {
    wakers := new WakerHeap();
    counter := new CompletionCounter();
    futures := [];
    var n := 0;
    while n < len
      invariant n <= len && |futures| == n
      invariant wakers.entries == [] && wakers.woken == [] && counter.value == 0 && counter.Valid()
      invariant forall k :: 0 <= k < n ==>
        && fresh(futures[k]) && futures[k].state == Init && futures[k].index == k && futures[k].maxCount == len
        && futures[k].wakers == wakers && futures[k].completedCount == counter
      invariant forall i, j :: 0 <= i < j < n ==> futures[i] != futures[j]
    {
      var f := new CountdownFuture(n, len, wakers, counter);
      futures := futures + [f];
      n := n + 1;
    }
  }

  /** A shuffled batch of `len` tasks as a sequence; `perm` is the order the
      shuffle picked. */
  method FuturesVec(len: nat, perm: seq<nat>) returns (futures: seq<CountdownFuture>)
    requires IsPermutation(perm, len)
    ensures |futures| == len
    ensures forall k :: 0 <= k < len ==>
      && fresh(futures[k]) && futures[k].state == Init && futures[k].index == perm[k] && futures[k].maxCount == len
      && fresh(futures[k].wakers) && futures[k].wakers.entries == [] && futures[k].wakers.woken == []
      && fresh(futures[k].completedCount) && futures[k].completedCount.value == 0 && futures[k].completedCount.Valid()
    ensures forall i, j :: 0 <= i < j < len ==>
      futures[i] != futures[j] && futures[i].wakers == futures[j].wakers && futures[i].completedCount == futures[j].completedCount
    ensures multiset(seq(len, k requires 0 <= k < len reads futures => futures[k].index)) == multiset(Indices(len))
  {
    var ordered, wakers, counter := NewBatch(len);
    futures := Shuffled(ordered, perm);
    assert forall i, j :: 0 <= i < j < len ==> perm[i] != perm[j] by {
      forall i, j | 0 <= i < j < len
        ensures perm[i] != perm[j]
      {
        PermutationDistinct(perm, len, i, j);
      }
    }
    assert seq(len, k requires 0 <= k < len reads futures => futures[k].index) == perm;
  }

  /** A shuffled batch of `n` tasks as a fixed-size array. */
  method FuturesArray(n: nat, perm: seq<nat>) returns (futures: array<CountdownFuture>)
    requires IsPermutation(perm, n)
    ensures fresh(futures) && futures.Length == n
    ensures forall k :: 0 <= k < n ==>
      && fresh(futures[k]) && futures[k].state == Init && futures[k].index == perm[k] && futures[k].maxCount == n
      && fresh(futures[k].wakers) && futures[k].wakers.entries == [] && futures[k].wakers.woken == []
      && fresh(futures[k].completedCount) && futures[k].completedCount.value == 0 && futures[k].completedCount.Valid()
    ensures forall i, j :: 0 <= i < j < n ==>
      futures[i] != futures[j] && futures[i].wakers == futures[j].wakers && futures[i].completedCount == futures[j].completedCount
  {
    var s := FuturesVec(n, perm);
    futures := new CountdownFuture[n](k requires 0 <= k < n => s[k]);
  }

  /** Distinct positions of a permutation hold distinct indices. */
  lemma PermutationDistinct(perm: seq<nat>, n: nat, i: nat, j: nat)
    requires IsPermutation(perm, n)
    requires i < j < |perm|
    ensures perm[i] != perm[j]
  {
    if perm[i] == perm[j] {
      var x := perm[i];
      assert perm == perm[..i] + [x] + perm[i + 1..j] + [x] + perm[j + 1..];
      assert multiset(perm)[x] >= 2;
      IndicesOnce(n, x);
    }
  }
}
