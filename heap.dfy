/** The shared wake heap: a collection of (task index, waker) entries. A pop
    may take the entry at any position (`PopAt`), as whatever order the heap
    keeps selects; the class pops the lowest task index first (`PopMin`). */
module WakeHeap {

  datatype Option<T> = None | Some(value: T)

  /** An executor-supplied waker, seen only through its identity. */
  type WakerId = nat

  /** A prioritized waker: the index of the task that registered it and the
      waker to call. Entries are ordered by index alone. */
  datatype Entry = Entry(index: nat, waker: WakerId)

  /** The wakers of a wake log entry: one id for a wake, none otherwise. */
  function WakeLog(woken: Option<WakerId>): seq<WakerId>
  {
    match woken
    case None => []
    case Some(w) => [w]
  }

  /** Position of the entry that pops next: the first one whose index is minimal. */
  function MinPos(h: seq<Entry>): (r: nat)
    requires |h| > 0
    ensures r < |h|
    ensures forall j :: 0 <= j < |h| ==> h[r].index <= h[j].index
    ensures forall j :: 0 <= j < r ==> h[r].index < h[j].index
  {
    if |h| == 1 then 0
    else
      var m := 1 + MinPos(h[1..]);
      if h[0].index <= h[m].index then 0 else m
  }

  /** Pop of the entry at position `k`, whichever entry the heap's order
      selects: that entry (if any) and what remains. */
  function PopAt(h: seq<Entry>, k: nat): (r: (Option<Entry>, seq<Entry>))
    requires h == [] || k < |h|
    ensures r.0.None? <==> h == []
    ensures r.0.None? ==> r.1 == []
    ensures r.0.Some? ==> r.0.value == h[k] && |r.1| == |h| - 1
    ensures r.0.Some? ==> multiset(r.1) + multiset{r.0.value} == multiset(h)
  {
    if h == [] then (None, [])
    else
      assert h == h[..k] + [h[k]] + h[k + 1..];
      (Some(h[k]), h[..k] + h[k + 1..])
  }

  /** The position this model's heap pops from: the first entry of lowest index. */
  function Lowest(h: seq<Entry>): (k: nat)
    ensures h == [] || k < |h|
  {
    if h == [] then 0 else MinPos(h)
  }

  /** Pop of the heap under a lowest-index-first order: the lowest-index entry
      (if any) and what remains. */
  function PopMin(h: seq<Entry>): (r: (Option<Entry>, seq<Entry>))
    ensures r.0.None? <==> h == []
    ensures r.0.None? ==> r.1 == []
    ensures r.0.Some? ==> r.0.value in h && |r.1| == |h| - 1
    ensures r.0.Some? ==> forall e :: e in h ==> r.0.value.index <= e.index
    ensures r.0.Some? ==> multiset(r.1) + multiset{r.0.value} == multiset(h)
  {
    PopAt(h, Lowest(h))
  }

  /** The heap shared by every task of a batch. */
  class WakerHeap {
    var entries: seq<Entry>
    /** Every waker taken from this heap and woken, in order. */
    ghost var woken: seq<WakerId>

    constructor ()
      ensures entries == [] && woken == []
    {
      entries := [];
      woken := [];
    }

    method Push(e: Entry)
      modifies this
      ensures entries == old(entries) + [e]
      ensures woken == old(woken)
    {
      entries := entries + [e];
    }

    /** Removes the lowest-index entry, if there is one. */
    method Pop() returns (e: Option<Entry>)
      modifies this
      ensures (e, entries) == PopMin(old(entries))
      ensures woken == old(woken)
    {
      var r := PopMin(entries);
      e, entries := r.0, r.1;
    }
  }
}
