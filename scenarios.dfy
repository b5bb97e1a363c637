/** Concrete runs of small batches, polled in a fixed order. */
module Scenarios {
  import opened WakeHeap
  import opened Countdown
  import opened Batch

  /** Three futures polled in the order 2, 1, 0, 1, 2, with wakers a, b and c
      for the indices 0, 1 and 2, each pop taking the lowest-index entry. The
      last of the first polls takes the fast path and wakes future 1; each
      later poll wakes the next, and the futures finish in the order 0, 1, 2.
      Had the heap popped future 2's entry instead, the fast-path poll would
      have woken c and still completed future 0. */
  lemma ThreeFutures(a: WakerId, b: WakerId, c: WakerId)
    ensures IsPermutation([0, 1, 2], 3)
    ensures var w0 := Initial([0, 1, 2], 3);
      var w1 := PollAt(w0, Call(2, c, 0));
      var w2 := PollAt(w1, Call(1, b, 0));
      var w3 := PollAt(w2, Call(0, a, 1));
      var w4 := PollAt(w3, Call(1, b, 0));
      var w5 := PollAt(w4, Call(2, c, 0));
      && [EffectAt(w0, Call(2, c, 0)).ready, EffectAt(w1, Call(1, b, 0)).ready, EffectAt(w2, Call(0, a, 1)).ready,
          EffectAt(w3, Call(1, b, 0)).ready, EffectAt(w4, Call(2, c, 0)).ready] == [false, false, true, true, true]
      && [Lowest(w1.heap), Lowest(w2.heap), Lowest(w3.heap)] == [0, 1, 0]
      && w2 == World([Task(Init, 0, 3), Task(Polled, 1, 3), Task(Polled, 2, 3)], [Entry(2, c), Entry(1, b)], 0, [], [])
      && w3 == World([Task(Done, 0, 3), Task(Polled, 1, 3), Task(Polled, 2, 3)], [Entry(2, c)], 1, [b], [0])
      && w5 == World([Task(Done, 0, 3), Task(Done, 1, 3), Task(Done, 2, 3)], [], 3, [b, c], [0, 1, 2])
      && PollAt(w2, Call(0, a, 0)) == World([Task(Done, 0, 3), Task(Polled, 1, 3), Task(Polled, 2, 3)], [Entry(1, b)], 1, [c], [0])
  {
    assert Indices(3) == [0, 1, 2];
    var w0 := Initial([0, 1, 2], 3);
    InitialThree(w0);
    FirstPollOfTwo(w0, c);
    var w1 := PollAt(w0, Call(2, c, 0));
    FirstPollOfOne(w1, b, c);
    var w2 := PollAt(w1, Call(1, b, 0));
    FastPathOfZero(w2, a, b, c);
    var w3 := PollAt(w2, Call(0, a, 1));
    SecondPollOfOne(w3, b, c);
    var w4 := PollAt(w3, Call(1, b, 0));
    SecondPollOfTwo(w4, b, c);
  }

  // The batch and the five polls of `ThreeFutures`, one lemma each.

  lemma InitialThree(w0: World)
    requires IsPermutation([0, 1, 2], 3) && w0 == Initial([0, 1, 2], 3)
    ensures w0 == World([Task(Init, 0, 3), Task(Init, 1, 3), Task(Init, 2, 3)], [], 0, [], [])
  {
  }

  lemma FirstPollOfTwo(w0: World, c: WakerId)
    requires w0 == World([Task(Init, 0, 3), Task(Init, 1, 3), Task(Init, 2, 3)], [], 0, [], [])
    ensures !EffectAt(w0, Call(2, c, 0)).ready
    ensures PollAt(w0, Call(2, c, 0)) == World([Task(Init, 0, 3), Task(Init, 1, 3), Task(Polled, 2, 3)], [Entry(2, c)], 0, [], [])
  {
  }

  lemma FirstPollOfOne(w1: World, b: WakerId, c: WakerId)
    requires w1 == World([Task(Init, 0, 3), Task(Init, 1, 3), Task(Polled, 2, 3)], [Entry(2, c)], 0, [], [])
    ensures !EffectAt(w1, Call(1, b, 0)).ready && Lowest(w1.heap) == 0
    ensures PollAt(w1, Call(1, b, 0)) == World([Task(Init, 0, 3), Task(Polled, 1, 3), Task(Polled, 2, 3)], [Entry(2, c), Entry(1, b)], 0, [], [])
  {
  }

  /** The fast-path poll of future 0, popping the lowest-index entry. */
  lemma FastPathOfZero(w2: World, a: WakerId, b: WakerId, c: WakerId)
    requires w2 == World([Task(Init, 0, 3), Task(Polled, 1, 3), Task(Polled, 2, 3)], [Entry(2, c), Entry(1, b)], 0, [], [])
    ensures EffectAt(w2, Call(0, a, 1)).ready && Lowest(w2.heap) == 1
    ensures PollAt(w2, Call(0, a, 1)) == World([Task(Done, 0, 3), Task(Polled, 1, 3), Task(Polled, 2, 3)], [Entry(2, c)], 1, [b], [0])
    ensures PollAt(w2, Call(0, a, 0)) == World([Task(Done, 0, 3), Task(Polled, 1, 3), Task(Polled, 2, 3)], [Entry(1, b)], 1, [c], [0])
  {
    var h := [Entry(2, c), Entry(1, b)];
    assert MinPos(h) == 1;
    assert h[..1] + h[2..] == [Entry(2, c)];
    assert EffectAt(w2, Call(0, a, 1)) == Effect(Done, [Entry(2, c)], 1, Some(b), true);
    FastPathOfZeroOtherPick(w2, a, b, c);
  }

  /** The same poll, popping future 2's entry instead. */
  lemma FastPathOfZeroOtherPick(w2: World, a: WakerId, b: WakerId, c: WakerId)
    requires w2 == World([Task(Init, 0, 3), Task(Polled, 1, 3), Task(Polled, 2, 3)], [Entry(2, c), Entry(1, b)], 0, [], [])
    ensures PollAt(w2, Call(0, a, 0)) == World([Task(Done, 0, 3), Task(Polled, 1, 3), Task(Polled, 2, 3)], [Entry(1, b)], 1, [c], [0])
  {
    var h := [Entry(2, c), Entry(1, b)];
    assert h[..0] + h[1..] == [Entry(1, b)];
    assert EffectAt(w2, Call(0, a, 0)) == Effect(Done, [Entry(1, b)], 1, Some(c), true);
  }

  lemma SecondPollOfOne(w3: World, b: WakerId, c: WakerId)
    requires w3 == World([Task(Done, 0, 3), Task(Polled, 1, 3), Task(Polled, 2, 3)], [Entry(2, c)], 1, [b], [0])
    ensures EffectAt(w3, Call(1, b, 0)).ready && Lowest(w3.heap) == 0
    ensures PollAt(w3, Call(1, b, 0)) == World([Task(Done, 0, 3), Task(Done, 1, 3), Task(Polled, 2, 3)], [], 2, [b, c], [0, 1])
  {
  }

  lemma SecondPollOfTwo(w4: World, b: WakerId, c: WakerId)
    requires w4 == World([Task(Done, 0, 3), Task(Done, 1, 3), Task(Polled, 2, 3)], [], 2, [b, c], [0, 1])
    ensures EffectAt(w4, Call(2, c, 0)).ready
    ensures PollAt(w4, Call(2, c, 0)) == World([Task(Done, 0, 3), Task(Done, 1, 3), Task(Done, 2, 3)], [], 3, [b, c], [0, 1, 2])
  {
  }

  /** Two entries of one index can wait in the heap together: polls of
      futures 1, 1, 2, 2 of a batch of three, each pop taking the
      lowest-index entry, leave future 2's entry in the heap twice. */
  lemma TwoEntriesOfOneIndex(b: WakerId, c: WakerId)
    ensures IsPermutation([0, 1, 2], 3)
    ensures var w0 := Initial([0, 1, 2], 3);
      var w1 := PollAt(w0, Call(1, b, 0));
      var w2 := PollAt(w1, Call(1, b, 0));
      var w3 := PollAt(w2, Call(2, c, 0));
      var w4 := PollAt(w3, Call(2, c, 0));
      && [Lowest(w1.heap), Lowest(w3.heap)] == [0, 0]
      && w4 == World([Task(Init, 0, 3), Task(Polled, 1, 3), Task(Polled, 2, 3)], [Entry(2, c), Entry(2, c)], 0, [b, b], [])
  {
    assert Indices(3) == [0, 1, 2];
    var w0 := Initial([0, 1, 2], 3);
    InitialThree(w0);
    var w2 := World([Task(Init, 0, 3), Task(Polled, 1, 3), Task(Init, 2, 3)], [Entry(1, b)], 0, [b], []);
    OneRegistersTwice(w0, b);
    TwoRegisters(w2, b, c);
    var w3 := PollAt(w2, Call(2, c, 0));
    TwoRegistersAgain(w3, b, c);
  }

  lemma OneRegistersTwice(w0: World, b: WakerId)
    requires w0 == World([Task(Init, 0, 3), Task(Init, 1, 3), Task(Init, 2, 3)], [], 0, [], [])
    ensures var w1 := PollAt(w0, Call(1, b, 0));
      && w1 == World([Task(Init, 0, 3), Task(Polled, 1, 3), Task(Init, 2, 3)], [Entry(1, b)], 0, [], [])
      && Lowest(w1.heap) == 0
      && PollAt(w1, Call(1, b, 0)) == World([Task(Init, 0, 3), Task(Polled, 1, 3), Task(Init, 2, 3)], [Entry(1, b)], 0, [b], [])
  {
  }

  lemma TwoRegisters(w2: World, b: WakerId, c: WakerId)
    requires w2 == World([Task(Init, 0, 3), Task(Polled, 1, 3), Task(Init, 2, 3)], [Entry(1, b)], 0, [b], [])
    ensures PollAt(w2, Call(2, c, 0)) == World([Task(Init, 0, 3), Task(Polled, 1, 3), Task(Polled, 2, 3)], [Entry(1, b), Entry(2, c)], 0, [b], [])
  {
  }

  /** The fast path: future 2 pops future 1's entry and pushes its own again. */
  lemma TwoRegistersAgain(w3: World, b: WakerId, c: WakerId)
    requires w3 == World([Task(Init, 0, 3), Task(Polled, 1, 3), Task(Polled, 2, 3)], [Entry(1, b), Entry(2, c)], 0, [b], [])
    ensures Lowest(w3.heap) == 0
    ensures PollAt(w3, Call(2, c, 0)) == World([Task(Init, 0, 3), Task(Polled, 1, 3), Task(Polled, 2, 3)], [Entry(2, c), Entry(2, c)], 0, [b, b], [])
  {
    var h := [Entry(1, b), Entry(2, c)];
    assert h[..0] + h[1..] == [Entry(2, c)];
    assert EffectAt(w3, Call(2, c, 0)) == Effect(Polled, [Entry(2, c), Entry(2, c)], 0, Some(b), false);
  }

  /** A batch of one: its only future takes the fast path on its first poll
      and is ready at once, whatever the pick. */
  lemma SingleFutureReadyOnFirstPoll(w: WakerId, p: nat)
    ensures IsPermutation([0], 1)
    ensures Replies(Initial([0], 1), [Call(0, w, p)]) == [true]
    ensures Run(Initial([0], 1), [Call(0, w, p)]) == World([Task(Done, 0, 1)], [], 1, [], [0])
  {
    assert Indices(1) == [0];
  }

  /** Polling a finished future again is not always ready: in a batch of one
      the fast path fires on an empty heap, the future falls back to the
      polled state, registers its waker and reports pending. */
  lemma DoneFutureForcedBack(w: WakerId, w': WakerId, p: nat, q: nat)
    ensures IsPermutation([0], 1)
    ensures Replies(Initial([0], 1), [Call(0, w, p), Call(0, w', q)]) == [true, false]
    ensures Run(Initial([0], 1), [Call(0, w, p), Call(0, w', q)]) == World([Task(Polled, 0, 1)], [Entry(0, w')], 1, [], [0])
  {
    assert Indices(1) == [0];
    var w1 := PollAt(Initial([0], 1), Call(0, w, p));
    assert w1 == World([Task(Done, 0, 1)], [], 1, [], [0]);
    var w2 := PollAt(w1, Call(0, w', q));
    assert w2 == World([Task(Polled, 0, 1)], [Entry(0, w')], 1, [], [0]);
    assert Run(w1, [Call(0, w', q)]) == Run(w2, []);
  }
}
