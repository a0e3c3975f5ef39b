/**
 The division of the flat transaction list into one contiguous slice per thread.
 */
module FdbSlices {
  import opened Ledger

  datatype Slice = Slice(start: nat, end: nat)

  /** The slices are non-empty, meet end to start, and cover 0 to `n`. */
  predicate Partition(slices: seq<Slice>, n: nat) {
    && (forall t :: 0 <= t < |slices| ==> slices[t].start < slices[t].end)
    && (forall t :: 0 <= t < |slices| - 1 ==> slices[t].end == slices[t + 1].start)
    && (if slices == [] then n == 0 else slices[0].start == 0 && slices[|slices| - 1].end == n)
  }

  lemma {:induction false} SlicesOrdered(slices: seq<Slice>, n: nat, t: nat, u: nat)
    requires Partition(slices, n) && t < u < |slices|
    ensures slices[t].end <= slices[u].start
  {
    if t < u - 1 {
      SlicesOrdered(slices, n, t, u - 1);
    }
  }

  lemma {:induction false} SliceStarts(slices: seq<Slice>, n: nat, t: nat)
    requires Partition(slices, n) && t < |slices|
    ensures slices[t].end <= n
  {
    if t < |slices| - 1 {
      SlicesOrdered(slices, n, t, |slices| - 1);
    }
  }

  /** No index lies in two slices. */
  lemma SlicesDisjoint(slices: seq<Slice>, n: nat, t: nat, u: nat, i: nat)
    requires Partition(slices, n) && t < |slices| && u < |slices|
    requires slices[t].start <= i < slices[t].end && slices[u].start <= i < slices[u].end
    ensures t == u
  {
    if t < u {
      SlicesOrdered(slices, n, t, u);
    } else if u < t {
      SlicesOrdered(slices, n, u, t);
    }
  }

  /** Every index lies in a slice. */
  lemma {:induction false} SlicesCover(slices: seq<Slice>, n: nat, i: nat, u: nat) returns (t: nat)
    requires Partition(slices, n) && u < |slices| && i < slices[u].end
    ensures t <= u && slices[t].start <= i < slices[t].end
  {
    if slices[u].start <= i {
      t := u;
    } else {
      t := SlicesCover(slices, n, i, u - 1);
    }
  }

  function Joined(txs: seq<Transaction>, slices: seq<Slice>): seq<Transaction>
    requires forall t :: 0 <= t < |slices| ==> slices[t].start <= slices[t].end <= |txs|
  {
    if slices == [] then []
    else
      var last := slices[|slices| - 1];
      Joined(txs, slices[..|slices| - 1]) + txs[last.start..last.end]
  }

  /** The slices in thread order are the list again, with no gap and no overlap. */
  lemma {:induction false} SlicesJoin(txs: seq<Transaction>, slices: seq<Slice>, n: nat)
    requires Partition(slices, n) && n <= |txs|
    ensures forall t :: 0 <= t < |slices| ==> slices[t].start <= slices[t].end <= |txs|
    ensures Joined(txs, slices) == txs[..n]
  {
    forall t | 0 <= t < |slices|
      ensures slices[t].end <= n
    {
      SliceStarts(slices, n, t);
    }
    if slices != [] {
      var front, last := slices[..|slices| - 1], slices[|slices| - 1];
      SlicesJoin(txs, front, last.start);
      assert txs[..last.start] + txs[last.start..last.end] == txs[..last.end];
    }
  }

  lemma CeilingCovers(n: nat, numThreads: nat)
    requires numThreads >= 1
    ensures numThreads * ((n + numThreads - 1) / numThreads) >= n
    ensures n > 0 ==> (n + numThreads - 1) / numThreads > 0
  {
    var q := (n + numThreads - 1) / numThreads;
    assert q * numThreads + (n + numThreads - 1) % numThreads == n + numThreads - 1;
  }

  /** Every slice is full, except possibly the last. */
  predicate Sized(slices: seq<Slice>, perThread: nat) {
    forall t :: 0 <= t < |slices| ==>
      slices[t].end - slices[t].start <= perThread
      && (t < |slices| - 1 ==> slices[t].end - slices[t].start == perThread)
  }

  /** Where the slice of a thread starts: that many slices further on. */
  function StartIndex(thread: nat, perThread: nat): nat {
    if thread == 0 then 0 else StartIndex(thread - 1, perThread) + perThread
  }

  lemma {:induction false} StartIndexIsProduct(thread: nat, perThread: nat)
    ensures StartIndex(thread, perThread) == thread * perThread
  {
    if thread != 0 {
      StartIndexIsProduct(thread - 1, perThread);
      assert thread * perThread == (thread - 1) * perThread + perThread;
    }
  }

  predicate Full(slices: seq<Slice>, perThread: nat) {
    forall t :: 0 <= t < |slices| ==> slices[t].end - slices[t].start == perThread
  }

  lemma OneMoreSlice(slices: seq<Slice>, next: Slice, perThread: nat)
    requires Partition(slices, next.start) && next.start < next.end <= next.start + perThread && Full(slices, perThread)
    ensures Partition(slices + [next], next.end) && Sized(slices + [next], perThread)
    ensures next.end == next.start + perThread ==> Full(slices + [next], perThread)
  {
    var all := slices + [next];
    forall t | 0 <= t < |all| - 1
      ensures all[t].end == all[t + 1].start
    {
      assert all[t] == slices[t];
    }
  }

  /** One slice per thread, stopping early when the list runs out. */
  method DivideBy(n: nat, numThreads: nat, perThread: nat) returns (slices: seq<Slice>)
    requires numThreads >= 1 && StartIndex(numThreads, perThread) >= n && (n > 0 ==> perThread > 0)
    ensures Partition(slices, n) && |slices| <= numThreads && Sized(slices, perThread)
  {
    slices := [];
    for thread := 0 to numThreads
      invariant |slices| == thread && Sized(slices, perThread)
      invariant Partition(slices, if StartIndex(thread, perThread) < n then StartIndex(thread, perThread) else n)
      invariant StartIndex(thread, perThread) < n ==> Full(slices, perThread)
    {
      var start := StartIndex(thread, perThread);
      var end := if start + perThread < n then start + perThread else n;
      if start >= n {
        break;
      }
      OneMoreSlice(slices, Slice(start, end), perThread);
      slices := slices + [Slice(start, end)];
    }
  }

  /** The division the executor makes: ceiling of the length over the number of threads. */
  method Divide(n: nat, numThreads: nat) returns (slices: seq<Slice>)
    requires numThreads >= 1
    ensures Partition(slices, n) && |slices| <= numThreads && Sized(slices, (n + numThreads - 1) / numThreads)
  {
    var perThread := (n + numThreads - 1) / numThreads;
    CeilingCovers(n, numThreads);
    StartIndexIsProduct(numThreads, perThread);
    slices := DivideBy(n, numThreads, perThread);
  }
}
