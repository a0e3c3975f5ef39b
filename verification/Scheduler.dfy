/**
 The scheduler: a status per transaction, a queue of transactions ready to execute, and a commit
 frontier that moves over executed transactions in index order.
 */
module Scheduling {

  datatype Status = Pending | Executing(incarnation: nat) | Executed(incarnation: nat) | Committed

  datatype Task = Execute(txnIdx: nat, incarnation: nat) | Wait | Done

  /** An entry of the ready queue. */
  datatype Ready = Ready(txnIdx: nat, incarnation: nat)

  /** The value of a scheduler. */
  datatype Sched = Sched(statuses: seq<Status>, queue: seq<Ready>, committedIdx: nat, executedOnce: nat, done: bool) {
    /** What indexing the status vector demands of every queue entry. */
    predicate InRange() {
      && committedIdx <= |statuses|
      && forall p :: 0 <= p < |queue| ==> queue[p].txnIdx < |statuses|
    }
  }

  // ---------------------------------------------------------------------------------------------
  // Operations on values
  // ---------------------------------------------------------------------------------------------

  function InitialQueue(n: nat): (queue: seq<Ready>) {
    seq(n, i requires 0 <= i < n => Ready(i, 0))
  }

  function Initial(n: nat): Sched {
    Sched(seq(n, _ => Pending), InitialQueue(n), 0, 0, false)
  }

  /** Takes the entry at position `k` off the queue and marks its transaction as executing. */
  function PopAt(s: Sched, k: nat): Sched
    requires s.InRange() && k < |s.queue|
  {
    var entry := s.queue[k];
    s.(statuses := s.statuses[entry.txnIdx := Executing(entry.incarnation)],
       queue := s.queue[..k] + s.queue[k + 1..])
  }

  function NextTask(s: Sched): (Sched, Task)
    requires s.InRange()
  {
    if s.done then (s, Done)
    else if s.queue != [] then (PopAt(s, 0), Execute(s.queue[0].txnIdx, s.queue[0].incarnation))
    else if s.committedIdx >= |s.statuses| then (s.(done := true), Done)
    else (s, Wait)
  }

  /** A worker gets the front of the queue, which then is its transaction's to execute; the rest stays in order. */
  lemma FrontIsHandedOut(s: Sched, j: nat)
    requires s.InRange() && !s.done && s.queue != [] && j < |s.statuses|
    ensures var (after, task) := NextTask(s);
      && task.Execute? && Ready(task.txnIdx, task.incarnation) == s.queue[0] && after.queue == s.queue[1..]
      && |after.statuses| == |s.statuses|
      && after.statuses[j] == (if j == task.txnIdx then Executing(task.incarnation) else s.statuses[j])
      && after.committedIdx == s.committedIdx && !after.done
  {
  }

  predicate Abortable(status: Status) {
    status.Executing? || status.Executed?
  }

  function Abort(s: Sched, i: nat): Sched
    requires i < |s.statuses|
  {
    if Abortable(s.statuses[i])
    then s.(statuses := s.statuses[i := Pending],
            queue := s.queue + [Ready(i, s.statuses[i].incarnation + 1)])
    else s
  }

  /** The number of queue entries for transaction `i`. */
  function Count(queue: seq<Ready>, i: nat): nat {
    if queue == [] then 0
    else Count(queue[..|queue| - 1], i) + if queue[|queue| - 1].txnIdx == i then 1 else 0
  }

  predicate AllBelow(list: seq<nat>, n: nat) {
    forall k :: 0 <= k < |list| ==> list[k] < n
  }

  predicate Aborts(s: Sched, list: seq<nat>, j: nat)
    requires j < |s.statuses|
  {
    j in list && Abortable(s.statuses[j])
  }

  lemma AbortEffect(s: Sched, i: nat, j: nat)
    requires i < |s.statuses| && j < |s.statuses|
    ensures var r, hit := Abort(s, i), Aborts(s, [i], j);
      && r.statuses[j] == (if hit then Pending else s.statuses[j])
      && Count(r.queue, j) == Count(s.queue, j) + if hit then 1 else 0
  {
    if Abortable(s.statuses[i]) {
      assert Abort(s, i).queue[..|s.queue|] == s.queue;
    }
  }

  /**
   Aborting a list resets exactly the listed transactions that are executing or executed, and queues
   each of them once, with the next incarnation.
   */
  ghost predicate AbortedBy(s: Sched, list: seq<nat>, r: Sched) {
    && r == s.(statuses := r.statuses, queue := r.queue) && |r.statuses| == |s.statuses|
    && (forall j :: 0 <= j < |s.statuses| ==>
          r.statuses[j] == if Aborts(s, list, j) then Pending else s.statuses[j])
    && (forall j :: 0 <= j < |s.statuses| ==>
          Count(r.queue, j) == Count(s.queue, j) + if Aborts(s, list, j) then 1 else 0)
    && forall e :: e in r.queue ==>
         e in s.queue || (e.txnIdx < |s.statuses| && Aborts(s, list, e.txnIdx)
                          && e.incarnation == s.statuses[e.txnIdx].incarnation + 1)
  }

  lemma AbortOneMore(s: Sched, front: seq<nat>, i: nat, before: Sched)
    requires AbortedBy(s, front, before) && i < |s.statuses|
    ensures AbortedBy(s, front + [i], Abort(before, i))
  {
    var r := Abort(before, i);
    forall j | 0 <= j < |s.statuses|
      ensures r.statuses[j] == if Aborts(s, front + [i], j) then Pending else s.statuses[j]
      ensures Count(r.queue, j) == Count(s.queue, j) + if Aborts(s, front + [i], j) then 1 else 0
    {
      AbortEffect(before, i, j);
    }
  }

  function AbortAll(s: Sched, list: seq<nat>): (r: Sched)
    requires AllBelow(list, |s.statuses|)
    ensures AbortedBy(s, list, r)
  {
    if list == [] then s
    else
      var front, last := list[..|list| - 1], list[|list| - 1];
      AbortOneMore(s, front, last, AbortAll(s, front));
      assert list == front + [last];
      Abort(AbortAll(s, front), last)
  }

  /** `i` occurs in the list before any `j` does. */
  predicate StandsBefore(list: seq<nat>, i: nat, j: nat) {
    exists x :: 0 <= x < |list| && list[x] == i && j !in list[..x + 1]
  }

  /** The queue kept its entries and got new ones behind them, for members of the list in its order. */
  ghost predicate QueuedInOrder(list: seq<nat>, before: seq<Ready>, after: seq<Ready>) {
    && before <= after
    && (forall p :: |before| <= p < |after| ==> after[p].txnIdx in list)
    && forall p, q :: |before| <= p < q < |after| ==> StandsBefore(list, after[p].txnIdx, after[q].txnIdx)
  }

  lemma StandsBeforeLonger(front: seq<nat>, last: nat, i: nat, j: nat)
    requires StandsBefore(front, i, j) || (i in front && j == last && last !in front)
    ensures StandsBefore(front + [last], i, j)
  {
    var x :| 0 <= x < |front| && front[x] == i && j !in front[..x + 1];
    assert (front + [last])[x] == i && (front + [last])[..x + 1] == front[..x + 1];
  }

  lemma AbortKeepsOrder(s: Sched, front: seq<nat>, i: nat, before: Sched)
    requires AbortedBy(s, front, before) && i < |s.statuses| && QueuedInOrder(front, s.queue, before.queue)
    ensures QueuedInOrder(front + [i], s.queue, Abort(before, i).queue)
  {
    var after := Abort(before, i).queue;
    assert Abortable(before.statuses[i]) ==> i !in front;
    forall p | |s.queue| <= p < |after|
      ensures after[p].txnIdx in front + [i]
    {
      assert p < |before.queue| ==> after[p] == before.queue[p];
    }
    forall p, q | |s.queue| <= p < q < |after|
      ensures StandsBefore(front + [i], after[p].txnIdx, after[q].txnIdx)
    {
      assert after[p] == before.queue[p];
      StandsBeforeLonger(front, i, after[p].txnIdx, after[q].txnIdx);
    }
  }

  /** Aborted transactions are queued behind all others, in the order in which the list first names them. */
  lemma {:induction false} AbortAllInOrder(s: Sched, list: seq<nat>)
    requires AllBelow(list, |s.statuses|)
    ensures QueuedInOrder(list, s.queue, AbortAll(s, list).queue)
  {
    if list != [] {
      var front, last := list[..|list| - 1], list[|list| - 1];
      AbortAllInOrder(s, front);
      assert list == front + [last];
      AbortKeepsOrder(s, front, last, AbortAll(s, front));
    }
  }

  function MarkExecuted(s: Sched, i: nat, incarnation: nat): Sched
    requires i < |s.statuses|
  {
    s.(statuses := s.statuses[i := Executed(incarnation)],
       executedOnce := if incarnation == 0 then s.executedOnce + 1 else s.executedOnce)
  }

  /** Moves the frontier over executed transactions until one is not executed. */
  function TryCommit(s: Sched): (r: Sched)
    requires s.committedIdx <= |s.statuses|
    ensures s.committedIdx <= r.committedIdx <= |s.statuses| == |r.statuses|
    ensures r.queue == s.queue && r.executedOnce == s.executedOnce
    ensures r.done == (s.done || r.committedIdx == |s.statuses|)
    ensures forall j :: 0 <= j < |s.statuses| ==>
      r.statuses[j] == if s.committedIdx <= j < r.committedIdx then Committed else s.statuses[j]
    ensures forall j :: s.committedIdx <= j < r.committedIdx ==> s.statuses[j].Executed?
    ensures r.committedIdx < |s.statuses| ==> !r.statuses[r.committedIdx].Executed?
    decreases |s.statuses| - s.committedIdx
  {
    if s.committedIdx < |s.statuses| && s.statuses[s.committedIdx].Executed? then
      var next := s.(statuses := s.statuses[s.committedIdx := Committed], committedIdx := s.committedIdx + 1);
      var r := TryCommit(next);
      assert forall j :: s.committedIdx < j < r.committedIdx ==> next.statuses[j] == s.statuses[j];
      r
    else if s.committedIdx >= |s.statuses| then s.(done := true)
    else s
  }

  /** Committing the transaction at the frontier first makes no difference to where the frontier ends up. */
  lemma CommitOne(s: Sched)
    requires s.committedIdx < |s.statuses| && s.statuses[s.committedIdx].Executed?
    ensures TryCommit(s)
      == TryCommit(s.(statuses := s.statuses[s.committedIdx := Committed], committedIdx := s.committedIdx + 1))
  {
  }

  function Finish(s: Sched, i: nat, incarnation: nat, invalidated: seq<nat>): Sched
    requires s.committedIdx <= |s.statuses| && i < |s.statuses|
    requires AllBelow(invalidated, |s.statuses|)
  {
    TryCommit(AbortAll(MarkExecuted(s, i, incarnation), invalidated))
  }

  /**
   Finishing leaves the queue as it was and adds behind it one entry for each listed transaction that was
   executing or executed, in the order in which the list first names them, with the next incarnation.
   */
  lemma FinishQueuesInOrder(s: Sched, i: nat, incarnation: nat, list: seq<nat>)
    requires s.committedIdx <= |s.statuses| && i < |s.statuses| && AllBelow(list, |s.statuses|)
    requires i !in list
    ensures var after := Finish(s, i, incarnation, list).queue;
      && QueuedInOrder(list, s.queue, after)
      && (forall j :: 0 <= j < |s.statuses| ==>
            Count(after, j) == Count(s.queue, j) + if j in list && Abortable(s.statuses[j]) then 1 else 0)
      && (forall e :: e in after ==>
            e in s.queue || (e.txnIdx in list && e.txnIdx < |s.statuses| && Abortable(s.statuses[e.txnIdx])
                             && e.incarnation == s.statuses[e.txnIdx].incarnation + 1))
  {
    AbortAllInOrder(MarkExecuted(s, i, incarnation), list);
  }

  // ---------------------------------------------------------------------------------------------
  // Counting queue entries
  // ---------------------------------------------------------------------------------------------

  lemma {:induction false} CountConcat(xs: seq<Ready>, ys: seq<Ready>, i: nat)
    ensures Count(xs + ys, i) == Count(xs, i) + Count(ys, i)
  {
    if ys == [] {
      assert xs + ys == xs;
    } else {
      assert (xs + ys)[..|xs + ys| - 1] == xs + ys[..|ys| - 1];
      CountConcat(xs, ys[..|ys| - 1], i);
    }
  }

  /** Taking an entry off the queue lowers the count of its transaction by one and of no other. */
  lemma CountPop(queue: seq<Ready>, k: nat, i: nat)
    requires k < |queue|
    ensures Count(queue, i) == Count(queue[..k] + queue[k + 1..], i) + if queue[k].txnIdx == i then 1 else 0
  {
    assert queue == queue[..k] + ([queue[k]] + queue[k + 1..]);
    CountConcat(queue[..k], [queue[k]] + queue[k + 1..], i);
    CountConcat([queue[k]], queue[k + 1..], i);
    CountConcat(queue[..k], queue[k + 1..], i);
    assert Count([queue[k]], i) == if queue[k].txnIdx == i then 1 else 0;
  }

  lemma {:induction false} CountPositive(queue: seq<Ready>, i: nat)
    ensures Count(queue, i) > 0 <==> exists e :: e in queue && e.txnIdx == i
  {
    if queue != [] {
      var front, last := queue[..|queue| - 1], queue[|queue| - 1];
      assert queue == front + [last];
      CountPositive(front, i);
    }
  }

  lemma {:induction false} CountInitial(n: nat, i: nat)
    ensures Count(InitialQueue(n), i) == if i < n then 1 else 0
  {
    if n != 0 {
      assert InitialQueue(n)[..n - 1] == InitialQueue(n - 1);
      CountInitial(n - 1, i);
    }
  }

  // ---------------------------------------------------------------------------------------------
  // The scheduler itself
  // ---------------------------------------------------------------------------------------------

  class Scheduler {
    const statuses: array<Status>
    var readyQueue: seq<Ready>
    var committedIdx: nat
    var executedOnceCount: nat
    var done: bool

    function Contents(): Sched
      reads this, statuses
    {
      Sched(statuses[..], readyQueue, committedIdx, executedOnceCount, done)
    }

    constructor (numTxns: nat)
      ensures Contents() == Initial(numTxns) && fresh(statuses)
    {
      statuses := new Status[numTxns](_ => Pending);
      readyQueue := [];
      committedIdx := 0;
      executedOnceCount := 0;
      done := false;
      new;
      for idx := 0 to numTxns
        invariant readyQueue == InitialQueue(idx) && statuses.Length == numTxns
        invariant statuses[..] == Initial(numTxns).statuses
        invariant committedIdx == executedOnceCount == 0 && !done && fresh(statuses)
      {
        readyQueue := readyQueue + [Ready(idx, 0)];
      }
    }

    method GetTask() returns (task: Task)
      requires Contents().InRange()
      modifies this, statuses
      ensures (Contents(), task) == NextTask(old(Contents()))
    {
      if done {
        return Done;
      }
      if readyQueue != [] {
        var entry := readyQueue[0];
        assert readyQueue[1..] == readyQueue[..0] + readyQueue[1..];
        readyQueue := readyQueue[1..];
        statuses[entry.txnIdx] := Executing(entry.incarnation);
        return Execute(entry.txnIdx, entry.incarnation);
      }
      if committedIdx >= statuses.Length {
        done := true;
        return Done;
      }
      return Wait;
    }

    method FinishExecution(txnIdx: nat, incarnation: nat, invalidated: seq<nat>)
      requires Contents().committedIdx <= |Contents().statuses|
      requires txnIdx < |Contents().statuses| && AllBelow(invalidated, |Contents().statuses|)
      modifies this, statuses
      ensures Contents() == Finish(old(Contents()), txnIdx, incarnation, invalidated)
    {
      statuses[txnIdx] := Executed(incarnation);
      if incarnation == 0 {
        executedOnceCount := executedOnceCount + 1;
      }
      ghost var marked := Contents();
      assert marked == MarkExecuted(old(Contents()), txnIdx, incarnation);
      for k := 0 to |invalidated|
        invariant Contents() == AbortAll(marked, invalidated[..k])
      {
        assert invalidated[..k + 1][..k] == invalidated[..k];
        AbortTransaction(invalidated[k]);
      }
      assert invalidated[..|invalidated|] == invalidated;
      TryCommitTransactions();
    }

    method AbortTransaction(txnIdx: nat)
      requires txnIdx < |Contents().statuses|
      modifies this, statuses
      ensures Contents() == Abort(old(Contents()), txnIdx)
    {
      match statuses[txnIdx]
      case Executing(incarnation) =>
        statuses[txnIdx] := Pending;
        readyQueue := readyQueue + [Ready(txnIdx, incarnation + 1)];
      case Executed(incarnation) =>
        statuses[txnIdx] := Pending;
        readyQueue := readyQueue + [Ready(txnIdx, incarnation + 1)];
      case _ =>
    }

    method TryCommitTransactions()
      requires Contents().committedIdx <= |Contents().statuses|
      modifies this, statuses
      ensures Contents() == TryCommit(old(Contents()))
    {
      while committedIdx < statuses.Length && statuses[committedIdx].Executed?
        invariant committedIdx <= statuses.Length
        invariant TryCommit(Contents()) == TryCommit(old(Contents()))
        decreases statuses.Length - committedIdx
      {
        ghost var before := Contents();
        CommitOne(before);
        statuses[committedIdx] := Committed;
        committedIdx := committedIdx + 1;
        assert Contents() == before.(statuses := before.statuses[before.committedIdx := Committed],
                                     committedIdx := before.committedIdx + 1);
      }
      if committedIdx >= statuses.Length {
        done := true;
      }
    }
  }
}
