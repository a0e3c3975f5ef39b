/**
 Block-STM as a transition system whose steps take any queued transaction, execute it and finish it.
 Runs are arbitrary sequences of such steps.
 */
module BlockStm {
  import opened Ledger
  import opened MultiVersion
  import opened Scheduling
  import opened Execution

  datatype Stm = Stm(mv: MV, sched: Sched)

  function Start(b: Block): Stm {
    Stm(EMPTY, Initial(|b.txs|))
  }

  // ---------------------------------------------------------------------------------------------
  // Steps
  // ---------------------------------------------------------------------------------------------

  /** The state is fit for a step that takes the queue entry at position `k`. */
  ghost predicate CanStep(b: Block, s: Stm, k: nat) {
    WellFormed(b, s.mv) && s.sched.InRange() && |s.sched.statuses| == |b.txs| && k < |s.sched.queue|
  }

  function Picked(s: Stm, k: nat): nat
    requires k < |s.sched.queue|
  {
    s.sched.queue[k].txnIdx
  }

  ghost function ResultAt(b: Block, s: Stm, k: nat): Result
    requires CanStep(b, s, k)
  {
    Speculate(b, s.mv, Picked(s, k), s.sched.queue[k].incarnation).1
  }

  /** What the step reports to the scheduler. */
  ghost function Reported(b: Block, s: Stm, k: nat): (list: seq<nat>)
    requires CanStep(b, s, k)
    ensures AllBelow(list, |b.txs|)
    ensures forall j :: j in list ==> Picked(s, k) < j < |b.txs|
  {
    InvalidatedShape(b, s.mv, Picked(s, k), s.sched.queue[k].incarnation);
    var list := Invalidated(ResultAt(b, s, k));
    assert forall p :: 0 <= p < |list| ==> list[p] in list;
    list
  }

  ghost function AtomicStep(b: Block, s: Stm, k: nat): Stm
    requires CanStep(b, s, k)
  {
    var entry := s.sched.queue[k];
    Stm(Speculate(b, s.mv, entry.txnIdx, entry.incarnation).0,
        Finish(PopAt(s.sched, k), entry.txnIdx, entry.incarnation, Reported(b, s, k)))
  }

  // ---------------------------------------------------------------------------------------------
  // The scheduler under atomic steps
  // ---------------------------------------------------------------------------------------------

  /** One queue entry per pending transaction and no others; exactly the prefix is committed. */
  ghost predicate SchedulerOk(n: nat, s: Sched) {
    && |s.statuses| == n && s.InRange()
    && (forall i :: 0 <= i < n ==> Count(s.queue, i) == if s.statuses[i].Pending? then 1 else 0)
    && (forall i :: 0 <= i < n ==> (s.statuses[i].Committed? <==> i < s.committedIdx))
    && (forall i :: 0 <= i < n ==> !s.statuses[i].Executing?)
    && (s.committedIdx < n ==> !s.statuses[s.committedIdx].Executed?)
    && (s.done ==> s.committedIdx == n) && (s.committedIdx == n && n > 0 ==> s.done)
  }

  ghost predicate Invariant(b: Block, s: Stm) {
    WellFormed(b, s.mv) && SchedulerOk(|b.txs|, s.sched)
  }

  predicate Settled(s: Stm, j: nat) {
    j < |s.sched.statuses| && (s.sched.statuses[j].Executed? || s.sched.statuses[j].Committed?)
  }

  lemma StartInvariant(b: Block)
    ensures Invariant(b, Start(b))
  {
    forall i | 0 <= i < |b.txs|
      ensures Count(Start(b).sched.queue, i) == 1
    {
      CountInitial(|b.txs|, i);
    }
  }

  lemma QueuedIsPending(n: nat, s: Sched, e: Ready)
    requires SchedulerOk(n, s) && e in s.queue
    ensures e.txnIdx < n && s.statuses[e.txnIdx].Pending?
  {
    CountPositive(s.queue, e.txnIdx);
  }

  /** One queue entry per pending transaction, and nothing is executing. */
  ghost predicate Queued(n: nat, s: Sched) {
    && |s.statuses| == n
    && (forall i :: 0 <= i < n ==> Count(s.queue, i) == if s.statuses[i].Pending? then 1 else 0)
    && (forall i :: 0 <= i < n ==> !s.statuses[i].Executing?)
  }

  lemma MarkedIsQueued(n: nat, s: Sched, k: nat)
    requires SchedulerOk(n, s) && k < |s.queue|
    ensures var e := s.queue[k];
      var marked := MarkExecuted(PopAt(s, k), e.txnIdx, e.incarnation);
      && Queued(n, marked) && marked.InRange()
      && marked.statuses == s.statuses[e.txnIdx := Executed(e.incarnation)]
      && marked.committedIdx == s.committedIdx && marked.done == s.done
  {
    var e := s.queue[k];
    QueuedIsPending(n, s, e);
    forall i | 0 <= i < n
      ensures Count(s.queue[..k] + s.queue[k + 1..], i) == if s.statuses[i].Pending? && i != e.txnIdx then 1 else 0
    {
      CountPop(s.queue, k, i);
    }
  }

  lemma AbortsAreQueued(n: nat, s: Sched, list: seq<nat>)
    requires Queued(n, s) && s.InRange() && AllBelow(list, n)
    ensures var aborted := AbortAll(s, list);
      && Queued(n, aborted) && aborted.InRange()
      && aborted.committedIdx == s.committedIdx && aborted.done == s.done
      && forall i :: 0 <= i < n ==>
           aborted.statuses[i] == if i in list && s.statuses[i].Executed? then Pending else s.statuses[i]
  {
    var aborted := AbortAll(s, list);
    forall p | 0 <= p < |aborted.queue|
      ensures aborted.queue[p].txnIdx < n
    {
      assert aborted.queue[p] in aborted.queue;
    }
  }

  lemma CommitKeepsOk(n: nat, s: Sched)
    requires Queued(n, s) && s.InRange() && (s.done ==> s.committedIdx == n)
    requires forall i :: 0 <= i < n ==> (s.statuses[i].Committed? <==> i < s.committedIdx)
    ensures SchedulerOk(n, TryCommit(s))
    ensures forall i :: 0 <= i < n ==> (TryCommit(s).statuses[i].Pending? <==> s.statuses[i].Pending?)
  {
  }

  /** The scheduler invariant survives finishing any queued transaction with any list above it. */
  lemma FinishKeepsScheduler(n: nat, s: Sched, k: nat, list: seq<nat>)
    requires SchedulerOk(n, s) && k < |s.queue|
    requires AllBelow(list, n) && forall j :: j in list ==> s.queue[k].txnIdx < j
    ensures var e := s.queue[k];
      var after := Finish(PopAt(s, k), e.txnIdx, e.incarnation, list);
      && SchedulerOk(n, after)
      && s.committedIdx <= after.committedIdx
      && (forall j :: 0 <= j < n ==>
            (after.statuses[j].Pending? <==> j != e.txnIdx && (s.statuses[j].Pending? || j in list)))
  {
    var e := s.queue[k];
    QueuedIsPending(n, s, e);
    MarkedIsQueued(n, s, k);
    var marked := MarkExecuted(PopAt(s, k), e.txnIdx, e.incarnation);
    AbortsAreQueued(n, marked, list);
    CommitKeepsOk(n, AbortAll(marked, list));
    assert forall j :: j in list ==> s.committedIdx < j;
  }

  /** Exactly the executed transaction and the settled ones it did not report are settled afterwards. */
  lemma StepSettles(b: Block, s: Stm, k: nat)
    requires Invariant(b, s) && k < |s.sched.queue|
    ensures Invariant(b, AtomicStep(b, s, k))
    ensures forall j :: 0 <= j < |b.txs| ==>
      (Settled(AtomicStep(b, s, k), j) <==> j == Picked(s, k) || (Settled(s, j) && j !in Reported(b, s, k)))
  {
    FinishKeepsScheduler(|b.txs|, s.sched, k, Reported(b, s, k));
    ExecuteWellFormed(b, s.mv, Picked(s, k), s.sched.queue[k].incarnation);
  }

  // ---------------------------------------------------------------------------------------------
  // Coherence
  // ---------------------------------------------------------------------------------------------

  predicate Holder(b: Block, mv: MV, i: nat) {
    i < |b.txs| && (Holds(mv, b.txs[i].from, i) || Holds(mv, b.txs[i].to, i))
  }

  /** The accounts an execution of `j` reads: the sender's, and the receiver's once the checks pass. */
  predicate Reads(b: Block, mv: MV, j: nat, x: Address)
    requires j < |b.txs|
  {
    && Accepted(b.Policy(), b.txs[j])
    && (x == b.txs[j].from || (x == b.txs[j].to && Passes(View(b, mv, b.txs[j].from, j), b.txs[j])))
  }

  /** Executing `j` now would succeed. */
  predicate Succeeds(b: Block, mv: MV, j: nat)
    requires j < |b.txs|
  {
    Accepted(b.Policy(), b.txs[j]) && Passes(View(b, mv, b.txs[j].from, j), b.txs[j])
  }

  /** Executing `j` again would change nothing. */
  predicate UpToDate(b: Block, mv: MV, j: nat)
    requires j < |b.txs|
  {
    var tx := b.txs[j];
    && (Holds(mv, tx.from, j) <==> Succeeds(b, mv, j))
    && (Holds(mv, tx.to, j) <==> Succeeds(b, mv, j))
    && (Succeeds(b, mv, j) ==>
          && HistoryOf(mv, tx.from)[j].state == Written(b, mv, j, tx.from)
          && HistoryOf(mv, tx.to)[j].state == Written(b, mv, j, tx.to))
  }

  /** `j` is up to date, and registered wherever it reads. */
  predicate Consistent(b: Block, mv: MV, j: nat)
    requires j < |b.txs|
  {
    && UpToDate(b, mv, j)
    && (Reads(b, mv, j, b.txs[j].from) ==> Registered(mv, b.txs[j].from, j))
    && (Reads(b, mv, j, b.txs[j].to) ==> Registered(mv, b.txs[j].to, j))
  }

  ghost predicate Coherent(b: Block, s: Stm) {
    forall j :: 0 <= j < |b.txs| && Settled(s, j) ==> Consistent(b, s.mv, j)
  }

  /** A settled reader of a version that the step replaces, which the step does not report. */
  ghost predicate Forgets(b: Block, s: Stm, k: nat, x: Address, j: nat)
    requires CanStep(b, s, k)
  {
    && Touches(b, Picked(s, k), x)
    && j < |b.txs| && Settled(s, j) && Reads(b, s.mv, j, x)
    && Below(HistoryOf(s.mv, x), j) == Some(Picked(s, k))
    && j !in Reported(b, s, k)
  }

  /** The step does not execute a version holder again, or it succeeds again and forgets no reader. */
  ghost predicate StepSafe(b: Block, s: Stm, k: nat)
    requires CanStep(b, s, k)
  {
    Holder(b, s.mv, Picked(s, k)) ==>
      ResultAt(b, s, k).Success? && forall x, j :: !Forgets(b, s, k, x, j)
  }

  /** A success leaves alone what a registered reader sees, unless it reports or forgets that reader. */
  lemma SuccessKeepsRead(b: Block, mv: MV, i: nat, incarnation: nat, x: Address, j: nat)
    requires WellFormed(b, mv) && i < |b.txs| && Speculate(b, mv, i, incarnation).1.Success?
    requires Registered(mv, x, j) && j !in Invalidated(Speculate(b, mv, i, incarnation).1)
    requires Touches(b, i, x) ==> Below(HistoryOf(mv, x), j) != Some(i)
    ensures View(b, Speculate(b, mv, i, incarnation).0, x, j) == View(b, mv, x, j)
    ensures Registered(Speculate(b, mv, i, incarnation).0, x, j)
  {
    SuccessfulEffect(b, mv, i, incarnation, x, j);
    if Moved(b, mv, i, x, j) {
      SuccessfulReports(b, mv, i, incarnation, x, j);
    }
  }

  lemma FailureKeepsRead(b: Block, mv: MV, i: nat, incarnation: nat, x: Address, j: nat)
    requires WellFormed(b, mv) && i < |b.txs| && !Speculate(b, mv, i, incarnation).1.Success?
    ensures View(b, Speculate(b, mv, i, incarnation).0, x, j) == View(b, mv, x, j)
    ensures Registered(mv, x, j) ==> Registered(Speculate(b, mv, i, incarnation).0, x, j)
  {
    UnsuccessfulEffect(b, mv, i, incarnation);
    GrowsKeepsReads(mv, Speculate(b, mv, i, incarnation).0, x, j);
  }

  /** An execution moves no versions but its own transaction's, and those only with success. */
  lemma ExecutionKeepsVersions(b: Block, mv: MV, i: nat, incarnation: nat, x: Address, j: nat)
    requires WellFormed(b, mv) && i < |b.txs| && (j != i || !Speculate(b, mv, i, incarnation).1.Success?)
    ensures var after := Speculate(b, mv, i, incarnation).0;
      && (Holds(after, x, j) <==> Holds(mv, x, j))
      && (Holds(mv, x, j) ==> HistoryOf(after, x)[j].state == HistoryOf(mv, x)[j].state)
  {
    if Speculate(b, mv, i, incarnation).1.Success? {
      SuccessfulVersions(b, mv, i, incarnation, x, j);
    } else {
      UnsuccessfulEffect(b, mv, i, incarnation);
      assert Holds(mv, x, j) <==> Holds(Speculate(b, mv, i, incarnation).0, x, j);
    }
  }

  lemma StepKeepsVersions(b: Block, s: Stm, k: nat, x: Address, j: nat)
    requires Invariant(b, s) && k < |s.sched.queue| && (j != Picked(s, k) || !ResultAt(b, s, k).Success?)
    ensures Holds(AtomicStep(b, s, k).mv, x, j) <==> Holds(s.mv, x, j)
    ensures Holds(s.mv, x, j) ==> HistoryOf(AtomicStep(b, s, k).mv, x)[j].state == HistoryOf(s.mv, x)[j].state
  {
    ExecutionKeepsVersions(b, s.mv, Picked(s, k), s.sched.queue[k].incarnation, x, j);
  }

  /** What `j` reads at `x` is not a version that a success of `i` replaces. */
  predicate Spared(b: Block, mv: MV, i: nat, x: Address, j: nat)
    requires j < |b.txs|
  {
    Reads(b, mv, j, x) && Touches(b, i, x) ==> Below(HistoryOf(mv, x), j) != Some(i)
  }

  lemma ExecutionKeepsRead(b: Block, mv: MV, i: nat, incarnation: nat, x: Address, j: nat)
    requires WellFormed(b, mv) && i < |b.txs| && j < |b.txs| && Consistent(b, mv, j) && Reads(b, mv, j, x)
    requires j !in Invalidated(Speculate(b, mv, i, incarnation).1)
    requires Speculate(b, mv, i, incarnation).1.Success? ==> Spared(b, mv, i, x, j)
    ensures View(b, Speculate(b, mv, i, incarnation).0, x, j) == View(b, mv, x, j)
    ensures Registered(Speculate(b, mv, i, incarnation).0, x, j)
  {
    if Speculate(b, mv, i, incarnation).1.Success? {
      SuccessKeepsRead(b, mv, i, incarnation, x, j);
    } else {
      FailureKeepsRead(b, mv, i, incarnation, x, j);
    }
  }

  /** An execution leaves another transaction consistent that it neither reports nor robs of its reads. */
  lemma ExecutionKeepsConsistent(b: Block, mv: MV, i: nat, incarnation: nat, j: nat)
    requires WellFormed(b, mv) && i < |b.txs| && j < |b.txs| && i != j && Consistent(b, mv, j)
    requires j !in Invalidated(Speculate(b, mv, i, incarnation).1)
    requires Speculate(b, mv, i, incarnation).1.Success? ==>
      Spared(b, mv, i, b.txs[j].from, j) && Spared(b, mv, i, b.txs[j].to, j)
    ensures Consistent(b, Speculate(b, mv, i, incarnation).0, j)
  {
    var tx := b.txs[j];
    if Reads(b, mv, j, tx.from) {
      ExecutionKeepsRead(b, mv, i, incarnation, tx.from, j);
    }
    if Reads(b, mv, j, tx.to) {
      ExecutionKeepsRead(b, mv, i, incarnation, tx.to, j);
    }
    ExecutionKeepsVersions(b, mv, i, incarnation, tx.from, j);
    ExecutionKeepsVersions(b, mv, i, incarnation, tx.to, j);
  }

  /** A safe step does not replace a version that an undisturbed reader sees. */
  lemma SafeStepSpares(b: Block, s: Stm, k: nat, j: nat, x: Address)
    requires CanStep(b, s, k) && StepSafe(b, s, k) && ResultAt(b, s, k).Success?
    requires j < |b.txs| && Settled(s, j) && j !in Reported(b, s, k)
    ensures Spared(b, s.mv, Picked(s, k), x, j)
  {
    var i := Picked(s, k);
    assert Below(HistoryOf(s.mv, x), j) == Some(i) ==> Holds(s.mv, x, i);
    assert Holder(b, s.mv, i) ==> !Forgets(b, s, k, x, j);
  }

  /** A settled transaction that a safe step does not disturb stays consistent. */
  lemma SafeStepKeeps(b: Block, s: Stm, k: nat, j: nat)
    requires Invariant(b, s) && Coherent(b, s) && k < |s.sched.queue| && StepSafe(b, s, k)
    requires j < |b.txs| && Settled(s, j) && j != Picked(s, k) && j !in Reported(b, s, k)
    ensures Consistent(b, AtomicStep(b, s, k).mv, j)
  {
    if ResultAt(b, s, k).Success? {
      SafeStepSpares(b, s, k, j, b.txs[j].from);
      SafeStepSpares(b, s, k, j, b.txs[j].to);
    }
    ExecutionKeepsConsistent(b, s.mv, Picked(s, k), s.sched.queue[k].incarnation, j);
  }

  /** A transaction that has just succeeded is consistent. */
  lemma SuccessIsConsistent(b: Block, mv: MV, i: nat, incarnation: nat)
    requires WellFormed(b, mv) && i < |b.txs| && Speculate(b, mv, i, incarnation).1.Success?
    ensures Consistent(b, Speculate(b, mv, i, incarnation).0, i)
  {
    var tx := b.txs[i];
    SuccessfulRegisters(b, mv, i, incarnation);
    SuccessfulEffect(b, mv, i, incarnation, tx.from, i);
    SuccessfulEffect(b, mv, i, incarnation, tx.to, i);
    SuccessfulVersions(b, mv, i, incarnation, tx.from, i);
    SuccessfulVersions(b, mv, i, incarnation, tx.to, i);
  }

  /** A transaction that has just failed is up to date exactly when it holds no version. */
  lemma FailureIsConsistent(b: Block, mv: MV, i: nat, incarnation: nat)
    requires WellFormed(b, mv) && i < |b.txs| && !Speculate(b, mv, i, incarnation).1.Success?
    ensures var after := Speculate(b, mv, i, incarnation).0;
      && (UpToDate(b, after, i) <==> !Holder(b, mv, i))
      && (UpToDate(b, after, i) ==> Consistent(b, after, i))
  {
    var after, tx := Speculate(b, mv, i, incarnation).0, b.txs[i];
    ExecutionKeepsVersions(b, mv, i, incarnation, tx.from, i);
    ExecutionKeepsVersions(b, mv, i, incarnation, tx.to, i);
    ExecuteUnfolds(b, mv, i, incarnation);
    assert View(b, after, tx.from, i) == View(b, mv, tx.from, i)
      && (Accepted(b.Policy(), tx) ==> Registered(after, tx.from, i)) by {
      UnsuccessfulEffect(b, mv, i, incarnation);
      GrowsKeepsReads(mv, after, tx.from, i);
    }
    assert Holder(b, mv, i) ==> Holds(mv, tx.from, i) && Holds(mv, tx.to, i);
  }

  /** A forgotten reader is no longer registered where it reads; it may or may not still be up to date. */
  lemma ForgottenBreaks(b: Block, s: Stm, k: nat, x: Address, j: nat)
    requires Invariant(b, s) && Coherent(b, s) && k < |s.sched.queue|
    requires ResultAt(b, s, k).Success? && Forgets(b, s, k, x, j)
    ensures !Consistent(b, AtomicStep(b, s, k).mv, j)
  {
    var i, inc := Picked(s, k), s.sched.queue[k].incarnation;
    SuccessfulEffect(b, s.mv, i, inc, x, j);
    assert Moved(b, s.mv, i, x, j);
    SuccessfulVersions(b, s.mv, i, inc, b.txs[j].from, j);
  }

  /**
   Push-based invalidation keeps every settled transaction up to date and registered across a step if and
   only if the step is safe.
   */
  lemma StepCoherent(b: Block, s: Stm, k: nat)
    requires Invariant(b, s) && Coherent(b, s) && k < |s.sched.queue|
    ensures Coherent(b, AtomicStep(b, s, k)) <==> StepSafe(b, s, k)
  {
    StepSettles(b, s, k);
    if ResultAt(b, s, k).Success? {
      SuccessIsConsistent(b, s.mv, Picked(s, k), s.sched.queue[k].incarnation);
    } else {
      FailureIsConsistent(b, s.mv, Picked(s, k), s.sched.queue[k].incarnation);
    }
    if StepSafe(b, s, k) {
      forall j | 0 <= j < |b.txs| && Settled(AtomicStep(b, s, k), j)
        ensures Consistent(b, AtomicStep(b, s, k).mv, j)
      {
        if j != Picked(s, k) {
          SafeStepKeeps(b, s, k, j);
        }
      }
    } else if ResultAt(b, s, k).Success? {
      var x, j :| Forgets(b, s, k, x, j);
      ForgottenBreaks(b, s, k, x, j);
      assert Settled(AtomicStep(b, s, k), j) && !Consistent(b, AtomicStep(b, s, k).mv, j);
    } else {
      assert Settled(AtomicStep(b, s, k), Picked(s, k));
    }
  }
}
