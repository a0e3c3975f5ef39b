/**
 The executor with a single worker: the queue is served in order, nothing is ever sent back, and the
 block ends in the state of the in-order run.
 */
module OneWorker {
  import opened Ledger
  import opened MultiVersion
  import opened Scheduling
  import opened Execution
  import opened BlockStm
  import opened Freshness
  import opened Serializability
  import opened EngineSteps
  import opened EngineRuns

  datatype BlockExecutionResult =
    BlockExecutionResult(successful: nat, failed: nat, totalExecutions: nat, finalStates: State)

  /** The scheduler after the first `k` transactions went through in order. */
  function InOrder(n: nat, k: nat): Sched
    requires k <= n
  {
    Sched(seq(n, i => if i < k then Committed else Pending),
          seq(n - k, i requires 0 <= i < n - k => Ready(k + i, 0)), k, k, k == n && n > 0)
  }

  lemma FinishInOrder(n: nat, k: nat)
    requires k < n
    ensures InOrder(n, k).InRange() && InOrder(n, k).queue[0] == Ready(k, 0)
    ensures Finish(PopAt(InOrder(n, k), 0), k, 0, []) == InOrder(n, k + 1)
  {
    var marked := MarkExecuted(PopAt(InOrder(n, k), 0), k, 0);
    assert marked.queue == InOrder(n, k + 1).queue;
    var committed := marked.(statuses := marked.statuses[k := Committed], committedIdx := k + 1);
    assert committed.statuses == InOrder(n, k + 1).statuses;
    assert TryCommit(marked) == TryCommit(committed);
  }

  lemma StartsInOrder(n: nat)
    ensures Initial(n) == InOrder(n, 0)
  {
    assert Initial(n).statuses == InOrder(n, 0).statuses;
    assert Initial(n).queue == InOrder(n, 0).queue;
  }

  // ---------------------------------------------------------------------------------------------
  // Nobody above the transactions executed so far has read or written
  // ---------------------------------------------------------------------------------------------

  ghost predicate ReadersBelow(mv: MV, bound: nat) {
    && (forall a: Address, r: nat | r in StorageReadersOf(mv, a) :: r < bound)
    && (forall a: Address, k: nat, r: nat | Holds(mv, a, k) && r in HistoryOf(mv, a)[k].readers :: r < bound)
  }

  ghost predicate WritersBelow(mv: MV, bound: nat) {
    forall a: Address, k: nat | Holds(mv, a, k) :: k < bound
  }

  lemma RecordedBelow(b: Block, mv: MV, a: Address, j: nat, bound: nat)
    requires EntriesOk(b, mv) && ReadersBelow(mv, bound) && j < bound
    ensures ReadersBelow(Recorded(mv, a, j), bound)
  {
    var after := Recorded(mv, a, j);
    RecordedGrows(b, mv, a, j);
    forall x: Address, k: nat, r: nat | Holds(after, x, k) && r in HistoryOf(after, x)[k].readers
      ensures r < bound
    {
      assert Holds(mv, x, k);
      RecordedReaders(mv, a, j, x, k, r);
    }
    forall x: Address, r: nat | r in StorageReadersOf(after, x)
      ensures r < bound
    {
      RecordedReaders(mv, a, j, x, 0, r);
    }
  }

  lemma WriteBelow(mv: MV, a: Address, i: nat, incarnation: nat, state: Account, bound: nat)
    requires ReadersBelow(mv, bound)
    ensures ReadersBelow(WithWrite(mv, a, i, incarnation, state), bound)
  {
    assert forall x: Address :: StorageReadersOf(WithWrite(mv, a, i, incarnation, state), x) == StorageReadersOf(mv, x);
    forall x: Address, k: nat, r: nat
      | Holds(WithWrite(mv, a, i, incarnation, state), x, k)
        && r in HistoryOf(WithWrite(mv, a, i, incarnation, state), x)[k].readers
      ensures r < bound
    {
      WriteVersions(mv, a, i, incarnation, state, x, k);
    }
  }

  lemma InvalidatesBelow(mv: MV, a: Address, i: nat, bound: nat)
    requires ReadersBelow(mv, bound)
    ensures forall j :: j in Invalidates(mv, a, i) ==> j < bound
  {
    if Below(HistoryOf(mv, a), i).Some? {
      assert Holds(mv, a, Below(HistoryOf(mv, a), i).value);
    }
  }

  lemma SpeculateBelow(b: Block, mv: MV, i: nat, incarnation: nat, bound: nat)
    requires WellFormed(b, mv) && i < |b.txs| && ReadersBelow(mv, bound) && i < bound
    ensures ReadersBelow(Speculate(b, mv, i, incarnation).0, bound)
    ensures forall j :: j in Invalidated(Speculate(b, mv, i, incarnation).1) ==> j < bound
  {
    var tx := b.txs[i];
    ExecuteUnfolds(b, mv, i, incarnation);
    if Accepted(b.Policy(), tx) {
      RecordedBelow(b, mv, tx.from, i, bound);
      RecordedEffect(b, mv, tx.from, i);
      RecordedBelow(b, Recorded(mv, tx.from, i), tx.to, i, bound);
      if Speculate(b, mv, i, incarnation).1.Success? {
        var mid, one := AfterReads(b, mv, i), AfterDebit(b, mv, i, incarnation);
        WriteBelow(mid, tx.from, i, incarnation, Debited(View(b, mv, tx.from, i), tx), bound);
        WriteBelow(one, tx.to, i, incarnation, Written(b, mv, i, tx.to), bound);
        InvalidatesBelow(mid, tx.from, i, bound);
        InvalidatesBelow(one, tx.to, i, bound);
      }
    }
  }

  // ---------------------------------------------------------------------------------------------
  // The run of a single worker
  // ---------------------------------------------------------------------------------------------

  /** The first `k` transactions, and only those, have been executed, in order and once each. */
  ghost predicate Progressed(b: Block, s: Stm, k: nat) {
    && k <= |b.txs| && s.sched == InOrder(|b.txs|, k)
    && Invariant(b, s) && Coherent(b, s)
    && ReadersBelow(s.mv, k) && WritersBelow(s.mv, k)
  }

  lemma StartsProgressed(b: Block)
    ensures Progressed(b, Start(b), 0)
  {
    StartInvariant(b);
    StartsInOrder(|b.txs|);
  }

  lemma FrontReportsNothing(b: Block, s: Stm, k: nat)
    requires Progressed(b, s, k) && k < |b.txs|
    ensures s.sched.queue[0] == Ready(k, 0)
    ensures Reported(b, s, 0) == []
    ensures AtomicStep(b, s, 0).sched == InOrder(|b.txs|, k + 1)
  {
    FinishInOrder(|b.txs|, k);
    var list := Reported(b, s, 0);
    assert list == [] || list[0] in list;
    SpeculateBelow(b, s.mv, k, 0, k + 1);
  }

  lemma FrontWrites(b: Block, s: Stm, k: nat)
    requires Progressed(b, s, k) && k < |b.txs|
    ensures WritersBelow(AtomicStep(b, s, 0).mv, k + 1) && ReadersBelow(AtomicStep(b, s, 0).mv, k + 1)
  {
    FrontReportsNothing(b, s, k);
    SpeculateBelow(b, s.mv, k, 0, k + 1);
    forall a: Address, j: nat | Holds(AtomicStep(b, s, 0).mv, a, j)
      ensures j < k + 1
    {
      if j != k {
        StepKeepsVersions(b, s, 0, a, j);
      }
    }
  }

  /** Serving the front of the queue: nothing is sent back and one more transaction is committed. */
  lemma FrontStep(b: Block, s: Stm, k: nat)
    requires Progressed(b, s, k) && k < |b.txs|
    ensures s.sched.queue[0] == Ready(k, 0) && Reported(b, s, 0) == []
    ensures Progressed(b, AtomicStep(b, s, 0), k + 1)
  {
    FrontReportsNothing(b, s, k);
    FrontWrites(b, s, k);
    StepSettles(b, s, 0);
    assert !Holder(b, s.mv, k);
    StepCoherent(b, s, 0);
  }

  /** In the end the map holds the state of the in-order run. */
  lemma EndsSequential(b: Block, s: Stm)
    requires Progressed(b, s, |b.txs|)
    ensures b.initialStates + CommittedStates(s.mv) == SeqRun(b.Policy(), b.initialStates, b.txs).state
  {
    CoherentIsFresh(b, s);
    FreshIsSequential(b, s);
  }

  /** What a worker does with one task: execute it, count the outcome, and report back. */
  method Serve(block: Block, txnIdx: nat, incarnation: nat, scheduler: Scheduler, mvHashmap: MVHashMap)
    returns (succeeded: nat, failed: nat)
    requires WellFormed(block, mvHashmap.Contents()) && txnIdx < |block.txs| == |scheduler.Contents().statuses|
    requires scheduler.Contents().committedIdx <= |block.txs|
    modifies scheduler, scheduler.statuses, mvHashmap
    ensures var (mv, result) := Speculate(block, old(mvHashmap.Contents()), txnIdx, incarnation);
      && mvHashmap.Contents() == mv
      && AllBelow(Invalidated(result), |block.txs|)
      && scheduler.Contents() == Finish(old(scheduler.Contents()), txnIdx, incarnation, Invalidated(result))
      && succeeded == (if result.Success? then 1 else 0)
      && failed == (if Bad(block, txnIdx) then 1 else 0)
  {
    SpeculationIsFit(block, mvHashmap.Contents(), txnIdx, incarnation);
    succeeded, failed := 0, 0;
    var result := ExecuteTransaction(block, txnIdx, incarnation, mvHashmap);
    match result
    case Success(invalidated) =>
      succeeded := 1;
      scheduler.FinishExecution(txnIdx, incarnation, invalidated);
    case Retry =>
      scheduler.FinishExecution(txnIdx, incarnation, []);
    case Permanent =>
      failed := 1;
      scheduler.FinishExecution(txnIdx, incarnation, []);
  }

  lemma ServingIsFrontStep(b: Block, s: Stm, k: nat)
    requires Progressed(b, s, k) && k < |b.txs|
    ensures s.sched.InRange() && NextTask(s.sched) == (PopAt(s.sched, 0), Task.Execute(k, 0))
    ensures var (mv, result) := Speculate(b, s.mv, k, 0);
      AllBelow(Invalidated(result), |b.txs|) ==>
        Progressed(b, Stm(mv, Finish(PopAt(s.sched, 0), k, 0, Invalidated(result))), k + 1)
  {
    FrontStep(b, s, k);
  }

  /** One turn of the worker's loop after `k` transactions: the next one is served, or all are done. */
  method TakeTask(block: Block, scheduler: Scheduler, mvHashmap: MVHashMap, ghost k: nat)
    returns (task: Task, succeeded: nat, failed: nat)
    requires Progressed(block, Stm(mvHashmap.Contents(), scheduler.Contents()), k)
    modifies scheduler, scheduler.statuses, mvHashmap
    ensures task == if k < |block.txs| then Task.Execute(k, 0) else Task.Done
    ensures k < |block.txs| ==>
      && Progressed(block, Stm(mvHashmap.Contents(), scheduler.Contents()), k + 1)
      && failed == (if Bad(block, k) then 1 else 0)
    ensures k == |block.txs| ==>
      mvHashmap.Contents() == old(mvHashmap.Contents()) && scheduler.Contents().committedIdx == k
  {
    if k < |block.txs| {
      ServingIsFrontStep(block, Stm(mvHashmap.Contents(), scheduler.Contents()), k);
    }
    succeeded, failed := 0, 0;
    task := scheduler.GetTask();
    if task.Execute? {
      succeeded, failed := Serve(block, task.txnIdx, task.incarnation, scheduler, mvHashmap);
    }
  }

  method WorkerLoop(block: Block, scheduler: Scheduler, mvHashmap: MVHashMap)
    returns (executionCount: nat, successCount: nat, failCount: nat)
    requires Stm(mvHashmap.Contents(), scheduler.Contents()) == Start(block)
    modifies scheduler, scheduler.statuses, mvHashmap
    ensures scheduler.Contents().committedIdx == |block.txs| == executionCount
    ensures failCount == BadCount(block, |block.txs|)
    ensures block.initialStates + CommittedStates(mvHashmap.Contents())
      == SeqRun(block.Policy(), block.initialStates, block.txs).state
  {
    executionCount, successCount, failCount := 0, 0, 0;
    StartsProgressed(block);
    while true
      invariant executionCount <= |block.txs|
      invariant Progressed(block, Stm(mvHashmap.Contents(), scheduler.Contents()), executionCount)
      invariant failCount == BadCount(block, executionCount)
      decreases |block.txs| - executionCount
    {
      ghost var s := Stm(mvHashmap.Contents(), scheduler.Contents());
      var task, succeeded, failed := TakeTask(block, scheduler, mvHashmap, executionCount);
      match task
      case Execute(_, _) =>
        executionCount := executionCount + 1;
        successCount := successCount + succeeded;
        failCount := failCount + failed;
      case Wait =>
        assert false;
      case Done =>
        EndsSequential(block, s);
        return;
    }
  }

  /**
   One worker executes each transaction exactly once and ends in the state of the in-order run, for any
   transactions. The counts add up to the block without underflow.
   */
  method ExecuteBlock(block: Block) returns (result: BlockExecutionResult)
    ensures block.initialStates + result.finalStates == SeqRun(block.Policy(), block.initialStates, block.txs).state
    ensures result.totalExecutions == |block.txs|
    ensures result.failed == BadCount(block, |block.txs|) && result.successful + result.failed == |block.txs|
  {
    var scheduler := new Scheduler(|block.txs|);
    var mvHashmap := new MVHashMap();
    var executionCount, _, failCount := WorkerLoop(block, scheduler, mvHashmap);
    var finalStates := mvHashmap.GetCommittedStates();
    var committedCount := scheduler.committedIdx;
    result := BlockExecutionResult(committedCount - failCount, failCount, executionCount, finalStates);
  }
}
