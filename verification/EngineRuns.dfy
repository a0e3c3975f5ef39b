/**
 Whole interleavings of the workers: how much work there can be, that none of it gets lost, how runs end
 and what the counters say then.
 */
module EngineRuns {
  import opened Ledger
  import opened MultiVersion
  import opened Scheduling
  import opened Execution
  import opened BlockStm
  import opened Serializability
  import opened EngineSteps

  ghost predicate LegalSteps(b: Block, workers: nat, steps: seq<Step>)
    decreases |steps|, 0
  {
    steps == []
    || (LegalSteps(b, workers, steps[..|steps| - 1])
        && Enabled(AfterSteps(b, workers, steps[..|steps| - 1]), steps[|steps| - 1]))
  }

  ghost function AfterSteps(b: Block, workers: nat, steps: seq<Step>): (e: Engine)
    requires LegalSteps(b, workers, steps)
    ensures EngineInvariant(b, e) && |e.workers| == workers
    decreases |steps|, 1
  {
    if steps == [] then
      BeginInvariant(b, workers);
      Begin(b, workers)
    else
      var before := AfterSteps(b, workers, steps[..|steps| - 1]);
      StepKeeps(b, before, steps[|steps| - 1]);
      Do(b, before, steps[|steps| - 1])
  }

  // ---------------------------------------------------------------------------------------------
  // One step further
  // ---------------------------------------------------------------------------------------------

  /** The interleaving is legal and leads to this state, whatever its counters. */
  ghost predicate Reached(b: Block, workers: nat, steps: seq<Step>, s: Stm, held: seq<Worker>) {
    && LegalSteps(b, workers, steps)
    && AfterSteps(b, workers, steps).stm == s && AfterSteps(b, workers, steps).workers == held
  }

  lemma ExtendSteps(b: Block, workers: nat, steps: seq<Step>, step: Step)
    requires LegalSteps(b, workers, steps) && Enabled(AfterSteps(b, workers, steps), step)
    ensures LegalSteps(b, workers, steps + [step])
    ensures AfterSteps(b, workers, steps + [step]) == Do(b, AfterSteps(b, workers, steps), step)
  {
    assert (steps + [step])[..|steps + [step]| - 1] == steps;
  }

  lemma ThenFetch(b: Block, workers: nat, steps: seq<Step>, s: Stm, held: seq<Worker>, w: nat, k: nat)
    requires Reached(b, workers, steps, s, held) && s.sched.InRange()
    requires w < |held| && held[w].Idle? && !s.sched.done && k < |s.sched.queue|
    ensures var entry := s.sched.queue[k];
      Reached(b, workers, steps + [Fetch(w, k)], s.(sched := PopAt(s.sched, k)),
              held[w := Holding(entry.txnIdx, entry.incarnation)])
  {
    ExtendSteps(b, workers, steps, Fetch(w, k));
  }

  lemma ThenRun(b: Block, workers: nat, steps: seq<Step>, s: Stm, held: seq<Worker>, w: nat, mv: MV, result: Result)
    requires Reached(b, workers, steps, s, held) && w < |held| && held[w].Holding? && held[w].txnIdx < |b.txs|
    requires Speculate(b, s.mv, held[w].txnIdx, held[w].incarnation) == (mv, result)
    ensures Reached(b, workers, steps + [Run(w)], s.(mv := mv),
                    held[w := Finishing(held[w].txnIdx, held[w].incarnation, result)])
  {
    ExtendSteps(b, workers, steps, Run(w));
  }

  lemma ThenReport(b: Block, workers: nat, steps: seq<Step>, s: Stm, held: seq<Worker>, w: nat, sched: Sched)
    requires Reached(b, workers, steps, s, held) && w < |held| && held[w].Finishing?
    requires s.sched.committedIdx <= |s.sched.statuses| && held[w].txnIdx < |s.sched.statuses|
    requires AllBelow(Invalidated(held[w].result), |s.sched.statuses|)
    requires Finish(s.sched, held[w].txnIdx, held[w].incarnation, Invalidated(held[w].result)) == sched
    ensures Reached(b, workers, steps + [Report(w)], s.(sched := sched), held[w := Idle])
  {
    ExtendSteps(b, workers, steps, Report(w));
  }

  // ---------------------------------------------------------------------------------------------
  // Bounds
  // ---------------------------------------------------------------------------------------------

  function Pow2(i: nat): nat {
    if i == 0 then 1 else 2 * Pow2(i - 1)
  }

  lemma TallyOrder(n: nat, e: Engine)
    requires Shaped(n, e) && Balanced(n, e)
    ensures forall i :: 0 <= i < n ==> e.tally.finished[i] <= e.tally.ran[i] <= e.tally.fetched[i]
    ensures forall i :: 0 <= i < n ==> e.tally.fetched[i] <= 1 + SumBelow(e.tally.finished, i)
  {
    forall i | 0 <= i < n
      ensures e.tally.finished[i] <= e.tally.ran[i] <= e.tally.fetched[i] <= 1 + SumBelow(e.tally.finished, i)
    {
      assert BalancedAt(e, n, i);
    }
  }

  /** Transaction `i` is handed out at most 2^i times, and those below it 2^i - 1 times together. */
  lemma {:induction false} FetchesBounded(b: Block, e: Engine, i: nat)
    requires EngineInvariant(b, e) && i <= |b.txs|
    ensures SumBelow(e.tally.fetched, i) <= Pow2(i) - 1
    ensures i < |b.txs| ==> e.tally.fetched[i] <= Pow2(i)
  {
    if i != 0 {
      FetchesBounded(b, e, i - 1);
    }
    TallyOrder(|b.txs|, e);
    SumMonotone(e.tally.finished, e.tally.fetched, i);
  }

  /** In every interleaving: at most 2^i executions of transaction `i`, at most 2^n - 1 in all. */
  lemma ExecutionBound(b: Block, workers: nat, steps: seq<Step>)
    requires LegalSteps(b, workers, steps)
    ensures var e := AfterSteps(b, workers, steps);
      && SumBelow(e.tally.ran, |b.txs|) <= SumBelow(e.tally.fetched, |b.txs|) <= Pow2(|b.txs|) - 1
      && forall i :: 0 <= i < |b.txs| ==> e.tally.ran[i] <= e.tally.fetched[i] <= Pow2(i)
  {
    var e := AfterSteps(b, workers, steps);
    TallyOrder(|b.txs|, e);
    FetchesBounded(b, e, |b.txs|);
    SumMonotone(e.tally.ran, e.tally.fetched, |b.txs|);
    forall i | 0 <= i < |b.txs|
      ensures e.tally.fetched[i] <= Pow2(i)
    {
      FetchesBounded(b, e, i);
    }
  }

  lemma {:induction false} StepsAreTallied(b: Block, workers: nat, steps: seq<Step>)
    requires LegalSteps(b, workers, steps)
    ensures var t := AfterSteps(b, workers, steps).tally;
      |steps| == SumBelow(t.fetched, |b.txs|) + SumBelow(t.ran, |b.txs|) + SumBelow(t.finished, |b.txs|)
  {
    var n := |b.txs|;
    if steps == [] {
      SumZeros(n, n);
    } else {
      var before, step := AfterSteps(b, workers, steps[..|steps| - 1]), steps[|steps| - 1];
      StepsAreTallied(b, workers, steps[..|steps| - 1]);
      match step
      case Fetch(_, k) => SumIncrement(before.tally.fetched, before.stm.sched.queue[k].txnIdx, n);
      case Run(w) => SumIncrement(before.tally.ran, before.workers[w].txnIdx, n);
      case Report(w) => SumIncrement(before.tally.finished, before.workers[w].txnIdx, n);
    }
  }

  /** Every interleaving comes to an end: it has at most 3(2^n - 1) steps. */
  lemma StepsBounded(b: Block, workers: nat, steps: seq<Step>)
    requires LegalSteps(b, workers, steps)
    ensures |steps| <= 3 * (Pow2(|b.txs|) - 1)
  {
    var e := AfterSteps(b, workers, steps);
    TallyOrder(|b.txs|, e);
    StepsAreTallied(b, workers, steps);
    ExecutionBound(b, workers, steps);
    SumMonotone(e.tally.finished, e.tally.fetched, |b.txs|);
  }

  /**
   No lost work: before the end the transaction at the frontier is pending with an entry in the queue, or
   executing with a worker that holds it.
   */
  lemma FrontierHasWork(b: Block, workers: nat, steps: seq<Step>)
    requires LegalSteps(b, workers, steps)
    requires AfterSteps(b, workers, steps).stm.sched.committedIdx < |b.txs|
    ensures var e := AfterSteps(b, workers, steps);
      var c := e.stm.sched.committedIdx;
      var status := e.stm.sched.statuses[c];
      || (status.Pending? && exists r :: r in e.stm.sched.queue && r.txnIdx == c)
      || (status.Executing? && exists w :: 0 <= w < workers && HeldBy(e.workers[w], c, status.incarnation))
  {
    var e := AfterSteps(b, workers, steps);
    CountPositive(e.stm.sched.queue, e.stm.sched.committedIdx);
  }

  /**
   Runs only end when all is committed: with at least one worker, a state in which no worker can move has
   the whole block committed, and every worker that asks is told so.
   */
  lemma EndIsCommitted(b: Block, workers: nat, steps: seq<Step>)
    requires LegalSteps(b, workers, steps) && workers > 0
    requires forall step :: !Enabled(AfterSteps(b, workers, steps), step)
    ensures var s := AfterSteps(b, workers, steps).stm.sched;
      s.committedIdx == |b.txs| && NextTask(s).1 == Task.Done
  {
    var e := AfterSteps(b, workers, steps);
    forall w | 0 <= w < workers
      ensures e.workers[w].Idle?
    {
      assert !Enabled(e, Run(w)) && !Enabled(e, Report(w));
    }
    assert !Enabled(e, Fetch(0, 0));
    if e.stm.sched.committedIdx < |b.txs| {
      FrontierHasWork(b, workers, steps);
    }
  }

  /** Asking for a task with nothing queued changes nothing but possibly the end flag. */
  lemma IdlePolling(b: Block, workers: nat, steps: seq<Step>)
    requires LegalSteps(b, workers, steps)
    ensures var s := AfterSteps(b, workers, steps).stm.sched;
      && (s.queue == [] && s.committedIdx < |b.txs| ==> NextTask(s) == (s, Task.Wait))
      && (s.queue == [] && s.committedIdx == |b.txs| ==> NextTask(s) == (s.(done := true), Task.Done))
      && (s.done ==> NextTask(s) == (s, Task.Done))
  {
  }

  // ---------------------------------------------------------------------------------------------
  // Counters
  // ---------------------------------------------------------------------------------------------

  /** The number of badly signed transactions below `i`. */
  function BadCount(b: Block, i: nat): (c: nat)
    requires i <= |b.txs|
    ensures c <= i
  {
    if i == 0 then 0 else BadCount(b, i - 1) + if Bad(b, i - 1) then 1 else 0
  }

  lemma {:induction false} BadRunOnce(b: Block, ran: seq<nat>, i: nat)
    requires |ran| == |b.txs| && i <= |ran|
    requires forall j :: 0 <= j < |ran| && Bad(b, j) ==> ran[j] == 1
    ensures BadRuns(b, ran, i) == BadCount(b, i)
  {
    if i != 0 {
      BadRunOnce(b, ran, i - 1);
    }
  }

  lemma CommittedBadRanOnce(b: Block, e: Engine, j: nat)
    requires EngineInvariant(b, e) && e.stm.sched.committedIdx == |b.txs| && j < |b.txs| && Bad(b, j)
    ensures e.tally.ran[j] == 1
  {
    assert BalancedAt(e, |b.txs|, j);
  }

  /**
   Once everything is committed the failure counter is exactly the number of badly signed transactions,
   so the reported successes and failures add up to the block.
   */
  lemma FailureCount(b: Block, workers: nat, steps: seq<Step>)
    requires LegalSteps(b, workers, steps)
    requires AfterSteps(b, workers, steps).stm.sched.committedIdx == |b.txs|
    ensures AfterSteps(b, workers, steps).failCount == BadCount(b, |b.txs|) <= |b.txs|
  {
    var e := AfterSteps(b, workers, steps);
    forall j | 0 <= j < |b.txs| && Bad(b, j)
      ensures e.tally.ran[j] == 1
    {
      CommittedBadRanOnce(b, e, j);
    }
    BadRunOnce(b, e.tally.ran, |b.txs|);
  }

  /** The in-order run applies transaction `i`, unless that is badly signed. */
  predicate AppliesUnlessBad(b: Block, i: nat)
    requires i < |b.txs|
  {
    Bad(b, i) || Applies(b.Policy(), InOrderState(b, i), b.txs[i])
  }

  /** Below `i` the in-order run applied every accepted transaction. */
  predicate AllApply(b: Block, i: nat)
    requires i <= |b.txs|
  {
    forall j :: 0 <= j < i ==> AppliesUnlessBad(b, j)
  }

  /** How many of the first `i` transactions the in-order run fails on. */
  function FailedBelow(b: Block, i: nat): nat
    requires i <= |b.txs|
  {
    SeqRun(b.Policy(), b.initialStates, b.txs[..i]).failed
  }

  /** The in-order run's failures and the bad signatures drift apart with each failing accepted transaction. */
  lemma OneMoreFailure(b: Block, i: nat)
    requires i < |b.txs|
    ensures FailedBelow(b, i + 1) - BadCount(b, i + 1)
      == FailedBelow(b, i) - BadCount(b, i) + if AppliesUnlessBad(b, i) then 0 else 1
  {
    SeqRunPrefix(b.Policy(), b.initialStates, b.txs, i);
  }

  /** How many accepted transactions below `i` the in-order run skips. */
  function Skipped(b: Block, i: nat): nat
    requires i <= |b.txs|
  {
    if i == 0 then 0 else Skipped(b, i - 1) + if AppliesUnlessBad(b, i - 1) then 0 else 1
  }

  lemma {:induction false} SkippedNone(b: Block, i: nat)
    requires i <= |b.txs|
    ensures Skipped(b, i) == 0 <==> AllApply(b, i)
  {
    if i != 0 {
      SkippedNone(b, i - 1);
      assert AllApply(b, i) <==> AllApply(b, i - 1) && AppliesUnlessBad(b, i - 1);
    }
  }

  /** The in-order run fails on the badly signed transactions and on those it skips. */
  lemma {:induction false} SequentialFailuresExactly(b: Block, i: nat)
    requires i <= |b.txs|
    ensures FailedBelow(b, i) == BadCount(b, i) + Skipped(b, i)
  {
    if i != 0 {
      SequentialFailuresExactly(b, i - 1);
      OneMoreFailure(b, i - 1);
    }
  }

  /**
   The engine counts a leftover retry as a success, so it never reports fewer successes than the in-order
   run: it reports those and every accepted transaction that the in-order run skips.
   */
  lemma ReportedSuccesses(b: Block, workers: nat, steps: seq<Step>)
    requires LegalSteps(b, workers, steps)
    requires AfterSteps(b, workers, steps).stm.sched.committedIdx == |b.txs|
    ensures var successful := |b.txs| - AfterSteps(b, workers, steps).failCount;
      var sequential := SeqRun(b.Policy(), b.initialStates, b.txs).successful;
      && successful == sequential + Skipped(b, |b.txs|)
      && (successful == sequential <==> AllApply(b, |b.txs|))
  {
    FailureCount(b, workers, steps);
    assert b.txs[..|b.txs|] == b.txs;
    SequentialFailuresExactly(b, |b.txs|);
    SkippedNone(b, |b.txs|);
    SeqRunCounts(b.Policy(), b.initialStates, b.txs);
  }

  // ---------------------------------------------------------------------------------------------
  // Atomic runs are interleavings
  // ---------------------------------------------------------------------------------------------

  /** One worker taking the queue positions `ks` in turn, each time executing and reporting at once. */
  function InTurn(ks: seq<nat>): seq<Step> {
    if ks == [] then []
    else InTurn(ks[..|ks| - 1]) + [Fetch(0, ks[|ks| - 1]), Run(0), Report(0)]
  }

  /** Fetching, executing and reporting without interruption is one atomic step. */
  lemma DoThree(b: Block, e: Engine, k: nat)
    requires Shaped(|b.txs|, e) && WellFormed(b, e.stm.mv)
    requires e.workers == [Idle] && !e.stm.sched.done && k < |e.stm.sched.queue|
    ensures var one := Do(b, e, Fetch(0, k));
      && Shaped(|b.txs|, one) && Enabled(one, Run(0))
      && var two := Do(b, one, Run(0));
      && Shaped(|b.txs|, two) && Enabled(two, Report(0))
      && Do(b, two, Report(0)).workers == [Idle]
      && Do(b, two, Report(0)).stm == AtomicStep(b, e.stm, k)
  {
    RunKeepsShape(b, Do(b, e, Fetch(0, k)), Run(0));
  }

  lemma OneByOne(steps: seq<Step>, first: Step, second: Step, third: Step)
    ensures ((steps + [first]) + [second]) + [third] == steps + [first, second, third]
  {
  }

  lemma ThreeSteps(b: Block, steps: seq<Step>, k: nat)
    requires LegalSteps(b, 1, steps)
    requires var e := AfterSteps(b, 1, steps);
      && e.workers == [Idle] && !e.stm.sched.done && k < |e.stm.sched.queue|
    ensures var all := steps + [Fetch(0, k), Run(0), Report(0)];
      && LegalSteps(b, 1, all)
      && AfterSteps(b, 1, all).workers == [Idle]
      && AfterSteps(b, 1, all).stm == AtomicStep(b, AfterSteps(b, 1, steps).stm, k)
  {
    OneByOne(steps, Fetch(0, k), Run(0), Report(0));
    DoThree(b, AfterSteps(b, 1, steps), k);
    ExtendSteps(b, 1, steps, Fetch(0, k));
    ExtendSteps(b, 1, steps + [Fetch(0, k)], Run(0));
    ExtendSteps(b, 1, (steps + [Fetch(0, k)]) + [Run(0)], Report(0));
  }

  lemma QueuedIsNotDone(n: nat, s: Sched, k: nat)
    requires SchedulerOk(n, s) && k < |s.queue|
    ensures !s.done
  {
    assert s.queue[k] in s.queue;
    QueuedIsPending(n, s, s.queue[k]);
  }

  lemma {:induction false} AtomicIsInterleaving(b: Block, ks: seq<nat>)
    requires Legal(b, ks)
    ensures |InTurn(ks)| == 3 * |ks|
    ensures LegalSteps(b, 1, InTurn(ks))
    ensures AfterSteps(b, 1, InTurn(ks)).workers == [Idle]
    ensures AfterSteps(b, 1, InTurn(ks)).stm == After(b, ks)
  {
    if ks != [] {
      AtomicIsInterleaving(b, ks[..|ks| - 1]);
      QueuedIsNotDone(|b.txs|, After(b, ks[..|ks| - 1]).sched, ks[|ks| - 1]);
      ThreeSteps(b, InTurn(ks[..|ks| - 1]), ks[|ks| - 1]);
    }
  }

  /** A run of atomic steps takes at most 2^n - 1 of them, and can only stop with everything committed. */
  lemma AtomicRunsEnd(b: Block, ks: seq<nat>)
    requires Legal(b, ks)
    ensures |ks| <= Pow2(|b.txs|) - 1
    ensures After(b, ks).sched.queue == [] ==> After(b, ks).sched.committedIdx == |b.txs|
  {
    AtomicIsInterleaving(b, ks);
    StepsBounded(b, 1, InTurn(ks));
    if After(b, ks).sched.committedIdx < |b.txs| {
      FrontierHasWork(b, 1, InTurn(ks));
    }
  }
}
