/**
 Several workers on one scheduler and one map. A worker takes a task, executes it and reports back, and
 steps of different workers interleave in any way. The counters record what happened to each transaction.
 */
module EngineSteps {
  import opened MultiVersion
  import opened Scheduling
  import opened Execution
  import opened BlockStm

  datatype Worker =
    | Idle
    | Holding(txnIdx: nat, incarnation: nat)
    | Finishing(txnIdx: nat, incarnation: nat, result: Result)

  /** Per transaction: how often it was handed out, executed, reported back and sent back. */
  datatype Tally = Tally(fetched: seq<nat>, ran: seq<nat>, finished: seq<nat>, aborts: seq<nat>)

  datatype Engine = Engine(stm: Stm, workers: seq<Worker>, failCount: nat, tally: Tally)

  datatype Step = Fetch(worker: nat, position: nat) | Run(worker: nat) | Report(worker: nat)

  function Zeros(n: nat): seq<nat> {
    seq(n, _ => 0)
  }

  function Begin(b: Block, workers: nat): Engine {
    var n := |b.txs|;
    Engine(Start(b), seq(workers, _ => Idle), 0, Tally(Zeros(n), Zeros(n), Zeros(n), Zeros(n)))
  }

  // ---------------------------------------------------------------------------------------------
  // Steps
  // ---------------------------------------------------------------------------------------------

  predicate Shaped(n: nat, e: Engine) {
    && |e.stm.sched.statuses| == n && e.stm.sched.InRange()
    && |e.tally.fetched| == |e.tally.ran| == |e.tally.finished| == |e.tally.aborts| == n
    && (forall w :: 0 <= w < |e.workers| && !e.workers[w].Idle? ==> e.workers[w].txnIdx < n)
    && (forall w :: 0 <= w < |e.workers| && e.workers[w].Finishing? ==>
          AllBelow(Invalidated(e.workers[w].result), n)
          && forall j :: j in Invalidated(e.workers[w].result) ==> e.workers[w].txnIdx < j)
  }

  /** An idle worker may fetch, one that holds a task may run it, and one that has run it may report. */
  predicate Possible(s: Sched, workers: seq<Worker>, step: Step) {
    && step.worker < |workers|
    && match step
       case Fetch(w, k) => workers[w].Idle? && !s.done && k < |s.queue|
       case Run(w) => workers[w].Holding?
       case Report(w) => workers[w].Finishing?
  }

  predicate Enabled(e: Engine, step: Step) {
    Possible(e.stm.sched, e.workers, step)
  }

  function Increment(s: seq<nat>, i: nat): seq<nat>
    requires i < |s|
  {
    s[i := s[i] + 1]
  }

  /** The scheduler once the reported transaction is marked and before anything is aborted. */
  function Marked(s: Sched, worker: Worker): Sched
    requires worker.Finishing? && worker.txnIdx < |s.statuses|
  {
    MarkExecuted(s, worker.txnIdx, worker.incarnation)
  }

  function CountAborts(counts: seq<nat>, s: Sched, list: seq<nat>): seq<nat>
    requires |counts| == |s.statuses|
  {
    seq(|counts|, i requires 0 <= i < |counts| => counts[i] + if Aborts(s, list, i) then 1 else 0)
  }

  function Do(b: Block, e: Engine, step: Step): Engine
    requires Shaped(|b.txs|, e) && Enabled(e, step)
  {
    var s, t, w := e.stm, e.tally, step.worker;
    match step
    case Fetch(_, k) =>
      var entry := s.sched.queue[k];
      e.(stm := s.(sched := PopAt(s.sched, k)),
         workers := e.workers[w := Holding(entry.txnIdx, entry.incarnation)],
         tally := t.(fetched := Increment(t.fetched, entry.txnIdx)))
    case Run(_) =>
      var i, incarnation := e.workers[w].txnIdx, e.workers[w].incarnation;
      var (mv, result) := Speculate(b, s.mv, i, incarnation);
      e.(stm := s.(mv := mv),
         workers := e.workers[w := Finishing(i, incarnation, result)],
         failCount := if result.Permanent? then e.failCount + 1 else e.failCount,
         tally := t.(ran := Increment(t.ran, i)))
    case Report(_) =>
      var worker := e.workers[w];
      var list := Invalidated(worker.result);
      e.(stm := s.(sched := Finish(s.sched, worker.txnIdx, worker.incarnation, list)),
         workers := e.workers[w := Idle],
         tally := t.(finished := Increment(t.finished, worker.txnIdx),
                     aborts := CountAborts(t.aborts, Marked(s.sched, worker), list)))
  }

  // ---------------------------------------------------------------------------------------------
  // Sums and counts
  // ---------------------------------------------------------------------------------------------

  function SumBelow(s: seq<nat>, i: nat): nat
    requires i <= |s|
  {
    if i == 0 then 0 else SumBelow(s, i - 1) + s[i - 1]
  }

  lemma {:induction false} SumIncrement(s: seq<nat>, k: nat, i: nat)
    requires k < |s| && i <= |s|
    ensures SumBelow(Increment(s, k), i) == SumBelow(s, i) + if k < i then 1 else 0
  {
    if i != 0 {
      SumIncrement(s, k, i - 1);
    }
  }

  lemma {:induction false} SumMonotone(s: seq<nat>, t: seq<nat>, i: nat)
    requires |s| == |t| && i <= |s| && forall k :: 0 <= k < |s| ==> s[k] <= t[k]
    ensures SumBelow(s, i) <= SumBelow(t, i)
  {
    if i != 0 {
      SumMonotone(s, t, i - 1);
    }
  }

  lemma {:induction false} SumZeros(n: nat, i: nat)
    requires i <= n
    ensures SumBelow(Zeros(n), i) == 0
  {
    if i != 0 {
      SumZeros(n, i - 1);
    }
  }

  predicate HoldsTask(worker: Worker, i: nat) {
    worker.Holding? && worker.txnIdx == i
  }

  predicate FinishesTask(worker: Worker, i: nat) {
    worker.Finishing? && worker.txnIdx == i
  }

  function Holders(workers: seq<Worker>, i: nat): nat {
    if workers == [] then 0
    else Holders(workers[..|workers| - 1], i) + if HoldsTask(workers[|workers| - 1], i) then 1 else 0
  }

  function Finishers(workers: seq<Worker>, i: nat): nat {
    if workers == [] then 0
    else Finishers(workers[..|workers| - 1], i) + if FinishesTask(workers[|workers| - 1], i) then 1 else 0
  }

  lemma {:induction false} WorkerUpdate(workers: seq<Worker>, w: nat, next: Worker, i: nat)
    requires w < |workers|
    ensures var after := workers[w := next];
      && Holders(after, i) + (if HoldsTask(workers[w], i) then 1 else 0)
         == Holders(workers, i) + (if HoldsTask(next, i) then 1 else 0)
      && Finishers(after, i) + (if FinishesTask(workers[w], i) then 1 else 0)
         == Finishers(workers, i) + (if FinishesTask(next, i) then 1 else 0)
  {
    var last := |workers| - 1;
    if w == last {
      assert workers[w := next][..last] == workers[..last];
    } else {
      assert workers[w := next][..last] == workers[..last][w := next];
      WorkerUpdate(workers[..last], w, next, i);
    }
  }

  lemma {:induction false} NoWorkers(workers: seq<Worker>, i: nat)
    requires forall w :: 0 <= w < |workers| ==> workers[w].Idle?
    ensures Holders(workers, i) == Finishers(workers, i) == 0
  {
    if workers != [] {
      NoWorkers(workers[..|workers| - 1], i);
    }
  }

  // ---------------------------------------------------------------------------------------------
  // The invariant
  // ---------------------------------------------------------------------------------------------

  /**
   Handed out and still queued is once plus once per abort; what was handed out is held or done; and only
   reports of lower transactions send a transaction back, each at most once.
   */
  ghost predicate BalancedAt(e: Engine, n: nat, i: nat)
    requires Shaped(n, e) && i < n
  {
    && e.tally.fetched[i] + Count(e.stm.sched.queue, i) == 1 + e.tally.aborts[i]
    && e.tally.ran[i] + Holders(e.workers, i) == e.tally.fetched[i]
    && e.tally.finished[i] + Finishers(e.workers, i) == e.tally.ran[i]
    && e.tally.aborts[i] <= SumBelow(e.tally.finished, i)
  }

  ghost predicate Balanced(n: nat, e: Engine)
    requires Shaped(n, e)
  {
    forall i :: 0 <= i < n ==> BalancedAt(e, n, i)
  }

  predicate HeldBy(worker: Worker, i: nat, incarnation: nat) {
    !worker.Idle? && worker.txnIdx == i && worker.incarnation == incarnation
  }

  /** No transaction is forgotten: pending ones are queued, executing ones are with a worker. */
  ghost predicate NoLostWork(s: Sched, workers: seq<Worker>) {
    && (forall i :: 0 <= i < |s.statuses| && s.statuses[i].Pending? ==> Count(s.queue, i) > 0)
    && (forall i :: 0 <= i < |s.statuses| && s.statuses[i].Executing? ==>
          exists w :: 0 <= w < |workers| && HeldBy(workers[w], i, s.statuses[i].incarnation))
  }

  /** The frontier never rests on an executed transaction, and everything below it was executed. */
  ghost predicate FrontierOpen(s: Sched, finished: seq<nat>) {
    var n := |s.statuses|;
    && |finished| == n && s.committedIdx <= n && (s.done ==> s.committedIdx == n)
    && (forall i :: s.committedIdx <= i < n ==> !s.statuses[i].Committed?)
    && (forall i :: 0 <= i < n && (i < s.committedIdx || s.statuses[i].Executed?) ==> finished[i] > 0)
  }

  ghost predicate FrontierOk(s: Sched, finished: seq<nat>) {
    var n := |s.statuses|;
    && FrontierOpen(s, finished)
    && (s.committedIdx < n ==> !s.statuses[s.committedIdx].Executed?)
    && (s.committedIdx == n && n > 0 ==> s.done)
  }

  predicate Bad(b: Block, i: nat) {
    i < |b.txs| && !AcceptedAt(b, i)
  }

  function BadRuns(b: Block, ran: seq<nat>, i: nat): nat
    requires |ran| == |b.txs| && i <= |ran|
  {
    if i == 0 then 0 else BadRuns(b, ran, i - 1) + if Bad(b, i - 1) then ran[i - 1] else 0
  }

  /** Badly signed transactions are never sent back, and each of their executions is counted. */
  ghost predicate FailuresOk(b: Block, e: Engine)
    requires Shaped(|b.txs|, e)
  {
    && (forall i :: 0 <= i < |b.txs| && Bad(b, i) ==> e.tally.aborts[i] == 0)
    && (forall w, j :: 0 <= w < |e.workers| && e.workers[w].Finishing? && j in Invalidated(e.workers[w].result)
          ==> !Bad(b, j))
    && e.failCount == BadRuns(b, e.tally.ran, |b.txs|)
  }

  ghost predicate EngineInvariant(b: Block, e: Engine) {
    && Shaped(|b.txs|, e) && WellFormed(b, e.stm.mv)
    && Balanced(|b.txs|, e)
    && NoLostWork(e.stm.sched, e.workers) && FrontierOk(e.stm.sched, e.tally.finished) && FailuresOk(b, e)
  }

  lemma BeginInvariant(b: Block, workers: nat)
    ensures EngineInvariant(b, Begin(b, workers))
  {
    var e := Begin(b, workers);
    forall i | 0 <= i < |b.txs|
      ensures Count(e.stm.sched.queue, i) == 1
      ensures Holders(e.workers, i) == Finishers(e.workers, i) == 0
      ensures SumBelow(e.tally.finished, i) == 0
      ensures BalancedAt(e, |b.txs|, i)
    {
      CountInitial(|b.txs|, i);
      NoWorkers(e.workers, i);
      SumZeros(|b.txs|, i);
    }
    NoBadRuns(b, |b.txs|);
  }

  lemma {:induction false} NoBadRuns(b: Block, i: nat)
    requires i <= |b.txs|
    ensures BadRuns(b, Zeros(|b.txs|), i) == 0
  {
    if i != 0 {
      NoBadRuns(b, i - 1);
    }
  }

  lemma {:induction false} BadRunsIncrement(b: Block, ran: seq<nat>, k: nat, i: nat)
    requires |ran| == |b.txs| && k < |ran| && i <= |ran|
    ensures BadRuns(b, Increment(ran, k), i) == BadRuns(b, ran, i) + if k < i && Bad(b, k) then 1 else 0
  {
    if i != 0 {
      BadRunsIncrement(b, ran, k, i - 1);
    }
  }

  // ---------------------------------------------------------------------------------------------
  // Every step keeps the invariant
  // ---------------------------------------------------------------------------------------------

  lemma FetchKeepsWork(s: Sched, workers: seq<Worker>, w: nat, k: nat)
    requires NoLostWork(s, workers) && s.InRange() && w < |workers| && workers[w].Idle? && k < |s.queue|
    ensures NoLostWork(PopAt(s, k), workers[w := Holding(s.queue[k].txnIdx, s.queue[k].incarnation)])
  {
    var entry, after := s.queue[k], workers[w := Holding(s.queue[k].txnIdx, s.queue[k].incarnation)];
    forall i | 0 <= i < |s.statuses| && PopAt(s, k).statuses[i].Pending?
      ensures Count(PopAt(s, k).queue, i) > 0
    {
      CountPop(s.queue, k, i);
    }
    assert HeldBy(after[w], entry.txnIdx, entry.incarnation);
    forall i | 0 <= i < |s.statuses| && PopAt(s, k).statuses[i].Executing?
      ensures exists v :: 0 <= v < |after| && HeldBy(after[v], i, PopAt(s, k).statuses[i].incarnation)
    {
      if i != entry.txnIdx {
        var v :| 0 <= v < |workers| && HeldBy(workers[v], i, s.statuses[i].incarnation);
        assert HeldBy(after[v], i, s.statuses[i].incarnation);
      }
    }
  }

  lemma FetchKeepsBalance(b: Block, e: Engine, step: Step)
    requires Shaped(|b.txs|, e) && Balanced(|b.txs|, e) && Enabled(e, step) && step.Fetch?
    ensures Shaped(|b.txs|, Do(b, e, step)) && Balanced(|b.txs|, Do(b, e, step))
  {
    var after := Do(b, e, step);
    forall i | 0 <= i < |b.txs|
      ensures BalancedAt(after, |b.txs|, i)
    {
      assert BalancedAt(e, |b.txs|, i);
      CountPop(e.stm.sched.queue, step.position, i);
      WorkerUpdate(e.workers, step.worker, after.workers[step.worker], i);
    }
  }

  lemma FetchKeeps(b: Block, e: Engine, step: Step)
    requires EngineInvariant(b, e) && Enabled(e, step) && step.Fetch?
    ensures EngineInvariant(b, Do(b, e, step))
  {
    FetchKeepsBalance(b, e, step);
    FetchKeepsWork(e.stm.sched, e.workers, step.worker, step.position);
  }

  lemma ReassignKeepsWork(s: Sched, workers: seq<Worker>, w: nat, next: Worker)
    requires NoLostWork(s, workers) && w < |workers| && !workers[w].Idle?
    requires HeldBy(next, workers[w].txnIdx, workers[w].incarnation)
    ensures NoLostWork(s, workers[w := next])
  {
    var after := workers[w := next];
    forall j | 0 <= j < |s.statuses| && s.statuses[j].Executing?
      ensures exists v :: 0 <= v < |after| && HeldBy(after[v], j, s.statuses[j].incarnation)
    {
      var v :| 0 <= v < |workers| && HeldBy(workers[v], j, s.statuses[j].incarnation);
      assert HeldBy(after[v], j, s.statuses[j].incarnation);
    }
  }

  /** Executing against the real map meets what the scheduler demands of a report. */
  lemma SpeculationIsFit(b: Block, mv: MV, i: nat, incarnation: nat)
    requires WellFormed(b, mv) && i < |b.txs|
    ensures var (after, result) := Speculate(b, mv, i, incarnation);
      && WellFormed(b, after) && (result.Permanent? <==> Bad(b, i))
      && AllBelow(Invalidated(result), |b.txs|) && forall j :: j in Invalidated(result) ==> i < j && !Bad(b, j)
  {
    var list := Invalidated(Speculate(b, mv, i, incarnation).1);
    InvalidatedShape(b, mv, i, incarnation);
    assert forall p :: 0 <= p < |list| ==> list[p] in list;
    ExecuteUnfolds(b, mv, i, incarnation);
    ExecuteWellFormed(b, mv, i, incarnation);
  }

  lemma RunKeepsShape(b: Block, e: Engine, step: Step)
    requires Shaped(|b.txs|, e) && WellFormed(b, e.stm.mv) && Enabled(e, step) && step.Run?
    ensures Shaped(|b.txs|, Do(b, e, step)) && WellFormed(b, Do(b, e, step).stm.mv)
    ensures forall j :: j in Invalidated(Do(b, e, step).workers[step.worker].result) ==> !Bad(b, j)
    ensures Do(b, e, step).workers[step.worker].result.Permanent? <==> Bad(b, e.workers[step.worker].txnIdx)
  {
    SpeculationIsFit(b, e.stm.mv, e.workers[step.worker].txnIdx, e.workers[step.worker].incarnation);
  }

  lemma RunKeepsBalance(b: Block, e: Engine, step: Step)
    requires Shaped(|b.txs|, e) && Enabled(e, step) && step.Run? && Shaped(|b.txs|, Do(b, e, step))
    requires Balanced(|b.txs|, e)
    ensures Balanced(|b.txs|, Do(b, e, step))
  {
    var after := Do(b, e, step);
    forall j | 0 <= j < |b.txs|
      ensures BalancedAt(after, |b.txs|, j)
    {
      assert BalancedAt(e, |b.txs|, j);
      WorkerUpdate(e.workers, step.worker, after.workers[step.worker], j);
    }
  }

  lemma RunKeeps(b: Block, e: Engine, step: Step)
    requires EngineInvariant(b, e) && Enabled(e, step) && step.Run?
    ensures EngineInvariant(b, Do(b, e, step))
  {
    RunKeepsShape(b, e, step);
    RunKeepsBalance(b, e, step);
    BadRunsIncrement(b, e.tally.ran, e.workers[step.worker].txnIdx, |b.txs|);
    ReassignKeepsWork(e.stm.sched, e.workers, step.worker, Do(b, e, step).workers[step.worker]);
  }

  /** What the scheduler demands of a report. */
  predicate CanFinish(s: Sched, i: nat, list: seq<nat>) {
    s.InRange() && i < |s.statuses| && AllBelow(list, |s.statuses|)
  }

  lemma FinishInRange(s: Sched, i: nat, incarnation: nat, list: seq<nat>)
    requires CanFinish(s, i, list)
    ensures Finish(s, i, incarnation, list).InRange()
  {
    var aborted := AbortAll(MarkExecuted(s, i, incarnation), list);
    assert forall r :: r in s.queue ==> r.txnIdx < |s.statuses|;
    assert forall p :: 0 <= p < |aborted.queue| ==> aborted.queue[p] in aborted.queue;
  }

  lemma AbortsKeepFrontierOpen(s: Sched, list: seq<nat>, finished: seq<nat>)
    requires FrontierOpen(s, finished) && AllBelow(list, |s.statuses|)
    ensures FrontierOpen(AbortAll(s, list), finished)
  {
  }

  lemma CommitKeepsFrontier(s: Sched, finished: seq<nat>)
    requires FrontierOpen(s, finished)
    ensures FrontierOk(TryCommit(s), finished)
  {
  }

  lemma FinishKeepsFrontier(s: Sched, i: nat, incarnation: nat, list: seq<nat>, finished: seq<nat>)
    requires CanFinish(s, i, list) && FrontierOk(s, finished)
    ensures FrontierOk(Finish(s, i, incarnation, list), Increment(finished, i))
  {
    var marked := MarkExecuted(s, i, incarnation);
    assert FrontierOpen(marked, Increment(finished, i));
    AbortsKeepFrontierOpen(marked, list, Increment(finished, i));
    CommitKeepsFrontier(AbortAll(marked, list), Increment(finished, i));
  }

  lemma FinishKeepsWork(s: Sched, workers: seq<Worker>, w: nat, list: seq<nat>)
    requires w < |workers| && workers[w].Finishing? && CanFinish(s, workers[w].txnIdx, list)
    requires NoLostWork(s, workers)
    ensures NoLostWork(Finish(s, workers[w].txnIdx, workers[w].incarnation, list), workers[w := Idle])
  {
    var after := Finish(s, workers[w].txnIdx, workers[w].incarnation, list);
    var aborted := AbortAll(MarkExecuted(s, workers[w].txnIdx, workers[w].incarnation), list);
    assert after.queue == aborted.queue;
    var others := workers[w := Idle];
    forall j | 0 <= j < |after.statuses| && after.statuses[j].Executing?
      ensures exists v :: 0 <= v < |others| && HeldBy(others[v], j, after.statuses[j].incarnation)
    {
      assert after.statuses[j] == s.statuses[j];
      var v :| 0 <= v < |workers| && HeldBy(workers[v], j, s.statuses[j].incarnation);
      assert HeldBy(others[v], j, after.statuses[j].incarnation);
    }
  }

  lemma ReportKeepsCount(b: Block, e: Engine, step: Step, i: nat)
    requires Shaped(|b.txs|, e) && Enabled(e, step) && step.Report? && Shaped(|b.txs|, Do(b, e, step)) && i < |b.txs|
    ensures Count(Do(b, e, step).stm.sched.queue, i) - Count(e.stm.sched.queue, i)
      == Do(b, e, step).tally.aborts[i] - e.tally.aborts[i]
    ensures Do(b, e, step).tally.aborts[i] > e.tally.aborts[i]
      ==> Do(b, e, step).tally.aborts[i] == e.tally.aborts[i] + 1 && i in Invalidated(e.workers[step.worker].result)
  {
    var worker, s := e.workers[step.worker], e.stm.sched;
    assert Do(b, e, step).stm.sched.queue == AbortAll(Marked(s, worker), Invalidated(worker.result)).queue;
  }

  lemma ReportKeepsTally(b: Block, e: Engine, step: Step, i: nat)
    requires Shaped(|b.txs|, e) && Enabled(e, step) && step.Report? && Shaped(|b.txs|, Do(b, e, step)) && i < |b.txs|
    ensures var after, worker := Do(b, e, step), e.workers[step.worker];
      && after.tally.fetched == e.tally.fetched && after.tally.ran == e.tally.ran
      && after.tally.finished == Increment(e.tally.finished, worker.txnIdx)
      && Holders(after.workers, i) == Holders(e.workers, i)
      && after.tally.finished[i] + Finishers(after.workers, i) == e.tally.finished[i] + Finishers(e.workers, i)
  {
    WorkerUpdate(e.workers, step.worker, Idle, i);
  }

  lemma ReportKeepsBalancedAt(b: Block, e: Engine, step: Step, i: nat)
    requires Shaped(|b.txs|, e) && Enabled(e, step) && step.Report? && Shaped(|b.txs|, Do(b, e, step)) && i < |b.txs|
    requires BalancedAt(e, |b.txs|, i)
    ensures BalancedAt(Do(b, e, step), |b.txs|, i)
  {
    ReportKeepsCount(b, e, step, i);
    ReportKeepsTally(b, e, step, i);
    SumIncrement(e.tally.finished, e.workers[step.worker].txnIdx, i);
  }

  lemma ReportKeepsBalance(b: Block, e: Engine, step: Step)
    requires Shaped(|b.txs|, e) && Enabled(e, step) && step.Report? && Shaped(|b.txs|, Do(b, e, step))
    requires Balanced(|b.txs|, e)
    ensures Balanced(|b.txs|, Do(b, e, step))
  {
    forall i | 0 <= i < |b.txs|
      ensures BalancedAt(Do(b, e, step), |b.txs|, i)
    {
      assert BalancedAt(e, |b.txs|, i);
      ReportKeepsBalancedAt(b, e, step, i);
    }
  }

  lemma ReportKeepsFailures(b: Block, e: Engine, step: Step)
    requires Shaped(|b.txs|, e) && Enabled(e, step) && step.Report? && Shaped(|b.txs|, Do(b, e, step))
    requires FailuresOk(b, e)
    ensures FailuresOk(b, Do(b, e, step))
  {
  }

  lemma ReportKeepsShape(b: Block, e: Engine, step: Step)
    requires Shaped(|b.txs|, e) && Enabled(e, step) && step.Report?
    ensures Shaped(|b.txs|, Do(b, e, step))
  {
    var worker := e.workers[step.worker];
    FinishInRange(e.stm.sched, worker.txnIdx, worker.incarnation, Invalidated(worker.result));
  }

  lemma ReportKeeps(b: Block, e: Engine, step: Step)
    requires EngineInvariant(b, e) && Enabled(e, step) && step.Report?
    ensures EngineInvariant(b, Do(b, e, step))
  {
    var worker, s := e.workers[step.worker], e.stm.sched;
    var list := Invalidated(worker.result);
    ReportKeepsShape(b, e, step);
    FinishKeepsFrontier(s, worker.txnIdx, worker.incarnation, list, e.tally.finished);
    FinishKeepsWork(s, e.workers, step.worker, list);
    ReportKeepsBalance(b, e, step);
    ReportKeepsFailures(b, e, step);
  }

  /** Every step of every worker keeps the invariant. */
  lemma StepKeeps(b: Block, e: Engine, step: Step)
    requires EngineInvariant(b, e) && Enabled(e, step)
    ensures EngineInvariant(b, Do(b, e, step))
  {
    match step
    case Fetch(_, _) => FetchKeeps(b, e, step);
    case Run(_) => RunKeeps(b, e, step);
    case Report(_) => ReportKeeps(b, e, step);
  }
}
