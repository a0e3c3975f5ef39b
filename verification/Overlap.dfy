/**
 Executions that overlap: which steps of several workers keep every finished transaction up to date, and
 that runs of such steps end in the state of the in-order run.
 */
module Overlap {
  import opened Ledger
  import opened MultiVersion
  import opened Scheduling
  import opened Execution
  import opened BlockStm
  import opened Freshness
  import opened Serializability
  import opened EngineSteps
  import opened EngineRuns

  // ---------------------------------------------------------------------------------------------
  // Every transaction is in one place
  // ---------------------------------------------------------------------------------------------

  /** How many workers have transaction `i`. */
  function Having(workers: seq<Worker>, i: nat): nat {
    Holders(workers, i) + Finishers(workers, i)
  }

  /** A pending transaction has one queue entry, an executing one has one worker, any other has neither. */
  predicate InPlace(s: Sched, workers: seq<Worker>, i: nat)
    requires i < |s.statuses|
  {
    && Count(s.queue, i) == (if s.statuses[i].Pending? then 1 else 0)
    && Having(workers, i) == (if s.statuses[i].Executing? then 1 else 0)
    && (s.statuses[i].Committed? <==> i < s.committedIdx)
  }

  ghost predicate Orderly(s: Sched, workers: seq<Worker>) {
    forall i :: 0 <= i < |s.statuses| ==> InPlace(s, workers, i)
  }

  /** A report is calm if it sends no executing transaction back; so is every step that is not a report. */
  ghost predicate Calm(e: Engine, step: Step)
    requires Enabled(e, step)
  {
    step.Report? ==>
      forall j :: j in Invalidated(e.workers[step.worker].result) && j < |e.stm.sched.statuses|
        ==> !e.stm.sched.statuses[j].Executing?
  }

  lemma {:induction false} SomebodyHas(workers: seq<Worker>, w: nat)
    requires w < |workers| && !workers[w].Idle?
    ensures Having(workers, workers[w].txnIdx) > 0
  {
    if w < |workers| - 1 {
      SomebodyHas(workers[..|workers| - 1], w);
    }
  }

  lemma FetchStaysInPlace(s: Sched, workers: seq<Worker>, w: nat, k: nat, i: nat)
    requires s.InRange() && Orderly(s, workers) && i < |s.statuses|
    requires w < |workers| && workers[w].Idle? && k < |s.queue|
    ensures InPlace(PopAt(s, k), workers[w := Holding(s.queue[k].txnIdx, s.queue[k].incarnation)], i)
  {
    var entry := s.queue[k];
    assert InPlace(s, workers, i) && InPlace(s, workers, entry.txnIdx);
    CountPop(s.queue, k, i);
    CountPop(s.queue, k, entry.txnIdx);
    WorkerUpdate(workers, w, Holding(entry.txnIdx, entry.incarnation), i);
  }

  lemma RunStaysInPlace(s: Sched, workers: seq<Worker>, w: nat, result: Result, i: nat)
    requires i < |s.statuses| && InPlace(s, workers, i) && w < |workers| && workers[w].Holding?
    ensures InPlace(s, workers[w := Finishing(workers[w].txnIdx, workers[w].incarnation, result)], i)
  {
    WorkerUpdate(workers, w, Finishing(workers[w].txnIdx, workers[w].incarnation, result), i);
  }

  /** The scheduler once the reporting worker's transaction is marked and its list sent back. */
  function Aborted(s: Sched, worker: Worker): Sched
    requires worker.Finishing? && worker.txnIdx < |s.statuses| && AllBelow(Invalidated(worker.result), |s.statuses|)
  {
    AbortAll(Marked(s, worker), Invalidated(worker.result))
  }

  /** What a report does to one transaction, before the frontier moves. */
  lemma ReportMoves(s: Sched, workers: seq<Worker>, w: nat, i: nat)
    requires Orderly(s, workers) && i < |s.statuses| && w < |workers| && workers[w].Finishing?
    requires workers[w].txnIdx < |s.statuses| && AllBelow(Invalidated(workers[w].result), |s.statuses|)
    requires workers[w].txnIdx !in Invalidated(workers[w].result)
    ensures var t, list, after := workers[w].txnIdx, Invalidated(workers[w].result), Aborted(s, workers[w]);
      && s.statuses[t].Executing? && t >= s.committedIdx
      && Having(workers[w := Idle], i) == Having(workers, i) - (if i == t then 1 else 0)
      && Count(after.queue, i) == Count(s.queue, i) + (if i in list && Abortable(s.statuses[i]) then 1 else 0)
      && (i == t ==> after.statuses[i].Executed?)
      && (i != t ==> after.statuses[i] == if i in list && Abortable(s.statuses[i]) then Pending else s.statuses[i])
  {
    var t := workers[w].txnIdx;
    assert InPlace(s, workers, t) && InPlace(s, workers, i);
    SomebodyHas(workers, w);
    WorkerUpdate(workers, w, Idle, i);
    assert Aborts(Marked(s, workers[w]), Invalidated(workers[w].result), i)
      <==> i in Invalidated(workers[w].result) && Abortable(Marked(s, workers[w]).statuses[i]);
  }

  lemma CommitStaysInPlace(s: Sched, workers: seq<Worker>, i: nat)
    requires s.committedIdx <= |s.statuses| && i < |s.statuses|
    ensures InPlace(TryCommit(s), workers, i) <==> InPlace(s, workers, i)
  {
  }

  lemma ReportStaysInPlace(s: Sched, workers: seq<Worker>, w: nat, i: nat)
    requires Orderly(s, workers) && i < |s.statuses| && w < |workers| && workers[w].Finishing?
    requires s.committedIdx <= |s.statuses|
    requires workers[w].txnIdx < |s.statuses| && AllBelow(Invalidated(workers[w].result), |s.statuses|)
    requires forall j :: j in Invalidated(workers[w].result) ==> workers[w].txnIdx < j
    ensures var worker := workers[w];
      InPlace(Finish(s, worker.txnIdx, worker.incarnation, Invalidated(worker.result)), workers[w := Idle], i)
      <==> !(i in Invalidated(workers[w].result) && s.statuses[i].Executing?)
  {
    assert InPlace(s, workers, i);
    ReportMoves(s, workers, w, i);
    CommitStaysInPlace(Aborted(s, workers[w]), workers[w := Idle], i);
  }

  /** From an orderly state a step leads to an orderly state if and only if it is calm. */
  lemma StepStaysOrderly(b: Block, e: Engine, step: Step)
    requires Shaped(|b.txs|, e) && Orderly(e.stm.sched, e.workers) && Enabled(e, step)
    ensures Orderly(Do(b, e, step).stm.sched, Do(b, e, step).workers) <==> Calm(e, step)
  {
    var s, after := e.stm.sched, Do(b, e, step);
    forall i | 0 <= i < |b.txs|
      ensures InPlace(after.stm.sched, after.workers, i)
        <==> !(step.Report? && i in Invalidated(e.workers[step.worker].result) && s.statuses[i].Executing?)
    {
      assert InPlace(s, e.workers, i);
      match step
      case Fetch(w, k) => FetchStaysInPlace(s, e.workers, w, k, i);
      case Run(w) => RunStaysInPlace(s, e.workers, w, after.workers[w].result, i);
      case Report(w) => ReportStaysInPlace(s, e.workers, w, i);
    }
    if step.Report? && !Calm(e, step) {
      var j :| j in Invalidated(e.workers[step.worker].result) && j < |s.statuses| && s.statuses[j].Executing?;
      assert !InPlace(after.stm.sched, after.workers, j);
    }
  }

  lemma BeginsOrderly(b: Block, workers: nat)
    ensures Orderly(Begin(b, workers).stm.sched, Begin(b, workers).workers)
  {
    var e := Begin(b, workers);
    forall i | 0 <= i < |b.txs|
      ensures InPlace(e.stm.sched, e.workers, i)
    {
      CountInitial(|b.txs|, i);
      NoWorkers(e.workers, i);
    }
  }

  // ---------------------------------------------------------------------------------------------
  // Every finished transaction is up to date, or somebody is about to send it back
  // ---------------------------------------------------------------------------------------------

  predicate ToldBy(worker: Worker, j: nat) {
    worker.Finishing? && j in Invalidated(worker.result)
  }

  /** Some worker has yet to report that `j` must go back. */
  predicate Told(workers: seq<Worker>, j: nat) {
    exists w :: 0 <= w < |workers| && ToldBy(workers[w], j)
  }

  /** `j` has been executed and not been sent back since, whether or not that has been reported. */
  predicate Ran(e: Engine, j: nat) {
    Settled(e.stm, j) || Finishers(e.workers, j) > 0
  }

  /** `j`'s last execution stands: nobody has sent it back or is about to. */
  predicate Stands(e: Engine, j: nat) {
    Ran(e, j) && !Told(e.workers, j)
  }

  /** If `j`'s execution stands, it is up to date. */
  predicate Reliable(b: Block, e: Engine, j: nat)
    requires j < |b.txs|
  {
    Stands(e, j) ==> UpToDate(b, e.stm.mv, j)
  }

  ghost predicate Sound(b: Block, e: Engine) {
    && Orderly(e.stm.sched, e.workers)
    && forall j :: 0 <= j < |b.txs| ==> Reliable(b, e, j)
  }

  /**
   A run that passes its checks disturbs nobody whose execution stands and whom it does not notify; one that
   fails them holds no version, or will be sent back; and a report is calm.
   */
  ghost predicate KeepsSound(b: Block, e: Engine, step: Step)
    requires Shaped(|b.txs|, e) && Enabled(e, step)
  {
    match step
    case Fetch(_, _) => true
    case Run(w) =>
      var i, mv := e.workers[w].txnIdx, e.stm.mv;
      if Succeeds(b, mv, i)
      then forall j :: 0 <= j < |b.txs| && j != i && Stands(e, j) && !Notified(b, mv, i, j) ==> Undisturbed(b, mv, i, j)
      else !Holder(b, mv, i) || Told(e.workers, i)
    case Report(_) => Calm(e, step)
  }

  lemma ToldUpdate(workers: seq<Worker>, w: nat, next: Worker, j: nat)
    requires w < |workers| && !ToldBy(workers[w], j)
    ensures Told(workers[w := next], j) <==> Told(workers, j) || ToldBy(next, j)
  {
    var after := workers[w := next];
    if Told(workers, j) {
      var v :| 0 <= v < |workers| && ToldBy(workers[v], j);
      assert ToldBy(after[v], j);
    }
    if ToldBy(next, j) {
      assert ToldBy(after[w], j);
    }
  }

  lemma FetchAddsNone(b: Block, e: Engine, step: Step, j: nat)
    requires Shaped(|b.txs|, e) && Orderly(e.stm.sched, e.workers) && Enabled(e, step) && step.Fetch?
    requires j < |b.txs| && Stands(Do(b, e, step), j)
    ensures Stands(e, j)
  {
    var entry := e.stm.sched.queue[step.position];
    var next := Holding(entry.txnIdx, entry.incarnation);
    assert InPlace(e.stm.sched, e.workers, j);
    WorkerUpdate(e.workers, step.worker, next, j);
    ToldUpdate(e.workers, step.worker, next, j);
  }

  lemma ReportAddsNone(b: Block, e: Engine, w: nat, j: nat)
    requires Shaped(|b.txs|, e) && Orderly(e.stm.sched, e.workers) && Enabled(e, Report(w)) && Calm(e, Report(w))
    requires j < |b.txs| && Stands(Do(b, e, Report(w)), j)
    ensures Stands(e, j)
  {
    assert InPlace(e.stm.sched, e.workers, j);
    ReportMoves(e.stm.sched, e.workers, w, j);
    WorkerUpdate(e.workers, w, Idle, j);
    if j !in Invalidated(e.workers[w].result) {
      ToldUpdate(e.workers, w, Idle, j);
    }
  }

  /** A calm step that is not a run makes no execution stand that did not stand before. */
  lemma CalmAddsNone(b: Block, e: Engine, step: Step, j: nat)
    requires Shaped(|b.txs|, e) && Orderly(e.stm.sched, e.workers) && Enabled(e, step) && !step.Run? && Calm(e, step)
    requires j < |b.txs|
    ensures Stands(Do(b, e, step), j) ==> Stands(e, j)
    ensures Do(b, e, step).stm.mv == e.stm.mv
  {
    if Stands(Do(b, e, step), j) {
      if step.Fetch? {
        FetchAddsNone(b, e, step, j);
      } else {
        ReportAddsNone(b, e, step.worker, j);
      }
    }
  }

  /** After a run exactly its own transaction and those it does not notify stand, as far as nobody else objects. */
  lemma RunStands(b: Block, e: Engine, w: nat, j: nat)
    requires Shaped(|b.txs|, e) && WellFormed(b, e.stm.mv) && Enabled(e, Run(w)) && j < |b.txs|
    ensures var i, mv := e.workers[w].txnIdx, e.stm.mv;
      && (j == i ==> (Stands(Do(b, e, Run(w)), j) <==> !Told(e.workers, i)))
      && (j != i ==>
            (Stands(Do(b, e, Run(w)), j) <==> Stands(e, j) && !(Succeeds(b, mv, i) && Notified(b, mv, i, j))))
  {
    var next := Do(b, e, Run(w)).workers[w];
    WorkerUpdate(e.workers, w, next, j);
    ToldUpdate(e.workers, w, next, j);
    ReportedExactly(b, e.stm.mv, e.workers[w].txnIdx, e.workers[w].incarnation, j);
  }

  lemma RunOnOwn(b: Block, e: Engine, w: nat)
    requires Shaped(|b.txs|, e) && WellFormed(b, e.stm.mv) && Enabled(e, Run(w))
    ensures var i := e.workers[w].txnIdx;
      Reliable(b, Do(b, e, Run(w)), i) <==> Succeeds(b, e.stm.mv, i) || !Holder(b, e.stm.mv, i) || Told(e.workers, i)
  {
    OwnExactly(b, e.stm.mv, e.workers[w].txnIdx, e.workers[w].incarnation);
    RunStands(b, e, w, e.workers[w].txnIdx);
  }

  lemma RunOnOther(b: Block, e: Engine, w: nat, j: nat)
    requires Shaped(|b.txs|, e) && WellFormed(b, e.stm.mv) && Enabled(e, Run(w))
    requires j < |b.txs| && j != e.workers[w].txnIdx && Reliable(b, e, j)
    ensures var i, mv := e.workers[w].txnIdx, e.stm.mv;
      Reliable(b, Do(b, e, Run(w)), j)
      <==> (Succeeds(b, mv, i) && Stands(e, j) && !Notified(b, mv, i, j) ==> Undisturbed(b, mv, i, j))
  {
    RunStands(b, e, w, j);
    if Stands(e, j) {
      OtherExactly(b, e.stm.mv, e.workers[w].txnIdx, e.workers[w].incarnation, j);
    }
  }

  lemma RunStaysSound(b: Block, e: Engine, w: nat)
    requires Shaped(|b.txs|, e) && WellFormed(b, e.stm.mv) && Sound(b, e) && Enabled(e, Run(w))
    ensures (forall j :: 0 <= j < |b.txs| ==> Reliable(b, Do(b, e, Run(w)), j)) <==> KeepsSound(b, e, Run(w))
  {
    var i, mv := e.workers[w].txnIdx, e.stm.mv;
    RunOnOwn(b, e, w);
    forall j | 0 <= j < |b.txs| && j != i
      ensures Reliable(b, Do(b, e, Run(w)), j)
        <==> (Succeeds(b, mv, i) && Stands(e, j) && !Notified(b, mv, i, j) ==> Undisturbed(b, mv, i, j))
    {
      assert Reliable(b, e, j);
      RunOnOther(b, e, w, j);
    }
  }

  /** From a sound state a step leads to a sound state if and only if it meets the condition. */
  lemma StepStaysSound(b: Block, e: Engine, step: Step)
    requires EngineInvariant(b, e) && Sound(b, e) && Enabled(e, step)
    ensures Sound(b, Do(b, e, step)) <==> KeepsSound(b, e, step)
  {
    StepStaysOrderly(b, e, step);
    if step.Run? {
      RunStaysSound(b, e, step.worker);
    } else if Calm(e, step) {
      forall j | 0 <= j < |b.txs|
        ensures Reliable(b, Do(b, e, step), j)
      {
        assert Reliable(b, e, j);
        CalmAddsNone(b, e, step, j);
      }
    }
  }

  // ---------------------------------------------------------------------------------------------
  // Runs
  // ---------------------------------------------------------------------------------------------

  ghost predicate AllKeepSound(b: Block, workers: nat, steps: seq<Step>)
    requires LegalSteps(b, workers, steps)
    decreases |steps|
  {
    steps == []
    || (AllKeepSound(b, workers, steps[..|steps| - 1])
        && KeepsSound(b, AfterSteps(b, workers, steps[..|steps| - 1]), steps[|steps| - 1]))
  }

  ghost predicate AlwaysSound(b: Block, workers: nat, steps: seq<Step>)
    requires LegalSteps(b, workers, steps)
    decreases |steps|
  {
    Sound(b, AfterSteps(b, workers, steps)) && (steps != [] ==> AlwaysSound(b, workers, steps[..|steps| - 1]))
  }

  lemma SoundNow(b: Block, workers: nat, steps: seq<Step>)
    requires LegalSteps(b, workers, steps) && AlwaysSound(b, workers, steps)
    ensures Sound(b, AfterSteps(b, workers, steps))
  {
  }

  lemma BeginsSound(b: Block, workers: nat)
    ensures Sound(b, Begin(b, workers))
  {
    BeginsOrderly(b, workers);
    forall j | 0 <= j < |b.txs|
      ensures !Ran(Begin(b, workers), j)
    {
      NoWorkers(Begin(b, workers).workers, j);
    }
  }

  /** An interleaving is sound throughout if and only if all its steps meet the condition. */
  lemma {:induction false} InterleavingStaysSound(b: Block, workers: nat, steps: seq<Step>)
    requires LegalSteps(b, workers, steps)
    ensures AlwaysSound(b, workers, steps) <==> AllKeepSound(b, workers, steps)
  {
    if steps == [] {
      BeginsSound(b, workers);
    } else {
      InterleavingStaysSound(b, workers, steps[..|steps| - 1]);
      if AlwaysSound(b, workers, steps[..|steps| - 1]) {
        SoundNow(b, workers, steps[..|steps| - 1]);
        StepStaysSound(b, AfterSteps(b, workers, steps[..|steps| - 1]), steps[|steps| - 1]);
      }
    }
  }

  lemma {:induction false} NobodyHas(workers: seq<Worker>, n: nat)
    requires forall i :: 0 <= i < n ==> Having(workers, i) == 0
    requires forall w :: 0 <= w < |workers| && !workers[w].Idle? ==> workers[w].txnIdx < n
    ensures forall w :: 0 <= w < |workers| ==> workers[w].Idle?
  {
    forall w | 0 <= w < |workers|
      ensures workers[w].Idle?
    {
      if !workers[w].Idle? {
        SomebodyHas(workers, w);
      }
    }
  }

  /** With everything committed no worker has anything, and all executions stand. */
  lemma AllStand(b: Block, e: Engine)
    requires Shaped(|b.txs|, e) && Orderly(e.stm.sched, e.workers) && e.stm.sched.committedIdx == |b.txs|
    ensures forall w :: 0 <= w < |e.workers| ==> e.workers[w].Idle?
    ensures forall j :: 0 <= j < |b.txs| ==> Stands(e, j)
  {
    forall i | 0 <= i < |b.txs|
      ensures Having(e.workers, i) == 0 && Ran(e, i)
    {
      assert InPlace(e.stm.sched, e.workers, i);
    }
    NobodyHas(e.workers, |b.txs|);
  }

  /** A sound state with everything committed holds the in-order run. */
  lemma SoundIsSequential(b: Block, e: Engine)
    requires EngineInvariant(b, e) && Sound(b, e) && e.stm.sched.committedIdx == |b.txs|
    ensures IsInOrderRun(b, e.stm.mv)
    ensures b.initialStates + CommittedStates(e.stm.mv) == SeqRun(b.Policy(), b.initialStates, b.txs).state
  {
    AllStand(b, e);
    forall j | 0 <= j < |b.txs|
      ensures UpToDate(b, e.stm.mv, j)
    {
      assert Reliable(b, e, j) && Stands(e, j);
    }
    MapIsSequential(b, e.stm.mv);
  }

  /**
   Serializability with overlapping executions: any number of workers, interleaved in any way, end in the state
   of the in-order run if all steps meet the condition and everything is committed.
   */
  lemma OverlapSerializable(b: Block, workers: nat, steps: seq<Step>)
    requires LegalSteps(b, workers, steps) && AllKeepSound(b, workers, steps)
    requires AfterSteps(b, workers, steps).stm.sched.committedIdx == |b.txs|
    ensures IsInOrderRun(b, AfterSteps(b, workers, steps).stm.mv)
    ensures b.initialStates + CommittedStates(AfterSteps(b, workers, steps).stm.mv)
      == SeqRun(b.Policy(), b.initialStates, b.txs).state
  {
    InterleavingStaysSound(b, workers, steps);
    SoundNow(b, workers, steps);
    SoundIsSequential(b, AfterSteps(b, workers, steps));
  }

  // ---------------------------------------------------------------------------------------------
  // A simpler condition
  // ---------------------------------------------------------------------------------------------

  /** All reports are calm. */
  ghost predicate AllCalm(b: Block, workers: nat, steps: seq<Step>)
    requires LegalSteps(b, workers, steps)
    decreases |steps|
  {
    steps == []
    || (AllCalm(b, workers, steps[..|steps| - 1])
        && Calm(AfterSteps(b, workers, steps[..|steps| - 1]), steps[|steps| - 1]))
  }

  /** The step does not execute a transaction that holds a version. */
  predicate RunsNoHolder(b: Block, e: Engine, step: Step)
    requires Enabled(e, step)
  {
    step.Run? ==> !Holder(b, e.stm.mv, e.workers[step.worker].txnIdx)
  }

  ghost predicate AllRunNoHolder(b: Block, workers: nat, steps: seq<Step>)
    requires LegalSteps(b, workers, steps)
    decreases |steps|
  {
    steps == []
    || (AllRunNoHolder(b, workers, steps[..|steps| - 1])
        && RunsNoHolder(b, AfterSteps(b, workers, steps[..|steps| - 1]), steps[|steps| - 1]))
  }

  /** Sound, and everybody whose execution stands is registered wherever it reads. */
  ghost predicate Attentive(b: Block, e: Engine) {
    && Orderly(e.stm.sched, e.workers)
    && forall j :: 0 <= j < |b.txs| && Stands(e, j) ==> Consistent(b, e.stm.mv, j)
  }

  lemma NoHolderSpares(b: Block, mv: MV, i: nat, x: Address, j: nat)
    requires i < |b.txs| && j < |b.txs| && !Holder(b, mv, i)
    ensures Spared(b, mv, i, x, j)
  {
    assert Below(HistoryOf(mv, x), j) == Some(i) ==> Holds(mv, x, i);
  }

  lemma RunStaysAttentive(b: Block, e: Engine, w: nat, j: nat)
    requires Shaped(|b.txs|, e) && WellFormed(b, e.stm.mv) && Attentive(b, e) && Enabled(e, Run(w))
    requires !Holder(b, e.stm.mv, e.workers[w].txnIdx) && j < |b.txs| && Stands(Do(b, e, Run(w)), j)
    ensures Consistent(b, Do(b, e, Run(w)).stm.mv, j)
  {
    var i, inc, mv := e.workers[w].txnIdx, e.workers[w].incarnation, e.stm.mv;
    RunStands(b, e, w, j);
    ReportedExactly(b, mv, i, inc, j);
    if j != i {
      NoHolderSpares(b, mv, i, b.txs[j].from, j);
      NoHolderSpares(b, mv, i, b.txs[j].to, j);
      ExecutionKeepsConsistent(b, mv, i, inc, j);
    } else if Speculate(b, mv, i, inc).1.Success? {
      SuccessIsConsistent(b, mv, i, inc);
    } else {
      FailureIsConsistent(b, mv, i, inc);
    }
  }

  lemma StepStaysAttentive(b: Block, e: Engine, step: Step)
    requires EngineInvariant(b, e) && Attentive(b, e) && Enabled(e, step) && Calm(e, step) && RunsNoHolder(b, e, step)
    ensures Attentive(b, Do(b, e, step)) && KeepsSound(b, e, step)
  {
    StepStaysOrderly(b, e, step);
    forall j | 0 <= j < |b.txs| && Stands(Do(b, e, step), j)
      ensures Consistent(b, Do(b, e, step).stm.mv, j)
    {
      if step.Run? {
        RunStaysAttentive(b, e, step.worker, j);
      } else {
        CalmAddsNone(b, e, step, j);
      }
    }
    StepStaysSound(b, e, step);
  }

  /** Calm reports and never executing a version holder again are enough. */
  lemma {:induction false} CalmRunsAreSound(b: Block, workers: nat, steps: seq<Step>)
    requires LegalSteps(b, workers, steps) && AllCalm(b, workers, steps) && AllRunNoHolder(b, workers, steps)
    ensures Attentive(b, AfterSteps(b, workers, steps)) && AllKeepSound(b, workers, steps)
  {
    if steps == [] {
      BeginsAttentive(b, workers);
    } else {
      CalmRunsAreSound(b, workers, steps[..|steps| - 1]);
      StepStaysAttentive(b, AfterSteps(b, workers, steps[..|steps| - 1]), steps[|steps| - 1]);
    }
  }

  lemma BeginsAttentive(b: Block, workers: nat)
    ensures Attentive(b, Begin(b, workers))
  {
    BeginsOrderly(b, workers);
    forall j | 0 <= j < |b.txs|
      ensures !Ran(Begin(b, workers), j)
    {
      NoWorkers(Begin(b, workers).workers, j);
    }
  }

  // ---------------------------------------------------------------------------------------------
  // Commits
  // ---------------------------------------------------------------------------------------------

  predicate CommitsStay(s: Sched, after: Sched) {
    && |after.statuses| == |s.statuses| && s.committedIdx <= after.committedIdx
    && forall i :: 0 <= i < |s.statuses| && s.statuses[i].Committed? ==> after.statuses[i].Committed?
  }

  /** The step neither fetches an entry of a committed transaction nor reports for one. */
  predicate LeavesCommitsAlone(e: Engine, step: Step)
    requires Enabled(e, step) && e.stm.sched.InRange()
    requires step.Report? ==> e.workers[step.worker].txnIdx < |e.stm.sched.statuses|
  {
    match step
    case Fetch(_, k) => !e.stm.sched.statuses[e.stm.sched.queue[k].txnIdx].Committed?
    case Run(_) => true
    case Report(w) => !e.stm.sched.statuses[e.workers[w].txnIdx].Committed?
  }

  lemma ReportKeepsCommits(s: Sched, worker: Worker, finished: seq<nat>)
    requires FrontierOpen(s, finished) && worker.Finishing? && worker.txnIdx < |s.statuses|
    requires AllBelow(Invalidated(worker.result), |s.statuses|)
    ensures CommitsStay(s, Finish(s, worker.txnIdx, worker.incarnation, Invalidated(worker.result)))
      <==> !s.statuses[worker.txnIdx].Committed?
  {
    var aborted := AbortAll(Marked(s, worker), Invalidated(worker.result));
    assert forall i ::
      0 <= i < |s.statuses| && s.statuses[i].Committed? && i != worker.txnIdx ==> aborted.statuses[i].Committed?;
    assert s.statuses[worker.txnIdx].Committed? ==> !aborted.statuses[worker.txnIdx].Committed?;
  }

  /** A step keeps all commits if and only if it leaves committed transactions alone. */
  lemma StepKeepsCommits(b: Block, e: Engine, step: Step)
    requires EngineInvariant(b, e) && Enabled(e, step)
    ensures CommitsStay(e.stm.sched, Do(b, e, step).stm.sched) <==> LeavesCommitsAlone(e, step)
  {
    if step.Report? {
      ReportKeepsCommits(e.stm.sched, e.workers[step.worker], e.tally.finished);
    }
  }

  lemma OrderlyLeavesCommits(b: Block, e: Engine, step: Step)
    requires Shaped(|b.txs|, e) && Orderly(e.stm.sched, e.workers) && Enabled(e, step)
    ensures LeavesCommitsAlone(e, step)
  {
    match step
    case Fetch(_, k) =>
      var entry := e.stm.sched.queue[k];
      assert InPlace(e.stm.sched, e.workers, entry.txnIdx) && entry in e.stm.sched.queue;
      CountPositive(e.stm.sched.queue, entry.txnIdx);
    case Run(_) =>
    case Report(w) =>
      assert InPlace(e.stm.sched, e.workers, e.workers[w].txnIdx);
      SomebodyHas(e.workers, w);
  }

  lemma {:induction false} CalmRunsAreOrderly(b: Block, workers: nat, steps: seq<Step>)
    requires LegalSteps(b, workers, steps) && AllCalm(b, workers, steps)
    ensures Orderly(AfterSteps(b, workers, steps).stm.sched, AfterSteps(b, workers, steps).workers)
  {
    if steps == [] {
      BeginsOrderly(b, workers);
    } else {
      CalmRunsAreOrderly(b, workers, steps[..|steps| - 1]);
      StepStaysOrderly(b, AfterSteps(b, workers, steps[..|steps| - 1]), steps[|steps| - 1]);
    }
  }

  /** As long as no report has sent an executing transaction back, commits are stable. */
  lemma CalmRunsKeepCommits(b: Block, workers: nat, steps: seq<Step>, step: Step)
    requires LegalSteps(b, workers, steps) && AllCalm(b, workers, steps)
    requires Enabled(AfterSteps(b, workers, steps), step)
    ensures CommitsStay(AfterSteps(b, workers, steps).stm.sched, Do(b, AfterSteps(b, workers, steps), step).stm.sched)
  {
    CalmRunsAreOrderly(b, workers, steps);
    OrderlyLeavesCommits(b, AfterSteps(b, workers, steps), step);
    StepKeepsCommits(b, AfterSteps(b, workers, steps), step);
  }
}
