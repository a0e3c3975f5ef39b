/**
 The engine's success counter against the in-order run: a block on which it reports too many, and the
 workloads on which it is right.
 */
module EngineCounts {
  import opened Ledger
  import opened Execution
  import opened BlockStm
  import opened Serializability
  import opened EngineSteps
  import opened EngineRuns
  import FdbThreads
  import FdbProgress
  import OneWorker
  import Workloads
  import Mdbx

  // ---------------------------------------------------------------------------------------------
  // Where the counter is right
  // ---------------------------------------------------------------------------------------------

  /** The block as a list of transfers for the database executors. */
  function AsList(b: Block): FdbThreads.Config {
    FdbThreads.Config(b.txs, b.initialStates, b.verifySignatures, [])
  }

  lemma {:induction false} AcceptedAndBad(b: Block, k: nat)
    requires k <= |b.txs|
    ensures |FdbProgress.AcceptedBelow(AsList(b), k)| + BadCount(b, k) == k
  {
    if k != 0 {
      AcceptedAndBad(b, k - 1);
      FdbProgress.AcceptedBelowNext(AsList(b), k - 1);
    } else {
      assert FdbProgress.AcceptedBelow(AsList(b), 0) == {};
    }
  }

  lemma RulesAgree(b: Block)
    requires FdbProgress.Ample(AsList(b))
    ensures SeqRun(AsList(b).Policy(), b.initialStates, b.txs) == SeqRun(b.Policy(), b.initialStates, b.txs)
  {
    forall tx | tx in b.txs && Accepted(AsList(b).Policy(), tx)
      ensures tx.from in b.initialStates
    {
      var i :| 0 <= i < |b.txs| && b.txs[i] == tx;
      assert FdbThreads.AcceptedAt(AsList(b), i);
    }
    SenderRuleIrrelevant(b.verifySignatures, b.initialStates, b.txs);
  }

  lemma DisciplinedFailures(b: Block)
    requires FdbProgress.Disciplined(AsList(b)) && FdbProgress.Ample(AsList(b))
    ensures FailedBelow(b, |b.txs|) == BadCount(b, |b.txs|)
  {
    FdbProgress.SequentialCounts(AsList(b));
    RulesAgree(b);
    SeqRunCounts(b.Policy(), b.initialStates, b.txs);
    AcceptedAndBad(b, |b.txs|);
    assert FdbThreads.AcceptedSet(AsList(b)) == FdbProgress.AcceptedBelow(AsList(b), |b.txs|);
    assert b.txs[..|b.txs|] == b.txs;
  }

  /**
   If each sender's accepted nonces count up from its initial one and it can pay for all it sends, the in-order
   run applies every accepted transaction, whichever way missing senders are treated.
   */
  lemma DisciplinedAllApply(b: Block)
    requires FdbProgress.Disciplined(AsList(b)) && FdbProgress.Ample(AsList(b))
    ensures AllApply(b, |b.txs|)
  {
    DisciplinedFailures(b);
    SequentialFailuresExactly(b, |b.txs|);
    SkippedNone(b, |b.txs|);
  }

  /**
   On generated workloads every complete interleaving reports n successes and no failure. That says nothing about
   the state: module Overtaken has such an interleaving with a transfer missing from it.
   */
  lemma GeneratedIsCounted(b: Block, accounts: seq<Address>, workers: nat, steps: seq<Step>)
    requires Workloads.Generated(accounts, b.txs) && |b.txs| < U64_MODULUS && b.initialStates == Mdbx.Funded(accounts)
    requires LegalSteps(b, workers, steps) && AfterSteps(b, workers, steps).stm.sched.committedIdx == |b.txs|
    ensures AfterSteps(b, workers, steps).failCount == 0
    ensures SeqRun(b.Policy(), b.initialStates, b.txs).successful == |b.txs|
  {
    Workloads.AllAccepted(AsList(b), accounts);
    Workloads.GeneratedIsDisciplined(AsList(b), accounts);
    Workloads.GeneratedIsAmple(AsList(b), accounts);
    DisciplinedAllApply(b);
    FailureCount(b, workers, steps);
    NoneBad(b, |b.txs|);
    ReportedSuccesses(b, workers, steps);
  }

  lemma {:induction false} NoneBad(b: Block, i: nat)
    requires i <= |b.txs| && forall j: nat :: j < |b.txs| ==> FdbThreads.AcceptedAt(AsList(b), j)
    ensures BadCount(b, i) == 0
  {
    if i != 0 {
      NoneBad(b, i - 1);
      assert FdbThreads.AcceptedAt(AsList(b), i - 1);
    }
  }

  // ---------------------------------------------------------------------------------------------
  // Where it is not
  // ---------------------------------------------------------------------------------------------

  const A: Address := 0
  const B: Address := 1

  /** One well-signed transaction whose nonce never comes up. */
  const STUCK := Block([Transaction(A, B, 1, 1, Some(A))], map[A := Account(0, 10)], true)

  /** It is retried, never again notified, committed, and reported as a success. */
  lemma RetryCountsAsSuccess() returns (steps: seq<Step>)
    ensures LegalSteps(STUCK, 1, steps)
    ensures var e := AfterSteps(STUCK, 1, steps);
      e.stm.sched.committedIdx == |STUCK.txs| == 1 && |STUCK.txs| - e.failCount == 1
    ensures SeqRun(STUCK.Policy(), STUCK.initialStates, STUCK.txs).successful == 0
  {
    OneWorker.StartsProgressed(STUCK);
    OneWorker.FrontStep(STUCK, Start(STUCK), 0);
    StuckRun();
    AtomicIsInterleaving(STUCK, [0]);
    steps := InTurn([0]);
    FailureCount(STUCK, 1, steps);
    assert !Bad(STUCK, 0) && BadCount(STUCK, 0) == 0;
    assert STUCK.txs[..0] == [];
  }

  lemma StuckRun()
    requires OneWorker.Progressed(STUCK, Start(STUCK), 0)
    requires OneWorker.Progressed(STUCK, AtomicStep(STUCK, Start(STUCK), 0), 1)
    ensures Legal(STUCK, [0]) && After(STUCK, [0]).sched.committedIdx == 1
  {
    assert [0][..0] == [];
    assert Legal(STUCK, []) && After(STUCK, []) == Start(STUCK);
  }
}
