/**
 Two workers on a generated block: the first execution of a transaction is sent back while its worker has yet
 to report it, is overtaken by the second, and its late report commits what the second would have sent back.
 */
module Overtaken {
  import opened Ledger
  import opened Mdbx
  import opened MultiVersion
  import opened Scheduling
  import opened Execution
  import opened BlockStm
  import opened EngineSteps
  import opened EngineRuns
  import opened Overlap
  import opened Scripts
  import DisjointParties
  import EngineCounts
  import Workloads

  const A: Address := 0
  const B: Address := 1
  const C: Address := 2
  const D: Address := 3

  const ACCOUNTS: seq<Address> := [A, B, C, D]

  const T0 := Transaction(A, B, 1, 0, Some(A))
  const T1 := Transaction(A, C, 1, 1, Some(A))
  const T2 := Transaction(A, D, 1, 2, Some(A))

  const BLOCK := Block([T0, T1, T2], Funded(ACCOUNTS), true)

  const START := Account(0, INITIAL_BALANCE)
  const SENT1 := Account(1, INITIAL_BALANCE - 1)
  const SENT2 := Account(2, INITIAL_BALANCE - 2)
  const GOT1 := Account(0, INITIAL_BALANCE + 1)

  /** All fetches take the front of the queue. The second worker has T1 from the second step to the tenth. */
  const STEPS := [Fetch(0, 0), Fetch(1, 0), Run(1), Run(0), Report(0), Fetch(0, 0),
                  Run(0), Report(0), Fetch(0, 0), Report(1), Run(0), Report(0)]

  // ---------------------------------------------------------------------------------------------
  // The map
  // ---------------------------------------------------------------------------------------------

  function Entry(i: nat, incarnation: nat, state: Account, readers: seq<nat>): VersionedEntry {
    VersionedEntry(Version(i, incarnation), state, readers)
  }

  /** T1 found its nonce too high. */
  function MV1(): MV {
    MV(map[], map[A := [1]])
  }

  /** T0 has read. */
  function MV1Read(): MV {
    MV(map[], map[A := [1, 0], B := [0]])
  }

  /** T0 has written, and T2 found its nonce too high if it is registered. */
  function MV2(readers: seq<nat>): MV {
    MV(map[A := map[0 := Entry(0, 0, SENT1, readers)], B := map[0 := Entry(0, 0, GOT1, [])]],
       map[A := [1, 0], B := [0]])
  }

  /** T1 has read, for the second time. */
  function MV2Read(): MV {
    MV2([2, 1]).(storageReaders := map[A := [1, 0], B := [0], C := [1]])
  }

  /** T1 has written. */
  function MV3(): MV {
    MV(map[A := map[0 := Entry(0, 0, SENT1, [2, 1]), 1 := Entry(1, 1, SENT2, [])],
           B := map[0 := Entry(0, 0, GOT1, [])], C := map[1 := Entry(1, 1, GOT1, [])]],
       map[A := [1, 0], B := [0], C := [1]])
  }

  lemma Transfers()
    ensures !Passes(START, T1) && !Passes(SENT1, T2)
    ensures Passes(START, T0) && Debited(START, T0) == SENT1 && Credited(START, T0) == GOT1
    ensures Passes(SENT1, T1) && Debited(SENT1, T1) == SENT2 && Credited(START, T1) == GOT1
    ensures Passes(SENT2, T2)
  {
  }

  lemma Retry1()
    ensures Speculate(BLOCK, EMPTY, 1, 0) == (MV1(), Retry)
  {
    Transfers();
    SpeculateRetries(BLOCK, EMPTY, 1, 0);
    assert Recorded(EMPTY, A, 1).storageReaders[A] == [1];
  }

  lemma Reads0()
    ensures AfterReads(BLOCK, MV1(), 0) == MV1Read()
    ensures View(BLOCK, MV1(), A, 0) == View(BLOCK, Recorded(MV1(), A, 0), B, 0) == START
  {
    var first := Recorded(MV1(), A, 0);
    assert first.storageReaders[A] == [1, 0];
    var second := Recorded(first, B, 0);
    assert second.storageReaders[B] == [0];
    assert second.storageReaders == MV1Read().storageReaders;
  }

  lemma Writes0()
    ensures WithWrite(WithWrite(MV1Read(), A, 0, 0, SENT1), B, 0, 0, GOT1) == MV2([])
  {
    var one := WithWrite(MV1Read(), A, 0, 0, SENT1);
    assert one.data[A] == MV2([]).data[A];
    assert WithWrite(one, B, 0, 0, GOT1).data[B] == MV2([]).data[B];
  }

  lemma Reports0()
    ensures SortDedup(Invalidates(MV1Read(), A, 0) + Invalidates(WithWrite(MV1Read(), A, 0, 0, SENT1), B, 0)) == [1]
  {
    AboveLast([], 1, 0);
    AboveLast([1], 0, 0);
    AboveLast([], 0, 0);
    assert [] + [1] == [1] && [1] + [0] == [1, 0] && [] + [0] == [0];
    assert ReadersAt(MV1Read(), A, 0) == [1, 0];
    assert ReadersAt(WithWrite(MV1Read(), A, 0, 0, SENT1), B, 0) == [0];
    SortedSingleton(SortDedup([1]), 1);
  }

  lemma Success0()
    ensures Speculate(BLOCK, MV1(), 0, 0) == (MV2([]), Success([1]))
  {
    Transfers();
    Reads0();
    Writes0();
    Reports0();
    SpeculateWrites(BLOCK, MV1(), 0, 0, Recorded(MV1(), A, 0), MV1Read(), SENT1, GOT1);
  }

  lemma Retry2()
    ensures Speculate(BLOCK, MV2([]), 2, 0) == (MV2([2]), Retry)
  {
    Transfers();
    Sees(MV2([]).data[A], 0, 2);
    NextReader(MV2([]), A, 2, 0);
    assert [] + [2] == [2] && View(BLOCK, MV2([]), A, 2) == SENT1;
    assert Recorded(MV2([]), A, 2).data[A] == MV2([2]).data[A];
    assert Recorded(MV2([]), A, 2).data == MV2([2]).data;
    SpeculateRetries(BLOCK, MV2([]), 2, 0);
  }

  lemma Reads1()
    ensures AfterReads(BLOCK, MV2([2]), 1) == MV2Read()
    ensures View(BLOCK, MV2([2]), A, 1) == SENT1 && View(BLOCK, Recorded(MV2([2]), A, 1), C, 1) == START
  {
    Sees(MV2([2]).data[A], 0, 1);
    NextReader(MV2([2]), A, 1, 0);
    assert [2] + [1] == [2, 1];
    var first := Recorded(MV2([2]), A, 1);
    assert first.data[A] == MV2([2, 1]).data[A];
    var second := Recorded(first, C, 1);
    assert second.storageReaders[C] == [1];
    assert second.storageReaders == MV2Read().storageReaders;
  }

  lemma Writes1()
    ensures WithWrite(WithWrite(MV2Read(), A, 1, 1, SENT2), C, 1, 1, GOT1) == MV3()
  {
    var one := WithWrite(MV2Read(), A, 1, 1, SENT2);
    assert one.data[A] == MV3().data[A];
    assert WithWrite(one, C, 1, 1, GOT1).data[C] == MV3().data[C];
  }

  lemma Reports1()
    ensures SortDedup(Invalidates(MV2Read(), A, 1) + Invalidates(WithWrite(MV2Read(), A, 1, 1, SENT2), C, 1)) == [2]
  {
    AboveLast([], 2, 1);
    AboveLast([2], 1, 1);
    AboveLast([], 1, 1);
    assert [] + [2] == [2] && [2] + [1] == [2, 1] && [] + [1] == [1];
    assert ReadersAt(MV2Read(), A, 1) == [2, 1];
    assert ReadersAt(WithWrite(MV2Read(), A, 1, 1, SENT2), C, 1) == [1];
    SortedSingleton(SortDedup([2]), 2);
  }

  lemma Success1()
    ensures Speculate(BLOCK, MV2([2]), 1, 1) == (MV3(), Success([2]))
  {
    Transfers();
    Reads1();
    Writes1();
    Reports1();
    SpeculateWrites(BLOCK, MV2([2]), 1, 1, Recorded(MV2([2]), A, 1), MV2Read(), SENT2, GOT1);
  }

  // ---------------------------------------------------------------------------------------------
  // The scheduler
  // ---------------------------------------------------------------------------------------------

  const HANDED1 := Sched([Executing(0), Pending, Pending], [Ready(1, 0), Ready(2, 0)], 0, 0, false)
  const HANDED2 := Sched([Executing(0), Executing(0), Pending], [Ready(2, 0)], 0, 0, false)
  const SENTBACK := Sched([Committed, Pending, Pending], [Ready(2, 0), Ready(1, 1)], 1, 1, false)
  const HANDED3 := Sched([Committed, Pending, Executing(0)], [Ready(1, 1)], 1, 1, false)
  const RETRIED := Sched([Committed, Pending, Executed(0)], [Ready(1, 1)], 1, 2, false)
  const HANDED4 := Sched([Committed, Executing(1), Executed(0)], [], 1, 2, false)
  const TOOEARLY := Sched([Committed, Committed, Committed], [], 3, 3, true)
  const UNDONE := Sched([Committed, Executed(1), Committed], [], 3, 3, true)

  lemma Handed()
    ensures PopAt(Initial(3), 0) == HANDED1 && PopAt(HANDED1, 0) == HANDED2
    ensures PopAt(SENTBACK, 0) == HANDED3 && PopAt(RETRIED, 0) == HANDED4
  {
    assert PopAt(Initial(3), 0).statuses == HANDED1.statuses && PopAt(Initial(3), 0).queue == HANDED1.queue;
  }

  const ABORTED := Sched([Executed(0), Pending, Pending], [Ready(2, 0), Ready(1, 1)], 0, 1, false)

  lemma AbortOnly(s: Sched, i: nat)
    requires i < |s.statuses|
    ensures AbortAll(s, [i]) == Abort(s, i)
  {
    assert [i][..0] == [];
  }

  lemma FirstAbort()
    ensures AbortAll(MarkExecuted(HANDED2, 0, 0), [1]) == ABORTED
  {
    var marked := MarkExecuted(HANDED2, 0, 0);
    assert marked.statuses == [Executed(0), Executing(0), Pending];
    AbortOnly(marked, 1);
  }

  lemma FirstReport()
    ensures Finish(HANDED2, 0, 0, [1]) == SENTBACK
  {
    FirstAbort();
    CommitOne(ABORTED);
    assert ABORTED.statuses[0 := Committed] == SENTBACK.statuses;
  }

  lemma SecondReport()
    ensures Finish(HANDED3, 2, 0, []) == RETRIED
  {
    assert MarkExecuted(HANDED3, 2, 0) == RETRIED;
  }

  lemma LateReport()
    ensures Finish(HANDED4, 1, 0, []) == TOOEARLY
  {
    var marked := MarkExecuted(HANDED4, 1, 0);
    assert marked == Sched([Committed, Executed(0), Executed(0)], [], 1, 3, false);
    var one := Sched([Committed, Committed, Executed(0)], [], 2, 3, false);
    CommitOne(marked);
    CommitOne(one);
    assert one.statuses == marked.statuses[1 := Committed];
    assert one.statuses[2 := Committed] == TOOEARLY.statuses;
  }

  lemma LastReport()
    ensures Finish(TOOEARLY, 1, 1, [2]) == UNDONE
  {
    var marked := MarkExecuted(TOOEARLY, 1, 1);
    assert marked == UNDONE;
    AbortOnly(marked, 2);
  }

  // ---------------------------------------------------------------------------------------------
  // The run
  // ---------------------------------------------------------------------------------------------

  const LATE := Finishing(1, 0, Retry)

  lemma NoHolders()
    ensures !Holder(BLOCK, EMPTY, 1) && !Holder(BLOCK, MV1(), 0)
    ensures !Holder(BLOCK, MV2([]), 2) && !Holder(BLOCK, MV2([2]), 1)
  {
  }

  lemma OneHanded()
    ensures LeadsTo(BLOCK, 2, STEPS, 1, Stm(EMPTY, HANDED1), [Holding(0, 0), Idle])
    ensures NoHolderUntil(BLOCK, 2, STEPS, 1)
  {
    Handed();
    LeadsFromStart(BLOCK, 2, STEPS);
    NoHolderFromStart(BLOCK, 2, STEPS);
    assert Begin(BLOCK, 2).workers == [Idle, Idle];
    ScriptNoHolder(BLOCK, 2, STEPS, 0, Stm(EMPTY, Initial(3)), [Idle, Idle]);
    ScriptFetch(BLOCK, 2, STEPS, 0, Stm(EMPTY, Initial(3)), [Idle, Idle], HANDED1, [Holding(0, 0), Idle]);
  }

  const BOTH := [Holding(0, 0), Holding(1, 0)]

  lemma BothHanded()
    ensures LeadsTo(BLOCK, 2, STEPS, 2, Stm(EMPTY, HANDED2), BOTH)
    ensures NoHolderUntil(BLOCK, 2, STEPS, 2)
  {
    OneHanded();
    Handed();
    ScriptNoHolder(BLOCK, 2, STEPS, 1, Stm(EMPTY, HANDED1), [Holding(0, 0), Idle]);
    ScriptFetch(BLOCK, 2, STEPS, 1, Stm(EMPTY, HANDED1), [Holding(0, 0), Idle], HANDED2, BOTH);
  }

  const TOLD1 := Finishing(0, 0, Success([1]))
  const TRIED2 := Finishing(2, 0, Retry)
  const TOLD2 := Finishing(1, 1, Success([2]))

  lemma FirstTry()
    ensures LeadsTo(BLOCK, 2, STEPS, 3, Stm(MV1(), HANDED2), [Holding(0, 0), LATE])
    ensures NoHolderUntil(BLOCK, 2, STEPS, 3)
  {
    NoHolders();
    BothHanded();
    Retry1();
    ScriptNoHolder(BLOCK, 2, STEPS, 2, Stm(EMPTY, HANDED2), BOTH);
    ScriptRun(BLOCK, 2, STEPS, 2, Stm(EMPTY, HANDED2), BOTH, MV1(), Retry, [Holding(0, 0), LATE]);
  }

  lemma FirstSuccessQuiet()
    ensures NoHolderUntil(BLOCK, 2, STEPS, 4)
  {
    NoHolders();
    FirstTry();
    ScriptNoHolder(BLOCK, 2, STEPS, 3, Stm(MV1(), HANDED2), [Holding(0, 0), LATE]);
  }

  lemma FirstSuccess()
    ensures LeadsTo(BLOCK, 2, STEPS, 4, Stm(MV2([]), HANDED2), [TOLD1, LATE])
  {
    FirstTry();
    Success0();
    FirstSuccessFrom(MV1(), MV2([]));
  }

  lemma FirstShape()
    ensures STEPS[3] == Run(0) && [Holding(0, 0), LATE][0] == Holding(0, 0)
    ensures [Holding(0, 0), LATE][0 := TOLD1] == [TOLD1, LATE]
  {
  }

  lemma FirstSuccessFrom(mv: MV, after: MV)
    requires LeadsTo(BLOCK, 2, STEPS, 3, Stm(mv, HANDED2), [Holding(0, 0), LATE])
    requires Speculate(BLOCK, mv, 0, 0) == (after, Success([1]))
    ensures LeadsTo(BLOCK, 2, STEPS, 4, Stm(after, HANDED2), [TOLD1, LATE])
  {
    FirstShape();
    ScriptRun(BLOCK, 2, STEPS, 3, Stm(mv, HANDED2), [Holding(0, 0), LATE], after, Success([1]), [TOLD1, LATE]);
  }

  lemma SentBack()
    ensures LeadsTo(BLOCK, 2, STEPS, 5, Stm(MV2([]), SENTBACK), [Idle, LATE])
    ensures NoHolderUntil(BLOCK, 2, STEPS, 5)
  {
    FirstSuccess();
    FirstSuccessQuiet();
    FirstReport();
    ScriptNoHolder(BLOCK, 2, STEPS, 4, Stm(MV2([]), HANDED2), [TOLD1, LATE]);
    ScriptReport(BLOCK, 2, STEPS, 4, Stm(MV2([]), HANDED2), [TOLD1, LATE], SENTBACK, [Idle, LATE]);
  }

  lemma ThirdHanded()
    ensures LeadsTo(BLOCK, 2, STEPS, 6, Stm(MV2([]), HANDED3), [Holding(2, 0), LATE])
    ensures NoHolderUntil(BLOCK, 2, STEPS, 6)
  {
    SentBack();
    Handed();
    ScriptNoHolder(BLOCK, 2, STEPS, 5, Stm(MV2([]), SENTBACK), [Idle, LATE]);
    ScriptFetch(BLOCK, 2, STEPS, 5, Stm(MV2([]), SENTBACK), [Idle, LATE], HANDED3, [Holding(2, 0), LATE]);
  }

  lemma ThirdTried()
    ensures LeadsTo(BLOCK, 2, STEPS, 7, Stm(MV2([2]), HANDED3), [TRIED2, LATE])
    ensures NoHolderUntil(BLOCK, 2, STEPS, 7)
  {
    NoHolders();
    ThirdHanded();
    Retry2();
    ScriptNoHolder(BLOCK, 2, STEPS, 6, Stm(MV2([]), HANDED3), [Holding(2, 0), LATE]);
    ScriptRun(BLOCK, 2, STEPS, 6, Stm(MV2([]), HANDED3), [Holding(2, 0), LATE], MV2([2]), Retry, [TRIED2, LATE]);
  }

  lemma Retried()
    ensures LeadsTo(BLOCK, 2, STEPS, 8, Stm(MV2([2]), RETRIED), [Idle, LATE])
    ensures NoHolderUntil(BLOCK, 2, STEPS, 8)
  {
    ThirdTried();
    SecondReport();
    ScriptNoHolder(BLOCK, 2, STEPS, 7, Stm(MV2([2]), HANDED3), [TRIED2, LATE]);
    ScriptReport(BLOCK, 2, STEPS, 7, Stm(MV2([2]), HANDED3), [TRIED2, LATE], RETRIED, [Idle, LATE]);
  }

  lemma HandedAgain()
    ensures LeadsTo(BLOCK, 2, STEPS, 9, Stm(MV2([2]), HANDED4), [Holding(1, 1), LATE])
    ensures NoHolderUntil(BLOCK, 2, STEPS, 9)
  {
    Retried();
    Handed();
    ScriptNoHolder(BLOCK, 2, STEPS, 8, Stm(MV2([2]), RETRIED), [Idle, LATE]);
    ScriptFetch(BLOCK, 2, STEPS, 8, Stm(MV2([2]), RETRIED), [Idle, LATE], HANDED4, [Holding(1, 1), LATE]);
  }

  lemma CommittedTooEarly()
    ensures LeadsTo(BLOCK, 2, STEPS, 10, Stm(MV2([2]), TOOEARLY), [Holding(1, 1), Idle])
    ensures NoHolderUntil(BLOCK, 2, STEPS, 10)
  {
    HandedAgain();
    LateReport();
    ScriptNoHolder(BLOCK, 2, STEPS, 9, Stm(MV2([2]), HANDED4), [Holding(1, 1), LATE]);
    ScriptReport(BLOCK, 2, STEPS, 9, Stm(MV2([2]), HANDED4), [Holding(1, 1), LATE], TOOEARLY, [Holding(1, 1), Idle]);
  }

  lemma LastShape()
    ensures STEPS[10] == Run(0) && [Holding(1, 1), Idle][0] == Holding(1, 1)
    ensures [Holding(1, 1), Idle][0 := TOLD2] == [TOLD2, Idle]
  {
  }

  lemma LastSuccessQuiet()
    ensures NoHolderUntil(BLOCK, 2, STEPS, 11)
  {
    NoHolders();
    CommittedTooEarly();
    ScriptNoHolder(BLOCK, 2, STEPS, 10, Stm(MV2([2]), TOOEARLY), [Holding(1, 1), Idle]);
  }

  lemma LastSuccessFrom(mv: MV, after: MV)
    requires LeadsTo(BLOCK, 2, STEPS, 10, Stm(mv, TOOEARLY), [Holding(1, 1), Idle])
    requires Speculate(BLOCK, mv, 1, 1) == (after, Success([2]))
    ensures LeadsTo(BLOCK, 2, STEPS, 11, Stm(after, TOOEARLY), [TOLD2, Idle])
  {
    LastShape();
    ScriptRun(BLOCK, 2, STEPS, 10, Stm(mv, TOOEARLY), [Holding(1, 1), Idle], after, Success([2]), [TOLD2, Idle]);
  }

  lemma LastSuccess()
    ensures LeadsTo(BLOCK, 2, STEPS, 11, Stm(MV3(), TOOEARLY), [TOLD2, Idle])
  {
    CommittedTooEarly();
    Success1();
    LastSuccessFrom(MV2([2]), MV3());
  }

  lemma Ended()
    ensures LeadsTo(BLOCK, 2, STEPS, 12, Stm(MV3(), UNDONE), [Idle, Idle])
    ensures NoHolderUntil(BLOCK, 2, STEPS, 12)
  {
    LastSuccess();
    LastSuccessQuiet();
    LastReport();
    ScriptNoHolder(BLOCK, 2, STEPS, 11, Stm(MV3(), TOOEARLY), [TOLD2, Idle]);
    ScriptReport(BLOCK, 2, STEPS, 11, Stm(MV3(), TOOEARLY), [TOLD2, Idle], UNDONE, [Idle, Idle]);
  }

  // ---------------------------------------------------------------------------------------------
  // What is wrong with it
  // ---------------------------------------------------------------------------------------------

  lemma BlockIsGenerated()
    ensures Workloads.Generated(ACCOUNTS, BLOCK.txs)
  {
    assert BLOCK.txs[..1] == [] + [T0] && BLOCK.txs[..2] == [T0] + [T1];
    Workloads.OneMoreSent([], T0, A);
    Workloads.OneMoreSent([T0], T1, A);
    forall i | 0 <= i < 3
      ensures Workloads.WellMade(ACCOUNTS, BLOCK.txs, i)
    {
    }
  }

  lemma BlockIsDisjoint()
    ensures DisjointParties.Disjoint(BLOCK) && DisjointParties.Consecutive(BLOCK)
  {
    assert DisjointParties.AcceptedFrom(BLOCK, A, 0) == 0;
    assert DisjointParties.AcceptedFrom(BLOCK, A, 1) == 1;
    assert DisjointParties.AcceptedFrom(BLOCK, A, 2) == 2;
    assert Lookup(BLOCK.initialStates, A) == START;
  }

  lemma SenderAfter(st: State, tx: Transaction)
    requires Passes(Lookup(st, tx.from), tx) && tx.from != tx.to
    ensures Lookup(Transfer(st, tx), tx.from) == Debited(Lookup(st, tx.from), tx)
  {
  }

  lemma NextNonce(before: seq<Transaction>, tx: Transaction)
    requires tx.SignatureValid() && tx.from == A && tx.to != A
    requires var st := SeqRun(BLOCK.Policy(), BLOCK.initialStates, before).state;
      Passes(Lookup(st, A), tx)
    ensures Lookup(SeqRun(BLOCK.Policy(), BLOCK.initialStates, before + [tx]).state, A)
      == Debited(Lookup(SeqRun(BLOCK.Policy(), BLOCK.initialStates, before).state, A), tx)
  {
    assert (before + [tx])[..|before|] == before;
    SenderAfter(SeqRun(BLOCK.Policy(), BLOCK.initialStates, before).state, tx);
  }

  lemma InOrderNonce()
    ensures Lookup(SeqRun(BLOCK.Policy(), BLOCK.initialStates, BLOCK.txs).state, A).nonce == 3
  {
    Transfers();
    assert SeqRun(BLOCK.Policy(), BLOCK.initialStates, []).state == BLOCK.initialStates;
    assert A in ACCOUNTS && Lookup(BLOCK.initialStates, A) == START;
    NextNonce([], T0);
    NextNonce([] + [T0], T1);
    NextNonce(([] + [T0]) + [T1], T2);
    assert (([] + [T0]) + [T1]) + [T2] == BLOCK.txs;
  }

  lemma CollectedNonce()
    ensures Lookup(BLOCK.initialStates + CommittedStates(MV3()), A).nonce == 2
  {
    var h := MV3().data[A];
    assert 1 in h;
    assert Greatest(h) == 1;
  }

  lemma RunEnds()
    ensures LegalSteps(BLOCK, 2, STEPS) && AllRunNoHolder(BLOCK, 2, STEPS)
    ensures Reached(BLOCK, 2, STEPS, Stm(MV3(), UNDONE), [Idle, Idle])
  {
    Ended();
    WholeScript(BLOCK, 2, STEPS, Stm(MV3(), UNDONE), [Idle, Idle]);
    assert IsPrefix(STEPS, STEPS, 12);
  }

  lemma StatesDiffer()
    ensures BLOCK.initialStates + CommittedStates(MV3()) != SeqRun(BLOCK.Policy(), BLOCK.initialStates, BLOCK.txs).state
  {
    InOrderNonce();
    CollectedNonce();
  }

  lemma WrongIsUnsound(b: Block, workers: nat, steps: seq<Step>)
    requires LegalSteps(b, workers, steps) && AfterSteps(b, workers, steps).stm.sched.committedIdx == |b.txs|
    requires b.initialStates + CommittedStates(AfterSteps(b, workers, steps).stm.mv)
      != SeqRun(b.Policy(), b.initialStates, b.txs).state
    ensures !AllKeepSound(b, workers, steps)
  {
    if AllKeepSound(b, workers, steps) {
      OverlapSerializable(b, workers, steps);
    }
  }

  /** The generator makes this block, and nobody in it both sends and receives. */
  lemma BlockIsInnocent()
    ensures Workloads.Generated(ACCOUNTS, BLOCK.txs)
    ensures BLOCK.initialStates == Funded(ACCOUNTS) && BLOCK.verifySignatures
    ensures DisjointParties.Disjoint(BLOCK) && DisjointParties.Consecutive(BLOCK)
    ensures TakesFront(STEPS)
  {
    BlockIsGenerated();
    BlockIsDisjoint();
  }

  /**
   The run commits the whole block, leaves nothing queued or held, never executes a version holder, and reports
   three successes; but one of the three transfers is missing from the collected states.
   */
  lemma MissingTransfer()
    ensures LegalSteps(BLOCK, 2, STEPS) && AllRunNoHolder(BLOCK, 2, STEPS)
    ensures var e := AfterSteps(BLOCK, 2, STEPS);
      && e.stm.sched.committedIdx == |BLOCK.txs| && e.stm.sched.queue == [] && e.workers == [Idle, Idle]
      && |BLOCK.txs| - e.failCount == 3
      && BLOCK.initialStates + CommittedStates(e.stm.mv)
         != SeqRun(BLOCK.Policy(), BLOCK.initialStates, BLOCK.txs).state
    ensures !AllKeepSound(BLOCK, 2, STEPS)
  {
    RunEnds();
    StatesDiffer();
    BlockIsInnocent();
    EngineCounts.GeneratedIsCounted(BLOCK, ACCOUNTS, 2, STEPS);
    WrongIsUnsound(BLOCK, 2, STEPS);
  }

  /** In the same run a committed transaction is executing again and ends as executed. */
  lemma CommitUndone()
    ensures LegalSteps(BLOCK, 2, STEPS[..10]) && LegalSteps(BLOCK, 2, STEPS)
    ensures AfterSteps(BLOCK, 2, STEPS[..10]).stm.sched.statuses[1] == Committed
    ensures AfterSteps(BLOCK, 2, STEPS).stm.sched.statuses[1] == Executed(1)
  {
    CommittedTooEarly();
    assert IsPrefix(STEPS[..10], STEPS, 10);
    Ended();
    WholeScript(BLOCK, 2, STEPS, Stm(MV3(), UNDONE), [Idle, Idle]);
  }
}
