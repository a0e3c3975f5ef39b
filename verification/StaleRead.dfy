/**
 A block on which the engine ends in a stale state: re-executing a version holder replaces its version
 together with the readers registered on it, so a later reader is never told.
 */
module StaleRead {
  import opened Ledger
  import opened Mdbx
  import opened MultiVersion
  import opened Scheduling
  import opened Execution
  import opened BlockStm
  import opened Serializability
  import opened EngineSteps
  import opened EngineRuns
  import opened Scripts
  import Workloads

  const A: Address := 0
  const B: Address := 1

  const T0 := Transaction(B, A, 1, 0, Some(B))
  const T1 := Transaction(A, B, 1, 0, Some(A))
  const T2 := Transaction(A, B, 1, 1, Some(A))

  const BLOCK := Block([T0, T1, T2], Funded([A, B]), true)

  // What T1, T2 and T0 leave at their accounts, and T1 when it is executed again.
  const A1 := Account(1, INITIAL_BALANCE - 1)
  const B1 := Account(0, INITIAL_BALANCE + 1)
  const A2 := Account(2, INITIAL_BALANCE - 2)
  const B2 := Account(0, INITIAL_BALANCE + 2)
  const A0 := Account(0, INITIAL_BALANCE + 1)
  const B0 := Account(1, INITIAL_BALANCE - 1)
  const A1AGAIN := Account(1, INITIAL_BALANCE)
  const B1AGAIN := Account(1, INITIAL_BALANCE)

  function Entry(i: nat, incarnation: nat, state: Account, readers: seq<nat>): VersionedEntry {
    VersionedEntry(Version(i, incarnation), state, readers)
  }

  function TwoAccounts(a: History, b: History, aReaders: seq<nat>, bReaders: seq<nat>): MV {
    MV(map[A := a, B := b], map[A := aReaders, B := bReaders])
  }

  /** After T1 has read. */
  function MV0(): MV {
    MV(map[], map[A := [1], B := [1]])
  }

  /** After T1. */
  function MV1(readers: seq<nat>): MV {
    TwoAccounts(map[1 := Entry(1, 0, A1, readers)], map[1 := Entry(1, 0, B1, readers)], [1], [1])
  }

  /** After T1, T2: T2 is registered on T1's versions only. */
  function MV2(storageReaders: seq<nat>): MV {
    TwoAccounts(map[1 := Entry(1, 0, A1, [2]), 2 := Entry(2, 0, A2, [])],
                map[1 := Entry(1, 0, B1, [2]), 2 := Entry(2, 0, B2, [])], storageReaders, storageReaders)
  }

  /** After T1, T2, T0: T1 is reported and sent back. */
  function MV3(readers: seq<nat>): MV {
    TwoAccounts(map[0 := Entry(0, 0, A0, readers), 1 := Entry(1, 0, A1, [2]), 2 := Entry(2, 0, A2, [])],
                map[0 := Entry(0, 0, B0, readers), 1 := Entry(1, 0, B1, [2]), 2 := Entry(2, 0, B2, [])],
                [1, 0], [1, 0])
  }

  /** After T1, T2, T0, T1: T2's registration is gone. */
  function MV4(): MV {
    TwoAccounts(map[0 := Entry(0, 0, A0, [1]), 1 := Entry(1, 1, A1AGAIN, []), 2 := Entry(2, 0, A2, [])],
                map[0 := Entry(0, 0, B0, [1]), 1 := Entry(1, 1, B1AGAIN, []), 2 := Entry(2, 0, B2, [])],
                [1, 0], [1, 0])
  }

  /** What the four executions make of the accounts they see. */
  lemma Transfers()
    ensures var start := Account(0, INITIAL_BALANCE);
      && Passes(start, T0) && Debited(start, T0) == B0 && Credited(start, T0) == A0
      && Passes(start, T1) && Debited(start, T1) == A1 && Credited(start, T1) == B1
    ensures Passes(A1, T2) && Debited(A1, T2) == A2 && Credited(B1, T2) == B2
    ensures Passes(A0, T1) && Debited(A0, T1) == A1AGAIN && Credited(B0, T1) == B1AGAIN
  {
  }

  lemma Reads1()
    ensures AfterReads(BLOCK, EMPTY, 1) == MV0()
  {
    var m1 := Recorded(EMPTY, A, 1);
    assert m1.storageReaders[A] == [1];
    assert Recorded(m1, B, 1).storageReaders == MV0().storageReaders;
  }

  lemma Writes1()
    ensures WithWrite(WithWrite(MV0(), A, 1, 0, A1), B, 1, 0, B1) == MV1([])
    ensures SortDedup(Invalidates(MV0(), A, 1) + Invalidates(WithWrite(MV0(), A, 1, 0, A1), B, 1)) == []
  {
    AboveLast([], 1, 1);
    assert [] + [1] == [1];
    assert WithWrite(WithWrite(MV0(), A, 1, 0, A1), B, 1, 0, B1).data == MV1([]).data;
  }

  lemma Views1()
    ensures View(BLOCK, EMPTY, A, 1) == Account(0, INITIAL_BALANCE)
    ensures View(BLOCK, Recorded(EMPTY, A, 1), B, 1) == Account(0, INITIAL_BALANCE)
  {
  }

  lemma Map1()
    ensures Speculate(BLOCK, EMPTY, 1, 0) == (MV1([]), Success([]))
  {
    Transfers();
    Views1();
    Reads1();
    Writes1();
    SpeculateWrites(BLOCK, EMPTY, 1, 0, Recorded(EMPTY, A, 1), MV0(), A1, B1);
  }

  /** MV1 after the first of T2's reads. */
  function MV1Read(): MV {
    MV1([]).(data := MV1([]).data[A := MV1([2]).data[A]])
  }

  lemma ReadsA2()
    ensures Recorded(MV1([]), A, 2) == MV1Read()
  {
    assert [] + [2] == [2];
    Sees(MV1([]).data[A], 1, 2);
    NextReader(MV1([]), A, 2, 1);
    assert Recorded(MV1([]), A, 2).data[A] == MV1([2]).data[A];
  }

  lemma ReadsB2()
    ensures Recorded(MV1Read(), B, 2) == MV1([2])
  {
    assert [] + [2] == [2];
    Sees(MV1Read().data[B], 1, 2);
    NextReader(MV1Read(), B, 2, 1);
    assert Recorded(MV1Read(), B, 2).data[B] == MV1([2]).data[B];
  }

  lemma Reads2()
    ensures AfterReads(BLOCK, MV1([]), 2) == MV1([2])
  {
    ReadsA2();
    ReadsB2();
  }

  lemma Writes2()
    ensures WithWrite(WithWrite(MV1([2]), A, 2, 0, A2), B, 2, 0, B2) == MV2([1])
  {
    var m3 := WithWrite(MV1([2]), A, 2, 0, A2);
    assert m3.data[A] == MV2([1]).data[A];
    var m4 := WithWrite(m3, B, 2, 0, B2);
    assert m4.data[B] == MV2([1]).data[B];
  }

  lemma Map2()
    ensures Speculate(BLOCK, MV1([]), 2, 0) == (MV2([1]), Success([]))
  {
    Transfers();
    Views2();
    Reads2();
    Writes2();
    Reports2();
    SpeculateWrites(BLOCK, MV1([]), 2, 0, Recorded(MV1([]), A, 2), MV1([2]), A2, B2);
  }

  lemma Views2()
    ensures View(BLOCK, MV1([]), A, 2) == A1
    ensures View(BLOCK, Recorded(MV1([]), A, 2), B, 2) == B1
  {
  }

  lemma Reports2()
    ensures SortDedup(Invalidates(MV1([2]), A, 2)
      + Invalidates(WithWrite(MV1([2]), A, 2, 0, A2), B, 2)) == []
  {
    assert Invalidates(MV1([2]), A, 2) == [];
    assert Invalidates(WithWrite(MV1([2]), A, 2, 0, A2), B, 2) == [];
  }

  lemma Reads3()
    ensures AfterReads(BLOCK, MV2([1]), 0) == MV2([1, 0])
  {
    var m1 := Recorded(MV2([1]), B, 0);
    assert m1.storageReaders[B] == [1, 0];
    var m2 := Recorded(m1, A, 0);
    assert m2.storageReaders[A] == [1, 0];
    assert m2.storageReaders == MV2([1, 0]).storageReaders;
  }

  lemma Writes3()
    ensures WithWrite(WithWrite(MV2([1, 0]), B, 0, 0, B0), A, 0, 0, A0) == MV3([])
  {
    var m3 := WithWrite(MV2([1, 0]), B, 0, 0, B0);
    assert m3.data[B] == MV3([]).data[B];
    var m4 := WithWrite(m3, A, 0, 0, A0);
    assert m4.data[A] == MV3([]).data[A];
  }

  lemma Map3()
    ensures Speculate(BLOCK, MV2([1]), 0, 0) == (MV3([]), Success([1]))
  {
    Transfers();
    Views3();
    Reads3();
    Writes3();
    Reports3();
    SpeculateWrites(BLOCK, MV2([1]), 0, 0, Recorded(MV2([1]), B, 0), MV2([1, 0]), B0, A0);
  }

  lemma Views3()
    ensures View(BLOCK, MV2([1]), B, 0) == Account(0, INITIAL_BALANCE)
    ensures View(BLOCK, Recorded(MV2([1]), B, 0), A, 0) == Account(0, INITIAL_BALANCE)
  {
  }

  lemma Reports3()
    ensures SortDedup(Invalidates(MV2([1, 0]), B, 0)
      + Invalidates(WithWrite(MV2([1, 0]), B, 0, 0, B0), A, 0)) == [1]
  {
    OneAboveZero();
    OneTwice([1] + [1]);
    assert ReadersAt(MV2([1, 0]), B, 0) == [1, 0];
    assert ReadersAt(WithWrite(MV2([1, 0]), B, 0, 0, B0), A, 0) == [1, 0];
  }

  lemma OneAboveZero()
    ensures Above([1, 0], 0) == [1]
  {
    AboveLast([1], 0, 0);
    AboveLast([], 1, 0);
  }

  lemma OneTwice(twice: seq<nat>)
    requires twice == [1] + [1]
    ensures SortDedup(twice) == [1]
  {
    SortedSingleton(SortDedup(twice), 1);
  }

  /** MV3 after the first of the two reads. */
  function MV3Read(): MV {
    MV3([]).(data := MV3([]).data[A := MV3([1]).data[A]])
  }

  lemma ReadsA4()
    ensures Recorded(MV3([]), A, 1) == MV3Read()
  {
    assert [] + [1] == [1];
    Sees(MV3([]).data[A], 0, 1);
    NextReader(MV3([]), A, 1, 0);
    assert Recorded(MV3([]), A, 1).data[A] == MV3([1]).data[A];
  }

  lemma ReadsB4()
    ensures Recorded(MV3Read(), B, 1) == MV3([1])
  {
    assert [] + [1] == [1];
    Sees(MV3Read().data[B], 0, 1);
    NextReader(MV3Read(), B, 1, 0);
    assert Recorded(MV3Read(), B, 1).data[B] == MV3([1]).data[B];
  }

  lemma Reads4()
    ensures AfterReads(BLOCK, MV3([]), 1) == MV3([1])
  {
    ReadsA4();
    ReadsB4();
  }

  lemma Writes4()
    ensures WithWrite(WithWrite(MV3([1]), A, 1, 1, A1AGAIN), B, 1, 1, B1AGAIN) == MV4()
  {
    var m3 := WithWrite(MV3([1]), A, 1, 1, A1AGAIN);
    assert m3.data[A] == MV4().data[A];
    var m4 := WithWrite(m3, B, 1, 1, B1AGAIN);
    assert m4.data[B] == MV4().data[B];
  }

  lemma Map4()
    ensures Speculate(BLOCK, MV3([]), 1, 1) == (MV4(), Success([]))
  {
    Transfers();
    Views4();
    Reads4();
    Writes4();
    Reports4();
    SpeculateWrites(BLOCK, MV3([]), 1, 1, Recorded(MV3([]), A, 1), MV3([1]), A1AGAIN, B1AGAIN);
  }

  lemma Views4()
    ensures View(BLOCK, MV3([]), A, 1) == A0
    ensures View(BLOCK, Recorded(MV3([]), A, 1), B, 1) == B0
  {
  }

  lemma Reports4()
    ensures SortDedup(Invalidates(MV3([1]), A, 1)
      + Invalidates(WithWrite(MV3([1]), A, 1, 1, A1AGAIN), B, 1)) == []
  {
    assert Invalidates(MV3([1]), A, 1) == [];
    assert Invalidates(WithWrite(MV3([1]), A, 1, 1, A1AGAIN), B, 1) == [];
  }

  const SCHED1 := Sched([Pending, Executed(0), Pending], [Ready(0, 0), Ready(2, 0)], 0, 1, false)
  const SCHED2 := Sched([Pending, Executed(0), Executed(0)], [Ready(0, 0)], 0, 2, false)
  const SCHED3 := Sched([Committed, Pending, Executed(0)], [Ready(1, 1)], 1, 3, false)
  const SCHED4 := Sched([Committed, Committed, Committed], [], 3, 3, true)

  lemma Schedule1()
    ensures Finish(PopAt(Initial(3), 1), 1, 0, []) == SCHED1
  {
    assert PopAt(Initial(3), 1).queue == SCHED1.queue;
    assert MarkExecuted(PopAt(Initial(3), 1), 1, 0).statuses == SCHED1.statuses;
  }

  lemma Schedule2()
    ensures Finish(PopAt(SCHED1, 1), 2, 0, []) == SCHED2
  {
    assert PopAt(SCHED1, 1).queue == SCHED2.queue;
    assert MarkExecuted(PopAt(SCHED1, 1), 2, 0).statuses == SCHED2.statuses;
  }

  const ABORTED := Sched([Executed(0), Pending, Executed(0)], [Ready(1, 1)], 0, 3, false)

  lemma Abort3()
    ensures AbortAll(MarkExecuted(PopAt(SCHED2, 0), 0, 0), [1]) == ABORTED
  {
    var marked := MarkExecuted(PopAt(SCHED2, 0), 0, 0);
    assert marked.statuses == [Executed(0), Executed(0), Executed(0)] && marked.queue == [];
    assert Abort(marked, 1) == ABORTED;
    assert [1][..0] == [];
  }

  lemma Schedule3()
    ensures Finish(PopAt(SCHED2, 0), 0, 0, [1]) == SCHED3
  {
    Abort3();
    assert SCHED3.statuses == ABORTED.statuses[0 := Committed];
    assert TryCommit(ABORTED) == SCHED3;
  }

  lemma Schedule4()
    ensures Finish(PopAt(SCHED3, 0), 1, 1, []) == SCHED4
  {
    var marked := MarkExecuted(PopAt(SCHED3, 0), 1, 1);
    assert marked == Sched([Committed, Executed(1), Executed(0)], [], 1, 3, false);
    var one := marked.(statuses := [Committed, Committed, Executed(0)], committedIdx := 2);
    assert one.statuses == marked.statuses[1 := Committed];
    assert TryCommit(marked) == TryCommit(one);
    assert SCHED4.statuses == one.statuses[2 := Committed];
  }

  /** The workload generator makes this block: well signed, of value 1, with counted nonces. */
  lemma BlockIsGenerated()
    ensures Workloads.Generated([A, B], BLOCK.txs)
  {
    assert [T0, T1, T2][..1] == [] + [T0] && [T0, T1, T2][..2] == [T0] + [T1];
    Workloads.OneMoreSent([], T0, A);
    Workloads.OneMoreSent([T0], T1, A);
    forall i | 0 <= i < 3
      ensures Workloads.WellMade([A, B], BLOCK.txs, i)
    {
    }
  }

  /**
   The block is executed in the order 1, 2, 0, 1. Every step is a legal one, everything is committed, and
   the balance collected for A is one below the balance that the in-order run leaves.
   */
  lemma StaleState()
    ensures Workloads.Generated([A, B], BLOCK.txs) && BLOCK.initialStates == Funded([A, B]) && BLOCK.verifySignatures
    ensures Legal(BLOCK, [1, 1, 0, 0])
    ensures var s := After(BLOCK, [1, 1, 0, 0]);
      && s.sched.committedIdx == |BLOCK.txs|
      && BLOCK.initialStates + CommittedStates(s.mv) != SeqRun(BLOCK.Policy(), BLOCK.initialStates, BLOCK.txs).state
    ensures !AllHarmless(BLOCK, [1, 1, 0, 0])
  {
    BlockIsGenerated();
    RunTo4();
    StatesDiffer();
    if AllHarmless(BLOCK, [1, 1, 0, 0]) {
      Serializable(BLOCK, [1, 1, 0, 0]);
    }
  }

  lemma RunTo1()
    ensures Legal(BLOCK, [1]) && After(BLOCK, [1]) == Stm(MV1([]), SCHED1)
  {
    Map1();
    Schedule1();
    assert Start(BLOCK).sched == Initial(3) && InitialQueue(3)[1] == Ready(1, 0);
    assert [] + [1] == [1];
    Extend(BLOCK, [], 1, Success([]), Stm(MV1([]), SCHED1));
  }

  lemma RunTo2()
    ensures Legal(BLOCK, [1, 1]) && After(BLOCK, [1, 1]) == Stm(MV2([1]), SCHED2)
  {
    assert [1] + [1] == [1, 1];
    assert SCHED1.queue[1] == Ready(2, 0);
    RunTo1();
    Map2();
    Schedule2();
    Extend(BLOCK, [1], 1, Success([]), Stm(MV2([1]), SCHED2));
  }

  lemma RunTo3()
    ensures Legal(BLOCK, [1, 1, 0]) && After(BLOCK, [1, 1, 0]) == Stm(MV3([]), SCHED3)
  {
    assert [1, 1] + [0] == [1, 1, 0];
    assert SCHED2.queue[0] == Ready(0, 0);
    RunTo2();
    Map3();
    Schedule3();
    Extend(BLOCK, [1, 1], 0, Success([1]), Stm(MV3([]), SCHED3));
  }

  lemma RunTo4()
    ensures Legal(BLOCK, [1, 1, 0, 0]) && After(BLOCK, [1, 1, 0, 0]) == Stm(MV4(), SCHED4)
  {
    assert [1, 1, 0] + [0] == [1, 1, 0, 0];
    assert SCHED3.queue[0] == Ready(1, 1);
    RunTo3();
    Map4();
    Schedule4();
    Extend(BLOCK, [1, 1, 0], 0, Success([]), Stm(MV4(), SCHED4));
  }

  // ---------------------------------------------------------------------------------------------
  // The same order with two workers that take the front of the queue
  // ---------------------------------------------------------------------------------------------

  /** The first worker has T0 while the second executes T1 and T2. */
  const STEPS := [Fetch(0, 0), Fetch(1, 0), Run(1), Report(1), Fetch(1, 0), Run(1), Report(1),
                  Run(0), Report(0), Fetch(0, 0), Run(0), Report(0)]

  const HELD0 := Holding(0, 0)

  const HANDED1 := Sched([Executing(0), Pending, Pending], [Ready(1, 0), Ready(2, 0)], 0, 0, false)
  const HANDED2 := Sched([Executing(0), Executing(0), Pending], [Ready(2, 0)], 0, 0, false)
  const RAN1 := Sched([Executing(0), Executed(0), Pending], [Ready(2, 0)], 0, 1, false)
  const HANDED3 := Sched([Executing(0), Executed(0), Executing(0)], [], 0, 1, false)
  const RAN2 := Sched([Executing(0), Executed(0), Executed(0)], [], 0, 2, false)
  const HANDED4 := Sched([Committed, Executing(1), Executed(0)], [], 1, 3, false)

  lemma HandedOut()
    ensures PopAt(Initial(3), 0) == HANDED1 && PopAt(HANDED1, 0) == HANDED2
    ensures PopAt(RAN1, 0) == HANDED3 && PopAt(SCHED3, 0) == HANDED4
  {
    assert PopAt(Initial(3), 0).statuses == HANDED1.statuses && PopAt(Initial(3), 0).queue == HANDED1.queue;
  }

  lemma ReportedBack()
    ensures Finish(HANDED2, 1, 0, []) == RAN1 && Finish(HANDED3, 2, 0, []) == RAN2
  {
    assert MarkExecuted(HANDED2, 1, 0) == RAN1 && MarkExecuted(HANDED3, 2, 0) == RAN2;
  }

  lemma ReportedLast()
    ensures Finish(RAN2, 0, 0, [1]) == SCHED3
  {
    Schedule3();
    assert MarkExecuted(RAN2, 0, 0) == MarkExecuted(PopAt(SCHED2, 0), 0, 0);
  }

  lemma LastReported()
    ensures Finish(HANDED4, 1, 1, []) == SCHED4
  {
    HandedOut();
    Schedule4();
  }

  lemma BothHeld()
    ensures LeadsTo(BLOCK, 2, STEPS, 2, Stm(EMPTY, HANDED2), [HELD0, Holding(1, 0)])
  {
    HandedOut();
    LeadsFromStart(BLOCK, 2, STEPS);
    assert Begin(BLOCK, 2).workers == [Idle, Idle];
    ScriptFetch(BLOCK, 2, STEPS, 0, Stm(EMPTY, Initial(3)), [Idle, Idle], HANDED1, [HELD0, Idle]);
    ScriptFetch(BLOCK, 2, STEPS, 1, Stm(EMPTY, HANDED1), [HELD0, Idle], HANDED2, [HELD0, Holding(1, 0)]);
  }

  /** Worker `w` runs what it holds and reports it. */
  lemma ServeFrom(k: nat, w: nat, i: nat, incarnation: nat, held: seq<Worker>,
                  mv: MV, after: MV, result: Result, s: Sched, next: Sched)
    requires k + 1 < |STEPS| && STEPS[k] == Run(w) && STEPS[k + 1] == Report(w)
    requires w < |held| && held[w] == Holding(i, incarnation) && LeadsTo(BLOCK, 2, STEPS, k, Stm(mv, s), held)
    requires i < |BLOCK.txs| && Speculate(BLOCK, mv, i, incarnation) == (after, result)
    requires s.committedIdx <= |s.statuses| && i < |s.statuses| && AllBelow(Invalidated(result), |s.statuses|)
    requires Finish(s, i, incarnation, Invalidated(result)) == next
    ensures LeadsTo(BLOCK, 2, STEPS, k + 2, Stm(after, next), held[w := Idle])
  {
    ScriptServe(BLOCK, 2, STEPS, k, Stm(mv, s), held, after, result, next);
  }

  lemma FirstRunShape()
    ensures STEPS[2] == Run(1) && STEPS[3] == Report(1)
    ensures [HELD0, Holding(1, 0)][1] == Holding(1, 0) && [HELD0, Holding(1, 0)][1 := Idle] == [HELD0, Idle]
  {
  }

  lemma FirstRun()
    ensures LeadsTo(BLOCK, 2, STEPS, 4, Stm(MV1([]), RAN1), [HELD0, Idle])
  {
    BothHeld();
    Map1();
    ReportedBack();
    FirstRunShape();
    ServeFrom(2, 1, 1, 0, [HELD0, Holding(1, 0)], EMPTY, MV1([]), Success([]), HANDED2, RAN1);
  }

  lemma SecondHeld()
    ensures LeadsTo(BLOCK, 2, STEPS, 5, Stm(MV1([]), HANDED3), [HELD0, Holding(2, 0)])
  {
    FirstRun();
    HandedOut();
    ScriptFetch(BLOCK, 2, STEPS, 4, Stm(MV1([]), RAN1), [HELD0, Idle], HANDED3, [HELD0, Holding(2, 0)]);
  }

  lemma SecondRunShape()
    ensures STEPS[5] == Run(1) && STEPS[6] == Report(1)
    ensures [HELD0, Holding(2, 0)][1] == Holding(2, 0) && [HELD0, Holding(2, 0)][1 := Idle] == [HELD0, Idle]
  {
  }

  lemma SecondRun()
    ensures LeadsTo(BLOCK, 2, STEPS, 7, Stm(MV2([1]), RAN2), [HELD0, Idle])
  {
    SecondHeld();
    Map2();
    ReportedBack();
    SecondRunShape();
    ServeFrom(5, 1, 2, 0, [HELD0, Holding(2, 0)], MV1([]), MV2([1]), Success([]), HANDED3, RAN2);
  }

  lemma ThirdRunShape()
    ensures STEPS[7] == Run(0) && STEPS[8] == Report(0)
    ensures [HELD0, Idle][0] == Holding(0, 0) && [HELD0, Idle][0 := Idle] == [Idle, Idle]
  {
  }

  lemma ThirdRunFrom(mv: MV, after: MV, result: Result, s: Sched, next: Sched)
    requires LeadsTo(BLOCK, 2, STEPS, 7, Stm(mv, s), [HELD0, Idle])
    requires Speculate(BLOCK, mv, 0, 0) == (after, result) && AllBelow(Invalidated(result), 3)
    requires s.committedIdx <= |s.statuses| == 3 && Finish(s, 0, 0, Invalidated(result)) == next
    ensures LeadsTo(BLOCK, 2, STEPS, 9, Stm(after, next), [Idle, Idle])
  {
    ThirdRunShape();
    ServeFrom(7, 0, 0, 0, [HELD0, Idle], mv, after, result, s, next);
  }

  lemma ThirdRun()
    ensures LeadsTo(BLOCK, 2, STEPS, 9, Stm(MV3([]), SCHED3), [Idle, Idle])
  {
    SecondRun();
    Map3();
    ReportedLast();
    ThirdRunFrom(MV2([1]), MV3([]), Success([1]), RAN2, SCHED3);
  }

  lemma HeldAgain()
    ensures LeadsTo(BLOCK, 2, STEPS, 10, Stm(MV3([]), HANDED4), [Holding(1, 1), Idle])
  {
    ThirdRun();
    HandedOut();
    ScriptFetch(BLOCK, 2, STEPS, 9, Stm(MV3([]), SCHED3), [Idle, Idle], HANDED4, [Holding(1, 1), Idle]);
  }

  lemma LastRunShape()
    ensures STEPS[10] == Run(0) && STEPS[11] == Report(0)
    ensures [Holding(1, 1), Idle][0] == Holding(1, 1) && [Holding(1, 1), Idle][0 := Idle] == [Idle, Idle]
  {
  }

  lemma LastRun()
    ensures LeadsTo(BLOCK, 2, STEPS, 12, Stm(MV4(), SCHED4), [Idle, Idle])
  {
    HeldAgain();
    Map4();
    LastReported();
    LastRunShape();
    ServeFrom(10, 0, 1, 1, [Holding(1, 1), Idle], MV3([]), MV4(), Success([]), HANDED4, SCHED4);
  }

  /** Two workers that always take the front of the queue reach the same stale state. */
  lemma StaleWithTwoWorkers()
    ensures LegalSteps(BLOCK, 2, STEPS)
    ensures TakesFront(STEPS)
    ensures var e := AfterSteps(BLOCK, 2, STEPS);
      && e.stm.sched.committedIdx == |BLOCK.txs| && e.stm.sched.queue == [] && e.workers == [Idle, Idle]
      && BLOCK.initialStates + CommittedStates(e.stm.mv)
         != SeqRun(BLOCK.Policy(), BLOCK.initialStates, BLOCK.txs).state
  {
    TwoWorkersTakeFront();
    TwoWorkersEnd();
    StatesDiffer();
  }

  lemma TwoWorkersTakeFront()
    ensures TakesFront(STEPS)
  {
  }

  lemma TwoWorkersEnd()
    ensures Reached(BLOCK, 2, STEPS, Stm(MV4(), SCHED4), [Idle, Idle])
  {
    LastRun();
    WholeScript(BLOCK, 2, STEPS, Stm(MV4(), SCHED4), [Idle, Idle]);
  }

  lemma StatesDiffer()
    ensures BLOCK.initialStates + CommittedStates(MV4()) != SeqRun(BLOCK.Policy(), BLOCK.initialStates, BLOCK.txs).state
  {
    Collected();
    InOrder();
  }

  lemma Collected()
    ensures A in CommittedStates(MV4()) && CommittedStates(MV4())[A] == A2
  {
    var h := MV4().data[A];
    assert 2 in h;
    assert Greatest(h) == 2;
  }

  lemma InOrder()
    ensures var st := SeqRun(BLOCK.Policy(), BLOCK.initialStates, BLOCK.txs).state;
      A in st && st[A] == Account(2, INITIAL_BALANCE - 1)
  {
    assert [T0, T1, T2][..2] == [T0, T1] && [T0, T1][..1] == [T0] && [T0][..0] == [];
    var p := BLOCK.Policy();
    assert SeqRun(p, BLOCK.initialStates, []) == Outcome(BLOCK.initialStates, 0, 0);
    var one := SeqRun(p, BLOCK.initialStates, [T0]);
    assert one.state == map[A := A0, B := B0];
    var two := SeqRun(p, BLOCK.initialStates, [T0, T1]);
    assert two.state == map[A := A1AGAIN, B := B1AGAIN];
  }
}
