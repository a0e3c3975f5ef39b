/**
 Whole runs of atomic steps, that is of executions that do not overlap: when they stay up to date, and that they
 then end in the state of the plain in-order run.
 */
module Serializability {
  import opened Ledger
  import opened MultiVersion
  import opened Scheduling
  import opened Execution
  import opened BlockStm
  import opened Freshness

  // ---------------------------------------------------------------------------------------------
  // Runs
  // ---------------------------------------------------------------------------------------------

  /** A run is the list of queue positions taken, step by step. */
  ghost predicate Legal(b: Block, ks: seq<nat>)
    decreases |ks|, 0
  {
    ks == [] || (Legal(b, ks[..|ks| - 1]) && ks[|ks| - 1] < |After(b, ks[..|ks| - 1]).sched.queue|)
  }

  ghost function After(b: Block, ks: seq<nat>): (s: Stm)
    requires Legal(b, ks)
    ensures Invariant(b, s)
    decreases |ks|, 1
  {
    if ks == [] then
      StartInvariant(b);
      Start(b)
    else
      var before := After(b, ks[..|ks| - 1]);
      StepSettles(b, before, ks[|ks| - 1]);
      AtomicStep(b, before, ks[|ks| - 1])
  }

  /** One more step, given what the execution yields and what the scheduler makes of it. */
  lemma Extend(b: Block, ks: seq<nat>, k: nat, result: Result, next: Stm)
    requires Legal(b, ks) && k < |After(b, ks).sched.queue| && AllBelow(Invalidated(result), |b.txs|)
    requires var s, e := After(b, ks), After(b, ks).sched.queue[k];
      && Speculate(b, s.mv, e.txnIdx, e.incarnation) == (next.mv, result)
      && Finish(PopAt(s.sched, k), e.txnIdx, e.incarnation, Invalidated(result)) == next.sched
    ensures Legal(b, ks + [k]) && After(b, ks + [k]) == next
  {
    assert (ks + [k])[..|ks + [k]| - 1] == ks;
  }

  // ---------------------------------------------------------------------------------------------
  // Runs that stay up to date
  // ---------------------------------------------------------------------------------------------

  /** Every step of the run was harmless. */
  ghost predicate AllHarmless(b: Block, ks: seq<nat>)
    requires Legal(b, ks)
    decreases |ks|
  {
    ks == [] || (AllHarmless(b, ks[..|ks| - 1]) && Harmless(b, After(b, ks[..|ks| - 1]), ks[|ks| - 1]))
  }

  /** After every one of the steps, all settled transactions were up to date. */
  ghost predicate AlwaysFresh(b: Block, ks: seq<nat>)
    requires Legal(b, ks)
    decreases |ks|
  {
    Fresh(b, After(b, ks)) && (ks != [] ==> AlwaysFresh(b, ks[..|ks| - 1]))
  }

  lemma AlwaysIsNow(b: Block, ks: seq<nat>)
    requires Legal(b, ks) && AlwaysFresh(b, ks)
    ensures Fresh(b, After(b, ks))
  {
  }

  /** A run stays up to date throughout if and only if all its steps are harmless. */
  lemma {:induction false} RunStaysFresh(b: Block, ks: seq<nat>)
    requires Legal(b, ks)
    ensures AlwaysFresh(b, ks) <==> AllHarmless(b, ks)
  {
    if ks == [] {
      assert Fresh(b, Start(b));
    } else {
      RunStaysFresh(b, ks[..|ks| - 1]);
      if AlwaysFresh(b, ks[..|ks| - 1]) {
        AlwaysIsNow(b, ks[..|ks| - 1]);
        StepStaysFresh(b, After(b, ks[..|ks| - 1]), ks[|ks| - 1]);
      }
    }
  }

  /** Every step of the run was safe. */
  ghost predicate AllSafe(b: Block, ks: seq<nat>)
    requires Legal(b, ks)
    decreases |ks|
  {
    ks == [] || (AllSafe(b, ks[..|ks| - 1]) && StepSafe(b, After(b, ks[..|ks| - 1]), ks[|ks| - 1]))
  }

  /** A run of safe steps keeps everybody registered, and so all its steps are harmless. */
  lemma {:induction false} SafeRunIsHarmless(b: Block, ks: seq<nat>)
    requires Legal(b, ks) && AllSafe(b, ks)
    ensures Coherent(b, After(b, ks)) && AllHarmless(b, ks)
  {
    if ks != [] {
      SafeRunIsHarmless(b, ks[..|ks| - 1]);
      StepCoherent(b, After(b, ks[..|ks| - 1]), ks[|ks| - 1]);
      SafeIsHarmless(b, After(b, ks[..|ks| - 1]), ks[|ks| - 1]);
    }
  }

  /** No step executes a transaction that already holds a version. */
  ghost predicate NoHolderAgain(b: Block, ks: seq<nat>)
    requires Legal(b, ks)
    decreases |ks|
  {
    ks == []
    || (NoHolderAgain(b, ks[..|ks| - 1])
        && !Holder(b, After(b, ks[..|ks| - 1]).mv, Picked(After(b, ks[..|ks| - 1]), ks[|ks| - 1])))
  }

  lemma {:induction false} NoHolderAgainIsSafe(b: Block, ks: seq<nat>)
    requires Legal(b, ks) && NoHolderAgain(b, ks)
    ensures AllSafe(b, ks)
  {
    if ks != [] {
      NoHolderAgainIsSafe(b, ks[..|ks| - 1]);
    }
  }

  // ---------------------------------------------------------------------------------------------
  // What transaction `j` sees is the state of the in-order run before it
  // ---------------------------------------------------------------------------------------------

  /** The initial states overlaid with what a reader at `j` finds in the map. */
  ghost function Overlay(b: Block, mv: MV, j: nat): State {
    map a | a in b.initialStates.Keys + mv.data.Keys && (a in b.initialStates || ReadAt(mv, a, j).Versioned?)
      :: View(b, mv, a, j)
  }

  lemma OverlayLooksUp(b: Block, mv: MV, j: nat, a: Address)
    ensures Lookup(Overlay(b, mv, j), a) == View(b, mv, a, j)
    ensures a in Overlay(b, mv, j) <==> a in b.initialStates || ReadAt(mv, a, j).Versioned?
  {
  }

  /** One more transaction becomes visible: its own versions and nothing else. */
  lemma NextVisible(b: Block, mv: MV, j: nat, a: Address)
    ensures ReadAt(mv, a, j + 1)
      == if Holds(mv, a, j) then Versioned(HistoryOf(mv, a)[j].version, HistoryOf(mv, a)[j].state) else ReadAt(mv, a, j)
  {
  }

  /** The state of the in-order run before transaction `j`. */
  function InOrderState(b: Block, j: nat): State
    requires j <= |b.txs|
  {
    SeqRun(b.Policy(), b.initialStates, b.txs[..j]).state
  }

  lemma InOrderNext(b: Block, j: nat)
    requires j < |b.txs|
    ensures InOrderState(b, j + 1)
      == if Applies(b.Policy(), InOrderState(b, j), b.txs[j])
         then Transfer(InOrderState(b, j), b.txs[j])
         else InOrderState(b, j)
  {
    SeqRunPrefix(b.Policy(), b.initialStates, b.txs, j);
  }

  predicate SameAt(s: State, t: State, a: Address) {
    (a in s <==> a in t) && Lookup(s, a) == Lookup(t, a)
  }

  lemma UpToDateStepAt(b: Block, mv: MV, j: nat, a: Address)
    requires WellFormed(b, mv) && j < |b.txs| && UpToDate(b, mv, j) && Overlay(b, mv, j) == InOrderState(b, j)
    ensures SameAt(Overlay(b, mv, j + 1), InOrderState(b, j + 1), a)
  {
    InOrderNext(b, j);
    OverlayLooksUp(b, mv, j, b.txs[j].from);
    OverlayLooksUp(b, mv, j, b.txs[j].to);
    NextVisible(b, mv, j, a);
    OverlayLooksUp(b, mv, j, a);
    OverlayLooksUp(b, mv, j + 1, a);
    assert Holds(mv, a, j) ==> EntryOk(b, mv, a, j);
  }

  /** If `j` is up to date, making it visible is exactly one step of the in-order run. */
  lemma UpToDateStep(b: Block, mv: MV, j: nat)
    requires WellFormed(b, mv) && j < |b.txs| && UpToDate(b, mv, j) && Overlay(b, mv, j) == InOrderState(b, j)
    ensures Overlay(b, mv, j + 1) == InOrderState(b, j + 1)
    ensures Holder(b, mv, j) <==> Applies(b.Policy(), InOrderState(b, j), b.txs[j])
  {
    OverlayLooksUp(b, mv, j, b.txs[j].from);
    var seen, next := Overlay(b, mv, j + 1), InOrderState(b, j + 1);
    forall a: Address
      ensures SameAt(seen, next, a)
    {
      UpToDateStepAt(b, mv, j, a);
    }
    SameStates(seen, next);
  }

  lemma SameStates(s: State, t: State)
    requires forall a: Address :: SameAt(s, t, a)
    ensures s == t
  {
    forall a: Address
      ensures a in s <==> a in t
      ensures a in s ==> s[a] == t[a]
    {
      assert SameAt(s, t, a);
    }
  }

  lemma NothingVisible(b: Block, mv: MV)
    ensures Overlay(b, mv, 0) == InOrderState(b, 0)
  {
  }

  ghost predicate AllUpToDate(b: Block, mv: MV) {
    forall j :: 0 <= j < |b.txs| ==> UpToDate(b, mv, j)
  }

  lemma {:induction false} OverlayIsSequential(b: Block, mv: MV, j: nat)
    requires WellFormed(b, mv) && j <= |b.txs| && AllUpToDate(b, mv)
    ensures Overlay(b, mv, j) == InOrderState(b, j)
  {
    if j == 0 {
      NothingVisible(b, mv);
    } else {
      OverlayIsSequential(b, mv, j - 1);
      UpToDateStep(b, mv, j - 1);
    }
  }

  /**
   The map is the in-order run: every transaction, and whoever reads at the end, sees the state the in-order
   run had there, and exactly the transactions that run applies hold versions.
   */
  ghost predicate IsInOrderRun(b: Block, mv: MV) {
    && (forall j :: 0 <= j <= |b.txs| ==> Overlay(b, mv, j) == InOrderState(b, j))
    && (forall j :: 0 <= j < |b.txs| ==> (Holder(b, mv, j) <==> Applies(b.Policy(), InOrderState(b, j), b.txs[j])))
  }

  lemma InOrderIsUpToDate(b: Block, mv: MV, j: nat)
    requires WellFormed(b, mv) && j < |b.txs|
    requires Overlay(b, mv, j) == InOrderState(b, j) && Overlay(b, mv, j + 1) == InOrderState(b, j + 1)
    requires Holder(b, mv, j) <==> Applies(b.Policy(), InOrderState(b, j), b.txs[j])
    ensures UpToDate(b, mv, j)
  {
    var tx := b.txs[j];
    InOrderNext(b, j);
    OverlayLooksUp(b, mv, j, tx.from);
    OverlayLooksUp(b, mv, j, tx.to);
    OverlayLooksUp(b, mv, j + 1, tx.from);
    OverlayLooksUp(b, mv, j + 1, tx.to);
    NextVisible(b, mv, j, tx.from);
    NextVisible(b, mv, j, tx.to);
    assert Holds(mv, tx.from, j) ==> EntryOk(b, mv, tx.from, j);
    assert Holds(mv, tx.to, j) ==> EntryOk(b, mv, tx.to, j);
  }

  /** All transactions are up to date if and only if the map is the in-order run. */
  lemma UpToDateIsInOrder(b: Block, mv: MV)
    requires WellFormed(b, mv)
    ensures AllUpToDate(b, mv) <==> IsInOrderRun(b, mv)
  {
    if AllUpToDate(b, mv) {
      forall j | 0 <= j <= |b.txs|
        ensures Overlay(b, mv, j) == InOrderState(b, j)
      {
        OverlayIsSequential(b, mv, j);
      }
      forall j | 0 <= j < |b.txs|
        ensures Holder(b, mv, j) <==> Applies(b.Policy(), InOrderState(b, j), b.txs[j])
      {
        UpToDateStep(b, mv, j);
      }
    } else if IsInOrderRun(b, mv) {
      forall j | 0 <= j < |b.txs|
        ensures UpToDate(b, mv, j)
      {
        InOrderIsUpToDate(b, mv, j);
      }
    }
  }

  /** The collected final states laid over the initial ones are what a reader past the end sees. */
  lemma CollectedIsOverlay(b: Block, mv: MV)
    requires WellFormed(b, mv)
    ensures b.initialStates + CommittedStates(mv) == Overlay(b, mv, |b.txs|)
  {
    forall a: Address
      ensures a in CommittedStates(mv) <==> ReadAt(mv, a, |b.txs|).Versioned?
      ensures a in CommittedStates(mv) ==> CommittedStates(mv)[a] == ReadAt(mv, a, |b.txs|).state
    {
      forall k | k in HistoryOf(mv, a)
        ensures k < |b.txs|
      {
        assert Holds(mv, a, k);
      }
      CommittedIsReadAtEnd(mv, |b.txs|, a);
    }
  }

  /** A map in which all transactions are up to date yields the state of the in-order run. */
  lemma MapIsSequential(b: Block, mv: MV)
    requires WellFormed(b, mv) && AllUpToDate(b, mv)
    ensures IsInOrderRun(b, mv)
    ensures b.initialStates + CommittedStates(mv) == SeqRun(b.Policy(), b.initialStates, b.txs).state
  {
    UpToDateIsInOrder(b, mv);
    assert b.txs[..|b.txs|] == b.txs;
    CollectedIsOverlay(b, mv);
  }

  lemma CommittedIsFresh(b: Block, s: Stm)
    requires SchedulerOk(|b.txs|, s.sched) && s.sched.committedIdx == |b.txs|
    ensures Fresh(b, s) <==> AllUpToDate(b, s.mv)
  {
    forall j | 0 <= j < |b.txs|
      ensures FreshAt(b, s, j) <==> UpToDate(b, s.mv, j)
    {
    }
  }

  /** An up-to-date state in which everything is committed holds the result of the in-order run. */
  lemma FreshIsSequential(b: Block, s: Stm)
    requires Invariant(b, s) && Fresh(b, s) && s.sched.committedIdx == |b.txs|
    ensures IsInOrderRun(b, s.mv)
    ensures b.initialStates + CommittedStates(s.mv) == SeqRun(b.Policy(), b.initialStates, b.txs).state
  {
    CommittedIsFresh(b, s);
    MapIsSequential(b, s.mv);
  }

  /**
   Serializability of executions that do not overlap: whatever order the queued transactions are taken in, a run
   whose steps are all harmless and in which everything is committed ends in the state of the in-order run.
   */
  lemma Serializable(b: Block, ks: seq<nat>)
    requires Legal(b, ks) && AllHarmless(b, ks) && After(b, ks).sched.committedIdx == |b.txs|
    ensures IsInOrderRun(b, After(b, ks).mv)
    ensures b.initialStates + CommittedStates(After(b, ks).mv)
      == SeqRun(b.Policy(), b.initialStates, b.txs).state
  {
    RunStaysFresh(b, ks);
    AlwaysIsNow(b, ks);
    FreshIsSequential(b, After(b, ks));
  }

  /** A complete run leaves the in-order run in the map if and only if all its transactions end up to date. */
  lemma EndsInOrderExactly(b: Block, ks: seq<nat>)
    requires Legal(b, ks) && After(b, ks).sched.committedIdx == |b.txs|
    ensures IsInOrderRun(b, After(b, ks).mv) <==> Fresh(b, After(b, ks))
  {
    CommittedIsFresh(b, After(b, ks));
    UpToDateIsInOrder(b, After(b, ks).mv);
  }
}
