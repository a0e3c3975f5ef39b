/**
 Which steps leave every settled transaction up to date: an exact condition on the state before the step.
 */
module Freshness {
  import opened Ledger
  import opened MultiVersion
  import opened Execution
  import opened BlockStm

  /** If `j` is settled it is up to date. */
  predicate FreshAt(b: Block, s: Stm, j: nat)
    requires j < |b.txs|
  {
    Settled(s, j) ==> UpToDate(b, s.mv, j)
  }

  /** Every settled transaction would execute to what it left behind. */
  ghost predicate Fresh(b: Block, s: Stm) {
    forall j :: 0 <= j < |b.txs| ==> FreshAt(b, s, j)
  }

  // ---------------------------------------------------------------------------------------------
  // Whom a success reports
  // ---------------------------------------------------------------------------------------------

  /** `j` is above `i` and registered on what `i` sees at one of its accounts. */
  predicate Notified(b: Block, mv: MV, i: nat, j: nat)
    requires i < |b.txs|
  {
    i < j && (j in ReadersAt(mv, b.txs[i].from, i) || j in ReadersAt(mv, b.txs[i].to, i))
  }

  lemma RecordedRegistersOnly(b: Block, mv: MV, a: Address, i: nat, x: Address, j: nat)
    requires EntriesOk(b, mv) && i != j
    ensures j in ReadersAt(Recorded(mv, a, i), x, i) <==> j in ReadersAt(mv, x, i)
  {
    var after, seen := Recorded(mv, a, i), Below(HistoryOf(mv, x), i);
    RecordedGrows(b, mv, a, i);
    GrowsKeepsReads(mv, after, x, i);
    if seen.Some? {
      assert Holds(mv, x, seen.value) && Holds(after, x, seen.value);
      RecordedReaders(mv, a, i, x, seen.value, j);
    } else {
      RecordedReaders(mv, a, i, x, 0, j);
    }
  }

  lemma ReadsRegisterOnly(b: Block, mv: MV, i: nat, x: Address, j: nat)
    requires WellFormed(b, mv) && i < |b.txs| && Accepted(b.Policy(), b.txs[i]) && i != j
    ensures j in ReadersAt(AfterReads(b, mv, i), x, i) <==> j in ReadersAt(mv, x, i)
  {
    RecordedEffect(b, mv, b.txs[i].from, i);
    RecordedRegistersOnly(b, mv, b.txs[i].from, i, x, j);
    RecordedRegistersOnly(b, Recorded(mv, b.txs[i].from, i), b.txs[i].to, i, x, j);
  }

  /** Exactly the notified transactions are reported, and only by an execution that succeeds. */
  lemma ReportedExactly(b: Block, mv: MV, i: nat, incarnation: nat, j: nat)
    requires WellFormed(b, mv) && i < |b.txs|
    ensures j in Invalidated(Speculate(b, mv, i, incarnation).1) <==> Succeeds(b, mv, i) && Notified(b, mv, i, j)
  {
    ExecuteUnfolds(b, mv, i, incarnation);
    if Succeeds(b, mv, i) {
      WritesRedirect(b, mv, i, incarnation, b.txs[i].to, i);
      if i < j {
        ReadsRegisterOnly(b, mv, i, b.txs[i].from, j);
        ReadsRegisterOnly(b, mv, i, b.txs[i].to, j);
      }
    }
  }

  // ---------------------------------------------------------------------------------------------
  // Whom a success disturbs
  // ---------------------------------------------------------------------------------------------

  /** What `j` will see at `x` once `i` has written. */
  function NextView(b: Block, mv: MV, i: nat, x: Address, j: nat): Account
    requires i < |b.txs| && Succeeds(b, mv, i)
  {
    if Moved(b, mv, i, x, j) then Written(b, mv, i, x) else View(b, mv, x, j)
  }

  /**
   `i`'s writes make no difference to `j`: it goes on failing, or goes on seeing the same two accounts.
   */
  predicate Undisturbed(b: Block, mv: MV, i: nat, j: nat)
    requires i < |b.txs| && Succeeds(b, mv, i) && j < |b.txs|
  {
    var tx := b.txs[j];
    if Succeeds(b, mv, j)
    then NextView(b, mv, i, tx.from, j) == View(b, mv, tx.from, j)
         && NextView(b, mv, i, tx.to, j) == View(b, mv, tx.to, j)
    else !(Accepted(b.Policy(), tx) && Passes(NextView(b, mv, i, tx.from, j), tx))
  }

  /** What a transfer leaves determines what it found. */
  lemma EffectsDiffer(tx: Transaction, x: Account, y: Account)
    ensures Credited(x, tx) == Credited(y, tx) ==> x == y
    ensures Passes(x, tx) && Passes(y, tx) && Debited(x, tx) == Debited(y, tx) ==> x == y
  {
  }

  /** A success of `i` leaves an up-to-date `j` up to date exactly when it does not disturb it. */
  lemma UndisturbedExactly(b: Block, mv: MV, i: nat, incarnation: nat, j: nat)
    requires WellFormed(b, mv) && i < |b.txs| && Succeeds(b, mv, i) && j < |b.txs| && i != j
    requires UpToDate(b, mv, j)
    ensures UpToDate(b, Speculate(b, mv, i, incarnation).0, j) <==> Undisturbed(b, mv, i, j)
  {
    var tx, after := b.txs[j], Speculate(b, mv, i, incarnation).0;
    assert Speculate(b, mv, i, incarnation).1.Success?;
    SuccessfulEffect(b, mv, i, incarnation, tx.from, j);
    SuccessfulEffect(b, mv, i, incarnation, tx.to, j);
    SuccessfulVersions(b, mv, i, incarnation, tx.from, j);
    SuccessfulVersions(b, mv, i, incarnation, tx.to, j);
    EffectsDiffer(tx, View(b, after, tx.from, j), View(b, mv, tx.from, j));
    EffectsDiffer(tx, View(b, after, tx.to, j), View(b, mv, tx.to, j));
  }

  lemma FailureKeepsUpToDate(b: Block, mv: MV, i: nat, incarnation: nat, j: nat)
    requires WellFormed(b, mv) && i < |b.txs| && !Succeeds(b, mv, i) && j < |b.txs|
    ensures UpToDate(b, Speculate(b, mv, i, incarnation).0, j) <==> UpToDate(b, mv, j)
  {
    ExecuteUnfolds(b, mv, i, incarnation);
    ExecutionKeepsVersions(b, mv, i, incarnation, b.txs[j].from, j);
    ExecutionKeepsVersions(b, mv, i, incarnation, b.txs[j].to, j);
    FailureKeepsRead(b, mv, i, incarnation, b.txs[j].from, j);
    FailureKeepsRead(b, mv, i, incarnation, b.txs[j].to, j);
  }

  /** An execution leaves its own transaction up to date exactly if that passes its checks or holds no version. */
  lemma OwnExactly(b: Block, mv: MV, i: nat, incarnation: nat)
    requires WellFormed(b, mv) && i < |b.txs|
    ensures UpToDate(b, Speculate(b, mv, i, incarnation).0, i) <==> Succeeds(b, mv, i) || !Holder(b, mv, i)
  {
    ExecuteUnfolds(b, mv, i, incarnation);
    if Succeeds(b, mv, i) {
      SuccessIsConsistent(b, mv, i, incarnation);
    } else {
      FailureIsConsistent(b, mv, i, incarnation);
    }
  }

  /** It leaves another up-to-date transaction up to date exactly if it fails or does not disturb that one. */
  lemma OtherExactly(b: Block, mv: MV, i: nat, incarnation: nat, j: nat)
    requires WellFormed(b, mv) && i < |b.txs| && j < |b.txs| && i != j && UpToDate(b, mv, j)
    ensures UpToDate(b, Speculate(b, mv, i, incarnation).0, j)
      <==> (Succeeds(b, mv, i) ==> Undisturbed(b, mv, i, j))
  {
    if Succeeds(b, mv, i) {
      UndisturbedExactly(b, mv, i, incarnation, j);
    } else {
      FailureKeepsUpToDate(b, mv, i, incarnation, j);
    }
  }

  // ---------------------------------------------------------------------------------------------
  // Steps
  // ---------------------------------------------------------------------------------------------

  /**
   The transaction the step takes either passes its checks and disturbs no settled transaction that it does
   not notify, or it fails them and holds no version.
   */
  ghost predicate Harmless(b: Block, s: Stm, k: nat)
    requires CanStep(b, s, k)
  {
    var i := Picked(s, k);
    if Succeeds(b, s.mv, i)
    then forall j :: 0 <= j < |b.txs| && j != i && Settled(s, j) && !Notified(b, s.mv, i, j)
           ==> Undisturbed(b, s.mv, i, j)
    else !Holder(b, s.mv, i)
  }

  lemma StepOnOwn(b: Block, s: Stm, k: nat)
    requires Invariant(b, s) && k < |s.sched.queue|
    ensures FreshAt(b, AtomicStep(b, s, k), Picked(s, k))
      <==> Succeeds(b, s.mv, Picked(s, k)) || !Holder(b, s.mv, Picked(s, k))
  {
    StepSettles(b, s, k);
    OwnExactly(b, s.mv, Picked(s, k), s.sched.queue[k].incarnation);
  }

  lemma StepOnOther(b: Block, s: Stm, k: nat, j: nat)
    requires Invariant(b, s) && k < |s.sched.queue| && j < |b.txs| && j != Picked(s, k) && FreshAt(b, s, j)
    ensures var i := Picked(s, k);
      FreshAt(b, AtomicStep(b, s, k), j)
      <==> (Succeeds(b, s.mv, i) && Settled(s, j) && !Notified(b, s.mv, i, j) ==> Undisturbed(b, s.mv, i, j))
  {
    StepSettles(b, s, k);
    if Settled(s, j) {
      ReportedExactly(b, s.mv, Picked(s, k), s.sched.queue[k].incarnation, j);
      OtherExactly(b, s.mv, Picked(s, k), s.sched.queue[k].incarnation, j);
    }
  }

  /** A step leaves every settled transaction up to date if and only if it is harmless. */
  lemma StepStaysFresh(b: Block, s: Stm, k: nat)
    requires Invariant(b, s) && Fresh(b, s) && k < |s.sched.queue|
    ensures Fresh(b, AtomicStep(b, s, k)) <==> Harmless(b, s, k)
  {
    var i := Picked(s, k);
    StepOnOwn(b, s, k);
    forall j | 0 <= j < |b.txs| && j != i
      ensures FreshAt(b, AtomicStep(b, s, k), j)
        <==> (Succeeds(b, s.mv, i) && Settled(s, j) && !Notified(b, s.mv, i, j) ==> Undisturbed(b, s.mv, i, j))
    {
      assert FreshAt(b, s, j);
      StepOnOther(b, s, k, j);
    }
  }

  lemma CoherentIsFresh(b: Block, s: Stm)
    requires Coherent(b, s)
    ensures Fresh(b, s)
  {
  }

  /** As long as all readers are registered, a safe step is harmless. */
  lemma SafeIsHarmless(b: Block, s: Stm, k: nat)
    requires Invariant(b, s) && Coherent(b, s) && k < |s.sched.queue| && StepSafe(b, s, k)
    ensures Harmless(b, s, k)
  {
    StepCoherent(b, s, k);
    CoherentIsFresh(b, AtomicStep(b, s, k));
    StepStaysFresh(b, s, k);
  }
}
