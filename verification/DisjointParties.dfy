/**
 Blocks on which no order of atomic steps can go wrong: among the accepted transactions nobody both sends and
 receives, no receiver repeats, and those of each sender are listed by nonce. Executions that overlap can still
 go wrong on them; module Overtaken has a run in which they do.
 */
module DisjointParties {
  import opened Ledger
  import opened MultiVersion
  import opened Execution
  import opened BlockStm
  import opened Serializability

  ghost predicate Disjoint(b: Block) {
    && (forall i: nat, j: nat :: AcceptedAt(b, i) && AcceptedAt(b, j) ==> b.txs[i].from != b.txs[j].to)
    && (forall i, j :: 0 <= i < j && AcceptedAt(b, i) && AcceptedAt(b, j) ==> b.txs[i].to != b.txs[j].to)
    && (forall i, j :: 0 <= i < j && AcceptedAt(b, i) && AcceptedAt(b, j) && b.txs[i].from == b.txs[j].from
          ==> b.txs[i].nonce < b.txs[j].nonce)
  }

  predicate Sends(b: Block, mv: MV, j: nat) {
    j < |b.txs| && Holds(mv, b.txs[j].from, j)
  }

  /** The version holder would still pass the nonce check, and left its nonce plus one behind. */
  predicate Chained(b: Block, mv: MV, j: nat)
    requires Sends(b, mv, j)
  {
    && View(b, mv, b.txs[j].from, j).nonce == b.txs[j].nonce
    && HistoryOf(mv, b.txs[j].from)[j].state.nonce == Bump(b.txs[j].nonce)
  }

  ghost predicate NoncesChain(b: Block, mv: MV) {
    forall j: nat :: Sends(b, mv, j) ==> Chained(b, mv, j)
  }

  ghost predicate HoldersSettled(b: Block, s: Stm) {
    forall j :: 0 <= j < |b.txs| && Holder(b, s.mv, j) ==> Settled(s, j)
  }

  /** If a transaction that holds nothing passes the nonce check, nobody later holds its sender's account. */
  lemma {:induction false} PassingHasNoLaterHolder(b: Block, mv: MV, i: nat, j: nat)
    requires Disjoint(b) && WellFormed(b, mv) && NoncesChain(b, mv)
    requires AcceptedAt(b, i) && !Holder(b, mv, i) && View(b, mv, b.txs[i].from, i).nonce == b.txs[i].nonce
    requires i < j
    ensures !Holds(mv, b.txs[i].from, j)
    decreases j
  {
    var a := b.txs[i].from;
    var seen := Below(HistoryOf(mv, a), j);
    assert !Holds(mv, a, i);
    assert Holds(mv, a, j) ==> EntryOk(b, mv, a, j);
    assert Holds(mv, a, j) ==> Sends(b, mv, j);
    assert (seen.None? || seen.value < i) ==> seen == Below(HistoryOf(mv, a), i);
    if seen.Some? && i < seen.value {
      PassingHasNoLaterHolder(b, mv, i, seen.value);
    }
  }

  /** A step sends nobody back who holds a version. */
  lemma NoHolderReported(b: Block, s: Stm, k: nat, j: nat)
    requires Disjoint(b) && Invariant(b, s) && NoncesChain(b, s.mv) && k < |s.sched.queue|
    requires !Holder(b, s.mv, Picked(s, k)) && j in Reported(b, s, k)
    ensures !Holder(b, s.mv, j) && b.txs[j].from == b.txs[Picked(s, k)].from
  {
    var i := Picked(s, k);
    ExecuteUnfolds(b, s.mv, i, s.sched.queue[k].incarnation);
    InvalidatedShape(b, s.mv, i, s.sched.queue[k].incarnation);
    assert Holder(b, s.mv, j) ==> Holds(s.mv, b.txs[j].from, j);
    PassingHasNoLaterHolder(b, s.mv, i, j);
  }

  lemma FailureKeepsChain(b: Block, s: Stm, k: nat, j: nat)
    requires Invariant(b, s) && NoncesChain(b, s.mv) && k < |s.sched.queue| && !ResultAt(b, s, k).Success?
    requires Sends(b, AtomicStep(b, s, k).mv, j)
    ensures Chained(b, AtomicStep(b, s, k).mv, j)
  {
    StepKeepsVersions(b, s, k, b.txs[j].from, j);
    assert Sends(b, s.mv, j);
    UnsuccessfulEffect(b, s.mv, Picked(s, k), s.sched.queue[k].incarnation);
    GrowsKeepsReads(s.mv, AtomicStep(b, s, k).mv, b.txs[j].from, j);
  }

  lemma SuccessKeepsChain(b: Block, s: Stm, k: nat, j: nat)
    requires Disjoint(b) && Invariant(b, s) && NoncesChain(b, s.mv) && k < |s.sched.queue|
    requires !Holder(b, s.mv, Picked(s, k)) && ResultAt(b, s, k).Success?
    requires Sends(b, AtomicStep(b, s, k).mv, j)
    ensures Chained(b, AtomicStep(b, s, k).mv, j)
  {
    var i, inc := Picked(s, k), s.sched.queue[k].incarnation;
    var a := b.txs[j].from;
    SuccessfulVersions(b, s.mv, i, inc, a, j);
    SuccessfulEffect(b, s.mv, i, inc, a, j);
    if j != i {
      assert Sends(b, s.mv, j);
      if i < j && a == b.txs[i].from {
        PassingHasNoLaterHolder(b, s.mv, i, j);
      }
    }
  }

  lemma StepKeepsChain(b: Block, s: Stm, k: nat)
    requires Disjoint(b) && Invariant(b, s) && NoncesChain(b, s.mv) && k < |s.sched.queue|
    requires !Holder(b, s.mv, Picked(s, k))
    ensures NoncesChain(b, AtomicStep(b, s, k).mv)
  {
    forall j: nat | Sends(b, AtomicStep(b, s, k).mv, j)
      ensures Chained(b, AtomicStep(b, s, k).mv, j)
    {
      if ResultAt(b, s, k).Success? {
        SuccessKeepsChain(b, s, k, j);
      } else {
        FailureKeepsChain(b, s, k, j);
      }
    }
  }

  lemma StepKeepsHoldersSettled(b: Block, s: Stm, k: nat)
    requires Disjoint(b) && Invariant(b, s) && NoncesChain(b, s.mv) && HoldersSettled(b, s) && k < |s.sched.queue|
    ensures !Holder(b, s.mv, Picked(s, k))
    ensures HoldersSettled(b, AtomicStep(b, s, k))
  {
    assert s.sched.queue[k] in s.sched.queue;
    QueuedIsPending(|b.txs|, s.sched, s.sched.queue[k]);
    StepSettles(b, s, k);
    forall j | 0 <= j < |b.txs| && Holder(b, AtomicStep(b, s, k).mv, j)
      ensures Settled(AtomicStep(b, s, k), j)
    {
      if j != Picked(s, k) {
        StepKeepsVersions(b, s, k, b.txs[j].from, j);
        StepKeepsVersions(b, s, k, b.txs[j].to, j);
        if j in Reported(b, s, k) {
          NoHolderReported(b, s, k, j);
        }
      }
    }
  }

  lemma {:induction false} RunKeepsDisjoint(b: Block, ks: seq<nat>)
    requires Disjoint(b) && Legal(b, ks)
    ensures NoncesChain(b, After(b, ks).mv) && HoldersSettled(b, After(b, ks))
    ensures NoHolderAgain(b, ks)
  {
    if ks != [] {
      var front, k := ks[..|ks| - 1], ks[|ks| - 1];
      RunKeepsDisjoint(b, front);
      StepKeepsHoldersSettled(b, After(b, front), k);
      StepKeepsChain(b, After(b, front), k);
    }
  }

  // ---------------------------------------------------------------------------------------------
  // Consecutive nonces
  // ---------------------------------------------------------------------------------------------

  /** The number of accepted transactions from `a` among the first `k`. */
  function AcceptedFrom(b: Block, a: Address, k: nat): nat
    requires k <= |b.txs|
  {
    if k == 0 then 0
    else AcceptedFrom(b, a, k - 1) + if AcceptedAt(b, k - 1) && b.txs[k - 1].from == a then 1 else 0
  }

  /** Every accepted transaction's nonce is its sender's initial one plus its sender's earlier ones. */
  ghost predicate Consecutive(b: Block) {
    forall i: nat :: AcceptedAt(b, i) ==>
      b.txs[i].nonce == Lookup(b.initialStates, b.txs[i].from).nonce + AcceptedFrom(b, b.txs[i].from, i)
  }

  lemma {:induction false} EarlierHasFewer(b: Block, i: nat, k: nat)
    requires AcceptedAt(b, i) && i < k <= |b.txs|
    ensures AcceptedFrom(b, b.txs[i].from, i) < AcceptedFrom(b, b.txs[i].from, k)
  {
    if i < k - 1 {
      EarlierHasFewer(b, i, k - 1);
    }
  }

  /** Consecutive nonces in a map as runs on disjoint parties leave it. */
  ghost predicate ConsecutiveMap(b: Block, mv: MV) {
    Disjoint(b) && Consecutive(b) && WellFormed(b, mv) && NoncesChain(b, mv)
  }

  /** Whom a version holder found at its sender: the holder of the nonce before its own. */
  lemma PreviousHolder(b: Block, mv: MV, j: nat) returns (k: nat)
    requires ConsecutiveMap(b, mv) && Sends(b, mv, j) && AcceptedFrom(b, b.txs[j].from, j) > 0
    ensures k < j && Sends(b, mv, k) && AcceptedAt(b, k) && b.txs[k].from == b.txs[j].from
    ensures AcceptedFrom(b, b.txs[j].from, j) == AcceptedFrom(b, b.txs[j].from, k) + 1
  {
    var a := b.txs[j].from;
    assert EntryOk(b, mv, a, j) && Chained(b, mv, j);
    k := Below(HistoryOf(mv, a), j).value;
    assert Holds(mv, a, k) && EntryOk(b, mv, a, k);
    assert Sends(b, mv, k) && Chained(b, mv, k);
  }

  lemma NoneBetween(b: Block, a: Address, k: nat, i: nat, j: nat)
    requires AcceptedAt(b, k) && b.txs[k].from == a && AcceptedAt(b, i) && b.txs[i].from == a && i < j <= |b.txs|
    requires AcceptedFrom(b, a, j) == AcceptedFrom(b, a, k) + 1
    ensures i <= k
  {
    EarlierHasFewer(b, i, j);
    if k < i {
      EarlierHasFewer(b, k, i);
    }
  }

  lemma {:induction false} EarlierHold(b: Block, mv: MV, a: Address, i: nat, j: nat)
    requires ConsecutiveMap(b, mv) && Sends(b, mv, j) && b.txs[j].from == a
    requires AcceptedAt(b, i) && i < j && b.txs[i].from == a
    ensures Sends(b, mv, i)
    decreases j
  {
    EarlierHasFewer(b, i, j);
    var k := PreviousHolder(b, mv, j);
    NoneBetween(b, a, k, i, j);
    if i != k {
      EarlierHold(b, mv, a, i, k);
    }
  }

  /** With consecutive nonces a transaction succeeds only after all its sender's earlier accepted ones have. */
  lemma SucceedsAfterEarlier(b: Block, ks: seq<nat>, i: nat, j: nat)
    requires Disjoint(b) && Consecutive(b) && Legal(b, ks) && Holder(b, After(b, ks).mv, j)
    requires AcceptedAt(b, i) && i < j && b.txs[i].from == b.txs[j].from
    ensures Holder(b, After(b, ks).mv, i) && Settled(After(b, ks), i)
  {
    RunKeepsDisjoint(b, ks);
    var mv := After(b, ks).mv;
    assert Holds(mv, b.txs[j].from, j) by {
      assert Holds(mv, b.txs[j].to, j) ==> EntryOk(b, mv, b.txs[j].to, j);
    }
    EarlierHold(b, mv, b.txs[i].from, i, j);
  }

  // ---------------------------------------------------------------------------------------------
  // Every order
  // ---------------------------------------------------------------------------------------------

  /**
   On such a block every order of atomic steps works: no version holder is ever executed again, and as soon as
   everything is committed the states collected are those of the in-order run.
   */
  lemma EveryOrderIsSequential(b: Block, ks: seq<nat>)
    requires Disjoint(b) && Legal(b, ks)
    ensures NoHolderAgain(b, ks) && AllHarmless(b, ks)
    ensures After(b, ks).sched.committedIdx == |b.txs| ==>
      b.initialStates + CommittedStates(After(b, ks).mv) == SeqRun(b.Policy(), b.initialStates, b.txs).state
  {
    RunKeepsDisjoint(b, ks);
    NoHolderAgainIsSafe(b, ks);
    SafeRunIsHarmless(b, ks);
    if After(b, ks).sched.committedIdx == |b.txs| {
      Serializable(b, ks);
    }
  }
}
