/**
 The retry threads as a transition system: each thread keeps attempting the head of its slice, one atomic
 database transaction per attempt, until the attempt succeeds; attempts of different threads interleave in
 any way.
 */
module FdbThreads {
  import opened Ledger
  import opened Effects
  import opened FdbSlices

  datatype Config = Config(txs: seq<Transaction>, initial: State, verifySignatures: bool, slices: seq<Slice>) {
    /** A sender without an account makes the attempt fail. */
    function Policy(): Rules {
      Rules(verifySignatures, true)
    }
    predicate Valid() {
      Partition(slices, |txs|)
    }
  }

  /** The stored accounts, each thread's next index and counters, and the order transfers were applied in. */
  datatype Fdb = Fdb(db: State, heads: seq<nat>, successful: seq<nat>, failed: seq<nat>, log: seq<nat>)

  function Begin(c: Config): Fdb {
    var threads := |c.slices|;
    Fdb(c.initial, seq(threads, t requires 0 <= t < threads => c.slices[t].start),
        seq(threads, _ => 0), seq(threads, _ => 0), [])
  }

  predicate Shaped(c: Config, s: Fdb) {
    && c.Valid()
    && |s.heads| == |s.successful| == |s.failed| == |c.slices|
    && forall t :: 0 <= t < |c.slices| ==> c.slices[t].start <= s.heads[t] <= c.slices[t].end
  }

  predicate Unfinished(c: Config, s: Fdb, t: nat) {
    Shaped(c, s) && t < |c.slices| && s.heads[t] < c.slices[t].end
  }

  predicate Complete(c: Config, s: Fdb) {
    Shaped(c, s) && forall t :: 0 <= t < |c.slices| ==> s.heads[t] == c.slices[t].end
  }

  lemma HeadInRange(c: Config, s: Fdb, t: nat)
    requires Unfinished(c, s, t)
    ensures s.heads[t] < |c.txs|
  {
    SliceStarts(c.slices, |c.txs|, t);
  }

  /** One attempt of thread `t`: skip a bad signature, apply an enabled transfer, or leave all as it is. */
  function Attempt(c: Config, s: Fdb, t: nat): Fdb
    requires Unfinished(c, s, t)
  {
    HeadInRange(c, s, t);
    var i := s.heads[t];
    var tx := c.txs[i];
    if !Accepted(c.Policy(), tx) then
      s.(heads := s.heads[t := i + 1], failed := s.failed[t := s.failed[t] + 1])
    else if Applies(c.Policy(), s.db, tx) then
      s.(db := Transfer(s.db, tx), heads := s.heads[t := i + 1],
         successful := s.successful[t := s.successful[t] + 1], log := s.log + [i])
    else s
  }

  /** What an attempt does, said of the transaction at the thread's head and the stored accounts. */
  lemma AttemptExactly(c: Config, s: Fdb, t: nat)
    requires Unfinished(c, s, t)
    ensures s.heads[t] < |c.txs|
    ensures var tx, next := c.txs[s.heads[t]], Attempt(c, s, t);
      if c.verifySignatures && tx.signer != Some(tx.from) then
        next.failed[t] == s.failed[t] + 1 && next.db == s.db && next.successful == s.successful && next.log == s.log
      else if tx.from !in s.db || s.db[tx.from].nonce != tx.nonce || s.db[tx.from].balance < tx.value then
        next == s
      else
        next.successful[t] == s.successful[t] + 1 && next.failed == s.failed && next.log == s.log + [s.heads[t]]
  {
    HeadInRange(c, s, t);
  }

  lemma AttemptShape(c: Config, s: Fdb, t: nat)
    requires Unfinished(c, s, t)
    ensures Shaped(c, Attempt(c, s, t))
    ensures Attempt(c, s, t) == s || Attempt(c, s, t).heads == s.heads[t := s.heads[t] + 1]
  {
  }

  // ---------------------------------------------------------------------------------------------
  // Runs
  // ---------------------------------------------------------------------------------------------

  predicate AcceptedAt(c: Config, i: nat) {
    i < |c.txs| && Accepted(c.Policy(), c.txs[i])
  }

  function AcceptedSet(c: Config): (all: set<nat>)
    ensures forall i :: i in all <==> AcceptedAt(c, i)
  {
    set i | 0 <= i < |c.txs| && AcceptedAt(c, i)
  }

  function Applied(s: Fdb): set<nat> {
    set i | i in s.log
  }

  /** Index `i` lies in the part of its slice that its thread has passed. */
  predicate Passed(c: Config, s: Fdb, i: nat)
    requires Shaped(c, s)
  {
    exists t :: 0 <= t < |c.slices| && c.slices[t].start <= i < s.heads[t]
  }

  /** Exactly the accepted transactions that were passed are applied, and they explain the database. */
  ghost predicate Invariant(c: Config, s: Fdb) {
    && Shaped(c, s)
    && (forall i: nat :: i in s.log <==> AcceptedAt(c, i) && Passed(c, s, i))
    && Explains(c.initial, c.txs, Applied(s), s.db)
  }

  lemma BeginInvariant(c: Config)
    requires c.Valid()
    ensures Invariant(c, Begin(c))
  {
    NothingExplained(c.initial, c.txs);
    assert Applied(Begin(c)) == {};
  }

  /** A thread's head has not been passed by anybody. */
  lemma HeadNotPassed(c: Config, s: Fdb, t: nat)
    requires Unfinished(c, s, t)
    ensures !Passed(c, s, s.heads[t])
  {
    forall u | 0 <= u < |c.slices|
      ensures !(c.slices[u].start <= s.heads[t] < s.heads[u])
    {
      if c.slices[u].start <= s.heads[t] < s.heads[u] {
        SlicesDisjoint(c.slices, |c.txs|, t, u, s.heads[t]);
      }
    }
  }

  /** When thread `t` moves on, exactly its old head is newly passed. */
  lemma PassedAdvance(c: Config, s: Fdb, next: Fdb, t: nat, i: nat)
    requires Unfinished(c, s, t) && Shaped(c, next) && next.heads == s.heads[t := s.heads[t] + 1]
    ensures Passed(c, next, i) <==> Passed(c, s, i) || i == s.heads[t]
  {
    if Passed(c, s, i) {
      var u :| 0 <= u < |c.slices| && c.slices[u].start <= i < s.heads[u];
      assert c.slices[u].start <= i < next.heads[u];
    }
    if i == s.heads[t] {
      assert c.slices[t].start <= i < next.heads[t];
    }
  }

  lemma AttemptLogs(c: Config, s: Fdb, t: nat, j: nat)
    requires Invariant(c, s) && Unfinished(c, s, t)
    ensures Shaped(c, Attempt(c, s, t))
    ensures j in Attempt(c, s, t).log <==> AcceptedAt(c, j) && Passed(c, Attempt(c, s, t), j)
  {
    var next := Attempt(c, s, t);
    HeadInRange(c, s, t);
    if next != s {
      PassedAdvance(c, s, next, t, j);
    }
  }

  lemma AttemptExplained(c: Config, s: Fdb, t: nat)
    requires Invariant(c, s) && Unfinished(c, s, t)
    ensures Explains(c.initial, c.txs, Applied(Attempt(c, s, t)), Attempt(c, s, t).db)
  {
    var next, i := Attempt(c, s, t), s.heads[t];
    HeadInRange(c, s, t);
    HeadNotPassed(c, s, t);
    if next.log != s.log {
      TransferExplained(c.initial, c.txs, Applied(s), s.db, i);
      assert Applied(next) == Applied(s) + {i};
    }
  }

  lemma AttemptInvariant(c: Config, s: Fdb, t: nat)
    requires Invariant(c, s) && Unfinished(c, s, t)
    ensures Invariant(c, Attempt(c, s, t))
  {
    AttemptLogs(c, s, t, 0);
    forall j: nat
      ensures j in Attempt(c, s, t).log <==> AcceptedAt(c, j) && Passed(c, Attempt(c, s, t), j)
    {
      AttemptLogs(c, s, t, j);
    }
    AttemptExplained(c, s, t);
  }

  /** A run is the list of threads that make an attempt, in order. */
  ghost predicate Legal(c: Config, ts: seq<nat>)
    decreases |ts|, 0
  {
    if ts == [] then c.Valid()
    else Legal(c, ts[..|ts| - 1]) && Unfinished(c, After(c, ts[..|ts| - 1]), ts[|ts| - 1])
  }

  ghost function After(c: Config, ts: seq<nat>): (s: Fdb)
    requires Legal(c, ts)
    decreases |ts|, 1
  {
    if ts == [] then Begin(c)
    else Attempt(c, After(c, ts[..|ts| - 1]), ts[|ts| - 1])
  }

  lemma {:induction false} RunInvariant(c: Config, ts: seq<nat>)
    requires Legal(c, ts)
    ensures Invariant(c, After(c, ts))
  {
    if ts == [] {
      BeginInvariant(c);
    } else {
      RunInvariant(c, ts[..|ts| - 1]);
      AttemptInvariant(c, After(c, ts[..|ts| - 1]), ts[|ts| - 1]);
    }
  }

  lemma RunIsShaped(c: Config, ts: seq<nat>)
    requires Legal(c, ts)
    ensures Shaped(c, After(c, ts))
  {
    RunInvariant(c, ts);
  }

  lemma ExtendRun(c: Config, ts: seq<nat>, t: nat)
    requires Legal(c, ts) && Unfinished(c, After(c, ts), t)
    ensures Legal(c, ts + [t]) && After(c, ts + [t]) == Attempt(c, After(c, ts), t)
  {
    assert (ts + [t])[..|ts|] == ts;
  }

  // ---------------------------------------------------------------------------------------------
  // Confluence
  // ---------------------------------------------------------------------------------------------

  lemma CompleteAppliesAll(c: Config, s: Fdb)
    requires Invariant(c, s) && Complete(c, s)
    ensures Applied(s) == AcceptedSet(c)
  {
    forall i | AcceptedAt(c, i)
      ensures Passed(c, s, i)
    {
      var t := SlicesCover(c.slices, |c.txs|, i, |c.slices| - 1);
      assert c.slices[t].start <= i < s.heads[t];
    }
  }

  /** Any two complete runs end with the same accounts, whatever the interleavings and slices. */
  lemma Confluence(c: Config, ts: seq<nat>, d: Config, us: seq<nat>)
    requires Legal(c, ts) && Complete(c, After(c, ts))
    requires Legal(d, us) && Complete(d, After(d, us))
    requires d == c.(slices := d.slices)
    ensures After(c, ts).db == After(d, us).db
  {
    RunInvariant(c, ts);
    RunInvariant(d, us);
    CompleteAppliesAll(c, After(c, ts));
    CompleteAppliesAll(d, After(d, us));
    assert AcceptedSet(c) == AcceptedSet(d);
    ExplainedIsUnique(c.initial, c.txs, AcceptedSet(c), After(c, ts).db, After(d, us).db);
  }

  predicate AgreesInOrder(c: Config, s: Fdb) {
    s.db == SeqRun(c.Policy(), c.initial, c.txs).state
  }

  ghost predicate NoSelfTransfer(c: Config) {
    forall i: nat :: AcceptedAt(c, i) ==> c.txs[i].from != c.txs[i].to
  }

  /**
   A complete run agrees with the in-order run when that one skips no accepted transaction; and if they agree,
   it skips none but self-transfers. Without those this is exact.
   */
  lemma CompleteIsSequential(c: Config, ts: seq<nat>)
    requires Legal(c, ts) && Complete(c, After(c, ts))
    ensures AppliedBy(c.Policy(), c.initial, c.txs) == AcceptedSet(c) ==> AgreesInOrder(c, After(c, ts))
    ensures AgreesInOrder(c, After(c, ts)) && |c.txs| < U64_MODULUS ==>
      forall i: nat :: i in AcceptedSet(c) && i !in AppliedBy(c.Policy(), c.initial, c.txs)
        ==> c.txs[i].from == c.txs[i].to
    ensures NoSelfTransfer(c) && |c.txs| < U64_MODULUS ==>
      (AgreesInOrder(c, After(c, ts)) <==> AppliedBy(c.Policy(), c.initial, c.txs) == AcceptedSet(c))
  {
    var s, some, all := After(c, ts), AppliedBy(c.Policy(), c.initial, c.txs), AcceptedSet(c);
    var sequential := SeqRun(c.Policy(), c.initial, c.txs).state;
    RunInvariant(c, ts);
    CompleteAppliesAll(c, s);
    SeqRunExplained(c.Policy(), c.initial, c.txs);
    AppliedInRange(c.Policy(), c.initial, c.txs);
    assert some <= all;
    if some == all {
      ExplainedIsUnique(c.initial, c.txs, all, s.db, sequential);
    }
    if s.db == sequential && |c.txs| < U64_MODULUS {
      forall i: nat | i in all && i !in some
        ensures c.txs[i].from == c.txs[i].to
      {
        if c.txs[i].from != c.txs[i].to {
          StateShowsSends(c.initial, c.txs, some, all, s.db, i);
        }
      }
    }
  }
}
