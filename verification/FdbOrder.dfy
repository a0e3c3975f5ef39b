/**
 What the log of applied transfers guarantees at any time, and what the counters say in the end.
 */
module FdbOrder {
  import opened Ledger
  import opened Effects
  import opened FdbSlices
  import opened FdbThreads

  predicate Fits(txs: seq<Transaction>, log: seq<nat>) {
    forall p :: 0 <= p < |log| ==> log[p] < |txs|
  }

  /** The transactions in the order they were applied. */
  function Select(txs: seq<Transaction>, log: seq<nat>): seq<Transaction>
    requires Fits(txs, log)
  {
    seq(|log|, p requires 0 <= p < |log| => txs[log[p]])
  }

  function LogSet(log: seq<nat>): set<nat> {
    set i | i in log
  }

  /** Either nothing is logged, or the head of the thread is, by applying it to the database. */
  lemma AttemptEffect(c: Config, s: Fdb, t: nat)
    requires Unfinished(c, s, t)
    ensures s.heads[t] < |c.txs|
    ensures var next, tx := Attempt(c, s, t), c.txs[s.heads[t]];
      || (next.log == s.log && next.db == s.db)
      || (next.log == s.log + [s.heads[t]] && Applies(c.Policy(), s.db, tx) && next.db == Transfer(s.db, tx))
  {
    HeadInRange(c, s, t);
  }

  /** The database is what the in-order run makes of the log, and no entry of the log fails. */
  ghost predicate LegalLog(c: Config, s: Fdb) {
    Fits(c.txs, s.log) && SeqRun(c.Policy(), c.initial, Select(c.txs, s.log)) == Outcome(s.db, |s.log|, 0)
  }

  lemma AttemptKeepsLegalLog(c: Config, s: Fdb, t: nat)
    requires LegalLog(c, s) && Unfinished(c, s, t)
    ensures LegalLog(c, Attempt(c, s, t))
  {
    AttemptEffect(c, s, t);
    var all := Select(c.txs, s.log + [s.heads[t]]);
    assert all[..|all| - 1] == Select(c.txs, s.log);
  }

  /**
   At any time the database is the result of running the applied transfers one by one in log order, with
   every one of them succeeding.
   */
  lemma {:induction false} LogIsLegalRun(c: Config, ts: seq<nat>)
    requires Legal(c, ts)
    ensures LegalLog(c, After(c, ts))
  {
    if ts != [] {
      LogIsLegalRun(c, ts[..|ts| - 1]);
      AttemptKeepsLegalLog(c, After(c, ts[..|ts| - 1]), ts[|ts| - 1]);
    }
  }

  /** The entry at `p` is new there, and its sender's nonce was the initial one plus the sends before it. */
  predicate InTurn(c: Config, log: seq<nat>, p: nat)
    requires p < |log|
  {
    && log[p] < |c.txs| && log[p] !in log[..p]
    && var tx := c.txs[log[p]];
       tx.nonce == (Lookup(c.initial, tx.from).nonce + FlowOf(c.txs, LogSet(log[..p]), tx.from).sends) % U64_MODULUS
  }

  lemma AppliesInTurn(c: Config, s: Fdb, i: nat)
    requires Invariant(c, s) && i < |c.txs| && i !in s.log && Applies(c.Policy(), s.db, c.txs[i])
    ensures InTurn(c, s.log + [i], |s.log|)
  {
    var a := c.txs[i].from;
    assert (s.log + [i])[..|s.log|] == s.log && LogSet((s.log + [i])[..|s.log|]) == Applied(s);
    assert AccountExplained(Lookup(c.initial, a), FlowOf(c.txs, Applied(s), a), Lookup(s.db, a));
  }

  lemma LastInTurn(c: Config, ts: seq<nat>, t: nat)
    requires Legal(c, ts) && Unfinished(c, After(c, ts), t)
    requires var s := After(c, ts); Attempt(c, s, t).log != s.log
    ensures InTurn(c, Attempt(c, After(c, ts), t).log, |After(c, ts).log|)
  {
    var s := After(c, ts);
    RunInvariant(c, ts);
    HeadNotPassed(c, s, t);
    AttemptEffect(c, s, t);
    AppliesInTurn(c, s, s.heads[t]);
  }

  lemma {:induction false} LogInTurn(c: Config, ts: seq<nat>, p: nat)
    requires Legal(c, ts) && p < |After(c, ts).log|
    ensures InTurn(c, After(c, ts).log, p)
  {
    var front, t := ts[..|ts| - 1], ts[|ts| - 1];
    var log := After(c, front).log;
    AttemptEffect(c, After(c, front), t);
    if p < |log| {
      LogInTurn(c, front, p);
      assert After(c, ts).log[..p] == log[..p];
    } else {
      LastInTurn(c, front, t);
    }
  }

  lemma LaterHasMoreSends(c: Config, log: seq<nat>, p: nat, q: nat, a: Address)
    requires p < q < |log| && log[p] < |c.txs| && Spends(c.txs[log[p]], a) && log[p] !in log[..p]
    ensures FlowOf(c.txs, LogSet(log[..p]), a).sends < FlowOf(c.txs, LogSet(log[..q]), a).sends
  {
    FlowAdd(c.txs, LogSet(log[..p]), log[p], a);
    assert log[..q] == log[..p] + [log[p]] + log[p + 1..q];
    assert LogSet(log[..p]) + {log[p]} <= LogSet(log[..q]);
    FlowMonotone(c.txs, LogSet(log[..p]) + {log[p]}, LogSet(log[..q]), a);
  }

  lemma LogIsAccepted(c: Config, ts: seq<nat>, q: nat)
    requires Legal(c, ts) && q <= |After(c, ts).log|
    ensures LogSet(After(c, ts).log[..q]) <= AcceptedSet(c)
  {
    RunInvariant(c, ts);
  }

  /** The sender's stored nonce stays below 2^64 even when all its accepted transfers are applied. */
  predicate CannotWrap(c: Config, a: Address) {
    Lookup(c.initial, a).nonce + FlowOf(c.txs, AcceptedSet(c), a).sends < U64_MODULUS
  }

  lemma LaterHasNoFewerSends(c: Config, ts: seq<nat>, p: nat, q: nat, a: Address)
    requires Legal(c, ts) && p <= q <= |After(c, ts).log|
    ensures var log := After(c, ts).log;
      FlowOf(c.txs, LogSet(log[..p]), a).sends <= FlowOf(c.txs, LogSet(log[..q]), a).sends
        <= FlowOf(c.txs, AcceptedSet(c), a).sends
  {
    var log := After(c, ts).log;
    assert log[..p] == log[..q][..p];
    FlowMonotone(c.txs, LogSet(log[..p]), LogSet(log[..q]), a);
    LogIsAccepted(c, ts, q);
    FlowMonotone(c.txs, LogSet(log[..q]), AcceptedSet(c), a);
  }

  lemma NonceCountsSends(c: Config, ts: seq<nat>, p: nat, a: Address)
    requires Legal(c, ts) && p < |After(c, ts).log| && CannotWrap(c, a)
    requires After(c, ts).log[p] < |c.txs| && c.txs[After(c, ts).log[p]].from == a
    ensures var log := After(c, ts).log;
      c.txs[log[p]].nonce == Lookup(c.initial, a).nonce + FlowOf(c.txs, LogSet(log[..p]), a).sends
  {
    LogInTurn(c, ts, p);
    LaterHasNoFewerSends(c, ts, p, p, a);
  }

  /**
   Transfers of one sender are applied in nonce order, as long as its nonce cannot wrap around. Only a
   self-transfer, which leaves the nonce alone, may be followed by another transfer with the same nonce.
   */
  lemma SenderInNonceOrder(c: Config, ts: seq<nat>, p: nat, q: nat)
    requires Legal(c, ts) && p < q < |After(c, ts).log|
    requires var log := After(c, ts).log;
      && log[p] < |c.txs| && log[q] < |c.txs|
      && c.txs[log[p]].from == c.txs[log[q]].from && CannotWrap(c, c.txs[log[p]].from)
    ensures var earlier, later := c.txs[After(c, ts).log[p]], c.txs[After(c, ts).log[q]];
      earlier.nonce <= later.nonce && (earlier.from != earlier.to ==> earlier.nonce < later.nonce)
  {
    var log, a := After(c, ts).log, c.txs[After(c, ts).log[p]].from;
    NonceCountsSends(c, ts, p, a);
    NonceCountsSends(c, ts, q, a);
    LaterHasNoFewerSends(c, ts, p, q, a);
    if c.txs[log[p]].to != a {
      LogInTurn(c, ts, p);
      LaterHasMoreSends(c, log, p, q, a);
    }
  }

  /** At any time every account is the initial one plus the flow of the applied transfers. */
  lemma AccountsAddUp(c: Config, ts: seq<nat>, a: Address)
    requires Legal(c, ts)
    ensures var s := After(c, ts);
      AccountExplained(Lookup(c.initial, a), FlowOf(c.txs, LogSet(s.log), a), Lookup(s.db, a))
  {
    RunInvariant(c, ts);
    assert LogSet(After(c, ts).log) == Applied(After(c, ts));
  }

  lemma AcceptedInLog(c: Config, ts: seq<nat>, p: nat)
    requires Legal(c, ts) && p < |After(c, ts).log|
    ensures AcceptedAt(c, After(c, ts).log[p])
  {
    RunInvariant(c, ts);
    assert After(c, ts).log[p] in After(c, ts).log;
  }

  // ---------------------------------------------------------------------------------------------
  // Counters
  // ---------------------------------------------------------------------------------------------

  function Sum(counts: seq<nat>): nat {
    if counts == [] then 0 else Sum(counts[..|counts| - 1]) + counts[|counts| - 1]
  }

  lemma {:induction false} SumUpdate(counts: seq<nat>, t: nat)
    requires t < |counts|
    ensures Sum(counts[t := counts[t] + 1]) == Sum(counts) + 1
  {
    var last := |counts| - 1;
    if t == last {
      assert counts[t := counts[t] + 1][..last] == counts[..last];
    } else {
      assert counts[t := counts[t] + 1][..last] == counts[..last][t := counts[t] + 1];
      SumUpdate(counts[..last], t);
    }
  }

  lemma {:induction false} SumZero(counts: seq<nat>)
    requires forall t :: 0 <= t < |counts| ==> counts[t] == 0
    ensures Sum(counts) == 0
  {
    if counts != [] {
      SumZero(counts[..|counts| - 1]);
    }
  }

  /** Successes are log entries, and a thread has counted every transaction it passed. */
  ghost predicate Counted(c: Config, s: Fdb) {
    && Shaped(c, s)
    && Sum(s.successful) == |s.log| == |LogSet(s.log)|
    && forall t :: 0 <= t < |c.slices| ==> s.successful[t] + s.failed[t] == s.heads[t] - c.slices[t].start
  }

  lemma AttemptCounts(c: Config, s: Fdb, t: nat)
    requires Unfinished(c, s, t)
    ensures var next := Attempt(c, s, t);
      || next == s
      || (!AcceptedAt(c, s.heads[t]) && next.log == s.log && next.successful == s.successful
          && next.failed == s.failed[t := s.failed[t] + 1] && next.heads == s.heads[t := s.heads[t] + 1])
      || (AcceptedAt(c, s.heads[t]) && next.log == s.log + [s.heads[t]]
          && next.successful == s.successful[t := s.successful[t] + 1]
          && next.failed == s.failed && next.heads == s.heads[t := s.heads[t] + 1])
  {
    HeadInRange(c, s, t);
  }

  function RejectedIn(c: Config, lo: nat, hi: nat): set<nat> {
    set i | lo <= i < hi && !AcceptedAt(c, i)
  }

  function AcceptedIn(c: Config, lo: nat, hi: nat): set<nat> {
    set i | lo <= i < hi && AcceptedAt(c, i)
  }

  lemma RejectedFurther(c: Config, lo: nat, hi: nat)
    requires lo <= hi
    ensures RejectedIn(c, lo, hi + 1) == RejectedIn(c, lo, hi) + if AcceptedAt(c, hi) then {} else {hi}
    ensures hi !in RejectedIn(c, lo, hi)
  {
  }

  lemma AcceptedFurther(c: Config, lo: nat, hi: nat)
    requires lo <= hi
    ensures AcceptedIn(c, lo, hi + 1) == AcceptedIn(c, lo, hi) + if AcceptedAt(c, hi) then {hi} else {}
    ensures hi !in AcceptedIn(c, lo, hi)
  {
  }

  lemma OneMore(s: set<nat>, i: nat)
    requires i !in s
    ensures |s + {i}| == |s| + 1 && s + {} == s
  {
  }

  lemma OneFurther(c: Config, lo: nat, hi: nat)
    requires lo <= hi
    ensures |RejectedIn(c, lo, hi + 1)| == |RejectedIn(c, lo, hi)| + if AcceptedAt(c, hi) then 0 else 1
    ensures |AcceptedIn(c, lo, hi + 1)| == |AcceptedIn(c, lo, hi)| + if AcceptedAt(c, hi) then 1 else 0
  {
    RejectedFurther(c, lo, hi);
    AcceptedFurther(c, lo, hi);
    OneMore(RejectedIn(c, lo, hi), hi);
    OneMore(AcceptedIn(c, lo, hi), hi);
  }

  /** A thread has failed on exactly the rejected transactions it passed, and succeeded on the accepted ones. */
  predicate CountsPassed(c: Config, s: Fdb, t: nat)
    requires Shaped(c, s) && t < |c.slices|
  {
    && s.failed[t] == |RejectedIn(c, c.slices[t].start, s.heads[t])|
    && s.successful[t] == |AcceptedIn(c, c.slices[t].start, s.heads[t])|
  }

  lemma AttemptCountsPassed(c: Config, s: Fdb, u: nat, t: nat)
    requires Unfinished(c, s, u) && t < |c.slices| && CountsPassed(c, s, t)
    ensures Shaped(c, Attempt(c, s, u)) && CountsPassed(c, Attempt(c, s, u), t)
  {
    AttemptShape(c, s, u);
    AttemptCounts(c, s, u);
    OneFurther(c, c.slices[u].start, s.heads[u]);
  }

  lemma {:induction false} ThreadCounts(c: Config, ts: seq<nat>, t: nat)
    requires Legal(c, ts) && t < |c.slices|
    ensures Shaped(c, After(c, ts)) && CountsPassed(c, After(c, ts), t)
  {
    RunIsShaped(c, ts);
    if ts == [] {
      assert RejectedIn(c, c.slices[t].start, c.slices[t].start) == {};
      assert AcceptedIn(c, c.slices[t].start, c.slices[t].start) == {};
    } else {
      ThreadCounts(c, ts[..|ts| - 1], t);
      AttemptCountsPassed(c, After(c, ts[..|ts| - 1]), ts[|ts| - 1], t);
    }
  }

  lemma LogSetNext(log: seq<nat>, i: nat)
    requires i !in log
    ensures |LogSet(log + [i])| == |LogSet(log)| + 1
  {
    assert LogSet(log + [i]) == LogSet(log) + {i};
  }

  lemma AttemptKeepsCounted(c: Config, s: Fdb, t: nat)
    requires Counted(c, s) && Unfinished(c, s, t) && s.heads[t] !in s.log
    ensures Counted(c, Attempt(c, s, t))
  {
    AttemptShape(c, s, t);
    AttemptCounts(c, s, t);
    SumUpdate(s.successful, t);
    LogSetNext(s.log, s.heads[t]);
  }

  lemma HeadIsNew(c: Config, ts: seq<nat>, t: nat)
    requires Legal(c, ts) && Unfinished(c, After(c, ts), t)
    ensures After(c, ts).heads[t] !in After(c, ts).log
  {
    RunInvariant(c, ts);
    HeadNotPassed(c, After(c, ts), t);
  }

  lemma {:induction false} RunIsCounted(c: Config, ts: seq<nat>)
    requires Legal(c, ts)
    ensures Counted(c, After(c, ts))
  {
    if ts == [] {
      SumZero(Begin(c).successful);
    } else {
      RunIsCounted(c, ts[..|ts| - 1]);
      HeadIsNew(c, ts[..|ts| - 1], ts[|ts| - 1]);
      AttemptKeepsCounted(c, After(c, ts[..|ts| - 1]), ts[|ts| - 1]);
    }
  }

  lemma FrontOfPartition(slices: seq<Slice>, n: nat)
    requires Partition(slices, n) && slices != []
    ensures Partition(slices[..|slices| - 1], slices[|slices| - 1].start)
  {
  }

  lemma {:induction false} SumOfSlices(slices: seq<Slice>, successful: seq<nat>, failed: seq<nat>, n: nat)
    requires Partition(slices, n) && |successful| == |failed| == |slices|
    requires forall t :: 0 <= t < |slices| ==> successful[t] + failed[t] == slices[t].end - slices[t].start
    ensures Sum(successful) + Sum(failed) == n
  {
    if slices != [] {
      var last := |slices| - 1;
      FrontOfPartition(slices, n);
      SumOfSlices(slices[..last], successful[..last], failed[..last], slices[last].start);
      assert slices[last].end == n;
    }
  }

  /** A complete run reports every accepted transaction as a success and every other one as a failure. */
  lemma CompleteCounts(c: Config, ts: seq<nat>)
    requires Legal(c, ts) && Complete(c, After(c, ts))
    ensures Sum(After(c, ts).successful) == |AcceptedSet(c)|
    ensures Sum(After(c, ts).successful) + Sum(After(c, ts).failed) == |c.txs|
  {
    var s := After(c, ts);
    RunIsCounted(c, ts);
    RunInvariant(c, ts);
    CompleteAppliesAll(c, s);
    assert LogSet(s.log) == Applied(s);
    SumOfSlices(c.slices, s.successful, s.failed, |c.txs|);
  }
}
