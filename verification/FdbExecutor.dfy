/**
 The FoundationDB executor over its key-value store. Which thread makes the next attempt is up to the
 platform, so it is an input; each attempt is one database transaction.
 */
module FdbExecutor {
  import opened Ledger
  import opened Mdbx
  import opened FdbStore
  import opened FdbSlices
  import opened FdbThreads
  import opened FdbOrder
  import FdbProgress
  import opened FdbFair
  import Workloads

  const BATCH_SIZE: nat := 1000

  datatype ThreadResult = ThreadResult(threadId: nat, successful: nat, failed: nat)

  datatype ParallelExecutionResult =
    ParallelExecutionResult(threadResults: seq<ThreadResult>, totalSuccessful: nat, totalFailed: nat)

  /** Where each thread is in its slice, and its counters. */
  datatype Counters = Counters(heads: seq<nat>, successful: seq<nat>, failed: seq<nat>)

  /** What one attempt at the head of a slice leads to. */
  datatype Verdict = Rejected | Done | Retry

  /** The state with each listed account set to its balance and nonce zero, later entries winning. */
  function Endowed(st: State, accounts: seq<(Address, U256)>): State {
    if accounts == [] then st
    else
      var (address, balance) := accounts[|accounts| - 1];
      Endowed(st, accounts[..|accounts| - 1])[address := Account(0, balance)]
  }

  /** An account ends up with nonce zero and the balance of its last entry; one without an entry stays. */
  lemma {:induction false} LastEntryWins(st: State, accounts: seq<(Address, U256)>, a: Address, p: nat)
    requires p < |accounts| && accounts[p].0 == a && forall q :: p < q < |accounts| ==> accounts[q].0 != a
    ensures a in Endowed(st, accounts) && Endowed(st, accounts)[a] == Account(0, accounts[p].1)
  {
    if p < |accounts| - 1 {
      LastEntryWins(st, accounts[..|accounts| - 1], a, p);
    }
  }

  lemma {:induction false} NoEntryNoChange(st: State, accounts: seq<(Address, U256)>, a: Address)
    requires forall q :: 0 <= q < |accounts| ==> accounts[q].0 != a
    ensures a in Endowed(st, accounts) <==> a in st
    ensures a in st ==> Endowed(st, accounts)[a] == st[a]
  {
    if accounts != [] {
      NoEntryNoChange(st, accounts[..|accounts| - 1], a);
    }
  }

  lemma FundedNext(addresses: seq<Address>)
    requires addresses != []
    ensures var k := |addresses| - 1;
      Funded(addresses) == Funded(addresses[..k])[addresses[k] := Account(0, INITIAL_BALANCE)]
  {
    var k := |addresses| - 1;
    assert addresses == addresses[..k] + [addresses[k]];
  }

  lemma OverlayOnce(st: State, more: State, a: Address, account: Account)
    ensures (st + more)[a := account] == st + more[a := account]
  {
  }

  lemma {:induction false} EndowedIsFunded(st: State, addresses: seq<Address>, accounts: seq<(Address, U256)>)
    requires |accounts| == |addresses|
    requires forall k :: 0 <= k < |accounts| ==> accounts[k] == (addresses[k], INITIAL_BALANCE)
    ensures Endowed(st, accounts) == st + Funded(addresses)
  {
    if accounts != [] {
      var k := |accounts| - 1;
      EndowedIsFunded(st, addresses[..k], accounts[..k]);
      FundedNext(addresses);
      OverlayOnce(st, Funded(addresses[..k]), addresses[k], Account(0, INITIAL_BALANCE));
    }
  }

  class FdbParallelExecutor {
    const db: FdbDatabase
    const verifySignatures: bool
    const numThreads: nat

    ghost predicate Valid()
      reads db
    {
      db.Valid() && numThreads >= 1
    }

    /** Opens a database that may still hold what earlier runs left there. */
    constructor (db: FdbDatabase, numThreads: nat, verifySignatures: bool)
      requires db.Valid()
      ensures Valid() && this.db == db && this.verifySignatures == verifySignatures
      ensures this.numThreads == if numThreads == 0 then 1 else numThreads
    {
      this.db := db;
      this.verifySignatures := verifySignatures;
      this.numThreads := if numThreads == 0 then 1 else numThreads;
    }

    /** Writes the accounts in batches of at most `BATCH_SIZE` per database transaction. */
    method InitAccounts(accounts: seq<(Address, U256)>)
      requires Valid() && forall k :: 0 <= k < |accounts| ==> accounts[k].0 in db.digests
      modifies db
      ensures Valid() && db.accounts == Endowed(old(db.accounts), accounts)
    {
      var start := 0;
      while start < |accounts|
        invariant Valid() && start <= |accounts|
        invariant db.accounts == Endowed(old(db.accounts), accounts[..start])
      {
        var end := if start + BATCH_SIZE < |accounts| then start + BATCH_SIZE else |accounts|;
        for k := start to end
          invariant Valid()
          invariant db.accounts == Endowed(old(db.accounts), accounts[..k])
        {
          assert accounts[..k + 1][..k] == accounts[..k];
          db.SetAccount(accounts[k].0, Account(0, accounts[k].1));
        }
        start := end;
      }
      assert accounts[..|accounts|] == accounts;
    }

    /** One database transaction: check the sender, then write both accounts, or change nothing. */
    method RunTransfer(tx: Transaction) returns (applied: bool)
      requires Valid() && tx.from in db.digests && tx.to in db.digests
      modifies db
      ensures Valid()
      ensures applied <==> tx.from in old(db.accounts) && Passes(Lookup(old(db.accounts), tx.from), tx)
      ensures db.accounts == if applied then Transfer(old(db.accounts), tx) else old(db.accounts)
    {
      var senderData := db.GetAccount(tx.from);
      if senderData.None? {
        return false;
      }
      var sender := senderData.value;
      if sender.nonce != tx.nonce {
        return false;
      }
      if sender.balance < tx.value {
        return false;
      }
      var receiverData := db.GetAccount(tx.to);
      var receiver := if receiverData.Some? then receiverData.value else Account(0, 0);
      db.SetAccount(tx.from, Account(Bump(sender.nonce), sender.balance - tx.value));
      db.SetAccount(tx.to, Account(receiver.nonce, Credit(receiver.balance, tx.value)));
      return true;
    }

    /** What a thread does with the head of its slice when it is its turn. */
    method AttemptOnce(tx: Transaction) returns (verdict: Verdict)
      requires Valid() && tx.from in db.digests && tx.to in db.digests
      modifies db
      ensures Valid()
      ensures verdict == Rejected <==> verifySignatures && tx.signer != Some(tx.from)
      ensures var rules := Policy(verifySignatures);
        && verdict == (if !Accepted(rules, tx) then Rejected
                       else if Applies(rules, old(db.accounts), tx) then Done
                       else Retry)
        && db.accounts == if verdict == Done then Transfer(old(db.accounts), tx) else old(db.accounts)
    {
      if verifySignatures {
        var valid := CheckSignature(tx);
        if !valid {
          return Rejected;
        }
      }
      var applied := RunTransfer(tx);
      return if applied then Done else Retry;
    }

    /** One turn of thread `t`, which passes if the thread is done with its slice. */
    method TakeTurn(transactions: seq<Transaction>, slices: seq<Slice>, t: nat, p: Counters,
                    ghost c: Config, ghost log: seq<nat>)
      returns (q: Counters, ghost newLog: seq<nat>)
      requires Valid() && Configured(transactions, slices, c)
      requires Shaped(c, Snapshot(db.accounts, p, log))
      requires forall tx :: tx in transactions ==> tx.from in db.digests && tx.to in db.digests
      modifies db
      ensures Valid()
      ensures var before := Snapshot(old(db.accounts), p, log);
        Snapshot(db.accounts, q, newLog) == if Unfinished(c, before, t) then Attempt(c, before, t) else before
    {
      q, newLog := p, log;
      if t < |slices| && p.heads[t] < slices[t].end {
        HeadInRange(c, Snapshot(db.accounts, p, log), t);
        var i := p.heads[t];
        var verdict := AttemptOnce(transactions[i]);
        match verdict {
          case Rejected =>
            q := p.(heads := p.heads[t := i + 1], failed := p.failed[t := p.failed[t] + 1]);
          case Done =>
            q := p.(heads := p.heads[t := i + 1], successful := p.successful[t := p.successful[t] + 1]);
            newLog := log + [i];
          case Retry =>
        }
      }
    }

    /** Lets the threads take turns as `schedule` says; what happens is a run of the transition system. */
    method RunThreads(transactions: seq<Transaction>, slices: seq<Slice>, schedule: seq<nat>, ghost c: Config)
      returns (p: Counters, ghost ts: seq<nat>, ghost log: seq<nat>)
      requires Valid() && Configured(transactions, slices, c) && c.initial == db.accounts
      requires forall tx :: tx in transactions ==> tx.from in db.digests && tx.to in db.digests
      modifies db
      ensures Valid() && ts == Moves(c, schedule) && After(c, ts) == Snapshot(db.accounts, p, log)
    {
      p := Counters(seq(|slices|, t requires 0 <= t < |slices| => slices[t].start),
                    seq(|slices|, _ => 0), seq(|slices|, _ => 0));
      ts, log := [], [];
      for turn := 0 to |schedule|
        invariant Valid() && ts == Moves(c, schedule[..turn]) && After(c, ts) == Snapshot(db.accounts, p, log)
      {
        var t := schedule[turn];
        RunIsShaped(c, ts);
        p, log := TakeTurn(transactions, slices, t, p, c, log);
        OneMoreTurn(c, schedule[..turn], t);
        NextTurn(schedule, turn);
        ts := Moves(c, schedule[..turn + 1]);
      }
      assert schedule[..|schedule|] == schedule;
    }

    /**
     Runs a workload with the threads taking turns as `schedule` says. On a disciplined workload with ample
     balances, enough rounds in which all threads get a turn finish it.
     */
    method ExecuteWorkload(accounts: seq<Address>, transactions: seq<Transaction>, schedule: seq<nat>)
      returns (finished: bool, result: ParallelExecutionResult, ghost c: Config, ghost ts: seq<nat>)
      requires Valid() && forall k :: 0 <= k < |accounts| ==> accounts[k] in db.digests
      requires forall tx :: tx in transactions ==> tx.from in db.digests && tx.to in db.digests
      modifies db
      ensures Valid() && |c.slices| <= numThreads
      ensures c.txs == transactions && c.verifySignatures == verifySignatures
      ensures c.initial == Leftovers(db.digests, old(db.accounts)) + Funded(accounts)
      ensures c.Valid() && ts == Moves(c, schedule) && db.accounts == After(c, ts).db
      ensures finished <==> Complete(c, After(c, ts))
      ensures Reports(result, After(c, ts))
      ensures finished ==>
        |result.threadResults| == |c.slices|
        && forall t :: 0 <= t < |c.slices| ==>
             ReportsOn(c, result.threadResults[t], t, c.slices[t].start, c.slices[t].end)
      ensures RoundRobin(numThreads, |transactions|, schedule) && FdbProgress.Disciplined(c) && FdbProgress.Ample(c)
        ==> finished
    {
      db.ClearDatabase();
      var balances := seq(|accounts|, k requires 0 <= k < |accounts| => (accounts[k], INITIAL_BALANCE));
      EndowedIsFunded(db.accounts, accounts, balances);
      InitAccounts(balances);
      var slices := Divide(|transactions|, numThreads);
      c := Config(transactions, db.accounts, verifySignatures, slices);
      var p: Counters;
      ghost var log;
      p, ts, log := RunThreads(transactions, slices, schedule, c);
      RunIsShaped(c, ts);
      FairFinishes(c, numThreads, schedule);
      finished := forall t :: 0 <= t < |slices| ==> p.heads[t] == slices[t].end;
      result := Collect(p.successful, p.failed);
      EachThreadReports(c, ts, result);
    }

    /** The transition system's parameters are this executor's. */
    ghost predicate Configured(transactions: seq<Transaction>, slices: seq<Slice>, c: Config) {
      c.Valid() && c.txs == transactions && c.slices == slices && c.verifySignatures == verifySignatures
    }
  }

  ghost function Snapshot(db: State, p: Counters, log: seq<nat>): Fdb {
    Fdb(db, p.heads, p.successful, p.failed, log)
  }

  /** One result per thread, with its number and its counters, and their totals. */
  ghost predicate Reports(result: ParallelExecutionResult, s: Fdb) {
    && |result.threadResults| == |s.successful| == |s.failed|
    && (forall t :: 0 <= t < |s.successful| ==>
          var r := result.threadResults[t];
          r.threadId == t && r.successful == s.successful[t] && r.failed == s.failed[t])
    && result.totalSuccessful == Sum(s.successful) && result.totalFailed == Sum(s.failed)
  }

  /** Adds the results of the threads up. */
  method Collect(successful: seq<nat>, failed: seq<nat>) returns (result: ParallelExecutionResult)
    requires |successful| == |failed|
    ensures |result.threadResults| == |successful|
    ensures forall t :: 0 <= t < |successful| ==>
      var r := result.threadResults[t];
      r.threadId == t && r.successful == successful[t] && r.failed == failed[t]
    ensures result.totalSuccessful == Sum(successful) && result.totalFailed == Sum(failed)
  {
    var threadResults, totalSuccessful, totalFailed := [], 0, 0;
    for t := 0 to |successful|
      invariant |threadResults| == t
      invariant forall u :: 0 <= u < t ==> threadResults[u] == ThreadResult(u, successful[u], failed[u])
      invariant totalSuccessful == Sum(successful[..t]) && totalFailed == Sum(failed[..t])
    {
      assert successful[..t + 1][..t] == successful[..t] && failed[..t + 1][..t] == failed[..t];
      totalSuccessful := totalSuccessful + successful[t];
      totalFailed := totalFailed + failed[t];
      threadResults := threadResults + [ThreadResult(t, successful[t], failed[t])];
    }
    assert successful[..|successful|] == successful && failed[..|failed|] == failed;
    result := ParallelExecutionResult(threadResults, totalSuccessful, totalFailed);
  }

  /** A thread's result counts the rejected and the accepted transactions of the part it has passed. */
  predicate ReportsOn(c: Config, r: ThreadResult, t: nat, start: nat, end: nat) {
    r.threadId == t && r.failed == |RejectedIn(c, start, end)| && r.successful == |AcceptedIn(c, start, end)|
  }

  lemma EachThreadReports(c: Config, ts: seq<nat>, result: ParallelExecutionResult)
    requires Legal(c, ts) && Reports(result, After(c, ts))
    ensures |result.threadResults| == |After(c, ts).heads| == |c.slices|
    ensures forall t :: 0 <= t < |c.slices| ==>
      ReportsOn(c, result.threadResults[t], t, c.slices[t].start, After(c, ts).heads[t])
    ensures Complete(c, After(c, ts)) ==>
      forall t :: 0 <= t < |c.slices| ==>
        ReportsOn(c, result.threadResults[t], t, c.slices[t].start, c.slices[t].end)
  {
    RunIsShaped(c, ts);
    forall t | 0 <= t < |c.slices|
      ensures ReportsOn(c, result.threadResults[t], t, c.slices[t].start, After(c, ts).heads[t])
    {
      ThreadCounts(c, ts, t);
    }
  }

  lemma NextTurn(schedule: seq<nat>, turn: nat)
    requires turn < |schedule|
    ensures schedule[..turn + 1] == schedule[..turn] + [schedule[turn]]
  {
  }

  lemma FairFinishes(c: Config, threads: nat, schedule: seq<nat>)
    requires c.Valid() && |c.slices| <= threads
    ensures RoundRobin(threads, |c.txs|, schedule) && FdbProgress.Disciplined(c) && FdbProgress.Ample(c)
      ==> Complete(c, After(c, Moves(c, schedule)))
  {
    if RoundRobin(threads, |c.txs|, schedule) && FdbProgress.Disciplined(c) && FdbProgress.Ample(c) {
      RoundRobinCompletes(c, threads, schedule);
    }
  }

  /** Every generated workload is one of those, whatever the database held before. */
  lemma GeneratedFinishes(c: Config, accounts: seq<Address>, leftovers: State)
    requires c.initial == leftovers + Funded(accounts) && Workloads.Generated(accounts, c.txs)
    requires |c.txs| < U64_MODULUS
    ensures FdbProgress.Disciplined(c) && FdbProgress.Ample(c)
  {
    Workloads.GeneratedIsDisciplined(c, accounts);
    Workloads.GeneratedIsAmple(c, accounts);
  }

  /**
   On a generated workload every finished run succeeds everywhere and leaves the accounts of the in-order run
   on a clean database, next to what clearing left behind.
   */
  lemma GeneratedOnStore(c: Config, accounts: seq<Address>, leftovers: State, ts: seq<nat>)
    requires c.initial == leftovers + Funded(accounts) && Workloads.Generated(accounts, c.txs)
    requires |c.txs| < U64_MODULUS && Legal(c, ts) && Complete(c, After(c, ts))
    ensures After(c, ts).db
      == leftovers + SeqRun(Mdbx.Policy(c.verifySignatures), Funded(accounts), c.txs).state
    ensures Sum(After(c, ts).successful) == |c.txs| && Sum(After(c, ts).failed) == 0
  {
    Workloads.GeneratedOnThreads(c, accounts, ts);
    forall tx | tx in c.txs
      ensures tx.from in Funded(accounts) && tx.to in Funded(accounts)
    {
      var i :| 0 <= i < |c.txs| && c.txs[i] == tx;
      assert Workloads.WellMade(accounts, c.txs, i);
    }
    LeftoversUntouched(Mdbx.Policy(c.verifySignatures), leftovers, Funded(accounts), c.txs);
  }
}
