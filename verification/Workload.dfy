/**
 Generated workloads: every transaction is well signed, goes to somebody else, and carries the number of
 earlier transactions of its sender as its nonce. The executors that keep accounts in a database succeed on
 all of them; module StaleRead has one on which the Block-STM engine can end in a stale state.
 */
module Workloads {
  import opened Ledger
  import opened Mdbx
  import MdbxBatched
  import opened Effects
  import opened FdbThreads
  import opened FdbOrder
  import opened FdbProgress

  datatype WorkloadConfig =
    WorkloadConfig(numAccounts: nat, numTransactions: nat, hotAccounts: nat, transactionsPerBlock: nat)

  datatype Workload =
    Workload(accounts: seq<Address>, transactions: seq<Transaction>, blocks: seq<seq<Transaction>>)

  /** Sender and receiver positions, after the receiver was redrawn until it differs. */
  datatype Pick = Pick(from: nat, to: nat)

  /** The number of transactions from `a`. */
  function SentBy(txs: seq<Transaction>, a: Address): nat {
    if txs == [] then 0 else SentBy(txs[..|txs| - 1], a) + if txs[|txs| - 1].from == a then 1 else 0
  }

  predicate WellMade(accounts: seq<Address>, txs: seq<Transaction>, i: nat)
    requires i < |txs|
  {
    var tx := txs[i];
    && tx.from in accounts && tx.to in accounts && tx.from != tx.to && tx.value == 1
    && tx.SignatureValid() && tx.nonce == SentBy(txs[..i], tx.from)
  }

  ghost predicate Generated(accounts: seq<Address>, txs: seq<Transaction>) {
    forall i :: 0 <= i < |txs| ==> WellMade(accounts, txs, i)
  }

  predicate Distinct(accounts: seq<Address>) {
    forall p, q :: 0 <= p < q < |accounts| ==> accounts[p] != accounts[q]
  }

  /** `hot` clamped between two and the number of accounts. */
  function HotAccounts(config: WorkloadConfig): nat {
    if config.hotAccounts < 2 then 2
    else if config.hotAccounts > config.numAccounts then config.numAccounts
    else config.hotAccounts
  }

  function Distance(x: nat, y: nat): nat {
    if x < y then y - x else x - y
  }

  /** Of all possible numbers of hot accounts it is the one nearest to the configured number. */
  lemma HotIsNearest(config: WorkloadConfig, x: nat)
    requires 2 <= x <= config.numAccounts
    ensures 2 <= HotAccounts(config) <= config.numAccounts
    ensures Distance(HotAccounts(config), config.hotAccounts) <= Distance(x, config.hotAccounts)
  {
  }

  lemma {:induction false} SentBounded(txs: seq<Transaction>, a: Address)
    ensures SentBy(txs, a) <= |txs|
  {
    if txs != [] {
      SentBounded(txs[..|txs| - 1], a);
    }
  }

  // ---------------------------------------------------------------------------------------------
  // Generation
  // ---------------------------------------------------------------------------------------------

  lemma OneMoreGenerated(accounts: seq<Address>, txs: seq<Transaction>, tx: Transaction)
    requires Generated(accounts, txs)
    requires tx.from in accounts && tx.to in accounts && tx.from != tx.to && tx.value == 1
    requires tx.SignatureValid() && tx.nonce == SentBy(txs, tx.from)
    ensures Generated(accounts, txs + [tx])
  {
    var next := txs + [tx];
    forall j | 0 <= j < |next|
      ensures WellMade(accounts, next, j)
    {
      assert next[..j] == if j < |txs| then txs[..j] else txs;
      assert j < |txs| ==> WellMade(accounts, txs, j);
    }
  }

  lemma OneMoreSent(txs: seq<Transaction>, tx: Transaction, a: Address)
    ensures SentBy(txs + [tx], a) == SentBy(txs, a) + if tx.from == a then 1 else 0
  {
    assert (txs + [tx])[..|txs|] == txs;
  }

  /** The pick names two different accounts. */
  predicate InRange(pick: Pick, count: nat) {
    pick.from < count && pick.to < count && pick.from != pick.to
  }

  /** The transaction goes where the pick says. */
  predicate Follows(tx: Transaction, pick: Pick, accounts: seq<Address>) {
    InRange(pick, |accounts|) && tx.from == accounts[pick.from] && tx.to == accounts[pick.to]
  }

  /** The next nonce of each account is the number of transactions it has sent. */
  predicate Counted(accounts: seq<Address>, txs: seq<Transaction>, nonces: map<nat, U64>) {
    forall p :: 0 <= p < |accounts| ==> SentBy(txs, accounts[p]) == if p in nonces then nonces[p] else 0
  }

  lemma OneMoreCounted(accounts: seq<Address>, txs: seq<Transaction>, nonces: map<nat, U64>, from: nat, tx: Transaction)
    requires Distinct(accounts) && Counted(accounts, txs, nonces)
    requires from < |accounts| && tx.from == accounts[from] && tx.nonce == SentBy(txs, tx.from) < U64_MODULUS - 1
    ensures Counted(accounts, txs + [tx], nonces[from := tx.nonce + 1])
  {
    forall p | 0 <= p < |accounts|
      ensures SentBy(txs + [tx], accounts[p]) == SentBy(txs, accounts[p]) + if p == from then 1 else 0
    {
      OneMoreSent(txs, tx, accounts[p]);
    }
  }

  method GenerateTransactions(accounts: seq<Address>, picks: seq<Pick>) returns (transactions: seq<Transaction>)
    requires Distinct(accounts) && |picks| < U64_MODULUS
    requires forall k :: 0 <= k < |picks| ==> InRange(picks[k], |accounts|)
    ensures |transactions| == |picks| && Generated(accounts, transactions)
    ensures forall k :: 0 <= k < |picks| ==> Follows(transactions[k], picks[k], accounts)
  {
    transactions := [];
    var nonces: map<nat, U64> := map[];
    for k := 0 to |picks|
      invariant |transactions| == k && Generated(accounts, transactions)
      invariant forall j :: 0 <= j < k ==> Follows(transactions[j], picks[j], accounts)
      invariant Counted(accounts, transactions, nonces)
    {
      var pick := picks[k];
      var from, to := accounts[pick.from], accounts[pick.to];
      var nonce: U64 := if pick.from in nonces then nonces[pick.from] else 0;
      SentBounded(transactions, from);
      var tx := Transaction(from, to, 1, nonce, Some(from));
      OneMoreGenerated(accounts, transactions, tx);
      OneMoreCounted(accounts, transactions, nonces, pick.from, tx);
      transactions := transactions + [tx];
      nonces := nonces[pick.from := nonce + 1];
    }
  }

  /** Consecutive blocks of the given size; only the last may be shorter. */
  method Chunks(transactions: seq<Transaction>, size: nat) returns (blocks: seq<seq<Transaction>>)
    requires size >= 1
    ensures MdbxBatched.Flatten(blocks) == transactions
    ensures forall k :: 0 <= k < |blocks| ==> 1 <= |blocks[k]| <= size && (k < |blocks| - 1 ==> |blocks[k]| == size)
  {
    blocks := [];
    var start := 0;
    while start < |transactions|
      invariant start <= |transactions|
      invariant MdbxBatched.Flatten(blocks) == transactions[..start]
      invariant forall k :: 0 <= k < |blocks| ==> 1 <= |blocks[k]| <= size
      invariant forall k :: 0 <= k < |blocks| && (k < |blocks| - 1 || start < |transactions|) ==> |blocks[k]| == size
    {
      var end := if start + size < |transactions| then start + size else |transactions|;
      var chunk := transactions[start..end];
      assert (blocks + [chunk])[..|blocks|] == blocks;
      assert transactions[..start] + chunk == transactions[..end];
      blocks := blocks + [chunk];
      start := end;
    }
    assert transactions[..|transactions|] == transactions;
  }

  method Generate(config: WorkloadConfig, accounts: seq<Address>, picks: seq<Pick>) returns (w: Workload)
    requires config.numAccounts >= 2 && config.transactionsPerBlock >= 1
    requires |accounts| == config.numAccounts && Distinct(accounts)
    requires |picks| == config.numTransactions < U64_MODULUS
    requires forall k :: 0 <= k < |picks| ==> InRange(picks[k], HotAccounts(config))
    ensures w.accounts == accounts && |w.transactions| == config.numTransactions
    ensures Generated(w.accounts, w.transactions)
    ensures MdbxBatched.Flatten(w.blocks) == w.transactions
    ensures forall k :: 0 <= k < |picks| ==> Follows(w.transactions[k], picks[k], accounts)
    ensures forall k :: 0 <= k < |w.blocks| ==>
      && 1 <= |w.blocks[k]| <= config.transactionsPerBlock
      && (k < |w.blocks| - 1 ==> |w.blocks[k]| == config.transactionsPerBlock)
  {
    var transactions := GenerateTransactions(accounts, picks);
    var blocks := Chunks(transactions, config.transactionsPerBlock);
    w := Workload(accounts, transactions, blocks);
  }

  // ---------------------------------------------------------------------------------------------
  // What holds of every generated workload
  // ---------------------------------------------------------------------------------------------

  /** The workload's accounts are freshly funded; the database may hold others besides. */
  ghost predicate FromWorkload(c: Config, accounts: seq<Address>) {
    && (forall a :: a in accounts ==> a in c.initial && c.initial[a] == Account(0, INITIAL_BALANCE))
    && Generated(accounts, c.txs) && |c.txs| < U64_MODULUS
  }

  lemma AllAccepted(c: Config, accounts: seq<Address>)
    requires FromWorkload(c, accounts)
    ensures forall i: nat :: AcceptedAt(c, i) <==> i < |c.txs|
  {
    forall i: nat | i < |c.txs|
      ensures AcceptedAt(c, i)
    {
      assert WellMade(accounts, c.txs, i);
    }
  }

  /** Counting sends and counting transactions by sender agree. */
  lemma {:induction false} SentIsSends(accounts: seq<Address>, txs: seq<Transaction>, applied: set<nat>,
                                       k: nat, a: Address)
    requires Generated(accounts, txs) && k <= |txs| && forall i :: 0 <= i < k ==> i in applied
    ensures FlowOf(txs[..k], applied, a).sends == SentBy(txs[..k], a)
    ensures FlowOf(txs[..k], applied, a).outflow == SentBy(txs[..k], a)
    ensures FlowOf(txs[..k], applied, a).inflow <= k
    ensures a !in accounts ==> SentBy(txs[..k], a) == 0 && FlowOf(txs[..k], applied, a).inflow == 0
  {
    if k != 0 {
      SentIsSends(accounts, txs, applied, k - 1, a);
      assert txs[..k][..k - 1] == txs[..k - 1];
      assert WellMade(accounts, txs, k - 1);
    }
  }

  lemma GeneratedIsDisciplined(c: Config, accounts: seq<Address>)
    requires FromWorkload(c, accounts)
    ensures Disciplined(c)
  {
    AllAccepted(c, accounts);
    forall i: nat | AcceptedAt(c, i)
      ensures c.txs[i].from != c.txs[i].to
      ensures c.txs[i].nonce
        == Lookup(c.initial, c.txs[i].from).nonce + FlowOf(c.txs[..i], AcceptedSet(c), c.txs[i].from).sends
    {
      assert WellMade(accounts, c.txs, i);
      SentIsSends(accounts, c.txs, AcceptedSet(c), i, c.txs[i].from);
    }
  }

  lemma GeneratedIsAmple(c: Config, accounts: seq<Address>)
    requires FromWorkload(c, accounts)
    ensures Ample(c)
  {
    AllAccepted(c, accounts);
    forall i: nat | AcceptedAt(c, i)
      ensures c.txs[i].from in c.initial
    {
      assert WellMade(accounts, c.txs, i);
    }
    forall a: Address
      ensures Lookup(c.initial, a).nonce + FlowOf(c.txs, AcceptedSet(c), a).sends < U64_MODULUS
      ensures FlowOf(c.txs, AcceptedSet(c), a).outflow <= Lookup(c.initial, a).balance
      ensures Lookup(c.initial, a).balance + FlowOf(c.txs, AcceptedSet(c), a).inflow < U256_MODULUS
    {
      SentIsSends(accounts, c.txs, AcceptedSet(c), |c.txs|, a);
      SentBounded(c.txs, a);
      assert c.txs[..|c.txs|] == c.txs;
    }
  }

  /**
   Generated workloads always succeed: the in-order run over the funded accounts applies all of them. By
   their contracts the sequential and the batched executor report these counts.
   */
  lemma GeneratedSucceeds(verify: bool, accounts: seq<Address>, txs: seq<Transaction>)
    requires Generated(accounts, txs) && |txs| < U64_MODULUS
    ensures SeqRun(Policy(verify), Funded(accounts), txs).successful == |txs|
    ensures SeqRun(Policy(verify), Funded(accounts), txs).failed == 0
  {
    var c := Config(txs, Funded(accounts), verify, []);
    AllAccepted(c, accounts);
    GeneratedIsDisciplined(c, accounts);
    GeneratedIsAmple(c, accounts);
    SequentialCounts(c);
    IndicesCount(AcceptedSet(c), |txs|);
    SeqRunCounts(Policy(verify), Funded(accounts), txs);
  }

  lemma {:induction false} IndicesCount(s: set<nat>, n: nat)
    requires forall i: nat :: i in s <==> i < n
    ensures |s| == n
  {
    if n != 0 {
      IndicesCount(s - {n - 1}, n - 1);
      assert s == (s - {n - 1}) + {n - 1};
    } else {
      assert s == {};
    }
  }

  /** The retry threads get every generated workload done, and end like the in-order run. */
  lemma GeneratedOnThreads(c: Config, accounts: seq<Address>, ts: seq<nat>)
    requires FromWorkload(c, accounts) && Legal(c, ts)
    ensures !Complete(c, After(c, ts)) ==>
      exists t: nat :: Legal(c, ts + [t]) && Done(c, After(c, ts + [t])) == Done(c, After(c, ts)) + 1
    ensures Complete(c, After(c, ts)) ==>
      && After(c, ts).db == SeqRun(Policy(c.verifySignatures), c.initial, c.txs).state
      && Sum(After(c, ts).successful) == |c.txs| && Sum(After(c, ts).failed) == 0
  {
    GeneratedIsDisciplined(c, accounts);
    GeneratedIsAmple(c, accounts);
    if Complete(c, After(c, ts)) {
      CompleteMatchesSequential(c, ts);
      AllAccepted(c, accounts);
      IndicesCount(AcceptedSet(c), |c.txs|);
      CompleteCounts(c, ts);
    } else {
      var t := NeverStuck(c, ts);
    }
  }
}
