/**
 The batched executor: each block runs on an in-memory cache over the table, and the cache is written
 back once at the end of the block.
 */
module MdbxBatched {
  import opened Ledger
  import opened Mdbx
  import opened Effects

  datatype BlockResult = BlockResult(blockNumber: nat, successful: nat, failed: nat)

  datatype MultiBlockResult = MultiBlockResult(blocks: seq<BlockResult>, totalSuccessful: nat, totalFailed: nat)

  function Flatten(blocks: seq<seq<Transaction>>): seq<Transaction> {
    if blocks == [] then [] else Flatten(blocks[..|blocks| - 1]) + blocks[|blocks| - 1]
  }

  class BlockCache {
    var accounts: State

    constructor ()
      ensures accounts == map[]
    {
      accounts := map[];
    }

    method GetAccount(address: Address) returns (account: Option<Account>)
      ensures account == if address in accounts then Some(accounts[address]) else None
    {
      account := if address in accounts then Some(accounts[address]) else None;
    }

    method SetAccount(address: Address, account: Account)
      modifies this
      ensures accounts == old(accounts)[address := account]
    {
      accounts := accounts[address := account];
    }
  }

  /** What the in-order run reports for block `i` when it gets there. */
  function BlockReport(rules: Rules, start: State, blocks: seq<seq<Transaction>>, i: nat): BlockResult
    requires i < |blocks|
  {
    var end := SeqRun(rules, SeqRun(rules, start, Flatten(blocks[..i])).state, blocks[i]);
    BlockResult(i, end.successful, end.failed)
  }

  /**
   A block's report carries its position, and counts as successes the transactions that the in-order run over all
   blocks applies in it, and as failures the others.
   */
  lemma ReportCounts(rules: Rules, start: State, blocks: seq<seq<Transaction>>, i: nat)
    requires i < |blocks|
    ensures var report := BlockReport(rules, start, blocks, i);
      var before := SeqRun(rules, start, Flatten(blocks[..i])).state;
      && report.blockNumber == i
      && report.successful == |AppliedBy(rules, before, blocks[i])|
      && report.successful + report.failed == |blocks[i]|
  {
    var before := SeqRun(rules, start, Flatten(blocks[..i])).state;
    AppliedCount(rules, before, blocks[i]);
    SeqRunCounts(rules, before, blocks[i]);
  }

  lemma OverlayTwice(table: State, cache: State, a: Address, x: Account, b: Address, y: Account)
    ensures table + cache[a := x][b := y] == (table + cache)[a := x][b := y]
  {
  }

  class MdbxBatchedExecutor {
    const db: MdbxDatabase
    const verifySignatures: bool

    constructor (verifySignatures: bool)
      ensures db.accounts == map[] && this.verifySignatures == verifySignatures && fresh(db)
    {
      db := new MdbxDatabase();
      this.verifySignatures := verifySignatures;
    }

    /** An account as the block sees it: from the cache, else from the table. */
    method FindAccount(cache: BlockCache, address: Address) returns (account: Option<Account>)
      ensures var overlay := db.accounts + cache.accounts;
        account == if address in overlay then Some(overlay[address]) else None
    {
      account := cache.GetAccount(address);
      if account.None? {
        account := db.GetAccount(address);
      }
    }

    /** One transaction of a block: its effect goes to the cache, over the unchanged table. */
    method ExecuteCached(cache: BlockCache, tx: Transaction) returns (applied: bool)
      modifies cache
      ensures var before: State := db.accounts + old(cache.accounts);
        && applied == Applies(Policy(verifySignatures), before, tx)
        && db.accounts + cache.accounts == if applied then Transfer(before, tx) else before
    {
      ghost var before: State := db.accounts + cache.accounts;
      if verifySignatures {
        var valid := CheckSignature(tx);
        if !valid {
          return false;
        }
      }
      var found := FindAccount(cache, tx.from);
      if found.None? {
        return false;
      }
      var sender := found.value;
      if sender.nonce != tx.nonce {
        return false;
      }
      if sender.balance < tx.value {
        return false;
      }
      var target := FindAccount(cache, tx.to);
      var receiver := if target.Some? then target.value else Account(0, 0);
      sender := Account(Bump(sender.nonce), sender.balance - tx.value);
      receiver := receiver.(balance := Credit(receiver.balance, tx.value));
      OverlayTwice(db.accounts, cache.accounts, tx.from, sender, tx.to, receiver);
      cache.SetAccount(tx.from, sender);
      cache.SetAccount(tx.to, receiver);
      return true;
    }

    /** One block: the table is untouched until the commit and then holds the in-order result. */
    method ExecuteBlock(transactions: seq<Transaction>) returns (successful: nat, failed: nat)
      modifies db
      ensures Outcome(db.accounts, successful, failed)
        == SeqRun(Policy(verifySignatures), old(db.accounts), transactions)
    {
      var cache := new BlockCache();
      successful, failed := 0, 0;
      assert db.accounts + cache.accounts == db.accounts;
      for k := 0 to |transactions|
        invariant db.accounts == old(db.accounts) && fresh(cache)
        invariant Outcome(db.accounts + cache.accounts, successful, failed)
          == SeqRun(Policy(verifySignatures), old(db.accounts), transactions[..k])
      {
        SeqRunPrefix(Policy(verifySignatures), old(db.accounts), transactions, k);
        var applied := ExecuteCached(cache, transactions[k]);
        if applied {
          successful := successful + 1;
        } else {
          failed := failed + 1;
        }
      }
      assert transactions[..|transactions|] == transactions;
      CommitCache(cache);
    }

    /** Writes the cache back, visiting its entries in any order. */
    method CommitCache(cache: BlockCache)
      modifies db
      ensures db.accounts == old(db.accounts) + cache.accounts
    {
      ghost var written: set<Address> := {};
      var todo := cache.accounts.Keys;
      while todo != {}
        invariant todo + written == cache.accounts.Keys && todo !! written
        invariant db.accounts == old(db.accounts) + map a | a in written && a in cache.accounts :: cache.accounts[a]
        decreases todo
      {
        var address :| address in todo;
        db.accounts := db.accounts[address := cache.accounts[address]];
        todo := todo - {address};
        written := written + {address};
      }
    }

    /**
     Batched equals flat: for any division into blocks, the table, the totals and every block's own counts
     are those of the one-at-a-time run over the concatenated blocks.
     */
    method ExecuteWorkload(accounts: seq<Address>, blocks: seq<seq<Transaction>>) returns (result: MultiBlockResult)
      modifies db
      ensures var start := old(db.accounts) + Funded(accounts);
        var end := SeqRun(Policy(verifySignatures), start, Flatten(blocks));
        && db.accounts == end.state
        && result.totalSuccessful == end.successful && result.totalFailed == end.failed
        && |result.blocks| == |blocks|
        && forall i :: 0 <= i < |blocks| ==>
             result.blocks[i] == BlockReport(Policy(verifySignatures), start, blocks, i)
    {
      db.InitAccounts(accounts);
      ghost var start := db.accounts;
      var results: seq<BlockResult> := [];
      var totalSuccessful, totalFailed := 0, 0;
      for k := 0 to |blocks|
        invariant Outcome(db.accounts, totalSuccessful, totalFailed)
          == SeqRun(Policy(verifySignatures), start, Flatten(blocks[..k]))
        invariant |results| == k
        invariant forall i :: 0 <= i < k ==> results[i] == BlockReport(Policy(verifySignatures), start, blocks, i)
      {
        var successful, failed := ExecuteBlock(blocks[k]);
        results := results + [BlockResult(k, successful, failed)];
        totalSuccessful := totalSuccessful + successful;
        totalFailed := totalFailed + failed;
        assert blocks[..k + 1][..k] == blocks[..k];
        SeqRunAppend(Policy(verifySignatures), start, Flatten(blocks[..k]), blocks[k]);
      }
      assert blocks[..|blocks|] == blocks;
      result := MultiBlockResult(results, totalSuccessful, totalFailed);
    }
  }
}
