/**
 The MDBX table of accounts and the executor that runs a workload on it one transaction at a time.
 */
module Mdbx {
  import opened Ledger

  /** 1000 ETH, in wei. */
  const INITIAL_BALANCE: U256 := 1_000_000_000_000_000_000_000

  datatype ExecutionResult = ExecutionResult(successful: nat, failed: nat)

  function Policy(verifySignatures: bool): Rules {
    Rules(verifySignatures, true)
  }

  /** The freshly funded accounts of a workload. */
  function Funded(accounts: seq<Address>): State {
    map a | a in accounts :: Account(0, INITIAL_BALANCE)
  }

  /** What stops a transaction, said of the stored accounts. */
  predicate Stopped(verifySignatures: bool, st: State, tx: Transaction) {
    || (verifySignatures && tx.signer != Some(tx.from))
    || tx.from !in st || st[tx.from].nonce != tx.nonce || st[tx.from].balance < tx.value
  }

  /** A stopped transaction is one failure and changes nothing; any other is one success. */
  lemma OneTransactionCounts(verifySignatures: bool, st: State, tx: Transaction)
    ensures var end := SeqRun(Policy(verifySignatures), st, [tx]);
      if Stopped(verifySignatures, st, tx) then end == Outcome(st, 0, 1) else end.successful == 1 && end.failed == 0
  {
    assert [tx][..0] == [];
  }

  /**
   A transfer that is not stopped takes the value from its sender, raises the sender's nonce, gives the value to
   its receiver, and touches nobody else. One to the sender itself only gives.
   */
  lemma OneTransactionMoves(verifySignatures: bool, st: State, tx: Transaction, a: Address)
    requires !Stopped(verifySignatures, st, tx)
    ensures var end := SeqRun(Policy(verifySignatures), st, [tx]).state;
      && end.Keys == st.Keys + {tx.to}
      && (a == tx.from != tx.to ==>
            end[a].nonce == (st[a].nonce + 1) % U64_MODULUS && end[a].balance == st[a].balance - tx.value)
      && (a == tx.to && a in st ==>
            end[a].nonce == st[a].nonce && end[a].balance == (st[a].balance + tx.value) % U256_MODULUS)
      && (a == tx.to && a !in st ==> end[a] == Account(0, tx.value))
      && (a in st && a != tx.from && a != tx.to ==> end[a] == st[a])
  {
    assert [tx][..0] == [];
  }

  class MdbxDatabase {
    var accounts: State

    constructor ()
      ensures accounts == map[]
    {
      accounts := map[];
    }

    method GetAccount(address: Address) returns (account: Option<Account>)
      ensures account == if address in accounts then Some(accounts[address]) else None
    {
      account := if address in accounts then Some(accounts[address]) else None;
    }

    method SetAccount(address: Address, account: Account)
      modifies this
      ensures accounts == old(accounts)[address := account]
    {
      accounts := accounts[address := account];
    }

    /** Funds the accounts of a workload on top of whatever the table holds. */
    method InitAccounts(addresses: seq<Address>)
      modifies this
      ensures accounts == old(accounts) + Funded(addresses)
    {
      for k := 0 to |addresses|
        invariant accounts == old(accounts) + Funded(addresses[..k])
      {
        assert addresses[..k + 1] == addresses[..k] + [addresses[k]];
        accounts := accounts[addresses[k] := Account(0, INITIAL_BALANCE)];
      }
      assert addresses[..|addresses|] == addresses;
    }
  }

  /** A sender's credentials hold up: recovery yields an address and it is the claimed one. */
  method CheckSignature(tx: Transaction) returns (valid: bool)
    ensures valid <==> tx.SignatureValid()
  {
    match tx.signer
    case None => return false;
    case Some(recovered) => return recovered == tx.from;
  }

  class MdbxSequentialExecutor {
    const db: MdbxDatabase
    const verifySignatures: bool

    constructor (verifySignatures: bool)
      ensures db.accounts == map[] && this.verifySignatures == verifySignatures && fresh(db)
    {
      db := new MdbxDatabase();
      this.verifySignatures := verifySignatures;
    }

    /** The loop over stored accounts is the in-order reference run. */
    method ExecuteWorkload(accounts: seq<Address>, transactions: seq<Transaction>) returns (result: ExecutionResult)
      modifies db
      ensures var end := SeqRun(Policy(verifySignatures), old(db.accounts) + Funded(accounts), transactions);
        db.accounts == end.state && result == ExecutionResult(end.successful, end.failed)
    {
      db.InitAccounts(accounts);
      var successful, failed := 0, 0;
      ghost var start := db.accounts;
      for k := 0 to |transactions|
        invariant Outcome(db.accounts, successful, failed)
          == SeqRun(Policy(verifySignatures), start, transactions[..k])
      {
        var tx := transactions[k];
        SeqRunPrefix(Policy(verifySignatures), start, transactions, k);
        if verifySignatures {
          var valid := CheckSignature(tx);
          if !valid {
            failed := failed + 1;
            continue;
          }
        }
        var stored := db.GetAccount(tx.from);
        if stored.None? {
          failed := failed + 1;
          continue;
        }
        var sender := stored.value;
        if sender.nonce != tx.nonce {
          failed := failed + 1;
          continue;
        }
        if sender.balance < tx.value {
          failed := failed + 1;
          continue;
        }
        var target := db.GetAccount(tx.to);
        var receiver := if target.Some? then target.value else Account(0, 0);
        sender := Account(Bump(sender.nonce), sender.balance - tx.value);
        receiver := receiver.(balance := Credit(receiver.balance, tx.value));
        db.SetAccount(tx.from, sender);
        db.SetAccount(tx.to, receiver);
        successful := successful + 1;
      }
      assert transactions[..|transactions|] == transactions;
      result := ExecutionResult(successful, failed);
    }
  }
}
