/**
 The accounts every executor works on, one transfer, and the plain in-order run `SeqRun` that
 serves as the reference for all of them.
 */
module Ledger {
  /** An account key. Hashed keys are injective, so the address itself stands for its key. */
  type Address = nat

  const U64_MODULUS: nat := 0x1_0000_0000_0000_0000
  const U256_MODULUS: nat :=
    0x1_0000_0000_0000_0000_0000_0000_0000_0000_0000_0000_0000_0000_0000_0000_0000_0000

  type U64 = x: nat | x < U64_MODULUS
  type U256 = x: nat | x < U256_MODULUS

  datatype Option<+T> = None | Some(value: T)

  datatype Account = Account(nonce: U64, balance: U256)

  type State = map<Address, Account>

  /** `signer` is what signature recovery yields: nothing, or some address. */
  datatype Transaction = Transaction(from: Address, to: Address, value: U256, nonce: U64, signer: Option<Address>) {
    predicate SignatureValid() {
      signer == Some(from)
    }
  }

  /** The two ways in which the executors differ on a single transaction. */
  datatype Rules = Rules(verifySignatures: bool, senderMustExist: bool)

  datatype Outcome = Outcome(state: State, successful: nat, failed: nat)

  // ---------------------------------------------------------------------------------------------
  // One transfer
  // ---------------------------------------------------------------------------------------------

  /** 64-bit increment, wrapping. */
  function Bump(nonce: U64): U64 {
    if nonce + 1 < U64_MODULUS then nonce + 1 else 0
  }

  /** 256-bit addition, wrapping. */
  function Credit(balance: U256, value: U256): U256 {
    if balance + value < U256_MODULUS then balance + value else balance + value - U256_MODULUS
  }

  function Lookup(st: State, a: Address): Account {
    if a in st then st[a] else Account(0, 0)
  }

  predicate Accepted(rules: Rules, tx: Transaction) {
    rules.verifySignatures ==> tx.SignatureValid()
  }

  predicate Passes(sender: Account, tx: Transaction) {
    sender.nonce == tx.nonce && tx.value <= sender.balance
  }

  predicate Applies(rules: Rules, st: State, tx: Transaction) {
    && Accepted(rules, tx)
    && (rules.senderMustExist ==> tx.from in st)
    && Passes(Lookup(st, tx.from), tx)
  }

  function Debited(sender: Account, tx: Transaction): Account
    requires Passes(sender, tx)
  {
    Account(Bump(sender.nonce), sender.balance - tx.value)
  }

  function Credited(receiver: Account, tx: Transaction): Account {
    Account(receiver.nonce, Credit(receiver.balance, tx.value))
  }

  /** Both accounts are read before either is written; the receiver is written last. */
  function Transfer(st: State, tx: Transaction): State
    requires Passes(Lookup(st, tx.from), tx)
  {
    st[tx.from := Debited(Lookup(st, tx.from), tx)][tx.to := Credited(Lookup(st, tx.to), tx)]
  }

  // ---------------------------------------------------------------------------------------------
  // The reference run
  // ---------------------------------------------------------------------------------------------

  function SeqStep(rules: Rules, done: Outcome, tx: Transaction): Outcome {
    if Applies(rules, done.state, tx)
    then Outcome(Transfer(done.state, tx), done.successful + 1, done.failed)
    else done.(failed := done.failed + 1)
  }

  /** Runs `txs` one by one in list order, skipping and counting those that do not apply. */
  function SeqRun(rules: Rules, st: State, txs: seq<Transaction>): Outcome {
    if txs == [] then Outcome(st, 0, 0)
    else SeqStep(rules, SeqRun(rules, st, txs[..|txs| - 1]), txs[|txs| - 1])
  }

  /** A run may be cut anywhere: the rest continues from the state the first part left. */
  lemma {:induction false} SeqRunAppend(rules: Rules, st: State, xs: seq<Transaction>, ys: seq<Transaction>)
    ensures
      var first := SeqRun(rules, st, xs);
      var rest := SeqRun(rules, first.state, ys);
      SeqRun(rules, st, xs + ys)
        == Outcome(rest.state, first.successful + rest.successful, first.failed + rest.failed)
  {
    if ys == [] {
      assert xs + ys == xs;
    } else {
      var front := ys[..|ys| - 1];
      SeqRunAppend(rules, st, xs, front);
      assert (xs + ys)[..|xs + ys| - 1] == xs + front;
    }
  }

  lemma SeqRunPrefix(rules: Rules, st: State, txs: seq<Transaction>, k: nat)
    requires k < |txs|
    ensures SeqRun(rules, st, txs[..k + 1]) == SeqStep(rules, SeqRun(rules, st, txs[..k]), txs[k])
  {
    assert txs[..k + 1][..k] == txs[..k];
  }

  /** Every transaction is counted once, as a success or as a failure. */
  lemma {:induction false} SeqRunCounts(rules: Rules, st: State, txs: seq<Transaction>)
    ensures SeqRun(rules, st, txs).successful + SeqRun(rules, st, txs).failed == |txs|
  {
    if txs != [] {
      SeqRunCounts(rules, st, txs[..|txs| - 1]);
    }
  }

  /** With signatures checked, a transaction whose recovered signer is not its sender fails and moves nothing. */
  lemma WrongSignerFails(senderMustExist: bool, st: State, tx: Transaction)
    requires tx.signer != Some(tx.from)
    ensures SeqRun(Rules(true, senderMustExist), st, [tx]) == Outcome(st, 0, 1)
  {
    assert [tx][..0] == [];
  }

  /** One that recovers to its sender runs as if signatures were not checked, and then signers make no difference. */
  lemma RightSignerPasses(senderMustExist: bool, st: State, tx: Transaction, signer: Option<Address>)
    ensures tx.signer == Some(tx.from) ==>
      SeqRun(Rules(true, senderMustExist), st, [tx]) == SeqRun(Rules(false, senderMustExist), st, [tx])
    ensures SeqRun(Rules(false, senderMustExist), st, [tx])
      == SeqRun(Rules(false, senderMustExist), st, [tx.(signer := signer)])
  {
    assert [tx][..0] == [] && [tx.(signer := signer)][..0] == [];
  }

  /**
   Requiring the sender's account to exist matters for exactly one kind of transaction: an accepted
   transfer of zero with nonce zero from an account that is not there.
   */
  lemma SenderRuleMatters(verify: bool, st: State, tx: Transaction)
    ensures Applies(Rules(verify, true), st, tx) != Applies(Rules(verify, false), st, tx)
      <==> Accepted(Rules(verify, true), tx) && tx.from !in st && tx.nonce == 0 && tx.value == 0
  {
  }

  /** When every accepted transaction's sender starts with an account the two rules give the same run. */
  lemma {:induction false} SenderRuleIrrelevant(verify: bool, st: State, txs: seq<Transaction>)
    requires forall tx :: tx in txs && Accepted(Rules(verify, true), tx) ==> tx.from in st
    ensures SeqRun(Rules(verify, true), st, txs) == SeqRun(Rules(verify, false), st, txs)
    ensures st.Keys <= SeqRun(Rules(verify, true), st, txs).state.Keys
  {
    if txs != [] {
      SenderRuleIrrelevant(verify, st, txs[..|txs| - 1]);
      assert txs[|txs| - 1] in txs;
    }
  }

  // ---------------------------------------------------------------------------------------------
  // Totals
  // ---------------------------------------------------------------------------------------------

  function BalanceOf(acc: Account): nat { acc.balance }

  function NonceOf(acc: Account): nat { acc.nonce }

  ghost function Pick(keys: set<Address>): (a: Address)
    requires keys != {}
    ensures a in keys
  {
    var a :| a in keys;
    a
  }

  ghost function Total(st: State, f: Account -> nat): nat
    decreases |st|
  {
    if st == map[] then 0
    else
      var a := Pick(st.Keys);
      assert |(st - {a}).Keys| < |st.Keys| by { assert (st - {a}).Keys == st.Keys - {a}; }
      f(st[a]) + Total(st - {a}, f)
  }

  /** The total does not depend on the order in which accounts are added up. */
  lemma {:induction false} TotalRemove(st: State, f: Account -> nat, a: Address)
    requires a in st
    ensures Total(st, f) == f(st[a]) + Total(st - {a}, f)
    decreases |st|
  {
    var b := Pick(st.Keys);
    if a != b {
      assert |(st - {b}).Keys| < |st.Keys| by { assert (st - {b}).Keys == st.Keys - {b}; }
      assert |(st - {a}).Keys| < |st.Keys| by { assert (st - {a}).Keys == st.Keys - {a}; }
      TotalRemove(st - {b}, f, a);
      TotalRemove(st - {a}, f, b);
      assert (st - {b}) - {a} == (st - {a}) - {b};
    }
  }

  lemma TotalUpdate(st: State, f: Account -> nat, a: Address, acc: Account)
    requires f(Account(0, 0)) == 0
    ensures Total(st[a := acc], f) == Total(st, f) - f(Lookup(st, a)) + f(acc)
  {
    TotalRemove(st[a := acc], f, a);
    assert st[a := acc] - {a} == st - {a};
    if a in st {
      TotalRemove(st, f, a);
    } else {
      assert st - {a} == st;
    }
  }

  /** No two accounts together exceed the total. */
  lemma TotalCovers(st: State, f: Account -> nat, a: Address, b: Address)
    requires f(Account(0, 0)) == 0 && a != b
    ensures f(Lookup(st, a)) + f(Lookup(st, b)) <= Total(st, f)
  {
    if a in st {
      TotalRemove(st, f, a);
      if b in st {
        TotalRemove(st - {a}, f, b);
      }
    } else if b in st {
      TotalRemove(st, f, b);
    }
  }

  /**
   What a transfer does to the totals. It conserves value exactly when it is not a self-transfer of a
   positive amount: both accounts are read before either is written, so a self-transfer mints.
   */
  lemma TransferConserves(st: State, tx: Transaction)
    requires Passes(Lookup(st, tx.from), tx) && Total(st, BalanceOf) < U256_MODULUS
    ensures Total(Transfer(st, tx), BalanceOf) == Total(st, BalanceOf) <==> (tx.from != tx.to || tx.value == 0)
    ensures tx.from != tx.to ==> Lookup(st, tx.to).balance + tx.value < U256_MODULUS
  {
    var mid := st[tx.from := Debited(Lookup(st, tx.from), tx)];
    TotalUpdate(st, BalanceOf, tx.from, mid[tx.from]);
    TotalUpdate(mid, BalanceOf, tx.to, Credited(Lookup(st, tx.to), tx));
    if tx.from != tx.to {
      TotalCovers(st, BalanceOf, tx.from, tx.to);
    }
  }

  /** It raises the sum of nonces by one, unless it is a self-transfer or the nonce wraps around. */
  lemma TransferCountsNonce(st: State, tx: Transaction)
    requires Passes(Lookup(st, tx.from), tx)
    ensures Total(Transfer(st, tx), NonceOf) == Total(st, NonceOf) + 1
      <==> tx.from != tx.to && tx.nonce + 1 < U64_MODULUS
  {
    var mid := st[tx.from := Debited(Lookup(st, tx.from), tx)];
    TotalUpdate(st, NonceOf, tx.from, mid[tx.from]);
    TotalUpdate(mid, NonceOf, tx.to, Credited(Lookup(st, tx.to), tx));
  }

  /** Over any list without self-transfers the total balance stays put. */
  lemma {:induction false} SeqRunConserves(rules: Rules, st: State, txs: seq<Transaction>)
    requires forall tx :: tx in txs ==> tx.from != tx.to
    requires Total(st, BalanceOf) < U256_MODULUS
    ensures Total(SeqRun(rules, st, txs).state, BalanceOf) == Total(st, BalanceOf)
  {
    if txs != [] {
      var last := txs[|txs| - 1];
      assert last in txs;
      SeqRunConserves(rules, st, txs[..|txs| - 1]);
      var before := SeqRun(rules, st, txs[..|txs| - 1]);
      if Applies(rules, before.state, last) {
        TransferConserves(before.state, last);
      }
    }
  }

  /** The nonces grow by exactly the number of successes, unless one of them reaches 2^64. */
  lemma {:induction false} SeqRunCountsNonces(rules: Rules, st: State, txs: seq<Transaction>)
    requires forall tx :: tx in txs ==> tx.from != tx.to && tx.nonce + 1 < U64_MODULUS
    ensures Total(SeqRun(rules, st, txs).state, NonceOf) == Total(st, NonceOf) + SeqRun(rules, st, txs).successful
  {
    if txs != [] {
      var front, last := txs[..|txs| - 1], txs[|txs| - 1];
      assert last in txs;
      SeqRunCountsNonces(rules, st, front);
      if Applies(rules, SeqRun(rules, st, front).state, last) {
        TransferCountsNonce(SeqRun(rules, st, front).state, last);
      }
    }
  }

  /** In a run without self-transfers no credit ever passes 2^256 - 1. */
  lemma SeqRunNeverOverflows(rules: Rules, st: State, txs: seq<Transaction>, k: nat)
    requires forall tx :: tx in txs ==> tx.from != tx.to
    requires Total(st, BalanceOf) < U256_MODULUS
    requires k < |txs| && Applies(rules, SeqRun(rules, st, txs[..k]).state, txs[k])
    ensures Lookup(SeqRun(rules, st, txs[..k]).state, txs[k].to).balance + txs[k].value < U256_MODULUS
  {
    SeqRunConserves(rules, st, txs[..k]);
    assert txs[k] in txs;
    TransferConserves(SeqRun(rules, st, txs[..k]).state, txs[k]);
  }
}
