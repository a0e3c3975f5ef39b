/**
 The key-value store behind the retry executor: which key an account is kept under, and which accounts a
 set of stored records stands for.
 */
module FdbStore {
  import opened Ledger
  import opened AccountCodec

  type Store = map<Bytes, Bytes>

  /** The hashed addresses of all accounts in play. */
  type Digests = map<Address, Bytes>

  /** `account/` in ASCII. */
  const PREFIX: Bytes := [97, 99, 99, 111, 117, 110, 116, 47]

  lemma PrefixSpells()
    ensures |PREFIX| == |"account/"| && forall k :: 0 <= k < |PREFIX| ==> PREFIX[k] == "account/"[k] as int
  {
  }

  predicate Apart(digests: Digests, a: Address, b: Address) {
    a in digests && b in digests && a != b ==> digests[a] != digests[b]
  }

  /** Digests are 32 bytes long and no two addresses share one. */
  ghost predicate Hashed(digests: Digests) {
    && (forall a :: a in digests ==> |digests[a]| == 32)
    && (forall a, b {:trigger Apart(digests, a, b)} :: Apart(digests, a, b))
  }

  function Key(digests: Digests, a: Address): Bytes
    requires a in digests
  {
    PREFIX + digests[a]
  }

  lemma KeysDiffer(digests: Digests, a: Address, b: Address)
    requires Hashed(digests) && a in digests && b in digests && a != b
    ensures Key(digests, a) != Key(digests, b)
  {
    assert Apart(digests, a, b);
    assert Key(digests, a)[8..] == digests[a] && Key(digests, b)[8..] == digests[b];
  }

  /** The store has a readable record for `a` exactly when `st` has the account, and it says the same. */
  predicate RecordOf(digests: Digests, store: Store, st: State, a: Address)
    requires a in digests
  {
    var key := Key(digests, a);
    && (key in store <==> a in st)
    && (key in store ==> |store[key]| == 40 && DecodeAccount(store[key]) == st[a])
  }

  /** The store holds exactly the accounts `st`. */
  ghost predicate Represents(digests: Digests, store: Store, st: State) {
    && st.Keys <= digests.Keys
    && forall a {:trigger RecordOf(digests, store, st, a)} :: a in digests ==> RecordOf(digests, store, st, a)
  }

  /** Setting the encoded record of one account changes that account and no other. */
  lemma SetRecord(digests: Digests, store: Store, st: State, a: Address, account: Account)
    requires Hashed(digests) && Represents(digests, store, st) && a in digests
    ensures Represents(digests, store[Key(digests, a) := EncodeAccount(account)], st[a := account])
  {
    var data := EncodeAccount(account);
    DecodeEncode(account);
    forall b | b in digests
      ensures RecordOf(digests, store[Key(digests, a) := data], st[a := account], b)
    {
      assert RecordOf(digests, store, st, b);
      if b != a {
        KeysDiffer(digests, a, b);
      }
    }
  }

  /** Keys are ordered byte by byte; a proper prefix comes first. */
  predicate Before(x: Bytes, y: Bytes) {
    y != [] && (x == [] || x[0] < y[0] || (x[0] == y[0] && Before(x[1..], y[1..])))
  }

  /** Any two different keys are in order one way and not the other. */
  lemma {:induction false} BeforeIsTotal(x: Bytes, y: Bytes)
    ensures Before(x, y) <==> x != y && !Before(y, x)
  {
    if x != [] && y != [] && x[0] == y[0] {
      BeforeIsTotal(x[1..], y[1..]);
      assert x == [x[0]] + x[1..] && y == [y[0]] + y[1..];
    }
  }

  /** Removes the keys from `begin` up to but not including `end`. */
  function ClearRange(store: Store, begin: Bytes, end: Bytes): Store {
    map k | k in store && !(!Before(k, begin) && Before(k, end)) :: store[k]
  }

  lemma {:induction false} BeforeSharedPrefix(p: Bytes, x: Bytes, y: Bytes)
    ensures Before(p + x, p + y) == Before(x, y)
  {
    if p != [] {
      assert (p + x)[1..] == p[1..] + x && (p + y)[1..] == p[1..] + y;
      BeforeSharedPrefix(p[1..], x, y);
    } else {
      assert p + x == x && p + y == y;
    }
  }

  /** The range from the prefix to the prefix followed by 0xff misses the digests that start with 0xff. */
  lemma InClearedRange(digests: Digests, a: Address)
    requires Hashed(digests) && a in digests
    ensures !Before(Key(digests, a), PREFIX)
    ensures Before(Key(digests, a), PREFIX + [255]) <==> digests[a][0] < 255
  {
    BeforeSharedPrefix(PREFIX, digests[a], []);
    assert PREFIX + [] == PREFIX;
    BeforeSharedPrefix(PREFIX, digests[a], [255]);
  }

  /** The accounts that clearing the database leaves in place. */
  ghost function Leftovers(digests: Digests, st: State): State
    requires Hashed(digests) && st.Keys <= digests.Keys
  {
    map a | a in st && digests[a][0] == 255 :: st[a]
  }

  /** Clearing removes an account exactly when its digest does not start with 0xff. */
  lemma ClearLeaves(digests: Digests, store: Store, st: State)
    requires Hashed(digests) && Represents(digests, store, st)
    ensures Represents(digests, ClearRange(store, PREFIX, PREFIX + [255]), Leftovers(digests, st))
    ensures Leftovers(digests, st) == map[] <==> forall a :: a in st ==> digests[a][0] != 255
  {
    forall a | a in digests
      ensures RecordOf(digests, ClearRange(store, PREFIX, PREFIX + [255]), Leftovers(digests, st), a)
    {
      assert RecordOf(digests, store, st, a);
      InClearedRange(digests, a);
    }
    if a :| a in st && digests[a][0] == 255 {
      assert a in Leftovers(digests, st);
    }
  }

  /**
   Accounts left over from an earlier workload do not matter to transactions between other accounts: the run
   carries them along unchanged, and with the same counts.
   */
  lemma {:induction false} LeftoversUntouched(rules: Rules, leftovers: State, st: State, txs: seq<Transaction>)
    requires forall tx :: tx in txs ==> tx.from in st && tx.to in st
    ensures var alone := SeqRun(rules, st, txs);
      && alone.state.Keys == st.Keys
      && SeqRun(rules, leftovers + st, txs) == alone.(state := leftovers + alone.state)
  {
    if txs != [] {
      var last := txs[|txs| - 1];
      assert last in txs;
      LeftoversUntouched(rules, leftovers, st, txs[..|txs| - 1]);
      var alone := SeqRun(rules, st, txs[..|txs| - 1]);
      if Applies(rules, alone.state, last) {
        assert Transfer(leftovers + alone.state, last) == leftovers + Transfer(alone.state, last);
      }
    }
  }

  /**
   They do matter to a sender the workload does not fund: its transaction fails on a clean database and is
   applied when an earlier workload left the account behind.
   */
  lemma LeftoversMatter(rules: Rules, leftovers: State, st: State, tx: Transaction)
    requires rules.senderMustExist && tx.from !in st
    ensures Applies(rules, leftovers + st, tx) != Applies(rules, st, tx) <==> Applies(rules, leftovers, tx)
  {
    assert tx.from in leftovers ==> (leftovers + st)[tx.from] == leftovers[tx.from];
  }

  /** The database: a key-value store, and the accounts it stands for. */
  class FdbDatabase {
    const digests: Digests
    var store: Store
    ghost var accounts: State

    ghost predicate Valid()
      reads this
    {
      Hashed(digests) && Represents(digests, store, accounts)
    }

    constructor (digests: Digests, store: Store, ghost accounts: State)
      requires Hashed(digests) && Represents(digests, store, accounts)
      ensures Valid() && this.digests == digests && this.store == store && this.accounts == accounts
    {
      this.digests := digests;
      this.store := store;
      this.accounts := accounts;
    }

    method ClearDatabase()
      requires Valid()
      modifies this
      ensures Valid() && accounts == Leftovers(digests, old(accounts))
    {
      ClearLeaves(digests, store, accounts);
      store := ClearRange(store, PREFIX, PREFIX + [255]);
      accounts := Leftovers(digests, accounts);
    }

    method GetAccount(address: Address) returns (account: Option<Account>)
      requires Valid() && address in digests
      ensures account == if address in accounts then Some(accounts[address]) else None
    {
      assert RecordOf(digests, store, accounts, address);
      var key := Key(digests, address);
      account := if key in store then Some(DecodeAccount(store[key])) else None;
    }

    method SetAccount(address: Address, account: Account)
      requires Valid() && address in digests
      modifies this
      ensures Valid() && accounts == old(accounts)[address := account]
    {
      SetRecord(digests, store, accounts, address, account);
      store := store[Key(digests, address) := EncodeAccount(account)];
      accounts := accounts[address := account];
    }
  }
}
