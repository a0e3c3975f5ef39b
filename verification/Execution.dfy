/**
 Speculative execution of one transaction against the multi-version map: what it reads, registers,
 writes and invalidates.
 */
module Execution {
  import opened Ledger
  import opened MultiVersion

  /** One block: its transactions, the states they start from, and whether signatures are checked. */
  datatype Block = Block(txs: seq<Transaction>, initialStates: State, verifySignatures: bool) {
    /** Missing senders read as empty accounts here. */
    function Policy(): Rules {
      Rules(verifySignatures, false)
    }
  }

  datatype Result = Success(invalidated: seq<nat>) | Retry | Permanent

  function Invalidated(r: Result): seq<nat> {
    if r.Success? then r.invalidated else []
  }

  // ---------------------------------------------------------------------------------------------
  // Operations on values
  // ---------------------------------------------------------------------------------------------

  predicate StrictlySorted(s: seq<nat>) {
    forall p, q :: 0 <= p < q < |s| ==> s[p] < s[q]
  }

  function Insert(s: seq<nat>, x: nat): (r: seq<nat>)
    requires StrictlySorted(s)
    ensures StrictlySorted(r)
    ensures forall y :: y in r <==> y == x || y in s
  {
    if s == [] then [x]
    else
      var front, last := s[..|s| - 1], s[|s| - 1];
      assert s == front + [last];
      if last < x then s + [x]
      else if last == x then s
      else
        var r := Insert(front, x);
        assert forall y :: y in front ==> y < last;
        assert forall p :: 0 <= p < |r| ==> r[p] in r;
        r + [last]
  }

  /** Sorting followed by dropping duplicates. */
  function SortDedup(s: seq<nat>): (r: seq<nat>)
    ensures StrictlySorted(r)
    ensures forall y :: y in r <==> y in s
  {
    if s == [] then []
    else
      assert s == s[..|s| - 1] + [s[|s| - 1]];
      Insert(SortDedup(s[..|s| - 1]), s[|s| - 1])
  }

  /** The account transaction `j` sees at `a`: the newest lower version, else the initial state. */
  function View(b: Block, mv: MV, a: Address, j: nat): Account {
    match ReadAt(mv, a, j)
    case Versioned(_, state) => state
    case Storage => Lookup(b.initialStates, a)
  }

  /** Registering `j` as a reader of what it sees at `a`. */
  function Recorded(mv: MV, a: Address, j: nat): MV {
    match ReadAt(mv, a, j)
    case Versioned(version, _) => WithRead(mv, a, j, version)
    case Storage => WithStorageRead(mv, a, j)
  }

  function Speculate(b: Block, mv: MV, i: nat, incarnation: nat): (MV, Result)
    requires i < |b.txs|
  {
    var tx := b.txs[i];
    if !Accepted(b.Policy(), tx) then (mv, Permanent)
    else
      var sender := View(b, mv, tx.from, i);
      var mv := Recorded(mv, tx.from, i);
      if !Passes(sender, tx) then (mv, Retry)
      else
        var receiver := View(b, mv, tx.to, i);
        var mv := Recorded(mv, tx.to, i);
        var fromReaders := Invalidates(mv, tx.from, i);
        var mv := WithWrite(mv, tx.from, i, incarnation, Debited(sender, tx));
        var toReaders := Invalidates(mv, tx.to, i);
        var mv := WithWrite(mv, tx.to, i, incarnation, Credited(receiver, tx));
        (mv, Success(SortDedup(fromReaders + toReaders)))
  }

  // ---------------------------------------------------------------------------------------------
  // Well-formed maps
  // ---------------------------------------------------------------------------------------------

  /** Transaction `i` touches its sender's and its receiver's account. */
  predicate Touches(b: Block, i: nat, a: Address) {
    i < |b.txs| && (a == b.txs[i].from || a == b.txs[i].to)
  }

  predicate AcceptedAt(b: Block, i: nat) {
    i < |b.txs| && Accepted(b.Policy(), b.txs[i])
  }

  /** Only accepted transactions read or write, and only at their own two accounts. */
  predicate Party(b: Block, a: Address, r: nat) {
    Touches(b, r, a) && Accepted(b.Policy(), b.txs[r])
  }

  predicate Holds(mv: MV, a: Address, k: nat) {
    k in HistoryOf(mv, a)
  }

  /** The entry was written by a party, which holds a version at both its accounts. */
  predicate EntryOk(b: Block, mv: MV, a: Address, k: nat)
    requires Holds(mv, a, k)
  {
    && Party(b, a, k)
    && HistoryOf(mv, a)[k].version.txnIdx == k
    && Holds(mv, b.txs[k].from, k) && Holds(mv, b.txs[k].to, k)
  }

  ghost predicate EntriesOk(b: Block, mv: MV) {
    forall a: Address, k: nat {:trigger Holds(mv, a, k)} | Holds(mv, a, k) :: EntryOk(b, mv, a, k)
  }

  ghost predicate ReadersOk(b: Block, mv: MV) {
    && (forall a: Address, k: nat, r: nat | Holds(mv, a, k) && r in HistoryOf(mv, a)[k].readers :: Party(b, a, r))
    && (forall a: Address, r: nat | r in StorageReadersOf(mv, a) :: Party(b, a, r))
  }

  ghost predicate WellFormed(b: Block, mv: MV) {
    EntriesOk(b, mv) && ReadersOk(b, mv)
  }

  lemma RegisteredIsParty(b: Block, mv: MV, a: Address, j: nat, r: nat)
    requires WellFormed(b, mv) && r in ReadersAt(mv, a, j)
    ensures Party(b, a, r)
  {
    var h := HistoryOf(mv, a);
    if Below(h, j).Some? {
      assert Holds(mv, a, Below(h, j).value);
    }
  }

  // ---------------------------------------------------------------------------------------------
  // Registering a read
  // ---------------------------------------------------------------------------------------------

  /** The same versions and states, with possibly more registered readers. */
  ghost predicate Grows(mv: MV, after: MV) {
    && (forall a: Address :: StorageReadersOf(mv, a) <= StorageReadersOf(after, a))
    && (forall a: Address, k: nat :: Holds(mv, a, k) <==> Holds(after, a, k))
    && (forall a: Address, k: nat | Holds(mv, a, k) ::
          var e, e' := HistoryOf(mv, a)[k], HistoryOf(after, a)[k];
          e.version == e'.version && e.state == e'.state && e.readers <= e'.readers)
  }

  lemma GrowsKeepsReads(mv: MV, after: MV, a: Address, j: nat)
    requires Grows(mv, after)
    ensures Below(HistoryOf(after, a), j) == Below(HistoryOf(mv, a), j)
    ensures ReadAt(after, a, j) == ReadAt(mv, a, j)
    ensures ReadersAt(mv, a, j) <= ReadersAt(after, a, j)
  {
    var h, h' := HistoryOf(mv, a), HistoryOf(after, a);
    assert forall k: nat :: Holds(mv, a, k) <==> Holds(after, a, k);
    assert Below(h', j) == Below(h, j) by {
      if Below(h, j).Some? { assert Holds(mv, a, Below(h, j).value); }
      if Below(h', j).Some? { assert Holds(after, a, Below(h', j).value); }
    }
    if Below(h, j).Some? {
      assert Holds(mv, a, Below(h, j).value);
    }
  }

  lemma RecordedKeeps(b: Block, mv: MV, a: Address, j: nat, x: Address, k: nat)
    requires EntriesOk(b, mv)
    ensures var after := Recorded(mv, a, j);
      && StorageReadersOf(mv, x) <= StorageReadersOf(after, x)
      && (Holds(mv, x, k) <==> Holds(after, x, k))
      && (Holds(mv, x, k) ==>
            var e, e' := HistoryOf(mv, x)[k], HistoryOf(after, x)[k];
            e.version == e'.version && e.state == e'.state && e.readers <= e'.readers)
  {
    var seen := Below(HistoryOf(mv, a), j);
    if seen.Some? {
      assert Holds(mv, a, seen.value) && EntryOk(b, mv, a, seen.value);
    }
  }

  lemma RecordedGrows(b: Block, mv: MV, a: Address, j: nat)
    requires EntriesOk(b, mv)
    ensures Grows(mv, Recorded(mv, a, j))
  {
    forall x: Address, k: nat
      ensures StorageReadersOf(mv, x) <= StorageReadersOf(Recorded(mv, a, j), x)
      ensures Holds(mv, x, k) <==> Holds(Recorded(mv, a, j), x, k)
      ensures Holds(mv, x, k) ==>
        var e, e' := HistoryOf(mv, x)[k], HistoryOf(Recorded(mv, a, j), x)[k];
        e.version == e'.version && e.state == e'.state && e.readers <= e'.readers
    {
      RecordedKeeps(b, mv, a, j, x, k);
    }
    forall x: Address
      ensures StorageReadersOf(mv, x) <= StorageReadersOf(Recorded(mv, a, j), x)
    {
      RecordedKeeps(b, mv, a, j, x, 0);
    }
  }

  lemma RegistersAt(mv: MV, a: Address, j: nat)
    requires var seen := Below(HistoryOf(mv, a), j);
      && Below(HistoryOf(Recorded(mv, a, j), a), j) == seen
      && (seen.Some? ==> HistoryOf(mv, a)[seen.value].version.txnIdx == seen.value)
    ensures Registered(Recorded(mv, a, j), a, j)
  {
  }

  lemma RecordedRegisters(b: Block, mv: MV, a: Address, j: nat)
    requires EntriesOk(b, mv)
    ensures Registered(Recorded(mv, a, j), a, j)
  {
    var seen := Below(HistoryOf(mv, a), j);
    assert seen.Some? ==> Holds(mv, a, seen.value);
    RecordedGrows(b, mv, a, j);
    GrowsKeepsReads(mv, Recorded(mv, a, j), a, j);
    RegistersAt(mv, a, j);
  }

  /** A newly registered reader is the one that was recorded, at the address it read. */
  lemma RecordedReaders(mv: MV, a: Address, j: nat, x: Address, k: nat, r: nat)
    ensures r in StorageReadersOf(Recorded(mv, a, j), x) ==> r in StorageReadersOf(mv, x) || (x == a && r == j)
    ensures Holds(mv, x, k) && Holds(Recorded(mv, a, j), x, k) && r in HistoryOf(Recorded(mv, a, j), x)[k].readers
      ==> r in HistoryOf(mv, x)[k].readers || (x == a && r == j)
  {
  }

  /** Recording registers `j` with exactly those who see the entry it read, and nobody else anywhere. */
  lemma RegistersExactly(b: Block, mv: MV, a: Address, j: nat, x: Address, i: nat, r: nat)
    requires EntriesOk(b, mv)
    ensures r in ReadersAt(Recorded(mv, a, j), x, i)
      <==> r in ReadersAt(mv, x, i)
           || (r == j && x == a && Below(HistoryOf(mv, a), i) == Below(HistoryOf(mv, a), j))
  {
    RecordedGrows(b, mv, a, j);
    GrowsKeepsReads(mv, Recorded(mv, a, j), x, i);
    var seen := Below(HistoryOf(mv, a), j);
    assert seen.Some? ==> Holds(mv, a, seen.value);
    if seen.Some? {
      RegistersOnEntry(mv, a, j, seen.value, x, i, r);
    }
  }

  lemma RegistersOnEntry(mv: MV, a: Address, j: nat, k: nat, x: Address, i: nat, r: nat)
    requires Below(HistoryOf(mv, a), j) == Some(k) && HistoryOf(mv, a)[k].version.txnIdx == k
    requires Below(HistoryOf(Recorded(mv, a, j), x), i) == Below(HistoryOf(mv, x), i)
    ensures r in ReadersAt(Recorded(mv, a, j), x, i)
      <==> r in ReadersAt(mv, x, i) || (r == j && x == a && Below(HistoryOf(mv, a), i) == Some(k))
  {
  }

  lemma RecordedEffect(b: Block, mv: MV, a: Address, j: nat)
    requires WellFormed(b, mv) && Party(b, a, j)
    ensures WellFormed(b, Recorded(mv, a, j))
    ensures Grows(mv, Recorded(mv, a, j))
    ensures Registered(Recorded(mv, a, j), a, j)
  {
    var after := Recorded(mv, a, j);
    RecordedGrows(b, mv, a, j);
    RecordedRegisters(b, mv, a, j);
    forall x: Address, k: nat, r: nat | Holds(after, x, k) && r in HistoryOf(after, x)[k].readers
      ensures Party(b, x, r)
    {
      assert Holds(mv, x, k);
      RecordedReaders(mv, a, j, x, k, r);
    }
    forall x: Address, r: nat | r in StorageReadersOf(after, x)
      ensures Party(b, x, r)
    {
      RecordedReaders(mv, a, j, x, 0, r);
    }
    forall x: Address, k: nat {:trigger Holds(after, x, k)} | Holds(after, x, k)
      ensures EntryOk(b, after, x, k)
    {
      assert Holds(mv, x, k);
    }
  }

  // ---------------------------------------------------------------------------------------------
  // The effect of an execution
  // ---------------------------------------------------------------------------------------------

  /** After a successful execution `i`, reader `j` sees `i`'s version at `x` instead of an older one. */
  predicate Moved(b: Block, mv: MV, i: nat, x: Address, j: nat) {
    Touches(b, i, x) && Redirected(mv, x, i, x, j)
  }

  /** An execution that does not succeed leaves all versions alone and registers the sender's read. */
  lemma UnsuccessfulEffect(b: Block, mv: MV, i: nat, incarnation: nat)
    requires WellFormed(b, mv) && i < |b.txs| && !Speculate(b, mv, i, incarnation).1.Success?
    ensures var after := Speculate(b, mv, i, incarnation).0;
      && WellFormed(b, after) && Grows(mv, after)
      && (Accepted(b.Policy(), b.txs[i]) ==> Registered(after, b.txs[i].from, i))
  {
    if Accepted(b.Policy(), b.txs[i]) {
      RecordedEffect(b, mv, b.txs[i].from, i);
    }
  }

  /** The map between the reads and the writes of a successful execution. */
  function AfterReads(b: Block, mv: MV, i: nat): MV
    requires i < |b.txs|
  {
    Recorded(Recorded(mv, b.txs[i].from, i), b.txs[i].to, i)
  }

  lemma AfterReadsEffect(b: Block, mv: MV, i: nat, x: Address, j: nat)
    requires WellFormed(b, mv) && i < |b.txs| && Accepted(b.Policy(), b.txs[i])
    ensures var mid := AfterReads(b, mv, i);
      && WellFormed(b, mid)
      && Registered(mid, b.txs[i].from, i) && Registered(mid, b.txs[i].to, i)
      && Below(HistoryOf(mid, x), j) == Below(HistoryOf(mv, x), j)
      && ReadAt(mid, x, j) == ReadAt(mv, x, j)
      && ReadersAt(mv, x, j) <= ReadersAt(mid, x, j)
      && (forall k: nat :: Holds(mid, x, k) <==> Holds(mv, x, k))
      && (forall k: nat | Holds(mv, x, k) :: HistoryOf(mid, x)[k].state == HistoryOf(mv, x)[k].state)
  {
    var tx := b.txs[i];
    var first := Recorded(mv, tx.from, i);
    RecordedEffect(b, mv, tx.from, i);
    RecordedEffect(b, first, tx.to, i);
    GrowsKeepsReads(mv, first, x, j);
    GrowsKeepsReads(first, AfterReads(b, mv, i), x, j);
    GrowsKeepsReads(first, AfterReads(b, mv, i), tx.from, i);
  }

  /** The state a successful execution of `i` leaves at an account it touches. */
  function Written(b: Block, mv: MV, i: nat, x: Address): Account
    requires i < |b.txs| && Passes(View(b, mv, b.txs[i].from, i), b.txs[i])
  {
    if x == b.txs[i].to then Credited(View(b, mv, x, i), b.txs[i])
    else Debited(View(b, mv, b.txs[i].from, i), b.txs[i])
  }

  /** The map between the two writes of a successful execution. */
  function AfterDebit(b: Block, mv: MV, i: nat, incarnation: nat): MV
    requires i < |b.txs| && Passes(View(b, mv, b.txs[i].from, i), b.txs[i])
  {
    WithWrite(AfterReads(b, mv, i), b.txs[i].from, i, incarnation, Debited(View(b, mv, b.txs[i].from, i), b.txs[i]))
  }

  lemma ExecuteUnfolds(b: Block, mv: MV, i: nat, incarnation: nat)
    requires WellFormed(b, mv) && i < |b.txs|
    ensures Speculate(b, mv, i, incarnation).1.Success?
      <==> Accepted(b.Policy(), b.txs[i]) && Passes(View(b, mv, b.txs[i].from, i), b.txs[i])
    ensures Speculate(b, mv, i, incarnation).1.Permanent? <==> !Accepted(b.Policy(), b.txs[i])
    ensures Speculate(b, mv, i, incarnation).1.Success? ==>
      var one := AfterDebit(b, mv, i, incarnation);
      && Speculate(b, mv, i, incarnation).0
         == WithWrite(one, b.txs[i].to, i, incarnation, Written(b, mv, i, b.txs[i].to))
      && (forall j :: j in Speculate(b, mv, i, incarnation).1.invalidated
            <==> j in Invalidates(AfterReads(b, mv, i), b.txs[i].from, i) || j in Invalidates(one, b.txs[i].to, i))
  {
    var tx := b.txs[i];
    if Accepted(b.Policy(), tx) {
      RecordedEffect(b, mv, tx.from, i);
      GrowsKeepsReads(mv, Recorded(mv, tx.from, i), tx.to, i);
    }
  }

  /** How an execution ends, said of the transaction's fields and the account it sees at its sender. */
  lemma OutcomeExactly(b: Block, mv: MV, i: nat, incarnation: nat)
    requires WellFormed(b, mv) && i < |b.txs|
    ensures var tx, result := b.txs[i], Speculate(b, mv, i, incarnation).1;
      var sender := View(b, mv, tx.from, i);
      && (result.Permanent? <==> b.verifySignatures && tx.signer != Some(tx.from))
      && (result.Success? <==> !result.Permanent? && sender.nonce == tx.nonce && tx.value <= sender.balance)
  {
    ExecuteUnfolds(b, mv, i, incarnation);
  }

  /** A transaction whose account nobody wrote or funded sees an empty one. */
  lemma UnknownIsEmpty(b: Block, mv: MV, a: Address, i: nat)
    requires a !in b.initialStates && forall k: nat :: Holds(mv, a, k) ==> i <= k
    ensures View(b, mv, a, i) == Account(0, 0)
  {
    assert Below(HistoryOf(mv, a), i).Some? ==> Holds(mv, a, Below(HistoryOf(mv, a), i).value);
  }

  lemma WriteVersions(mv: MV, a: Address, i: nat, incarnation: nat, state: Account, x: Address, k: nat)
    ensures var after := WithWrite(mv, a, i, incarnation, state);
      && (Holds(after, x, k) <==> (Holds(mv, x, k) || (k == i && x == a)))
      && (k == i && x == a ==> HistoryOf(after, x)[k] == VersionedEntry(Version(i, incarnation), state, []))
      && (Holds(mv, x, k) && (k != i || x != a) ==> HistoryOf(after, x)[k] == HistoryOf(mv, x)[k])
  {
  }

  lemma TwoWrites(mv: MV, from: Address, to: Address, i: nat, incarnation: nat, debited: Account, credited: Account,
                  x: Address, j: nat)
    ensures var one := WithWrite(mv, from, i, incarnation, debited);
      var two := WithWrite(one, to, i, incarnation, credited);
      var moved := Redirected(mv, x, i, x, j);
      && ReadersAt(one, x, j) == (if x == from && moved then [] else ReadersAt(mv, x, j))
      && (if moved && (x == from || x == to) then
            && ReadersAt(two, x, j) == [] && Below(HistoryOf(two, x), j) == Some(i)
            && ReadAt(two, x, j) == Versioned(Version(i, incarnation), if x == to then credited else debited)
          else
            && ReadersAt(two, x, j) == ReadersAt(mv, x, j)
            && Below(HistoryOf(two, x), j) == Below(HistoryOf(mv, x), j)
            && ReadAt(two, x, j) == ReadAt(mv, x, j))
  {
    WriteRedirects(mv, from, i, incarnation, debited, x, j);
    WriteRedirects(WithWrite(mv, from, i, incarnation, debited), to, i, incarnation, credited, x, j);
  }

  /** What the two writes do to what `j` sees at `x`. */
  lemma WritesRedirect(b: Block, mv: MV, i: nat, incarnation: nat, x: Address, j: nat)
    requires WellFormed(b, mv) && i < |b.txs| && Speculate(b, mv, i, incarnation).1.Success?
    ensures Accepted(b.Policy(), b.txs[i]) && Passes(View(b, mv, b.txs[i].from, i), b.txs[i])
    ensures var mid, one := AfterReads(b, mv, i), AfterDebit(b, mv, i, incarnation);
      var after := Speculate(b, mv, i, incarnation).0;
      && ReadersAt(one, x, j)
         == (if x == b.txs[i].from && Redirected(mid, x, i, x, j) then [] else ReadersAt(mid, x, j))
      && ReadersAt(after, x, j) == (if Moved(b, mv, i, x, j) then [] else ReadersAt(mid, x, j))
      && Below(HistoryOf(after, x), j) == (if Moved(b, mv, i, x, j) then Some(i) else Below(HistoryOf(mv, x), j))
      && View(b, after, x, j) == (if Moved(b, mv, i, x, j) then Written(b, mv, i, x) else View(b, mv, x, j))
  {
    var tx, mid := b.txs[i], AfterReads(b, mv, i);
    ExecuteUnfolds(b, mv, i, incarnation);
    AfterReadsEffect(b, mv, i, x, j);
    var debited := Debited(View(b, mv, tx.from, i), tx);
    TwoWrites(mid, tx.from, tx.to, i, incarnation, debited, Written(b, mv, i, tx.to), x, j);
  }

  /** What a successful execution of `i` does to what `j` sees at `x`, and to `j`'s registration there. */
  lemma SuccessfulEffect(b: Block, mv: MV, i: nat, incarnation: nat, x: Address, j: nat)
    requires WellFormed(b, mv) && i < |b.txs| && Speculate(b, mv, i, incarnation).1.Success?
    ensures Accepted(b.Policy(), b.txs[i]) && Passes(View(b, mv, b.txs[i].from, i), b.txs[i])
    ensures var after := Speculate(b, mv, i, incarnation).0;
      && View(b, after, x, j) == (if Moved(b, mv, i, x, j) then Written(b, mv, i, x) else View(b, mv, x, j))
      && (Moved(b, mv, i, x, j) ==> !Registered(after, x, j))
      && (!Moved(b, mv, i, x, j) && Registered(mv, x, j) ==> Registered(after, x, j))
  {
    WritesRedirect(b, mv, i, incarnation, x, j);
    AfterReadsEffect(b, mv, i, x, j);
  }

  /** Afterwards `i` itself is registered at both accounts. */
  lemma SuccessfulRegisters(b: Block, mv: MV, i: nat, incarnation: nat)
    requires WellFormed(b, mv) && i < |b.txs| && Speculate(b, mv, i, incarnation).1.Success?
    ensures Registered(Speculate(b, mv, i, incarnation).0, b.txs[i].from, i)
    ensures Registered(Speculate(b, mv, i, incarnation).0, b.txs[i].to, i)
  {
    ExecuteUnfolds(b, mv, i, incarnation);
    AfterReadsEffect(b, mv, i, b.txs[i].from, i);
    WritesRedirect(b, mv, i, incarnation, b.txs[i].from, i);
    WritesRedirect(b, mv, i, incarnation, b.txs[i].to, i);
  }

  /** The versions a successful execution of `i` leaves: its own at its accounts, all others as before. */
  lemma SuccessfulVersions(b: Block, mv: MV, i: nat, incarnation: nat, x: Address, k: nat)
    requires WellFormed(b, mv) && i < |b.txs| && Speculate(b, mv, i, incarnation).1.Success?
    ensures Passes(View(b, mv, b.txs[i].from, i), b.txs[i])
    ensures var after := Speculate(b, mv, i, incarnation).0;
      && (Holds(after, x, k) <==> (Holds(mv, x, k) || (k == i && Touches(b, i, x))))
      && (k == i && Touches(b, i, x) ==>
            HistoryOf(after, x)[k] == VersionedEntry(Version(i, incarnation), Written(b, mv, i, x), []))
      && (k != i && Holds(mv, x, k) ==> HistoryOf(after, x)[k].state == HistoryOf(mv, x)[k].state)
  {
    var tx, mid, one := b.txs[i], AfterReads(b, mv, i), AfterDebit(b, mv, i, incarnation);
    ExecuteUnfolds(b, mv, i, incarnation);
    AfterReadsEffect(b, mv, i, x, k);
    assert Holds(mid, x, k) <==> Holds(mv, x, k);
    WriteVersions(mid, tx.from, i, incarnation, Debited(View(b, mv, tx.from, i), tx), x, k);
    WriteVersions(one, tx.to, i, incarnation, Written(b, mv, i, tx.to), x, k);
  }

  /** Whoever was registered on an older version and is redirected to the new one is reported. */
  lemma SuccessfulReports(b: Block, mv: MV, i: nat, incarnation: nat, x: Address, j: nat)
    requires WellFormed(b, mv) && i < |b.txs| && Speculate(b, mv, i, incarnation).1.Success?
    requires Moved(b, mv, i, x, j) && Registered(mv, x, j) && Below(HistoryOf(mv, x), j) != Some(i)
    ensures j in Speculate(b, mv, i, incarnation).1.invalidated
  {
    var mid := AfterReads(b, mv, i);
    assert Below(HistoryOf(mid, x), j) == Below(HistoryOf(mv, x), j) && j in ReadersAt(mid, x, j) by {
      AfterReadsEffect(b, mv, i, x, j);
    }
    RedirectedIsReported(mid, x, i, j);
    assert x != b.txs[i].from ==> ReadersAt(AfterDebit(b, mv, i, incarnation), x, i) == ReadersAt(mid, x, i) by {
      WritesRedirect(b, mv, i, incarnation, x, i);
    }
    ExecuteUnfolds(b, mv, i, incarnation);
  }

  /**
   The list an execution reports: strictly increasing, above the writer, within the block, and made of
   accepted transactions that share an account with it.
   */
  lemma InvalidatedShape(b: Block, mv: MV, i: nat, incarnation: nat)
    requires WellFormed(b, mv) && i < |b.txs|
    ensures var list := Invalidated(Speculate(b, mv, i, incarnation).1);
      && StrictlySorted(list)
      && forall j :: j in list ==> i < j < |b.txs| && (Party(b, b.txs[i].from, j) || Party(b, b.txs[i].to, j))
  {
    var tx, mid := b.txs[i], AfterReads(b, mv, i);
    ExecuteUnfolds(b, mv, i, incarnation);
    if Speculate(b, mv, i, incarnation).1.Success? {
      AfterReadsEffect(b, mv, i, tx.from, i);
      forall j | j in Invalidated(Speculate(b, mv, i, incarnation).1)
        ensures i < j < |b.txs| && (Party(b, tx.from, j) || Party(b, tx.to, j))
      {
        WritesRedirect(b, mv, i, incarnation, tx.to, i);
        if j in Invalidates(mid, tx.from, i) {
          RegisteredIsParty(b, mid, tx.from, i, j);
        } else {
          RegisteredIsParty(b, mid, tx.to, i, j);
        }
      }
    }
  }

  /** Executions keep the map well formed. */
  lemma ExecuteWellFormed(b: Block, mv: MV, i: nat, incarnation: nat)
    requires WellFormed(b, mv) && i < |b.txs|
    ensures WellFormed(b, Speculate(b, mv, i, incarnation).0)
  {
    var tx, mid := b.txs[i], AfterReads(b, mv, i);
    var after := Speculate(b, mv, i, incarnation).0;
    ExecuteUnfolds(b, mv, i, incarnation);
    if !Speculate(b, mv, i, incarnation).1.Success? {
      UnsuccessfulEffect(b, mv, i, incarnation);
    } else {
      AfterReadsEffect(b, mv, i, tx.from, i);
      WriteWellFormed(b, mid, i, incarnation, Debited(View(b, mv, tx.from, i), tx), Written(b, mv, i, tx.to));
    }
  }

  lemma WriteWellFormed(b: Block, mid: MV, i: nat, incarnation: nat, fromState: Account, toState: Account)
    requires WellFormed(b, mid) && i < |b.txs| && Accepted(b.Policy(), b.txs[i])
    ensures WellFormed(b, WithWrite(WithWrite(mid, b.txs[i].from, i, incarnation, fromState),
                                    b.txs[i].to, i, incarnation, toState))
  {
    var tx := b.txs[i];
    var after := WithWrite(WithWrite(mid, tx.from, i, incarnation, fromState), tx.to, i, incarnation, toState);
    forall a: Address
      ensures StorageReadersOf(after, a) == StorageReadersOf(mid, a)
    {
    }
    forall a: Address, k: nat
      ensures Holds(after, a, k) <==> (Holds(mid, a, k) || (k == i && Touches(b, i, a)))
      ensures Holds(mid, a, k) && (k != i || !Touches(b, i, a)) ==> HistoryOf(after, a)[k] == HistoryOf(mid, a)[k]
      ensures k == i && Touches(b, i, a) ==>
        HistoryOf(after, a)[k].version.txnIdx == i && HistoryOf(after, a)[k].readers == []
    {
    }
  }

  // ---------------------------------------------------------------------------------------------
  // The executor's methods
  // ---------------------------------------------------------------------------------------------

  method ReadAccount(block: Block, address: Address, reader: nat, mvHashmap: MVHashMap) returns (state: Account)
    modifies mvHashmap
    ensures state == View(block, old(mvHashmap.Contents()), address, reader)
    ensures mvHashmap.Contents() == Recorded(old(mvHashmap.Contents()), address, reader)
  {
    var r := mvHashmap.Read(address, reader);
    match r
    case Versioned(version, versioned) =>
      mvHashmap.RecordRead(address, reader, version);
      state := versioned;
    case Storage =>
      mvHashmap.RecordStorageRead(address, reader);
      state := if address in block.initialStates then block.initialStates[address] else Account(0, 0);
  }

  /** What is left to do once both accounts are read. */
  lemma SpeculateWrites(b: Block, mv: MV, i: nat, incarnation: nat, first: MV, mid: MV,
                        debited: Account, credited: Account)
    requires i < |b.txs| && Accepted(b.Policy(), b.txs[i]) && Passes(View(b, mv, b.txs[i].from, i), b.txs[i])
    requires first == Recorded(mv, b.txs[i].from, i) && mid == Recorded(first, b.txs[i].to, i)
    requires debited == Debited(View(b, mv, b.txs[i].from, i), b.txs[i])
    requires credited == Credited(View(b, first, b.txs[i].to, i), b.txs[i])
    ensures var one := WithWrite(mid, b.txs[i].from, i, incarnation, debited);
      Speculate(b, mv, i, incarnation)
        == (WithWrite(one, b.txs[i].to, i, incarnation, credited),
            Success(SortDedup(Invalidates(mid, b.txs[i].from, i) + Invalidates(one, b.txs[i].to, i))))
  {
  }

  /** What is left to do if the sender's account does not pass. */
  lemma SpeculateRetries(b: Block, mv: MV, i: nat, incarnation: nat)
    requires i < |b.txs| && Accepted(b.Policy(), b.txs[i]) && !Passes(View(b, mv, b.txs[i].from, i), b.txs[i])
    ensures Speculate(b, mv, i, incarnation) == (Recorded(mv, b.txs[i].from, i), Retry)
  {
  }

  /** Writes both accounts, the receiver's last, and collects whom the writes invalidate. */
  method WriteAccounts(tx: Transaction, txnIdx: nat, incarnation: nat, newSender: Account, newReceiver: Account,
                       mvHashmap: MVHashMap)
    returns (invalidated: seq<nat>)
    modifies mvHashmap
    ensures var mid := old(mvHashmap.Contents());
      var one := WithWrite(mid, tx.from, txnIdx, incarnation, newSender);
      && mvHashmap.Contents() == WithWrite(one, tx.to, txnIdx, incarnation, newReceiver)
      && invalidated == SortDedup(Invalidates(mid, tx.from, txnIdx) + Invalidates(one, tx.to, txnIdx))
  {
    invalidated := [];
    var fromReaders := mvHashmap.Write(tx.from, txnIdx, incarnation, newSender);
    invalidated := invalidated + fromReaders;
    var toReaders := mvHashmap.Write(tx.to, txnIdx, incarnation, newReceiver);
    invalidated := invalidated + toReaders;
    assert invalidated == fromReaders + toReaders;
    invalidated := SortDedup(invalidated);
  }

  method ExecuteTransaction(block: Block, txnIdx: nat, incarnation: nat, mvHashmap: MVHashMap) returns (result: Result)
    requires txnIdx < |block.txs|
    modifies mvHashmap
    ensures (mvHashmap.Contents(), result) == Speculate(block, old(mvHashmap.Contents()), txnIdx, incarnation)
  {
    var tx := block.txs[txnIdx];
    if block.verifySignatures && !tx.SignatureValid() {
      return Permanent;
    }
    var sender := ReadAccount(block, tx.from, txnIdx, mvHashmap);
    if sender.nonce != tx.nonce {
      return Retry;
    }
    if sender.balance < tx.value {
      return Retry;
    }
    ghost var first := mvHashmap.Contents();
    var receiver := ReadAccount(block, tx.to, txnIdx, mvHashmap);
    var newSender := Account(Bump(sender.nonce), sender.balance - tx.value);
    var newReceiver := Account(receiver.nonce, Credit(receiver.balance, tx.value));
    ghost var start, mid := old(mvHashmap.Contents()), mvHashmap.Contents();
    SpeculateWrites(block, start, txnIdx, incarnation, first, mid, newSender, newReceiver);
    var invalidated := WriteAccounts(tx, txnIdx, incarnation, newSender, newReceiver, mvHashmap);
    return Success(invalidated);
  }
}
