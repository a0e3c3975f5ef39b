/**
 The multi-version map: for each address the account states written so far, keyed by the index of the
 writing transaction, with the readers registered on each of them.
 */
module MultiVersion {
  import opened Ledger

  datatype Version = Version(txnIdx: nat, incarnation: nat)

  datatype VersionedEntry = VersionedEntry(version: Version, state: Account, readers: seq<nat>)

  type History = map<nat, VersionedEntry>

  datatype ReadResult = Versioned(version: Version, state: Account) | Storage

  /** The value of a multi-version map. */
  datatype MV = MV(data: map<Address, History>, storageReaders: map<Address, seq<nat>>)

  const EMPTY := MV(map[], map[])

  // ---------------------------------------------------------------------------------------------
  // Operations on values
  // ---------------------------------------------------------------------------------------------

  function HistoryOf(mv: MV, a: Address): History {
    if a in mv.data then mv.data[a] else map[]
  }

  function StorageReadersOf(mv: MV, a: Address): seq<nat> {
    if a in mv.storageReaders then mv.storageReaders[a] else []
  }

  /** The greatest key below `i`. */
  function Below(h: History, i: nat): (r: Option<nat>)
    ensures r.None? ==> forall k :: k in h ==> i <= k
    ensures r.Some? ==> r.value in h && r.value < i && forall k :: k in h && k < i ==> k <= r.value
  {
    if i == 0 then None
    else if i - 1 in h then Some(i - 1)
    else Below(h, i - 1)
  }

  function ReadAt(mv: MV, a: Address, i: nat): ReadResult {
    var h := HistoryOf(mv, a);
    match Below(h, i)
    case None => Storage
    case Some(k) => Versioned(h[k].version, h[k].state)
  }

  /** The readers registered on the version that a reader with index `i` gets. */
  function ReadersAt(mv: MV, a: Address, i: nat): seq<nat> {
    var h := HistoryOf(mv, a);
    match Below(h, i)
    case None => StorageReadersOf(mv, a)
    case Some(k) => h[k].readers
  }

  predicate Registered(mv: MV, a: Address, j: nat) {
    j in ReadersAt(mv, a, j)
  }

  /** The indices above `i`, in the order they are listed. */
  function Above(readers: seq<nat>, i: nat): (r: seq<nat>)
    ensures forall j :: j in r <==> j in readers && i < j
  {
    if readers == [] then []
    else
      var rest := Above(readers[..|readers| - 1], i);
      var last := readers[|readers| - 1];
      assert readers == readers[..|readers| - 1] + [last];
      if i < last then rest + [last] else rest
  }

  function Invalidates(mv: MV, a: Address, i: nat): seq<nat> {
    Above(ReadersAt(mv, a, i), i)
  }

  function WithWrite(mv: MV, a: Address, i: nat, incarnation: nat, state: Account): MV {
    mv.(data := mv.data[a := HistoryOf(mv, a)[i := VersionedEntry(Version(i, incarnation), state, [])]])
  }

  function WithRead(mv: MV, a: Address, reader: nat, version: Version): MV {
    var h := HistoryOf(mv, a);
    var k := version.txnIdx;
    if k in h && h[k].version == version && reader !in h[k].readers
    then mv.(data := mv.data[a := h[k := h[k].(readers := h[k].readers + [reader])]])
    else mv
  }

  function WithStorageRead(mv: MV, a: Address, reader: nat): MV {
    mv.(storageReaders := mv.storageReaders[a := StorageReadersOf(mv, a) + [reader]])
  }

  ghost function Greatest(h: History): (g: nat)
    requires h != map[]
    ensures g in h && forall k :: k in h ==> k <= g
    decreases |h|
  {
    var k := Pick(h.Keys);
    var rest := h - {k};
    assert rest.Keys == h.Keys - {k} && h.Keys == rest.Keys + {k};
    if rest == map[] then k
    else
      assert |rest.Keys| < |h.Keys|;
      var g := Greatest(rest);
      if g < k then k else g
  }

  ghost function CommittedStates(mv: MV): State {
    map a | a in mv.data && mv.data[a] != map[] :: mv.data[a][Greatest(mv.data[a])].state
  }

  // ---------------------------------------------------------------------------------------------
  // What a write changes and whom it reports
  // ---------------------------------------------------------------------------------------------

  /** A reader is redirected to a write when it comes later and had nothing newer below it. */
  predicate Redirected(mv: MV, a: Address, i: nat, b: Address, j: nat) {
    var seen := Below(HistoryOf(mv, b), j);
    a == b && i < j && (seen.None? || seen.value <= i)
  }

  /** A write at index `i` changes what later readers with no version in between see, and nothing else. */
  lemma WriteRedirects(mv: MV, a: Address, i: nat, incarnation: nat, state: Account, b: Address, j: nat)
    ensures var after := WithWrite(mv, a, i, incarnation, state);
      && Below(HistoryOf(after, b), j)
         == (if Redirected(mv, a, i, b, j) then Some(i) else Below(HistoryOf(mv, b), j))
      && ReadAt(after, b, j)
         == (if Redirected(mv, a, i, b, j) then Versioned(Version(i, incarnation), state) else ReadAt(mv, b, j))
      && ReadersAt(after, b, j) == (if Redirected(mv, a, i, b, j) then [] else ReadersAt(mv, b, j))
  {
  }

  /** A redirected reader that was registered below the writer is reported. */
  lemma RedirectedIsReported(mv: MV, a: Address, i: nat, j: nat)
    requires Redirected(mv, a, i, a, j) && Registered(mv, a, j) && Below(HistoryOf(mv, a), j) != Some(i)
    ensures j in Invalidates(mv, a, i)
  {
    assert Below(HistoryOf(mv, a), j) == Below(HistoryOf(mv, a), i);
  }

  /** A registered reader that the write neither keeps registered nor reports. */
  predicate Lost(mv: MV, a: Address, i: nat, incarnation: nat, state: Account, j: nat) {
    && Registered(mv, a, j)
    && !Registered(WithWrite(mv, a, i, incarnation, state), a, j)
    && j !in Invalidates(mv, a, i)
  }

  /**
   Exactly which readers a write loses: those registered on the entry it replaces that are not also
   registered one version further down. In particular a first write loses nobody.
   */
  lemma WriteLosesExactly(mv: MV, a: Address, i: nat, incarnation: nat, state: Account, j: nat)
    ensures Lost(mv, a, i, incarnation, state, j)
      <==> Below(HistoryOf(mv, a), j) == Some(i) && j in HistoryOf(mv, a)[i].readers && j !in Invalidates(mv, a, i)
    ensures i !in HistoryOf(mv, a) ==> !Lost(mv, a, i, incarnation, state, j)
  {
    WriteRedirects(mv, a, i, incarnation, state, a, j);
    if Redirected(mv, a, i, a, j) && Registered(mv, a, j) && Below(HistoryOf(mv, a), j) != Some(i) {
      RedirectedIsReported(mv, a, i, j);
    }
  }

  /**
   Invalidation is complete for a first write: every registered reader whose read changes is reported,
   and everybody reported comes later and had registered a read of the address.
   */
  lemma FirstWriteReportsAll(mv: MV, a: Address, i: nat, incarnation: nat, state: Account, j: nat)
    requires i !in HistoryOf(mv, a)
    ensures Registered(mv, a, j) && ReadAt(WithWrite(mv, a, i, incarnation, state), a, j) != ReadAt(mv, a, j)
      ==> j in Invalidates(mv, a, i)
    ensures j in Invalidates(mv, a, i)
      ==> i < j && (j in StorageReadersOf(mv, a)
                    || exists k :: k in HistoryOf(mv, a) && j in HistoryOf(mv, a)[k].readers)
  {
    WriteLosesExactly(mv, a, i, incarnation, state, j);
    WriteRedirects(mv, a, i, incarnation, state, a, j);
  }

  /** The final collection reads every written address as a reader past the last transaction would. */
  lemma CommittedIsReadAtEnd(mv: MV, n: nat, a: Address)
    requires forall k :: k in HistoryOf(mv, a) ==> k < n
    ensures a in CommittedStates(mv) <==> ReadAt(mv, a, n).Versioned?
    ensures a in CommittedStates(mv) ==> CommittedStates(mv)[a] == ReadAt(mv, a, n).state
  {
    var h := HistoryOf(mv, a);
    if h != map[] {
      assert Greatest(h) in h;
      assert Below(h, n) == Some(Greatest(h));
    }
  }

  // ---------------------------------------------------------------------------------------------
  // The map refines a write log
  // ---------------------------------------------------------------------------------------------

  datatype Op =
    | WriteOp(address: Address, txnIdx: nat, incarnation: nat, state: Account)
    | RecordReadOp(address: Address, reader: nat, version: Version)
    | RecordStorageReadOp(address: Address, reader: nat)

  function Perform(mv: MV, op: Op): MV {
    match op
    case WriteOp(a, i, incarnation, state) => WithWrite(mv, a, i, incarnation, state)
    case RecordReadOp(a, reader, version) => WithRead(mv, a, reader, version)
    case RecordStorageReadOp(a, reader) => WithStorageRead(mv, a, reader)
  }

  function Replay(ops: seq<Op>): MV {
    if ops == [] then EMPTY else Perform(Replay(ops[..|ops| - 1]), ops[|ops| - 1])
  }

  /** The last write to `a` by transaction `k` in the log. */
  function LastWrite(ops: seq<Op>, a: Address, k: nat): Option<ReadResult> {
    if ops == [] then None
    else
      var op := ops[|ops| - 1];
      if op.WriteOp? && op.address == a && op.txnIdx == k then Some(Versioned(Version(k, op.incarnation), op.state))
      else LastWrite(ops[..|ops| - 1], a, k)
  }

  /** What the log alone says a reader at `i` must see: the last write by the greatest index below it. */
  function LogRead(ops: seq<Op>, a: Address, i: nat): ReadResult {
    if i == 0 then Storage
    else if LastWrite(ops, a, i - 1).Some? then LastWrite(ops, a, i - 1).value
    else LogRead(ops, a, i - 1)
  }

  lemma {:induction false} HistoryRefinesLog(ops: seq<Op>, a: Address, k: nat)
    ensures var h := HistoryOf(Replay(ops), a);
      LastWrite(ops, a, k) == if k in h then Some(Versioned(h[k].version, h[k].state)) else None
  {
    if ops != [] {
      HistoryRefinesLog(ops[..|ops| - 1], a, k);
    }
  }

  /** After any sequence of writes and recordings, a read returns what the write log says. */
  lemma {:induction false} ReadRefinesLog(ops: seq<Op>, a: Address, i: nat)
    ensures ReadAt(Replay(ops), a, i) == LogRead(ops, a, i)
  {
    if i != 0 {
      HistoryRefinesLog(ops, a, i - 1);
      ReadRefinesLog(ops, a, i - 1);
    }
  }

  predicate WritesAt(op: Op, a: Address, k: nat) {
    op.WriteOp? && op.address == a && op.txnIdx == k
  }

  /** Entry `p` of the log is the last write to `a` by transaction `k`. */
  predicate IsLastWrite(ops: seq<Op>, a: Address, k: nat, p: nat) {
    p < |ops| && WritesAt(ops[p], a, k) && forall q :: p < q < |ops| ==> !WritesAt(ops[q], a, k)
  }

  /** Since the last write by `k`, a read by `j` of exactly the version it left was recorded. */
  predicate RecordedSince(ops: seq<Op>, a: Address, k: nat, j: nat) {
    exists p: nat, q: nat :: p < q < |ops| && IsLastWrite(ops, a, k, p)
      && ops[q] == RecordReadOp(a, j, Version(k, ops[p].incarnation))
  }

  predicate NoRepeats(s: seq<nat>) {
    forall p, q :: 0 <= p < q < |s| ==> s[p] != s[q]
  }

  lemma {:induction false} LastWriteInLog(ops: seq<Op>, a: Address, k: nat) returns (p: nat)
    requires k in HistoryOf(Replay(ops), a)
    ensures IsLastWrite(ops, a, k, p)
    ensures HistoryOf(Replay(ops), a)[k].version == Version(k, ops[p].incarnation)
  {
    var last := |ops| - 1;
    if WritesAt(ops[last], a, k) {
      p := last;
    } else {
      p := LastWriteInLog(ops[..last], a, k);
    }
  }

  lemma RecordedSinceNext(ops: seq<Op>, op: Op, a: Address, k: nat, j: nat)
    ensures RecordedSince(ops + [op], a, k, j)
      <==> !WritesAt(op, a, k)
           && (RecordedSince(ops, a, k, j)
               || exists p: nat ::
                    IsLastWrite(ops, a, k, p) && op == RecordReadOp(a, j, Version(k, ops[p].incarnation)))
  {
    var all := ops + [op];
    assert forall r :: 0 <= r < |ops| ==> all[r] == ops[r];
    assert all[|ops|] == op;
    if RecordedSince(all, a, k, j) {
      var p: nat, q: nat :| p < q < |all| && IsLastWrite(all, a, k, p)
        && all[q] == RecordReadOp(a, j, Version(k, all[p].incarnation));
      assert !WritesAt(all[|ops|], a, k) && IsLastWrite(ops, a, k, p);
      assert q < |ops| ==> ops[q] == all[q];
    }
    if RecordedSince(ops, a, k, j) && !WritesAt(op, a, k) {
      var p: nat, q: nat :| p < q < |ops| && IsLastWrite(ops, a, k, p)
        && ops[q] == RecordReadOp(a, j, Version(k, ops[p].incarnation));
      assert IsLastWrite(all, a, k, p) && all[q] == ops[q];
    }
    if p: nat :| IsLastWrite(ops, a, k, p) && op == RecordReadOp(a, j, Version(k, ops[p].incarnation)) {
      assert IsLastWrite(all, a, k, p) && all[|ops|] == op;
    }
  }

  lemma LastWriteIsOne(ops: seq<Op>, a: Address, k: nat, p: nat, q: nat)
    requires IsLastWrite(ops, a, k, p) && IsLastWrite(ops, a, k, q)
    ensures p == q
  {
  }

  /**
   A version's registered readers are those whose read of that very version was recorded since it was written;
   a recording of a version that has been replaced registers nobody. Nobody is registered twice.
   */
  lemma {:induction false} ReadersRefineLog(ops: seq<Op>, a: Address, k: nat, j: nat)
    requires k in HistoryOf(Replay(ops), a)
    ensures j in HistoryOf(Replay(ops), a)[k].readers <==> RecordedSince(ops, a, k, j)
    ensures NoRepeats(HistoryOf(Replay(ops), a)[k].readers)
  {
    var front, op := ops[..|ops| - 1], ops[|ops| - 1];
    assert ops == front + [op];
    RecordedSinceNext(front, op, a, k, j);
    if !WritesAt(op, a, k) {
      ReadersRefineLog(front, a, k, j);
      var p := LastWriteInLog(front, a, k);
      forall q: nat | IsLastWrite(front, a, k, q)
        ensures q == p
      {
        LastWriteIsOne(front, a, k, p, q);
      }
    }
  }

  /** How often a read of `a` by `j` from storage was recorded. */
  function StorageRecordings(ops: seq<Op>, a: Address, j: nat): nat {
    |set p | 0 <= p < |ops| && ops[p] == RecordStorageReadOp(a, j)|
  }

  lemma StorageRecordingsNext(front: seq<Op>, op: Op, a: Address, j: nat)
    ensures StorageRecordings(front + [op], a, j)
      == StorageRecordings(front, a, j) + if op == RecordStorageReadOp(a, j) then 1 else 0
  {
    var all := front + [op];
    assert forall r :: 0 <= r < |front| ==> all[r] == front[r];
    var before := set p | 0 <= p < |front| && front[p] == RecordStorageReadOp(a, j);
    var after := set p | 0 <= p < |all| && all[p] == RecordStorageReadOp(a, j);
    assert after == before + if op == RecordStorageReadOp(a, j) then {|front|} else {};
  }

  lemma StorageReadersNext(mv: MV, op: Op, a: Address, j: nat)
    ensures multiset(StorageReadersOf(Perform(mv, op), a))[j]
      == multiset(StorageReadersOf(mv, a))[j] + if op == RecordStorageReadOp(a, j) then 1 else 0
  {
  }

  /** Storage readers are registered as often as their reads were recorded. */
  lemma {:induction false} StorageReadersRefineLog(ops: seq<Op>, a: Address, j: nat)
    ensures multiset(StorageReadersOf(Replay(ops), a))[j] == StorageRecordings(ops, a, j)
  {
    if ops != [] {
      var front, op := ops[..|ops| - 1], ops[|ops| - 1];
      StorageReadersRefineLog(front, a, j);
      StorageReadersNext(Replay(front), op, a, j);
      StorageRecordingsNext(front, op, a, j);
      assert ops == front + [op];
    }
  }

  /** The list a write returns: the readers it sees that are above it, as often and in the order they registered. */
  lemma {:induction false} AboveSplits(xs: seq<nat>, ys: seq<nat>, i: nat)
    ensures Above(xs + ys, i) == Above(xs, i) + Above(ys, i)
    ensures |ys| == 1 ==> Above(ys, i) == if i < ys[0] then ys else []
  {
    if ys == [] {
      assert xs + ys == xs;
    } else {
      assert (xs + ys)[..|xs + ys| - 1] == xs + ys[..|ys| - 1];
      AboveSplits(xs, ys[..|ys| - 1], i);
    }
  }

  // ---------------------------------------------------------------------------------------------
  // The map itself
  // ---------------------------------------------------------------------------------------------

  class MVHashMap {
    var data: map<Address, History>
    var storageReaders: map<Address, seq<nat>>

    function Contents(): MV
      reads this
    {
      MV(data, storageReaders)
    }

    constructor ()
      ensures Contents() == EMPTY
    {
      data := map[];
      storageReaders := map[];
    }

    method Read(address: Address, reader: nat) returns (r: ReadResult)
      ensures r == ReadAt(Contents(), address, reader)
    {
      if address in data {
        var versions := data[address];
        var latest := Below(versions, reader);
        if latest.Some? {
          return Versioned(versions[latest.value].version, versions[latest.value].state);
        }
      }
      return Storage;
    }

    method Write(address: Address, writer: nat, incarnation: nat, state: Account) returns (invalidated: seq<nat>)
      modifies this
      ensures Contents() == WithWrite(old(Contents()), address, writer, incarnation, state)
      ensures invalidated == Invalidates(old(Contents()), address, writer)
    {
      invalidated := [];
      var hasLowerVersion := address in data && Below(data[address], writer).Some?;
      if !hasLowerVersion && address in storageReaders {
        invalidated := invalidated + Above(storageReaders[address], writer);
      }
      if address in data {
        var versions := data[address];
        var previous := Below(versions, writer);
        if previous.Some? {
          invalidated := invalidated + Above(versions[previous.value].readers, writer);
        }
        versions := versions[writer := VersionedEntry(Version(writer, incarnation), state, [])];
        data := data[address := versions];
      } else {
        data := data[address := map[writer := VersionedEntry(Version(writer, incarnation), state, [])]];
      }
    }

    method RecordRead(address: Address, reader: nat, version: Version)
      modifies this
      ensures Contents() == WithRead(old(Contents()), address, reader, version)
    {
      if address in data && version.txnIdx in data[address] {
        var versions: History := data[address];
        var entry := versions[version.txnIdx];
        if entry.version == version && reader !in entry.readers {
          entry := entry.(readers := entry.readers + [reader]);
          versions := versions[version.txnIdx := entry];
          data := data[address := versions];
        }
      }
    }

    method RecordStorageRead(address: Address, reader: nat)
      modifies this
      ensures Contents() == WithStorageRead(old(Contents()), address, reader)
    {
      var readers := if address in storageReaders then storageReaders[address] else [];
      storageReaders := storageReaders[address := readers + [reader]];
    }

    /** The newest state of every written address; addresses may be visited in any order. */
    method GetCommittedStates() returns (result: State)
      ensures result == CommittedStates(Contents())
    {
      result := map[];
      var todo := data.Keys;
      while todo != {}
        invariant todo <= data.Keys
        invariant result == map a | a in CommittedStates(Contents()) && a !in todo :: CommittedStates(Contents())[a]
        decreases todo
      {
        var address :| address in todo;
        todo := todo - {address};
        if data[address] != map[] {
          var newest := NewestKey(data[address]);
          result := result[address := data[address][newest].state];
        }
      }
    }

    static method NewestKey(versions: History) returns (newest: nat)
      requires versions != map[]
      ensures newest == Greatest(versions)
    {
      var todo := versions.Keys;
      newest :| newest in todo;
      todo := todo - {newest};
      while todo != {}
        invariant todo <= versions.Keys && newest in versions && newest !in todo
        invariant forall k :: k in versions && k !in todo ==> k <= newest
        decreases todo
      {
        var k :| k in todo;
        todo := todo - {k};
        if newest < k {
          newest := k;
        }
      }
    }
  }
}
