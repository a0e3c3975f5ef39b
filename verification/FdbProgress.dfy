/**
 When the retry threads cannot get stuck: each sender's accepted transactions are listed with consecutive
 nonces and covered by its initial balance.
 */
module FdbProgress {
  import opened Ledger
  import opened Effects
  import opened FdbSlices
  import opened FdbThreads
  import opened FdbOrder

  /** Accepted transactions go to somebody else, and their nonces count the sender's earlier ones. */
  ghost predicate Disciplined(c: Config) {
    forall i: nat | AcceptedAt(c, i) ::
      var tx := c.txs[i];
      && tx.from != tx.to
      && tx.nonce == Lookup(c.initial, tx.from).nonce + FlowOf(c.txs[..i], AcceptedSet(c), tx.from).sends
  }

  /** Senders exist and can pay for all they send, and no account ever overflows. */
  ghost predicate Ample(c: Config) {
    && (forall i: nat | AcceptedAt(c, i) :: c.txs[i].from in c.initial)
    && forall a: Address ::
         var total := FlowOf(c.txs, AcceptedSet(c), a);
         && Lookup(c.initial, a).nonce + total.sends < U64_MODULUS
         && total.outflow <= Lookup(c.initial, a).balance
         && Lookup(c.initial, a).balance + total.inflow < U256_MODULUS
  }

  /** With every applied transfer the sender's earlier accepted ones are applied too. */
  ghost predicate InListOrder(c: Config, applied: set<nat>) {
    && applied <= AcceptedSet(c)
    && forall i: nat, j: nat | i in applied && j < i && AcceptedAt(c, j) && c.txs[j].from == c.txs[i].from ::
         j in applied
  }

  // ---------------------------------------------------------------------------------------------
  // Sends before an index
  // ---------------------------------------------------------------------------------------------

  /** If nobody from `i` on sends for `a`, the sends are those before `i`. */
  lemma {:induction false} SendsBefore(txs: seq<Transaction>, applied: set<nat>, a: Address, i: nat)
    requires i <= |txs| && forall j :: i <= j < |txs| && j in applied ==> !Spends(txs[j], a)
    ensures FlowOf(txs, applied, a).sends == FlowOf(txs[..i], applied, a).sends
  {
    if i < |txs| {
      SendsBefore(txs[..|txs| - 1], applied, a, i);
      assert txs[..|txs| - 1][..i] == txs[..i];
    } else {
      assert txs[..i] == txs;
    }
  }

  /** A transaction not yet applied has no later one of its sender applied. */
  lemma NothingLater(c: Config, applied: set<nat>, i: nat)
    requires Disciplined(c) && InListOrder(c, applied) && AcceptedAt(c, i) && i !in applied
    ensures FlowOf(c.txs, applied, c.txs[i].from).sends == FlowOf(c.txs[..i], applied, c.txs[i].from).sends
  {
    var a := c.txs[i].from;
    forall j | i <= j < |c.txs| && j in applied
      ensures !Spends(c.txs[j], a)
    {
    }
    SendsBefore(c.txs, applied, a, i);
  }

  lemma ExplainedWithoutWrap(initial: Account, f: Flow, final: Account)
    requires AccountExplained(initial, f, final)
    requires initial.nonce + f.sends < U64_MODULUS
    requires f.outflow <= initial.balance && initial.balance + f.inflow < U256_MODULUS
    ensures final.nonce == initial.nonce + f.sends
    ensures final.balance == initial.balance + f.inflow - f.outflow
  {
  }

  lemma AmpleAccount(c: Config, applied: set<nat>, st: State, a: Address)
    requires Ample(c) && applied <= AcceptedSet(c) && Explains(c.initial, c.txs, applied, st)
    ensures var f := FlowOf(c.txs, applied, a);
      && Lookup(st, a).nonce == Lookup(c.initial, a).nonce + f.sends
      && Lookup(st, a).balance == Lookup(c.initial, a).balance + f.inflow - f.outflow
  {
    FlowMonotone(c.txs, applied, AcceptedSet(c), a);
    var total := FlowOf(c.txs, AcceptedSet(c), a);
    assert Lookup(c.initial, a).nonce + total.sends < U64_MODULUS && total.outflow <= Lookup(c.initial, a).balance;
    ExplainedWithoutWrap(Lookup(c.initial, a), FlowOf(c.txs, applied, a), Lookup(st, a));
  }

  /** The transaction whose turn it is, with everything accepted before it applied, is enabled. */
  lemma LowestIsEnabled(c: Config, applied: set<nat>, st: State, i: nat)
    requires Disciplined(c) && Ample(c) && InListOrder(c, applied) && Explains(c.initial, c.txs, applied, st)
    requires AcceptedAt(c, i) && i !in applied && forall j :: 0 <= j < i && AcceptedAt(c, j) ==> j in applied
    ensures Applies(c.Policy(), st, c.txs[i])
  {
    var tx := c.txs[i];
    var a := tx.from;
    AmpleAccount(c, applied, st, a);
    NothingLater(c, applied, i);
    FlowAgree(c.txs[..i], applied, AcceptedSet(c), a);
    FlowAdd(c.txs, applied, i, a);
    FlowMonotone(c.txs, applied + {i}, AcceptedSet(c), a);
    assert a in st;
  }

  /** Whatever transaction is enabled, its sender's earlier accepted ones are applied already. */
  lemma EnabledIsNext(c: Config, applied: set<nat>, st: State, i: nat)
    requires Disciplined(c) && Ample(c) && InListOrder(c, applied) && Explains(c.initial, c.txs, applied, st)
    requires AcceptedAt(c, i) && i !in applied && Applies(c.Policy(), st, c.txs[i])
    ensures InListOrder(c, applied + {i})
  {
    var a := c.txs[i].from;
    AmpleAccount(c, applied, st, a);
    NothingLater(c, applied, i);
    forall j: nat | j < i && AcceptedAt(c, j) && c.txs[j].from == a
      ensures j in applied
    {
      SameSends(c.txs[..i], applied, AcceptedSet(c), a, j);
    }
  }

  // ---------------------------------------------------------------------------------------------
  // Progress of the threads
  // ---------------------------------------------------------------------------------------------

  lemma AttemptKeepsListOrder(c: Config, s: Fdb, t: nat)
    requires Disciplined(c) && Ample(c) && Invariant(c, s) && InListOrder(c, Applied(s)) && Unfinished(c, s, t)
    ensures InListOrder(c, Applied(Attempt(c, s, t)))
  {
    var next, i := Attempt(c, s, t), s.heads[t];
    AttemptEffect(c, s, t);
    HeadNotPassed(c, s, t);
    if next.log != s.log {
      EnabledIsNext(c, Applied(s), s.db, i);
      assert Applied(next) == Applied(s) + {i};
    } else {
      assert Applied(next) == Applied(s);
    }
  }

  lemma {:induction false} RunKeepsListOrder(c: Config, ts: seq<nat>)
    requires Disciplined(c) && Ample(c) && Legal(c, ts)
    ensures InListOrder(c, Applied(After(c, ts)))
  {
    if ts == [] {
      assert Applied(Begin(c)) == {};
    } else {
      RunKeepsListOrder(c, ts[..|ts| - 1]);
      RunInvariant(c, ts[..|ts| - 1]);
      AttemptKeepsListOrder(c, After(c, ts[..|ts| - 1]), ts[|ts| - 1]);
    }
  }

  /** The first thread that still has work: its head is the lowest index not passed by anybody. */
  predicate FirstUnfinished(c: Config, s: Fdb, t: nat) {
    Unfinished(c, s, t) && forall u :: 0 <= u < t ==> s.heads[u] == c.slices[u].end
  }

  lemma LowestRemaining(c: Config, s: Fdb, t: nat, j: nat)
    requires FirstUnfinished(c, s, t) && j < s.heads[t]
    ensures Passed(c, s, j)
  {
    var u := SlicesCover(c.slices, |c.txs|, j, t);
    assert c.slices[u].start <= j < s.heads[u];
  }

  /** An attempt at an enabled or rejected head moves the thread on. */
  lemma HeadMovesOn(c: Config, s: Fdb, t: nat)
    requires Unfinished(c, s, t) && s.heads[t] < |c.txs|
    requires AcceptedAt(c, s.heads[t]) ==> Applies(c.Policy(), s.db, c.txs[s.heads[t]])
    ensures Attempt(c, s, t).heads == s.heads[t := s.heads[t] + 1]
  {
  }

  lemma FirstIsEnabled(c: Config, s: Fdb, t: nat)
    requires Disciplined(c) && Ample(c) && Invariant(c, s) && InListOrder(c, Applied(s)) && FirstUnfinished(c, s, t)
    requires AcceptedAt(c, s.heads[t]) && s.heads[t] !in s.log
    ensures Applies(c.Policy(), s.db, c.txs[s.heads[t]])
  {
    forall j | 0 <= j < s.heads[t] && AcceptedAt(c, j)
      ensures j in Applied(s)
    {
      LowestRemaining(c, s, t, j);
    }
    LowestIsEnabled(c, Applied(s), s.db, s.heads[t]);
  }

  lemma FirstAdvances(c: Config, s: Fdb, t: nat)
    requires Disciplined(c) && Ample(c) && Invariant(c, s) && InListOrder(c, Applied(s)) && FirstUnfinished(c, s, t)
    requires s.heads[t] !in s.log
    ensures Attempt(c, s, t).heads == s.heads[t := s.heads[t] + 1]
  {
    HeadInRange(c, s, t);
    if AcceptedAt(c, s.heads[t]) {
      FirstIsEnabled(c, s, t);
    }
    HeadMovesOn(c, s, t);
  }

  /**
   Progress: in every reachable unfinished state the lowest remaining transaction is at the head of a
   thread, and an attempt of that thread gets it done.
   */
  lemma FirstThreadAdvances(c: Config, ts: seq<nat>, t: nat)
    requires Disciplined(c) && Ample(c) && Legal(c, ts) && FirstUnfinished(c, After(c, ts), t)
    ensures var s := After(c, ts);
      Attempt(c, s, t).heads == s.heads[t := s.heads[t] + 1]
  {
    RunInvariant(c, ts);
    RunKeepsListOrder(c, ts);
    HeadIsNew(c, ts, t);
    FirstAdvances(c, After(c, ts), t);
  }

  lemma {:induction false} FindFirstUnfinished(c: Config, s: Fdb, t: nat) returns (first: nat)
    requires Unfinished(c, s, t)
    ensures FirstUnfinished(c, s, first) && first <= t
  {
    if u: nat :| u < t && s.heads[u] != c.slices[u].end {
      first := FindFirstUnfinished(c, s, u);
    } else {
      first := t;
    }
  }

  function Advances(slices: seq<Slice>, heads: seq<nat>): seq<nat>
    requires |heads| == |slices| && forall t :: 0 <= t < |slices| ==> slices[t].start <= heads[t]
  {
    seq(|slices|, t requires 0 <= t < |slices| => heads[t] - slices[t].start)
  }

  /** The number of transactions the threads have passed. */
  function Done(c: Config, s: Fdb): nat
    requires Shaped(c, s)
  {
    Sum(Advances(c.slices, s.heads))
  }

  lemma OneMoreDone(slices: seq<Slice>, heads: seq<nat>, t: nat)
    requires |heads| == |slices| && t < |slices| && forall u :: 0 <= u < |slices| ==> slices[u].start <= heads[u]
    ensures Sum(Advances(slices, heads[t := heads[t] + 1])) == Sum(Advances(slices, heads)) + 1
  {
    var counts := Advances(slices, heads);
    SumUpdate(counts, t);
    assert counts[t := counts[t] + 1] == Advances(slices, heads[t := heads[t] + 1]);
  }

  /** An attempt either changes nothing or gets exactly one more transaction done. */
  lemma AttemptAdvances(c: Config, s: Fdb, t: nat)
    requires Unfinished(c, s, t)
    ensures Shaped(c, Attempt(c, s, t))
    ensures Attempt(c, s, t) == s || Done(c, Attempt(c, s, t)) == Done(c, s) + 1
  {
    AttemptShape(c, s, t);
    if Attempt(c, s, t) != s {
      OneMoreDone(c.slices, s.heads, t);
    }
  }

  /** Attempts that get a transaction done number at most the length of the workload. */
  lemma DoneBounded(c: Config, s: Fdb)
    requires Shaped(c, s)
    ensures Done(c, s) <= |c.txs|
    ensures Done(c, s) == |c.txs| <==> Complete(c, s)
  {
    DoneOfSlices(c.slices, s.heads, |c.txs|);
  }

  lemma {:induction false} DoneOfSlices(slices: seq<Slice>, heads: seq<nat>, n: nat)
    requires Partition(slices, n) && |heads| == |slices|
    requires forall t :: 0 <= t < |slices| ==> slices[t].start <= heads[t] <= slices[t].end
    ensures var counts := Advances(slices, heads);
      Sum(counts) <= n && (Sum(counts) == n <==> forall t :: 0 <= t < |slices| ==> heads[t] == slices[t].end)
  {
    if slices != [] {
      var last := |slices| - 1;
      assert Advances(slices, heads)[..last] == Advances(slices[..last], heads[..last]);
      DoneOfSlices(slices[..last], heads[..last], slices[last].start);
    }
  }

  /** No run is stuck: from every reachable unfinished state some attempt gets a transaction done. */
  lemma NeverStuck(c: Config, ts: seq<nat>) returns (t: nat)
    requires Disciplined(c) && Ample(c) && Legal(c, ts) && !Complete(c, After(c, ts))
    ensures Legal(c, ts + [t])
    ensures Done(c, After(c, ts + [t])) == Done(c, After(c, ts)) + 1 <= |c.txs|
  {
    var s := After(c, ts);
    RunInvariant(c, ts);
    var u: nat :| u < |c.slices| && s.heads[u] != c.slices[u].end;
    t := FindFirstUnfinished(c, s, u);
    FirstThreadAdvances(c, ts, t);
    AttemptAdvances(c, s, t);
    assert (ts + [t])[..|ts + [t]| - 1] == ts;
    DoneBounded(c, After(c, ts + [t]));
  }

  // ---------------------------------------------------------------------------------------------
  // The in-order run of such a workload
  // ---------------------------------------------------------------------------------------------

  lemma {:induction false} ExplainedByMore(initial: State, txs: seq<Transaction>, k: nat, applied: set<nat>, st: State)
    requires k <= |txs| && (forall i :: i in applied ==> i < k)
    requires Explains(initial, txs[..k], applied, st)
    ensures Explains(initial, txs, applied, st)
  {
    if k < |txs| {
      assert txs[..|txs| - 1][..k] == txs[..k];
      ExplainedByMore(initial, txs[..|txs| - 1], k, applied, st);
      Unextended(initial, txs, applied, st);
    } else {
      assert txs[..k] == txs;
    }
  }

  function AcceptedBelow(c: Config, k: nat): (below: set<nat>)
    ensures forall i: nat :: i in below <==> i < k && AcceptedAt(c, i)
  {
    set i | 0 <= i < k && AcceptedAt(c, i)
  }

  lemma BelowIsExplained(c: Config, i: nat)
    requires i <= |c.txs| && AppliedBy(c.Policy(), c.initial, c.txs[..i]) == AcceptedBelow(c, i)
    ensures Explains(c.initial, c.txs, AcceptedBelow(c, i), SeqRun(c.Policy(), c.initial, c.txs[..i]).state)
  {
    SeqRunExplained(c.Policy(), c.initial, c.txs[..i]);
    ExplainedByMore(c.initial, c.txs, i, AcceptedBelow(c, i), SeqRun(c.Policy(), c.initial, c.txs[..i]).state);
  }

  lemma AppliedByNext(rules: Rules, st: State, txs: seq<Transaction>, i: nat)
    requires i < |txs|
    ensures AppliedBy(rules, st, txs[..i + 1])
      == AppliedBy(rules, st, txs[..i]) + if Applies(rules, SeqRun(rules, st, txs[..i]).state, txs[i]) then {i} else {}
  {
    assert txs[..i + 1][..i] == txs[..i];
  }

  lemma NextIsApplied(c: Config, i: nat)
    requires Disciplined(c) && Ample(c) && AcceptedAt(c, i)
    requires AppliedBy(c.Policy(), c.initial, c.txs[..i]) == AcceptedBelow(c, i)
    ensures Applies(c.Policy(), SeqRun(c.Policy(), c.initial, c.txs[..i]).state, c.txs[i])
  {
    BelowIsExplained(c, i);
    LowestIsEnabled(c, AcceptedBelow(c, i), SeqRun(c.Policy(), c.initial, c.txs[..i]).state, i);
  }

  lemma AcceptedBelowNext(c: Config, i: nat)
    ensures AcceptedBelow(c, i + 1) == AcceptedBelow(c, i) + if AcceptedAt(c, i) then {i} else {}
  {
  }

  /** The in-order run applies every accepted transaction. */
  lemma {:induction false} SequentialAppliesAll(c: Config, k: nat)
    requires Disciplined(c) && Ample(c) && k <= |c.txs|
    ensures AppliedBy(c.Policy(), c.initial, c.txs[..k]) == AcceptedBelow(c, k)
  {
    if k != 0 {
      var i := k - 1;
      SequentialAppliesAll(c, i);
      AppliedByNext(c.Policy(), c.initial, c.txs, i);
      AcceptedBelowNext(c, i);
      if AcceptedAt(c, i) {
        NextIsApplied(c, i);
      }
    }
  }

  /** The in-order run succeeds on every accepted transaction and on no other. */
  lemma SequentialCounts(c: Config)
    requires Disciplined(c) && Ample(c)
    ensures AppliedBy(c.Policy(), c.initial, c.txs) == AcceptedSet(c)
    ensures SeqRun(c.Policy(), c.initial, c.txs).successful == |AcceptedSet(c)|
  {
    SequentialAppliesAll(c, |c.txs|);
    assert c.txs[..|c.txs|] == c.txs;
    AppliedCount(c.Policy(), c.initial, c.txs);
    assert AcceptedSet(c) == AcceptedBelow(c, |c.txs|);
  }

  /**
   On a disciplined workload with ample balances every complete run of the threads, under any interleaving
   and any slices, leaves the accounts and the totals of the in-order run.
   */
  lemma CompleteMatchesSequential(c: Config, ts: seq<nat>)
    requires Disciplined(c) && Ample(c) && Legal(c, ts) && Complete(c, After(c, ts))
    ensures var end := SeqRun(c.Policy(), c.initial, c.txs);
      && After(c, ts).db == end.state
      && Sum(After(c, ts).successful) == end.successful
      && Sum(After(c, ts).failed) == end.failed
  {
    SequentialCounts(c);
    CompleteCounts(c, ts);
    SeqRunCounts(c.Policy(), c.initial, c.txs);
    RunInvariant(c, ts);
    CompleteAppliesAll(c, After(c, ts));
    SeqRunExplained(c.Policy(), c.initial, c.txs);
    ExplainedIsUnique(c.initial, c.txs, AcceptedSet(c), After(c, ts).db, SeqRun(c.Policy(), c.initial, c.txs).state);
  }

  lemma {:induction false} SendsOfPrefix(txs: seq<Transaction>, applied: set<nat>, a: Address, j: nat, i: nat)
    requires j <= i <= |txs|
    ensures FlowOf(txs[..j], applied, a).sends <= FlowOf(txs[..i], applied, a).sends
  {
    if j < i {
      SendsOfPrefix(txs, applied, a, j, i - 1);
      assert txs[..i][..i - 1] == txs[..i - 1];
    }
  }

  lemma NoncesIncrease(c: Config, j: nat, i: nat)
    requires Disciplined(c) && AcceptedAt(c, i) && AcceptedAt(c, j) && j < i && c.txs[i].from == c.txs[j].from
    ensures c.txs[j].nonce < c.txs[i].nonce
  {
    SendsOfPrefix(c.txs, AcceptedSet(c), c.txs[j].from, j + 1, i);
    assert c.txs[..j + 1][..j] == c.txs[..j];
  }

  lemma OrderOfNonces(c: Config, i: nat, j: nat)
    requires Disciplined(c) && AcceptedAt(c, i) && AcceptedAt(c, j) && c.txs[i].from == c.txs[j].from
    requires c.txs[i].nonce < c.txs[j].nonce
    ensures i < j
  {
    if j < i {
      NoncesIncrease(c, j, i);
    }
  }

  lemma SenderCannotWrap(c: Config, i: nat)
    requires Disciplined(c) && Ample(c) && AcceptedAt(c, i)
    ensures c.txs[i].from != c.txs[i].to
    ensures CannotWrap(c, c.txs[i].from)
  {
  }

  /** On such a workload transfers of one sender are never reordered. */
  lemma SenderInListOrder(c: Config, ts: seq<nat>, p: nat, q: nat)
    requires Disciplined(c) && Ample(c) && Legal(c, ts) && p < q < |After(c, ts).log|
    ensures After(c, ts).log[p] < |c.txs| && After(c, ts).log[q] < |c.txs|
    ensures c.txs[After(c, ts).log[p]].from == c.txs[After(c, ts).log[q]].from
      ==> After(c, ts).log[p] < After(c, ts).log[q]
  {
    var i, j := After(c, ts).log[p], After(c, ts).log[q];
    AcceptedInLog(c, ts, p);
    AcceptedInLog(c, ts, q);
    if c.txs[i].from == c.txs[j].from {
      SenderCannotWrap(c, i);
      SenderInNonceOrder(c, ts, p, q);
      OrderOfNonces(c, i, j);
    }
  }
}
