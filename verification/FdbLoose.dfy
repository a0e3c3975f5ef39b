/**
 When one sender's transfers are applied in the order they are listed: the promise of loose ordering, where
 it fails, and exactly where it holds.
 */
module FdbLoose {
  import opened Ledger
  import opened FdbSlices
  import opened FdbThreads
  import opened FdbOrder

  predicate AcceptedFrom(c: Config, i: nat, a: Address) {
    AcceptedAt(c, i) && c.txs[i].from == a
  }

  /** The accepted nonces of `a` increase along the list. */
  ghost predicate NoncesListed(c: Config, a: Address) {
    forall i: nat, j: nat :: AcceptedFrom(c, i, a) && AcceptedFrom(c, j, a) && i < j ==> c.txs[i].nonce < c.txs[j].nonce
  }

  /** The transfers of `a` were applied in list order. */
  ghost predicate AppliedInListOrder(c: Config, log: seq<nat>, a: Address) {
    forall p, q :: 0 <= p < q < |log| && AcceptedFrom(c, log[p], a) && AcceptedFrom(c, log[q], a) ==> log[p] < log[q]
  }

  /** `a` sends only to others, and its nonce cannot wrap around. */
  ghost predicate PlainSender(c: Config, a: Address) {
    CannotWrap(c, a) && forall i: nat :: AcceptedFrom(c, i, a) ==> c.txs[i].to != a
  }

  lemma LaterHasHigherNonce(c: Config, ts: seq<nat>, a: Address, p: nat, q: nat)
    requires Legal(c, ts) && PlainSender(c, a) && p < q < |After(c, ts).log|
    requires AcceptedFrom(c, After(c, ts).log[p], a) && AcceptedFrom(c, After(c, ts).log[q], a)
    ensures c.txs[After(c, ts).log[p]].nonce < c.txs[After(c, ts).log[q]].nonce
  {
    SenderInNonceOrder(c, ts, p, q);
  }

  /** If the nonces are listed in order no run, complete or not, ever reorders the sender's transfers. */
  lemma ListedIsKept(c: Config, ts: seq<nat>, a: Address)
    requires Legal(c, ts) && PlainSender(c, a) && NoncesListed(c, a)
    ensures AppliedInListOrder(c, After(c, ts).log, a)
  {
    var log := After(c, ts).log;
    forall p, q | 0 <= p < q < |log| && AcceptedFrom(c, log[p], a) && AcceptedFrom(c, log[q], a)
      ensures log[p] < log[q]
    {
      LaterHasHigherNonce(c, ts, a, p, q);
    }
  }

  lemma CompleteLogsAll(c: Config, ts: seq<nat>, i: nat) returns (p: nat)
    requires Legal(c, ts) && Complete(c, After(c, ts)) && AcceptedAt(c, i)
    ensures p < |After(c, ts).log| && After(c, ts).log[p] == i
  {
    RunInvariant(c, ts);
    CompleteAppliesAll(c, After(c, ts));
    assert i in Applied(After(c, ts));
    p :| 0 <= p < |After(c, ts).log| && After(c, ts).log[p] == i;
  }

  /**
   Loose ordering exactly: a complete run applies the transfers of a sender in list order if and only if the
   sender's nonces increase along the list.
   */
  lemma LooseOrderExactly(c: Config, ts: seq<nat>, a: Address)
    requires Legal(c, ts) && Complete(c, After(c, ts)) && PlainSender(c, a)
    ensures AppliedInListOrder(c, After(c, ts).log, a) <==> NoncesListed(c, a)
  {
    if NoncesListed(c, a) {
      ListedIsKept(c, ts, a);
    } else if AppliedInListOrder(c, After(c, ts).log, a) {
      forall i: nat, j: nat | AcceptedFrom(c, i, a) && AcceptedFrom(c, j, a) && i < j
        ensures c.txs[i].nonce < c.txs[j].nonce
      {
        var p := CompleteLogsAll(c, ts, i);
        var q := CompleteLogsAll(c, ts, j);
        LaterHasHigherNonce(c, ts, a, p, q);
      }
    }
  }

  // ---------------------------------------------------------------------------------------------
  // A run that reorders a sender
  // ---------------------------------------------------------------------------------------------

  const A: Address := 0
  const B: Address := 1

  const SECOND := Transaction(A, B, 1, 1, Some(A))
  const FIRST := Transaction(A, B, 1, 0, Some(A))

  /** Two threads, one transfer each, of one sender; the later nonce is listed first. */
  const BACKWARDS := Config([SECOND, FIRST], map[A := Account(0, 10)], true, [Slice(0, 1), Slice(1, 2)])

  /**
   The second thread goes first. The run completes, applies the transfers in the order opposite to the list,
   and ends with other accounts than the in-order run, which skips the first transfer.
   */
  lemma Reordered()
    ensures Legal(BACKWARDS, [1, 0]) && Complete(BACKWARDS, After(BACKWARDS, [1, 0]))
    ensures After(BACKWARDS, [1, 0]).log == [1, 0] && !AppliedInListOrder(BACKWARDS, [1, 0], A)
    ensures After(BACKWARDS, [1, 0]).db != SeqRun(BACKWARDS.Policy(), BACKWARDS.initial, BACKWARDS.txs).state
  {
    BackwardsRun();
    BackwardsInOrder();
    assert AcceptedFrom(BACKWARDS, 1, A) && AcceptedFrom(BACKWARDS, 0, A);
    assert [1, 0][0] > [1, 0][1];
  }

  const ONE := Fdb(map[A := Account(1, 9), B := Account(0, 1)], [0, 2], [0, 1], [0, 0], [1])
  const TWO := Fdb(map[A := Account(2, 8), B := Account(0, 2)], [1, 2], [1, 1], [0, 0], [1, 0])

  lemma FirstAttempt()
    ensures Unfinished(BACKWARDS, Begin(BACKWARDS), 1) && Attempt(BACKWARDS, Begin(BACKWARDS), 1) == ONE
  {
    assert Begin(BACKWARDS) == Fdb(BACKWARDS.initial, [0, 1], [0, 0], [0, 0], []);
    assert Attempt(BACKWARDS, Begin(BACKWARDS), 1).db == ONE.db;
  }

  lemma SecondAttempt()
    ensures Unfinished(BACKWARDS, ONE, 0) && Attempt(BACKWARDS, ONE, 0) == TWO
  {
    assert Attempt(BACKWARDS, ONE, 0).db == TWO.db;
  }

  lemma BackwardsRun()
    ensures Legal(BACKWARDS, [1, 0]) && After(BACKWARDS, [1, 0]) == TWO
  {
    FirstAttempt();
    AttemptLeads(BACKWARDS, [], Begin(BACKWARDS), 1, ONE);
    assert [] + [1] == [1];
    SecondAttempt();
    AttemptLeads(BACKWARDS, [1], ONE, 0, TWO);
    assert [1] + [0] == [1, 0];
  }

  lemma AttemptLeads(c: Config, ts: seq<nat>, s: Fdb, t: nat, next: Fdb)
    requires Legal(c, ts) && After(c, ts) == s && Unfinished(c, s, t) && Attempt(c, s, t) == next
    ensures Legal(c, ts + [t]) && After(c, ts + [t]) == next
  {
    ExtendRun(c, ts, t);
  }

  lemma BackwardsInOrder()
    ensures SeqRun(BACKWARDS.Policy(), BACKWARDS.initial, BACKWARDS.txs).state
      == map[A := Account(1, 9), B := Account(0, 1)]
  {
    var p, st := BACKWARDS.Policy(), BACKWARDS.initial;
    assert [SECOND, FIRST][..1] == [SECOND] && [SECOND][..0] == [];
    assert SeqRun(p, st, [SECOND]) == Outcome(st, 0, 1);
  }
}
