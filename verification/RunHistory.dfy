/**
 What a run of atomic steps records: which tasks were handed out and how often each transaction was sent
 back.
 */
module RunHistory {
  import opened Scheduling
  import opened Execution
  import opened BlockStm
  import opened Serializability

  /** The queue entries a run takes, in order. */
  ghost function Tasks(b: Block, ks: seq<nat>): seq<Ready>
    requires Legal(b, ks)
    decreases |ks|
  {
    if ks == [] then []
    else
      Tasks(b, ks[..|ks| - 1]) + [After(b, ks[..|ks| - 1]).sched.queue[ks[|ks| - 1]]]
  }

  /** How many steps of the run sent transaction `i` back. */
  ghost function AbortCount(b: Block, ks: seq<nat>, i: nat): nat
    requires Legal(b, ks) && i < |b.txs|
    decreases |ks|
  {
    if ks == [] then 0
    else
      var s, k := After(b, ks[..|ks| - 1]), ks[|ks| - 1];
      AbortCount(b, ks[..|ks| - 1], i) + Sent(s.sched, k, Reported(b, s, k), i)
  }

  /** Whether finishing the queue entry at `k` with this list sends transaction `i` back. */
  function Sent(s: Sched, k: nat, list: seq<nat>, i: nat): nat
    requires s.InRange() && k < |s.queue| && i < |s.statuses|
  {
    var e := s.queue[k];
    if Aborts(MarkExecuted(PopAt(s, k), e.txnIdx, e.incarnation), list, i) then 1 else 0
  }

  ghost function Counts(b: Block, ks: seq<nat>): seq<nat>
    requires Legal(b, ks)
  {
    seq(|b.txs|, i requires 0 <= i < |b.txs| => AbortCount(b, ks, i))
  }

  /** Queued and executed incarnations are abort counts. */
  ghost predicate IncarnationsOk(s: Sched, counts: seq<nat>) {
    && |counts| == |s.statuses|
    && (forall e :: e in s.queue ==> e.txnIdx < |counts| && e.incarnation == counts[e.txnIdx])
    && (forall i :: 0 <= i < |counts| && s.statuses[i].Executed? ==> s.statuses[i].incarnation == counts[i])
  }

  /** The scheduler is about to finish the entry at `k` with this list, and `next` are the counts after it. */
  ghost predicate Finishing(n: nat, s: Sched, k: nat, list: seq<nat>, counts: seq<nat>, next: seq<nat>) {
    && SchedulerOk(n, s) && IncarnationsOk(s, counts) && k < |s.queue| && |next| == n
    && AllBelow(list, n) && (forall j :: j in list ==> s.queue[k].txnIdx < j)
    && (forall i :: 0 <= i < n ==> next[i] == counts[i] + Sent(s, k, list, i))
  }

  lemma FinishKeepsIncarnations(n: nat, s: Sched, k: nat, list: seq<nat>, counts: seq<nat>, next: seq<nat>)
    requires Finishing(n, s, k, list, counts, next)
    ensures IncarnationsOk(Finish(PopAt(s, k), s.queue[k].txnIdx, s.queue[k].incarnation, list), next)
  {
    var e := s.queue[k];
    QueuedIsPending(n, s, e);
    var marked := MarkExecuted(PopAt(s, k), e.txnIdx, e.incarnation);
    forall r | r in AbortAll(marked, list).queue
      ensures r.txnIdx < n && r.incarnation == next[r.txnIdx]
    {
      if r in marked.queue {
        assert r in s.queue;
        QueuedIsPending(n, s, r);
      }
    }
  }

  lemma CountsNext(b: Block, ks: seq<nat>)
    requires Legal(b, ks) && ks != []
    ensures var front, k := ks[..|ks| - 1], ks[|ks| - 1];
      var s := After(b, front);
      forall i :: 0 <= i < |b.txs| ==>
        Counts(b, ks)[i] == Counts(b, front)[i] + Sent(s.sched, k, Reported(b, s, k), i)
  {
  }

  lemma StepFinishes(b: Block, ks: seq<nat>)
    requires Legal(b, ks) && ks != []
    requires IncarnationsOk(After(b, ks[..|ks| - 1]).sched, Counts(b, ks[..|ks| - 1]))
    ensures var front, k := ks[..|ks| - 1], ks[|ks| - 1];
      var s := After(b, front);
      && Finishing(|b.txs|, s.sched, k, Reported(b, s, k), Counts(b, front), Counts(b, ks))
      && After(b, ks).sched
         == Finish(PopAt(s.sched, k), s.sched.queue[k].txnIdx, s.sched.queue[k].incarnation, Reported(b, s, k))
  {
    CountsNext(b, ks);
  }

  /** An incarnation number is always the number of times the transaction has been sent back. */
  lemma {:induction false} IncarnationIsAbortCount(b: Block, ks: seq<nat>)
    requires Legal(b, ks)
    ensures IncarnationsOk(After(b, ks).sched, Counts(b, ks))
  {
    if ks == [] {
      StartsAtZero(b);
    } else {
      var front, k := ks[..|ks| - 1], ks[|ks| - 1];
      var s := After(b, front);
      IncarnationIsAbortCount(b, front);
      StepFinishes(b, ks);
      FinishKeepsIncarnations(|b.txs|, s.sched, k, Reported(b, s, k), Counts(b, front), Counts(b, ks));
    }
  }

  lemma StartsAtZero(b: Block)
    ensures IncarnationsOk(After(b, []).sched, Counts(b, []))
  {
  }

  /** The task carries no incarnation above the abort count, nor equal to it while pending. */
  predicate TaskOk(s: Sched, counts: seq<nat>, t: Ready) {
    && t.txnIdx < |counts| == |s.statuses|
    && t.incarnation <= counts[t.txnIdx]
    && (s.statuses[t.txnIdx].Pending? ==> t.incarnation < counts[t.txnIdx])
  }

  lemma FinishKeepsTask(n: nat, s: Sched, k: nat, list: seq<nat>, counts: seq<nat>, next: seq<nat>, t: Ready)
    requires Finishing(n, s, k, list, counts, next)
    requires TaskOk(s, counts, t) || t == s.queue[k]
    ensures TaskOk(Finish(PopAt(s, k), s.queue[k].txnIdx, s.queue[k].incarnation, list), next, t)
  {
    QueuedIsPending(n, s, s.queue[k]);
    assert s.queue[k] in s.queue;
  }

  lemma LastStepFinishes(b: Block, ks: seq<nat>)
    requires Legal(b, ks) && ks != []
    ensures var front, k := ks[..|ks| - 1], ks[|ks| - 1];
      var s := After(b, front);
      && Finishing(|b.txs|, s.sched, k, Reported(b, s, k), Counts(b, front), Counts(b, ks))
      && After(b, ks).sched
         == Finish(PopAt(s.sched, k), s.sched.queue[k].txnIdx, s.sched.queue[k].incarnation, Reported(b, s, k))
  {
    IncarnationIsAbortCount(b, ks[..|ks| - 1]);
    StepFinishes(b, ks);
  }

  lemma {:induction false} TaskIsBounded(b: Block, ks: seq<nat>, t: Ready)
    requires Legal(b, ks) && t in Tasks(b, ks)
    ensures TaskOk(After(b, ks).sched, Counts(b, ks), t)
  {
    var front, k := ks[..|ks| - 1], ks[|ks| - 1];
    var s := After(b, front);
    if t in Tasks(b, front) {
      TaskIsBounded(b, front, t);
    }
    LastStepFinishes(b, ks);
    FinishKeepsTask(|b.txs|, s.sched, k, Reported(b, s, k), Counts(b, front), Counts(b, ks), t);
  }

  lemma QueuedIsNew(b: Block, ks: seq<nat>, k: nat)
    requires Legal(b, ks) && k < |After(b, ks).sched.queue|
    ensures After(b, ks).sched.queue[k] !in Tasks(b, ks)
  {
    var e := After(b, ks).sched.queue[k];
    IncarnationIsAbortCount(b, ks);
    QueuedIsPending(|b.txs|, After(b, ks).sched, e);
    if e in Tasks(b, ks) {
      TaskIsBounded(b, ks, e);
    }
  }

  /** No incarnation of a transaction is handed out twice. */
  lemma {:induction false} NoTaskTwice(b: Block, ks: seq<nat>)
    requires Legal(b, ks)
    ensures forall p, q :: 0 <= p < q < |Tasks(b, ks)| ==> Tasks(b, ks)[p] != Tasks(b, ks)[q]
  {
    if ks != [] {
      NoTaskTwice(b, ks[..|ks| - 1]);
      QueuedIsNew(b, ks[..|ks| - 1], ks[|ks| - 1]);
    }
  }

  /** Committed transactions stay committed, and the frontier never moves back. */
  lemma CommittedIsStable(b: Block, ks: seq<nat>, k: nat)
    requires Legal(b, ks) && Legal(b, ks + [k])
    ensures After(b, ks).sched.committedIdx <= After(b, ks + [k]).sched.committedIdx
    ensures forall i :: 0 <= i < |b.txs| && After(b, ks).sched.statuses[i].Committed?
              ==> After(b, ks + [k]).sched.statuses[i].Committed?
  {
    assert (ks + [k])[..|ks + [k]| - 1] == ks;
    FinishKeepsScheduler(|b.txs|, After(b, ks).sched, k, Reported(b, After(b, ks), k));
  }
}
