/**
 Interleavings written down step by step: what state each of their prefixes leads to.
 */
module Scripts {
  import opened Ledger
  import opened MultiVersion
  import opened Scheduling
  import opened Execution
  import opened BlockStm
  import opened EngineSteps
  import opened EngineRuns
  import opened Overlap

  /** `steps` are the first `k` of the script. */
  predicate IsPrefix(steps: seq<Step>, script: seq<Step>, k: nat) {
    k <= |script| && steps == script[..k]
  }

  /** The first `k` steps of the script are legal and lead to this state. */
  ghost predicate LeadsTo(b: Block, workers: nat, script: seq<Step>, k: nat, s: Stm, held: seq<Worker>) {
    forall steps {:trigger IsPrefix(steps, script, k)} ::
      IsPrefix(steps, script, k) ==> Reached(b, workers, steps, s, held)
  }

  /** Fetches take the front of the queue. */
  predicate TakesFront(script: seq<Step>) {
    forall p :: 0 <= p < |script| && script[p].Fetch? ==> script[p].position == 0
  }

  lemma ReachedLeads(b: Block, workers: nat, script: seq<Step>, k: nat, s: Stm, held: seq<Worker>)
    requires k < |script| && Reached(b, workers, script[..k] + [script[k]], s, held)
    ensures LeadsTo(b, workers, script, k + 1, s, held)
  {
    ExtendedPrefix(script, k);
  }

  lemma LeadsFromStart(b: Block, workers: nat, script: seq<Step>)
    ensures LeadsTo(b, workers, script, 0, Start(b), Begin(b, workers).workers)
  {
  }

  lemma ScriptFetch(b: Block, workers: nat, script: seq<Step>, k: nat, s: Stm, held: seq<Worker>,
                    next: Sched, after: seq<Worker>)
    requires k < |script| && script[k].Fetch? && LeadsTo(b, workers, script, k, s, held)
    requires s.sched.InRange() && !s.sched.done && script[k].position < |s.sched.queue|
    requires script[k].worker < |held| && held[script[k].worker].Idle?
    requires var entry := s.sched.queue[script[k].position];
      && next == PopAt(s.sched, script[k].position)
      && after == held[script[k].worker := Holding(entry.txnIdx, entry.incarnation)]
    ensures LeadsTo(b, workers, script, k + 1, s.(sched := next), after)
  {
    assert IsPrefix(script[..k], script, k);
    ThenFetch(b, workers, script[..k], s, held, script[k].worker, script[k].position);
    ReachedLeads(b, workers, script, k, s.(sched := next), after);
  }

  lemma ScriptRun(b: Block, workers: nat, script: seq<Step>, k: nat, s: Stm, held: seq<Worker>,
                  mv: MV, result: Result, after: seq<Worker>)
    requires k < |script| && script[k].Run? && LeadsTo(b, workers, script, k, s, held)
    requires script[k].worker < |held| && held[script[k].worker].Holding?
    requires var worker := held[script[k].worker];
      && worker.txnIdx < |b.txs|
      && Speculate(b, s.mv, worker.txnIdx, worker.incarnation) == (mv, result)
      && after == held[script[k].worker := Finishing(worker.txnIdx, worker.incarnation, result)]
    ensures LeadsTo(b, workers, script, k + 1, s.(mv := mv), after)
  {
    assert IsPrefix(script[..k], script, k);
    ThenRun(b, workers, script[..k], s, held, script[k].worker, mv, result);
    ReachedLeads(b, workers, script, k, s.(mv := mv), after);
  }

  lemma ScriptReport(b: Block, workers: nat, script: seq<Step>, k: nat, s: Stm, held: seq<Worker>,
                     next: Sched, after: seq<Worker>)
    requires k < |script| && script[k].Report? && LeadsTo(b, workers, script, k, s, held)
    requires script[k].worker < |held| && held[script[k].worker].Finishing?
    requires var worker := held[script[k].worker];
      && s.sched.committedIdx <= |s.sched.statuses| && worker.txnIdx < |s.sched.statuses|
      && AllBelow(Invalidated(worker.result), |s.sched.statuses|)
      && Finish(s.sched, worker.txnIdx, worker.incarnation, Invalidated(worker.result)) == next
    requires after == held[script[k].worker := Idle]
    ensures LeadsTo(b, workers, script, k + 1, s.(sched := next), after)
  {
    assert IsPrefix(script[..k], script, k);
    ThenReport(b, workers, script[..k], s, held, script[k].worker, next);
    ReachedLeads(b, workers, script, k, s.(sched := next), after);
  }

  lemma GivenBack(held: seq<Worker>, w: nat, worker: Worker)
    requires w < |held|
    ensures held[w := worker][w := Idle] == held[w := Idle]
  {
  }

  /** Running and reporting at once. */
  lemma ScriptServe(b: Block, workers: nat, script: seq<Step>, k: nat, s: Stm, held: seq<Worker>,
                    mv: MV, result: Result, next: Sched)
    requires k + 1 < |script| && LeadsTo(b, workers, script, k, s, held)
    requires script[k].Run? && script[k + 1] == Report(script[k].worker)
    requires script[k].worker < |held| && held[script[k].worker].Holding?
    requires var worker := held[script[k].worker];
      && worker.txnIdx < |b.txs|
      && Speculate(b, s.mv, worker.txnIdx, worker.incarnation) == (mv, result)
      && s.sched.committedIdx <= |s.sched.statuses| && worker.txnIdx < |s.sched.statuses|
      && AllBelow(Invalidated(result), |s.sched.statuses|)
      && Finish(s.sched, worker.txnIdx, worker.incarnation, Invalidated(result)) == next
    ensures LeadsTo(b, workers, script, k + 2, Stm(mv, next), held[script[k].worker := Idle])
  {
    var w := script[k].worker;
    var after := held[w := Finishing(held[w].txnIdx, held[w].incarnation, result)];
    ScriptRun(b, workers, script, k, s, held, mv, result, after);
    GivenBack(held, w, after[w]);
    ScriptReport(b, workers, script, k + 1, s.(mv := mv), after, next, held[w := Idle]);
  }

  lemma WholeScript(b: Block, workers: nat, script: seq<Step>, s: Stm, held: seq<Worker>)
    requires LeadsTo(b, workers, script, |script|, s, held)
    ensures Reached(b, workers, script, s, held)
  {
    assert script[..|script|] == script;
    assert IsPrefix(script, script, |script|);
  }

  /** None of the first `k` steps executes a version holder. */
  ghost predicate NoHolderUntil(b: Block, workers: nat, script: seq<Step>, k: nat) {
    forall steps {:trigger IsPrefix(steps, script, k)} ::
      IsPrefix(steps, script, k) ==> LegalSteps(b, workers, steps) && AllRunNoHolder(b, workers, steps)
  }

  lemma NoHolderFromStart(b: Block, workers: nat, script: seq<Step>)
    ensures NoHolderUntil(b, workers, script, 0)
  {
  }

  lemma NoHolderExtends(b: Block, workers: nat, steps: seq<Step>, step: Step)
    requires LegalSteps(b, workers, steps) && Enabled(AfterSteps(b, workers, steps), step)
    requires AllRunNoHolder(b, workers, steps) && RunsNoHolder(b, AfterSteps(b, workers, steps), step)
    ensures LegalSteps(b, workers, steps + [step]) && AllRunNoHolder(b, workers, steps + [step])
  {
    ExtendSteps(b, workers, steps, step);
    FrontOfExtended(steps, step);
  }

  lemma FrontOfExtended(steps: seq<Step>, step: Step)
    ensures (steps + [step])[..|steps + [step]| - 1] == steps
  {
  }

  lemma ExtendedPrefix(script: seq<Step>, k: nat)
    requires k < |script|
    ensures script[..k + 1] == script[..k] + [script[k]]
  {
  }

  lemma ScriptNoHolder(b: Block, workers: nat, script: seq<Step>, k: nat, s: Stm, held: seq<Worker>)
    requires k < |script| && NoHolderUntil(b, workers, script, k) && LeadsTo(b, workers, script, k, s, held)
    requires Possible(s.sched, held, script[k])
    requires script[k].Run? ==> !Holder(b, s.mv, held[script[k].worker].txnIdx)
    ensures NoHolderUntil(b, workers, script, k + 1)
  {
    assert IsPrefix(script[..k], script, k);
    NoHolderExtends(b, workers, script[..k], script[k]);
    ExtendedPrefix(script, k);
  }

  // ---------------------------------------------------------------------------------------------
  // Concrete maps
  // ---------------------------------------------------------------------------------------------

  /** What a reader at `j` sees if nothing lies between entry `k` and it. */
  lemma Sees(h: History, k: nat, j: nat)
    requires k in h && k < j && forall i :: i in h && i != k ==> i < k || j <= i
    ensures Below(h, j) == Some(k)
  {
  }

  /** Registering one more reader on the entry it sees. */
  lemma NextReader(mv: MV, a: Address, j: nat, k: nat)
    requires Below(HistoryOf(mv, a), j) == Some(k)
    requires HistoryOf(mv, a)[k].version.txnIdx == k && j !in HistoryOf(mv, a)[k].readers
    ensures Recorded(mv, a, j)
      == mv.(data := mv.data[a :=
               HistoryOf(mv, a)[k := HistoryOf(mv, a)[k].(readers := HistoryOf(mv, a)[k].readers + [j])]])
  {
  }

  lemma AboveLast(front: seq<nat>, last: nat, i: nat)
    ensures Above(front + [last], i) == Above(front, i) + if i < last then [last] else []
  {
    assert (front + [last])[..|front|] == front;
  }

  lemma SortedSingleton(s: seq<nat>, x: nat)
    requires StrictlySorted(s) && forall y :: y in s <==> y == x
    ensures s == [x]
  {
    assert |s| > 1 ==> s[0] < s[1];
    assert forall p :: 0 <= p < |s| ==> s[p] in s;
    assert x in s;
  }
}
