/**
 Workers that take turns: a turn of a worker is its next call, or an idle poll. After enough rounds in which
 every worker gets a turn, everything is committed and every worker that asks is told so.
 */
module EngineFair {
  import opened Scheduling
  import opened Execution
  import opened EngineSteps
  import opened EngineRuns
  import opened Rounds

  /** What worker `w` does next: it takes the front of the queue if it has nothing, and polls in vain if it cannot. */
  predicate Busy(e: Engine, w: nat) {
    w < |e.workers| && Possible(e.stm.sched, e.workers, Next(e, w))
  }

  function Next(e: Engine, w: nat): Step
    requires w < |e.workers|
  {
    match e.workers[w]
    case Idle => Fetch(w, 0)
    case Holding(_, _) => Run(w)
    case Finishing(_, _, _) => Report(w)
  }

  /** The steps that turns lead to; idle polls, which change nothing, are no steps. */
  ghost function Moves(b: Block, workers: nat, schedule: seq<nat>): (steps: seq<Step>)
    ensures LegalSteps(b, workers, steps)
  {
    if schedule == [] then []
    else
      var before, w := Moves(b, workers, schedule[..|schedule| - 1]), schedule[|schedule| - 1];
      var e := AfterSteps(b, workers, before);
      if Busy(e, w) then
        ExtendSteps(b, workers, before, Next(e, w));
        before + [Next(e, w)]
      else before
  }

  lemma OneMoreTurn(b: Block, workers: nat, schedule: seq<nat>, w: nat)
    ensures var before := Moves(b, workers, schedule);
      var e := AfterSteps(b, workers, before);
      Moves(b, workers, schedule + [w]) == if Busy(e, w) then before + [Next(e, w)] else before
  {
    assert (schedule + [w])[..|schedule|] == schedule;
  }

  lemma {:induction false} MoreTurns(b: Block, workers: nat, schedule: seq<nat>, more: seq<nat>)
    ensures |Moves(b, workers, schedule)| <= |Moves(b, workers, schedule + more)|
    ensures |Moves(b, workers, schedule)| == |Moves(b, workers, schedule + more)|
      ==> Moves(b, workers, schedule) == Moves(b, workers, schedule + more)
  {
    LastTurn(schedule, more);
    if more != [] {
      MoreTurns(b, workers, schedule, more[..|more| - 1]);
      OneMoreTurn(b, workers, schedule + more[..|more| - 1], more[|more| - 1]);
    }
  }

  /** Nobody has anything to do. */
  ghost predicate AtRest(e: Engine) {
    forall w: nat :: !Busy(e, w)
  }

  /** A round in which a busy worker gets a turn makes a step. */
  lemma RoundWithBusy(b: Block, workers: nat, schedule: seq<nat>, round: seq<nat>, p: nat)
    requires p < |round| && Busy(AfterSteps(b, workers, Moves(b, workers, schedule)), round[p])
    ensures |Moves(b, workers, schedule + round)| > |Moves(b, workers, schedule)|
  {
    var before := schedule + round[..p];
    MoreTurns(b, workers, schedule, round[..p]);
    OneMoreTurn(b, workers, before, round[p]);
    TurnInRound(schedule, round, p);
    MoreTurns(b, workers, before + [round[p]], round[p + 1..]);
  }

  /** While somebody is busy, a round with a turn for every worker makes a step. */
  lemma RoundMoves(b: Block, workers: nat, schedule: seq<nat>, round: seq<nat>)
    requires forall w: nat :: w < workers ==> w in round
    requires !AtRest(AfterSteps(b, workers, Moves(b, workers, schedule)))
    ensures |Moves(b, workers, schedule + round)| > |Moves(b, workers, schedule)|
  {
    var e := AfterSteps(b, workers, Moves(b, workers, schedule));
    var w: nat :| Busy(e, w);
    var p := TurnOf(round, w);
    RoundWithBusy(b, workers, schedule, round, p);
  }

  lemma TurnOf(round: seq<nat>, w: nat) returns (p: nat)
    requires w in round
    ensures p < |round| && round[p] == w
  {
    p :| 0 <= p < |round| && round[p] == w;
  }

  lemma {:induction false} RestStays(b: Block, workers: nat, schedule: seq<nat>, more: seq<nat>)
    requires AtRest(AfterSteps(b, workers, Moves(b, workers, schedule)))
    ensures Moves(b, workers, schedule + more) == Moves(b, workers, schedule)
  {
    LastTurn(schedule, more);
    if more != [] {
      RestStays(b, workers, schedule, more[..|more| - 1]);
      OneMoreTurn(b, workers, schedule + more[..|more| - 1], more[|more| - 1]);
    }
  }

  lemma {:induction false} RoundsMove(b: Block, workers: nat, rounds: seq<seq<nat>>)
    requires TurnsForAll(workers, rounds)
    ensures |Moves(b, workers, Concat(rounds))| >= |rounds|
      || AtRest(AfterSteps(b, workers, Moves(b, workers, Concat(rounds))))
  {
    if rounds != [] {
      var front, last := rounds[..|rounds| - 1], rounds[|rounds| - 1];
      RoundsMove(b, workers, front);
      if AtRest(AfterSteps(b, workers, Moves(b, workers, Concat(front)))) {
        RestStays(b, workers, Concat(front), last);
      } else {
        RoundMoves(b, workers, Concat(front), last);
      }
    }
  }

  /** There is no step after 3(2^n - 1) of them. */
  lemma FullIsAtRest(b: Block, workers: nat, steps: seq<Step>)
    requires LegalSteps(b, workers, steps) && |steps| >= 3 * (Pow2(|b.txs|) - 1)
    ensures AtRest(AfterSteps(b, workers, steps))
  {
    var e := AfterSteps(b, workers, steps);
    if w: nat :| Busy(e, w) {
      ExtendSteps(b, workers, steps, Next(e, w));
      StepsBounded(b, workers, steps + [Next(e, w)]);
    }
  }

  lemma RestIsCommitted(b: Block, workers: nat, steps: seq<Step>)
    requires LegalSteps(b, workers, steps) && workers > 0 && AtRest(AfterSteps(b, workers, steps))
    ensures var e := AfterSteps(b, workers, steps);
      && e.stm.sched.committedIdx == |b.txs| && NextTask(e.stm.sched).1 == Task.Done
      && forall w :: 0 <= w < workers ==> e.workers[w].Idle?
  {
    var e := AfterSteps(b, workers, steps);
    assert !Busy(e, 0);
    forall step
      ensures !Enabled(e, step)
    {
      assert !Busy(e, step.worker);
    }
    EndIsCommitted(b, workers, steps);
    forall w | 0 <= w < workers
      ensures e.workers[w].Idle?
    {
      assert !Busy(e, w);
    }
  }

  /**
   Fair runs end: after 3(2^n - 1) rounds in which every worker gets a turn, idle polls included, everything is
   committed, no worker holds anything, and every worker that asks for a task is told that all is done.
   */
  lemma FairRunsEnd(b: Block, workers: nat, rounds: seq<seq<nat>>)
    requires workers > 0 && TurnsForAll(workers, rounds) && |rounds| >= 3 * (Pow2(|b.txs|) - 1)
    ensures var e := AfterSteps(b, workers, Moves(b, workers, Concat(rounds)));
      && e.stm.sched.committedIdx == |b.txs| && NextTask(e.stm.sched).1 == Task.Done
      && forall w :: 0 <= w < workers ==> e.workers[w].Idle?
  {
    RoundsMove(b, workers, rounds);
    var steps := Moves(b, workers, Concat(rounds));
    if |steps| >= |rounds| {
      FullIsAtRest(b, workers, steps);
    }
    RestIsCommitted(b, workers, steps);
  }
}
