/**
 Fair schedules: when every unfinished thread gets a turn in every round, as many rounds as there are
 transactions complete the workload.
 */
module FdbFair {
  import opened FdbThreads
  import opened FdbProgress
  import opened Rounds

  /** The attempts a schedule leads to: a thread that is done with its slice lets its turn pass. */
  ghost function Moves(c: Config, schedule: seq<nat>): (ts: seq<nat>)
    requires c.Valid()
    ensures Legal(c, ts)
  {
    if schedule == [] then []
    else
      var before, t := Moves(c, schedule[..|schedule| - 1]), schedule[|schedule| - 1];
      if Unfinished(c, After(c, before), t) then
        ExtendRun(c, before, t);
        before + [t]
      else before
  }

  /** The state a schedule leads to. */
  ghost function Led(c: Config, schedule: seq<nat>): Fdb
    requires c.Valid()
  {
    After(c, Moves(c, schedule))
  }

  ghost function Progress(c: Config, schedule: seq<nat>): nat
    requires c.Valid()
  {
    RunIsShaped(c, Moves(c, schedule));
    Done(c, Led(c, schedule))
  }

  lemma OneMoreTurn(c: Config, schedule: seq<nat>, t: nat)
    requires c.Valid()
    ensures var s := Led(c, schedule);
      Led(c, schedule + [t]) == if Unfinished(c, s, t) then Attempt(c, s, t) else s
    ensures Led(c, schedule + [t]) == Led(c, schedule) || Progress(c, schedule + [t]) == Progress(c, schedule) + 1
  {
    assert (schedule + [t])[..|schedule|] == schedule;
    var ts := Moves(c, schedule);
    RunIsShaped(c, ts);
    if Unfinished(c, After(c, ts), t) {
      ExtendRun(c, ts, t);
      AttemptAdvances(c, After(c, ts), t);
    }
  }

  /** More turns never undo anything, and leave the state alone if they do not advance it. */
  lemma {:induction false} MoreTurns(c: Config, schedule: seq<nat>, more: seq<nat>)
    requires c.Valid()
    ensures Progress(c, schedule) <= Progress(c, schedule + more)
    ensures Progress(c, schedule) == Progress(c, schedule + more) ==> Led(c, schedule) == Led(c, schedule + more)
  {
    LastTurn(schedule, more);
    if more != [] {
      var front, t := more[..|more| - 1], more[|more| - 1];
      MoreTurns(c, schedule, front);
      OneMoreTurn(c, schedule + front, t);
    }
  }

  /** Every thread that is unfinished when the round starts gets a turn in it. */
  ghost predicate GivesTurns(c: Config, s: Fdb, round: seq<nat>) {
    forall t: nat :: Unfinished(c, s, t) ==> t in round
  }

  /** A turn of the thread with the lowest remaining transaction advances an unchanged state. */
  lemma FirstTurnAdvances(c: Config, schedule: seq<nat>, t: nat)
    requires Disciplined(c) && Ample(c) && c.Valid() && FirstUnfinished(c, Led(c, schedule), t)
    ensures Progress(c, schedule + [t]) == Progress(c, schedule) + 1
  {
    OneMoreTurn(c, schedule, t);
    FirstThreadAdvances(c, Moves(c, schedule), t);
  }

  /** A round that has the thread with the lowest remaining transaction in it advances the state. */
  lemma RoundWithFirst(c: Config, schedule: seq<nat>, round: seq<nat>, p: nat)
    requires Disciplined(c) && Ample(c) && c.Valid()
    requires p < |round| && FirstUnfinished(c, Led(c, schedule), round[p])
    ensures Progress(c, schedule + round) > Progress(c, schedule)
  {
    var before := schedule + round[..p];
    MoreTurns(c, schedule, round[..p]);
    if Led(c, before) == Led(c, schedule) {
      FirstTurnAdvances(c, before, round[p]);
    }
    OneMoreTurn(c, before, round[p]);
    TurnInRound(schedule, round, p);
    MoreTurns(c, before + [round[p]], round[p + 1..]);
  }

  /** A round of an unfinished run gets at least one more transaction done. */
  lemma RoundAdvances(c: Config, schedule: seq<nat>, round: seq<nat>)
    requires Disciplined(c) && Ample(c) && c.Valid()
    requires GivesTurns(c, Led(c, schedule), round) && !Complete(c, Led(c, schedule))
    ensures Progress(c, schedule + round) > Progress(c, schedule)
  {
    RunIsShaped(c, Moves(c, schedule));
    var s := Led(c, schedule);
    var u: nat :| u < |c.slices| && s.heads[u] != c.slices[u].end;
    var t := FindFirstUnfinished(c, s, u);
    var p :| 0 <= p < |round| && round[p] == t;
    RoundWithFirst(c, schedule, round, p);
  }

  ghost predicate Fair(c: Config, rounds: seq<seq<nat>>)
    requires c.Valid()
  {
    forall r :: 0 <= r < |rounds| ==> GivesTurns(c, Led(c, Concat(rounds[..r])), rounds[r])
  }

  lemma {:induction false} RoundsAdvance(c: Config, rounds: seq<seq<nat>>)
    requires Disciplined(c) && Ample(c) && c.Valid() && Fair(c, rounds)
    ensures Progress(c, Concat(rounds)) >= |rounds| || Complete(c, Led(c, Concat(rounds)))
  {
    if rounds != [] {
      var front, last := rounds[..|rounds| - 1], rounds[|rounds| - 1];
      assert Fair(c, front) by {
        assert forall r :: 0 <= r < |front| ==> front[..r] == rounds[..r];
      }
      RoundsAdvance(c, front);
      RunIsShaped(c, Moves(c, Concat(front)));
      RunIsShaped(c, Moves(c, Concat(rounds)));
      if Complete(c, Led(c, Concat(front))) {
        MoreTurns(c, Concat(front), last);
        DoneBounded(c, Led(c, Concat(front)));
        DoneBounded(c, Led(c, Concat(rounds)));
      } else {
        RoundAdvances(c, Concat(front), last);
      }
    }
  }

  /** As many fair rounds as there are transactions complete the workload. */
  lemma FairCompletes(c: Config, rounds: seq<seq<nat>>)
    requires Disciplined(c) && Ample(c) && c.Valid() && Fair(c, rounds) && |rounds| >= |c.txs|
    ensures Complete(c, Led(c, Concat(rounds)))
  {
    RoundsAdvance(c, rounds);
    RunIsShaped(c, Moves(c, Concat(rounds)));
    DoneBounded(c, Led(c, Concat(rounds)));
  }

  /** Rounds in which each of the threads gets a turn, as many as there are transactions. */
  ghost predicate RoundRobin(threads: nat, n: nat, schedule: seq<nat>) {
    exists rounds: seq<seq<nat>> :: TurnsForAll(threads, rounds) && |rounds| >= n && Concat(rounds) == schedule
  }

  lemma RoundRobinCompletes(c: Config, threads: nat, schedule: seq<nat>)
    requires Disciplined(c) && Ample(c) && c.Valid() && |c.slices| <= threads && RoundRobin(threads, |c.txs|, schedule)
    ensures Complete(c, Led(c, schedule))
  {
    var rounds: seq<seq<nat>> :| TurnsForAll(threads, rounds) && |rounds| >= |c.txs| && Concat(rounds) == schedule;
    forall r | 0 <= r < |rounds|
      ensures GivesTurns(c, Led(c, Concat(rounds[..r])), rounds[r])
    {
    }
    FairCompletes(c, rounds);
  }
}
