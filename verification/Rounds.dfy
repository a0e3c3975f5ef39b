/**
 Schedules that are made of rounds of turns.
 */
module Rounds {
  function Concat(rounds: seq<seq<nat>>): seq<nat> {
    if rounds == [] then [] else Concat(rounds[..|rounds| - 1]) + rounds[|rounds| - 1]
  }

  ghost predicate TurnsForAll(threads: nat, rounds: seq<seq<nat>>) {
    forall r, t: nat :: 0 <= r < |rounds| && t < threads ==> t in rounds[r]
  }

  lemma LastTurn(schedule: seq<nat>, more: seq<nat>)
    ensures more == [] ==> schedule + more == schedule
    ensures more != [] ==> schedule + more == (schedule + more[..|more| - 1]) + [more[|more| - 1]]
  {
  }

  lemma TurnInRound(schedule: seq<nat>, round: seq<nat>, p: nat)
    requires p < |round|
    ensures schedule + round == ((schedule + round[..p]) + [round[p]]) + round[p + 1..]
  {
  }
}
