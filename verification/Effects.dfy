/**
 What a set of applied transfers does to the accounts, independently of the order they were applied in.
 */
module Effects {
  import opened Ledger

  /** Sends, and value in and out, of one account. */
  datatype Flow = Flow(sends: nat, inflow: nat, outflow: nat)

  /** A transfer to somebody else. A self-transfer only credits, since the receiver is written last. */
  predicate Spends(tx: Transaction, a: Address) {
    tx.from == a && tx.to != a
  }

  function Plus(f: Flow, tx: Transaction, a: Address): Flow {
    Flow(f.sends + (if Spends(tx, a) then 1 else 0),
         f.inflow + (if tx.to == a then tx.value else 0),
         f.outflow + (if Spends(tx, a) then tx.value else 0))
  }

  /** The flow of account `a` under the transfers of `txs` whose index is in `applied`. */
  function FlowOf(txs: seq<Transaction>, applied: set<nat>, a: Address): Flow {
    if txs == [] then Flow(0, 0, 0)
    else
      var before := FlowOf(txs[..|txs| - 1], applied, a);
      if |txs| - 1 in applied then Plus(before, txs[|txs| - 1], a) else before
  }

  lemma {:induction false} FlowAdd(txs: seq<Transaction>, applied: set<nat>, i: nat, a: Address)
    requires i < |txs| && i !in applied
    ensures FlowOf(txs, applied + {i}, a) == Plus(FlowOf(txs, applied, a), txs[i], a)
  {
    var front := txs[..|txs| - 1];
    if i < |txs| - 1 {
      FlowAdd(front, applied, i, a);
    } else {
      FlowAgree(front, applied, applied + {i}, a);
    }
  }

  lemma {:induction false} FlowAgree(txs: seq<Transaction>, s: set<nat>, t: set<nat>, a: Address)
    requires forall i :: 0 <= i < |txs| && Spends(txs[i], a) ==> (i in s <==> i in t)
    requires forall i :: 0 <= i < |txs| && txs[i].to == a ==> (i in s <==> i in t)
    ensures FlowOf(txs, s, a) == FlowOf(txs, t, a)
  {
    if txs != [] {
      FlowAgree(txs[..|txs| - 1], s, t, a);
    }
  }

  /** More transfers, more flow. */
  lemma {:induction false} FlowMonotone(txs: seq<Transaction>, s: set<nat>, t: set<nat>, a: Address)
    requires s <= t
    ensures FlowOf(txs, s, a).sends <= FlowOf(txs, t, a).sends
    ensures FlowOf(txs, s, a).inflow <= FlowOf(txs, t, a).inflow
    ensures FlowOf(txs, s, a).outflow <= FlowOf(txs, t, a).outflow
  {
    if txs != [] {
      FlowMonotone(txs[..|txs| - 1], s, t, a);
    }
  }

  /** A set with as many sends of `a` as one that contains it lacks none of its sends. */
  lemma {:induction false} SameSends(txs: seq<Transaction>, s: set<nat>, t: set<nat>, a: Address, i: nat)
    requires s <= t && FlowOf(txs, s, a).sends == FlowOf(txs, t, a).sends
    requires i < |txs| && i in t && Spends(txs[i], a)
    ensures i in s
  {
    var front := txs[..|txs| - 1];
    FlowMonotone(front, s, t, a);
    if i < |txs| - 1 {
      SameSends(front, s, t, a, i);
    }
  }

  lemma {:induction false} SendsBounded(txs: seq<Transaction>, s: set<nat>, a: Address)
    ensures FlowOf(txs, s, a).sends <= |txs|
  {
    if txs != [] {
      SendsBounded(txs[..|txs| - 1], s, a);
    }
  }

  // ---------------------------------------------------------------------------------------------
  // States explained by a set of transfers
  // ---------------------------------------------------------------------------------------------

  predicate Touched(txs: seq<Transaction>, applied: set<nat>, a: Address) {
    exists i :: 0 <= i < |txs| && i in applied && (txs[i].from == a || txs[i].to == a)
  }

  /** The account is the initial one plus the flow, in 64-bit and 256-bit arithmetic. */
  predicate AccountExplained(initial: Account, f: Flow, final: Account) {
    && final.nonce == (initial.nonce + f.sends) % U64_MODULUS
    && final.balance == (initial.balance + f.inflow - f.outflow) % U256_MODULUS
  }

  ghost predicate Explains(initial: State, txs: seq<Transaction>, applied: set<nat>, final: State) {
    forall a: Address ::
      && (a in final <==> a in initial || Touched(txs, applied, a))
      && AccountExplained(Lookup(initial, a), FlowOf(txs, applied, a), Lookup(final, a))
  }

  lemma NothingExplained(initial: State, txs: seq<Transaction>)
    ensures Explains(initial, txs, {}, initial)
  {
    forall a: Address
      ensures FlowOf(txs, {}, a) == Flow(0, 0, 0)
    {
      NoFlow(txs, a);
    }
  }

  lemma {:induction false} NoFlow(txs: seq<Transaction>, a: Address)
    ensures FlowOf(txs, {}, a) == Flow(0, 0, 0)
  {
    if txs != [] {
      NoFlow(txs[..|txs| - 1], a);
    }
  }

  lemma BumpModulo(x: nat)
    ensures Bump(x % U64_MODULUS) == (x + 1) % U64_MODULUS
  {
  }

  lemma CreditModulo(x: int, v: U256)
    ensures Credit(x % U256_MODULUS, v) == (x + v) % U256_MODULUS
  {
  }

  lemma DebitModulo(x: int, v: U256)
    requires v <= x % U256_MODULUS
    ensures x % U256_MODULUS - v == (x - v) % U256_MODULUS
  {
  }

  lemma TransferAccount(st: State, tx: Transaction, a: Address, initial: Account, f: Flow)
    requires Passes(Lookup(st, tx.from), tx) && AccountExplained(initial, f, Lookup(st, a))
    ensures AccountExplained(initial, Plus(f, tx, a), Lookup(Transfer(st, tx), a))
  {
    var x := initial.balance + f.inflow - f.outflow;
    BumpModulo(initial.nonce + f.sends);
    CreditModulo(x, tx.value);
    if Spends(tx, a) {
      DebitModulo(x, tx.value);
    }
  }

  /** Applying one more transfer explains the new state by one more index. */
  lemma TransferExplained(initial: State, txs: seq<Transaction>, applied: set<nat>, st: State, i: nat)
    requires Explains(initial, txs, applied, st) && i < |txs| && i !in applied
    requires Passes(Lookup(st, txs[i].from), txs[i])
    ensures Explains(initial, txs, applied + {i}, Transfer(st, txs[i]))
  {
    forall a: Address
      ensures a in Transfer(st, txs[i]) <==> a in initial || Touched(txs, applied + {i}, a)
      ensures AccountExplained(Lookup(initial, a), FlowOf(txs, applied + {i}, a), Lookup(Transfer(st, txs[i]), a))
    {
      FlowAdd(txs, applied, i, a);
      TransferAccount(st, txs[i], a, Lookup(initial, a), FlowOf(txs, applied, a));
      TouchedAdd(txs, applied, i, a);
    }
  }

  lemma TouchedAdd(txs: seq<Transaction>, applied: set<nat>, i: nat, a: Address)
    requires i < |txs|
    ensures Touched(txs, applied + {i}, a) <==> Touched(txs, applied, a) || txs[i].from == a || txs[i].to == a
  {
    if Touched(txs, applied, a) {
      var j :| 0 <= j < |txs| && j in applied && (txs[j].from == a || txs[j].to == a);
      assert j in applied + {i};
    }
    assert i in applied + {i};
  }

  /** The set of applied transfers determines the state. */
  lemma ExplainedIsUnique(initial: State, txs: seq<Transaction>, applied: set<nat>, s: State, t: State)
    requires Explains(initial, txs, applied, s) && Explains(initial, txs, applied, t)
    ensures s == t
  {
    forall a: Address
      ensures a in s <==> a in t
      ensures Lookup(s, a) == Lookup(t, a)
    {
    }
    forall a | a in s
      ensures s[a] == t[a]
    {
      assert Lookup(s, a) == Lookup(t, a);
    }
  }

  lemma SameModulo(x: nat, s: nat, t: nat)
    requires s <= t < U64_MODULUS && (x + s) % U64_MODULUS == (x + t) % U64_MODULUS
    ensures s == t
  {
  }

  /** Conversely, applying more transfers to others never leaves the same state. */
  lemma StateShowsSends(initial: State, txs: seq<Transaction>, s: set<nat>, t: set<nat>, st: State, i: nat)
    requires Explains(initial, txs, s, st) && Explains(initial, txs, t, st) && s <= t
    requires |txs| < U64_MODULUS && i < |txs| && i in t && txs[i].from != txs[i].to
    ensures i in s
  {
    var a := txs[i].from;
    FlowMonotone(txs, s, t, a);
    SendsBounded(txs, t, a);
    assert AccountExplained(Lookup(initial, a), FlowOf(txs, s, a), Lookup(st, a));
    assert AccountExplained(Lookup(initial, a), FlowOf(txs, t, a), Lookup(st, a));
    SameModulo(Lookup(initial, a).nonce, FlowOf(txs, s, a).sends, FlowOf(txs, t, a).sends);
    SameSends(txs, s, t, a, i);
  }

  // ---------------------------------------------------------------------------------------------
  // The in-order run
  // ---------------------------------------------------------------------------------------------

  /** The indices the in-order run applies. */
  function AppliedBy(rules: Rules, st: State, txs: seq<Transaction>): set<nat> {
    if txs == [] then {}
    else
      var front, last := txs[..|txs| - 1], txs[|txs| - 1];
      AppliedBy(rules, st, front) + if Applies(rules, SeqRun(rules, st, front).state, last) then {|front|} else {}
  }

  lemma {:induction false} AppliedInRange(rules: Rules, st: State, txs: seq<Transaction>)
    ensures forall i :: i in AppliedBy(rules, st, txs) ==> i < |txs| && Accepted(rules, txs[i])
  {
    if txs != [] {
      AppliedInRange(rules, st, txs[..|txs| - 1]);
    }
  }

  lemma {:induction false} AppliedCount(rules: Rules, st: State, txs: seq<Transaction>)
    ensures |AppliedBy(rules, st, txs)| == SeqRun(rules, st, txs).successful
  {
    if txs != [] {
      AppliedCount(rules, st, txs[..|txs| - 1]);
      AppliedInRange(rules, st, txs[..|txs| - 1]);
    }
  }

  lemma Unextended(initial: State, txs: seq<Transaction>, applied: set<nat>, st: State)
    requires txs != [] && (forall i :: i in applied ==> i < |txs| - 1)
    requires Explains(initial, txs[..|txs| - 1], applied, st)
    ensures Explains(initial, txs, applied, st)
  {
    forall a: Address
      ensures Touched(txs, applied, a) <==> Touched(txs[..|txs| - 1], applied, a)
    {
      if Touched(txs, applied, a) {
        var i :| 0 <= i < |txs| && i in applied && (txs[i].from == a || txs[i].to == a);
        assert txs[..|txs| - 1][i] == txs[i];
      }
    }
  }

  lemma {:induction false} SeqRunExplained(rules: Rules, st: State, txs: seq<Transaction>)
    ensures Explains(st, txs, AppliedBy(rules, st, txs), SeqRun(rules, st, txs).state)
  {
    if txs == [] {
      NothingExplained(st, txs);
    } else {
      var front, last := txs[..|txs| - 1], txs[|txs| - 1];
      var before, applied := SeqRun(rules, st, front).state, AppliedBy(rules, st, front);
      SeqRunExplained(rules, st, front);
      AppliedInRange(rules, st, front);
      Unextended(st, txs, applied, before);
      if Applies(rules, before, last) {
        assert |front| !in applied;
        TransferExplained(st, txs, applied, before, |front|);
      } else {
        assert applied + {} == applied;
      }
    }
  }
}
