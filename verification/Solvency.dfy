/** No wallet overdraws, no hold exceeds its balance, and no vault goes below zero. */
module Solvency {
  import opened Schema
  import opened Sums
  import opened Endpoints
  import opened Direct
  import opened Machine
  import opened Effects
  import opened Books

  ghost predicate Solvent(db: Db) {
    && (forall w | 0 <= w < |db.wallets| :: 0 <= db.wallets[w].available <= db.wallets[w].balance)
    && (forall v | 0 <= v < |db.vaults| :: 0 <= db.vaults[v].amount)
  }

  ghost predicate PositiveTerms(db: Db) {
    forall t | 0 <= t < |db.txs| :: db.txs[t].kind == Deposit || db.txs[t].kind == Withdrawal ==> db.txs[t].amount > 0
  }

  /** The vault endpoints accept only non-negative amounts; a savings rule can hold any amount. */
  predicate NonNegativeRequest(r: MoneyRequest) {
    r.FundReq? || r.DrainReq? ==> r.amount >= 0
  }

  predicate NonNegative(a: Action) {
    a.Call? || a.Begin? ==> NonNegativeRequest(a.r)
  }

  predicate NonNegativeFlight(f: Flight) {
    f.FundFlight? || f.DrainFlight? ==> f.amount >= 0
  }

  lemma LandPositive(db: Db, f: Flight)
    requires PositiveTerms(db) && FlightOk(db, f)
    ensures PositiveTerms(Land(db, f).0)
  {
  }

  lemma StepPositive(s: System, a: Action)
    requires Wired(s.db) && FlightsOk(s) && PositiveTerms(s.db)
    ensures PositiveTerms(Step(s, a).db)
  {
    if a.Call? {
      if Check(s.db, a.r).Go? {
        CheckedFlight(s.db, a.r);
        LandPositive(s.db, Check(s.db, a.r).flight);
        assert Step(s, a).db.txs == Land(s.db, Check(s.db, a.r).flight).0.txs;
      }
    } else if a.CallDirect? {
      GuardedGrows(s.db, a.d);
      GuardedOpensCardPayments(s.db, a.d);
    } else if a.Finish? && a.k < |s.inflight| && !a.aborts {
      LandPositive(s.db, s.inflight[a.k]);
    }
  }

  /** Under every interleaving and for every request, only positive deposits and withdrawals are ever opened. */
  lemma {:induction false} TermsAlwaysPositive(actions: seq<Action>)
    ensures PositiveTerms(Run(START, actions).db)
  {
    if |actions| > 0 {
      var front, last := actions[..|actions| - 1], actions[|actions| - 1];
      TermsAlwaysPositive(front);
      AlwaysWired(front);
      StepPositive(Run(START, front), last);
    }
  }

  lemma LandSolvent(db: Db, f: Flight)
    requires Solvent(db) && PositiveTerms(db)
    requires FlightOk(db, f) && Fresh(db, f) && NonNegativeFlight(f)
    ensures Solvent(Land(db, f).0) && PositiveTerms(Land(db, f).0)
  {
    LandPositive(db, f);
  }

  lemma ServeSolvent(db: Db, r: MoneyRequest)
    requires Solvent(db) && PositiveTerms(db) && NonNegativeRequest(r)
    ensures Solvent(Serve(db, r).0) && PositiveTerms(Serve(db, r).0)
  {
    if Check(db, r).Go? {
      var f := Check(db, r).flight;
      CheckedFlight(db, r);
      LandSolvent(db, f);
      var (landed, o) := Land(db, f);
      assert Conclude(landed, f, o).0 == landed.(keys := Conclude(landed, f, o).0.keys);
    }
  }

  lemma GuardedSolvent(db: Db, d: DirectRequest)
    requires Solvent(db) && PositiveTerms(db) && Wired(db)
    ensures Solvent(Guarded(db, d).0) && PositiveTerms(Guarded(db, d).0)
  {
    GuardedGrows(db, d);
    GuardedOpensCardPayments(db, d);
    DispatchFunds(db, d);
  }

  lemma StepSolvent(s: System, a: Action)
    requires Wired(s.db) && FlightsOk(s) && Undisturbed(s, a) && NonNegative(a)
    requires Solvent(s.db) && PositiveTerms(s.db) && forall k | 0 <= k < |s.inflight| :: NonNegativeFlight(s.inflight[k])
    ensures Solvent(Step(s, a).db) && PositiveTerms(Step(s, a).db)
    ensures forall k | 0 <= k < |Step(s, a).inflight| :: NonNegativeFlight(Step(s, a).inflight[k])
  {
    if a.Begin? && Check(s.db, a.r).Go? {
      assert NonNegativeFlight(Check(s.db, a.r).flight);
    }
    if a.Call? {
      ServeSolvent(s.db, a.r);
    } else if a.CallDirect? {
      GuardedSolvent(s.db, a.d);
    } else if a.Finish? && a.k < |s.inflight| && !a.aborts {
      LandSolvent(s.db, s.inflight[a.k]);
    }
  }

  /** Main result: solvency in every state a run of valid requests can reach without landing a stale flight. */
  lemma {:induction false} SolventAlways(actions: seq<Action>)
    requires UndisturbedRun(START, actions)
    requires forall a | a in actions :: NonNegative(a)
    ensures var s := Run(START, actions);
            Solvent(s.db) && PositiveTerms(s.db) && forall k | 0 <= k < |s.inflight| :: NonNegativeFlight(s.inflight[k])
  {
    if |actions| > 0 {
      var front, last := actions[..|actions| - 1], actions[|actions| - 1];
      SolventAlways(front);
      AlwaysWired(front);
      var s := Run(START, front);
      assert last in actions;
      StepSolvent(s, last);
    }
  }

  // ---- amounts of any sign, such as savings rules can ask for

  /** Only the vault withdrawal endpoint is taken at its word about the sign of its amount. */
  predicate DrainsNonNegative(a: Action) {
    (a.Call? || a.Begin?) && a.r.DrainReq? ==> a.r.amount >= 0
  }

  predicate NonNegativeDrain(f: Flight) {
    f.DrainFlight? ==> f.amount >= 0
  }

  ghost predicate DrainsInFlight(s: System) {
    forall k | 0 <= k < |s.inflight| :: NonNegativeDrain(s.inflight[k])
  }

  /** A vault deposit, if the outcome is one, takes no more out of the vault than it holds. */
  predicate LeavesVault(db: Db, o: Outcome) {
    o.VaultFunded? ==> 0 <= SavedAt(db, o.vault) + o.amount
  }

  /** The vault deposit the step makes, if any, takes no more out of the vault than it holds. */
  predicate StepLeavesVault(s: System, a: Action) {
    var log := Step(s, a).log;
    |log| > |s.log| ==> LeavesVault(s.db, log[|s.log|])
  }

  predicate EveryStepLeavesVault(s: System, actions: seq<Action>) {
    |actions| == 0
    || (var front := actions[..|actions| - 1];
        EveryStepLeavesVault(s, front) && StepLeavesVault(Run(s, front), actions[|actions| - 1]))
  }

  /** Every state of the run is solvent. */
  ghost predicate SolventThroughout(s: System, actions: seq<Action>) {
    && Solvent(Run(s, actions).db)
    && (|actions| > 0 ==> SolventThroughout(s, actions[..|actions| - 1]))
  }

  lemma FundSolventExactly(db: Db, f: Flight)
    requires Solvent(db) && f.FundFlight? && FlightOk(db, f) && Fresh(db, f)
    ensures var (after, o) := LandFund(db, f); Solvent(after) <==> LeavesVault(db, o)
  {
    var (after, o) := LandFund(db, f);
    if o.VaultFunded? {
      assert after.vaults[f.vault].amount == db.vaults[f.vault].amount + f.amount;
    }
  }

  lemma LandSolventExactly(db: Db, f: Flight)
    requires Solvent(db) && PositiveTerms(db) && FlightOk(db, f) && Fresh(db, f) && NonNegativeDrain(f)
    ensures var (after, o) := Land(db, f); Solvent(after) <==> LeavesVault(db, o)
  {
    if f.FundFlight? {
      FundSolventExactly(db, f);
    } else {
      LandSolvent(db, f);
    }
  }

  lemma ServeSolventExactly(db: Db, r: MoneyRequest)
    requires Solvent(db) && PositiveTerms(db) && (r.DrainReq? ==> r.amount >= 0)
    ensures var (after, o) := Serve(db, r); Solvent(after) <==> LeavesVault(db, o)
  {
    if Check(db, r).Go? {
      var f := Check(db, r).flight;
      CheckedFlight(db, r);
      LandSolventExactly(db, f);
      var (landed, o) := Land(db, f);
      assert Conclude(landed, f, o).0 == landed.(keys := Conclude(landed, f, o).0.keys);
    } else {
      CheckReplies(db, r);
    }
  }

  lemma StepSolventExactly(s: System, a: Action)
    requires Wired(s.db) && FlightsOk(s) && Undisturbed(s, a) && DrainsNonNegative(a)
    requires Solvent(s.db) && PositiveTerms(s.db) && DrainsInFlight(s)
    ensures Solvent(Step(s, a).db) <==> StepLeavesVault(s, a)
  {
    if a.Call? {
      ServeSolventExactly(s.db, a.r);
    } else if a.CallDirect? {
      GuardedSolvent(s.db, a.d);
      GuardedMovesOnlyCards(s.db, a.d);
    } else if a.Begin? {
      if Check(s.db, a.r).Reply? {
        CheckReplies(s.db, a.r);
      }
    } else if a.k < |s.inflight| && !a.aborts {
      LandSolventExactly(s.db, s.inflight[a.k]);
    }
  }

  lemma StepKeepsDrains(s: System, a: Action)
    requires DrainsNonNegative(a) && DrainsInFlight(s)
    ensures DrainsInFlight(Step(s, a))
  {
    if a.Begin? && Check(s.db, a.r).Go? {
      assert NonNegativeDrain(Check(s.db, a.r).flight);
    }
  }

  lemma {:induction false} DrainsStayNonNegative(actions: seq<Action>)
    requires forall a | a in actions :: DrainsNonNegative(a)
    ensures DrainsInFlight(Run(START, actions))
  {
    if |actions| > 0 {
      var front, last := actions[..|actions| - 1], actions[|actions| - 1];
      DrainsStayNonNegative(front);
      assert last in actions;
      StepKeepsDrains(Run(START, front), last);
    }
  }

  /**
   Main result: a run that lands no stale flight, with vault deposits of any sign, is solvent throughout exactly when
   no vault deposit with a negative amount takes more out of its vault than the vault holds.
   */
  lemma {:induction false} SolventExactly(actions: seq<Action>)
    requires UndisturbedRun(START, actions)
    requires forall a | a in actions :: DrainsNonNegative(a)
    ensures SolventThroughout(START, actions) <==> EveryStepLeavesVault(START, actions)
  {
    if |actions| > 0 {
      var front, last := actions[..|actions| - 1], actions[|actions| - 1];
      SolventExactly(front);
      if SolventThroughout(START, front) {
        AlwaysWired(front);
        TermsAlwaysPositive(front);
        DrainsStayNonNegative(front);
        assert last in actions;
        StepSolventExactly(Run(START, front), last);
      }
    }
  }

  /**
   A vault deposit of any sign, such as a savings rule can ask for, leaves the vault at or above zero
   exactly when the amount does not take more out of the vault than it holds.
   */
  lemma FundKeepsVaultExactly(db: Db, r: MoneyRequest)
    requires r.FundReq? && Solvent(db) && Serve(db, r).1.VaultFunded?
    ensures Solvent(Serve(db, r).0) <==> -db.vaults[r.vault].amount <= r.amount
  {
    var after := Serve(db, r).0;
    assert after.vaults[r.vault].amount == db.vaults[r.vault].amount + r.amount;
  }
}
