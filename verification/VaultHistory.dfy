/** The running balance that the ledger entries of a vault record. */
module VaultHistory {
  import opened Schema
  import opened Sums
  import opened Endpoints
  import opened Direct
  import opened Machine
  import opened Effects
  import opened Books

  /** Entry j of a vault records the vault's running sum before and after itself. */
  ghost predicate Records(ledger: seq<Leg>, j: nat)
    requires j < |ledger|
  {
    ledger[j].account.UserVault? ==>
      && ledger[j].before == Some(SumBy(ledger[..j], SignedAt(ledger[j].account)))
      && ledger[j].after == Some(SumBy(ledger[..j + 1], SignedAt(ledger[j].account)))
  }

  ghost predicate Chained(ledger: seq<Leg>) {
    forall j | 0 <= j < |ledger| :: Records(ledger, j)
  }

  /** The legs a step appends; at most one of them is a vault entry, and it records the vault's amount. */
  ghost predicate AppendsRecord(db: Db, after: Db) {
    && db.ledger <= after.ledger
    && (forall j | |db.ledger| <= j < |after.ledger| && after.ledger[j].account.UserVault? ::
          var v := after.ledger[j].account.vault;
          && after.ledger[j].before == Some(SavedAt(db, v))
          && after.ledger[j].after == Some(SavedAt(db, v) + Signed(after.ledger[j]))
          && forall i | |db.ledger| <= i < |after.ledger| && i != j :: !after.ledger[i].account.UserVault?)
  }

  /** Legs of other accounts do not count for an account. */
  lemma {:induction false} OtherLegs(ledger: seq<Leg>, from: nat, to: nat, account: Account)
    requires from <= to <= |ledger|
    requires forall i | from <= i < to :: ledger[i].account != account
    ensures SumBy(ledger[..to], SignedAt(account)) == SumBy(ledger[..from], SignedAt(account))
  {
    if from < to {
      OtherLegs(ledger, from, to - 1, account);
      assert ledger[..to] == ledger[..to - 1] + [ledger[to - 1]];
      SumAppend(ledger[..to - 1], ledger[to - 1], SignedAt(account));
    }
  }

  lemma ChainContinues(db: Db, after: Db)
    requires Chained(db.ledger) && AppendsRecord(db, after)
    requires forall v: VaultId :: VaultReconciles(db, v)
    ensures Chained(after.ledger)
  {
    var n := |db.ledger|;
    forall j | 0 <= j < |after.ledger| ensures Records(after.ledger, j) {
      if j < n {
        assert Records(db.ledger, j);
        assert after.ledger[j] == db.ledger[j];
        assert after.ledger[..j] == db.ledger[..j] && after.ledger[..j + 1] == db.ledger[..j + 1];
      } else if after.ledger[j].account.UserVault? {
        var account := after.ledger[j].account;
        assert VaultReconciles(db, account.vault);
        assert after.ledger[..n] == db.ledger;
        OtherLegs(after.ledger, n, j, account);
        assert after.ledger[..j + 1] == after.ledger[..j] + [after.ledger[j]];
        SumAppend(after.ledger[..j], after.ledger[j], SignedAt(account));
      }
    }
  }

  lemma LandRecords(db: Db, f: Flight)
    requires FlightOk(db, f) && Fresh(db, f)
    ensures AppendsRecord(db, Land(db, f).0)
  {
  }

  lemma StepRecords(s: System, a: Action)
    requires FlightsOk(s) && Undisturbed(s, a)
    ensures AppendsRecord(s.db, Step(s, a).db)
  {
    match a {
      case Call(r) =>
        if Check(s.db, r).Go? {
          CheckedFlight(s.db, r);
          LandRecords(s.db, Check(s.db, r).flight);
          assert Step(s, a).db.ledger == Land(s.db, Check(s.db, r).flight).0.ledger;
        }
      case CallDirect(d) =>
      case Begin(r) =>
      case Finish(k, aborts) =>
        if k < |s.inflight| && !aborts {
          LandRecords(s.db, s.inflight[k]);
        }
    }
  }

  /**
   Main result: every vault entry of the ledger records the exact running sum of its vault, so consecutive
   entries of a vault chain and the last one shows the amount in the vault's row.
   */
  lemma {:induction false} VaultEntriesChain(actions: seq<Action>)
    requires UndisturbedRun(START, actions)
    ensures Chained(Run(START, actions).db.ledger)
  {
    if |actions| > 0 {
      var front, last := actions[..|actions| - 1], actions[|actions| - 1];
      VaultEntriesChain(front);
      AlwaysWired(front);
      BooksHold(front);
      var s := Run(START, front);
      StepRecords(s, last);
      ChainContinues(s.db, Step(s, last).db);
    }
  }

  /** Two consecutive entries of a vault: the later one starts from what the earlier one ended with. */
  lemma ConsecutiveEntriesMeet(actions: seq<Action>, i: nat, j: nat)
    requires UndisturbedRun(START, actions)
    requires var ledger := Run(START, actions).db.ledger;
             && i < j < |ledger| && ledger[i].account.UserVault? && ledger[j].account == ledger[i].account
             && forall k | i < k < j :: ledger[k].account != ledger[i].account
    ensures Run(START, actions).db.ledger[j].before == Run(START, actions).db.ledger[i].after
  {
    var ledger := Run(START, actions).db.ledger;
    VaultEntriesChain(actions);
    assert Records(ledger, i) && Records(ledger, j);
    OtherLegs(ledger, i + 1, j, ledger[i].account);
  }
}
