/**
 Where the separation of checks and transactions matters: exactly which stale flights break the books, and
 that completing one pending deposit twice at the same time credits it twice.
 */
module Interleaving {
  import opened Schema
  import opened Sums
  import opened Endpoints
  import opened Machine
  import opened Effects
  import opened Books
  import opened Lifecycle
  import opened Solvency

  /** A withdrawal leaves its wallet reconciled exactly when nothing moved the available balance since it was read. */
  lemma StaleWithdrawExactly(db: Db, log: seq<Outcome>, f: Flight)
    requires f.WithdrawFlight? && FlightOk(db, f) && WalletReconciles(db, log, f.wallet)
    requires Land(db, f).1.WithdrawalOpened?
    ensures var (after, o) := Land(db, f);
            WalletReconciles(after, log + [o], f.wallet) <==> f.walletRow.available == db.wallets[f.wallet].available
  {
    var (after, o) := Land(db, f);
    var n := |db.ledger|;
    var a, b := after.ledger[n], after.ledger[n + 1];
    assert after.ledger == Appended(db.ledger, a, Some(b));
    AppendLegs(db.ledger, a, Some(b), SignedAt(UserWallet(f.wallet)));
    SumAppend(log, o, CaptureOf(f.wallet));
    SumAppend(log, o, HoldOf(f.wallet));
  }

  /** A vault deposit leaves wallet and vault reconciled exactly when the rows it read are still current. */
  lemma StaleFundExactly(db: Db, log: seq<Outcome>, f: Flight)
    requires f.FundFlight? && FlightOk(db, f)
    requires WalletReconciles(db, log, f.wallet) && VaultReconciles(db, f.vault)
    requires Land(db, f).1.VaultFunded?
    ensures var (after, o) := Land(db, f);
            WalletReconciles(after, log + [o], f.wallet) && VaultReconciles(after, f.vault)
            <==> FreshRows(db, f.wallet, f.vault, f.walletRow, f.vaultRow)
  {
    var (after, o) := Land(db, f);
    var n := |db.ledger|;
    var a, b := after.ledger[n], after.ledger[n + 1];
    assert after.ledger == Appended(db.ledger, a, Some(b));
    AppendLegs(db.ledger, a, Some(b), SignedAt(UserWallet(f.wallet)));
    AppendLegs(db.ledger, a, Some(b), SignedAt(UserVault(f.vault)));
    SumAppend(log, o, CaptureOf(f.wallet));
    SumAppend(log, o, HoldOf(f.wallet));
  }

  /** The same for a withdrawal from a vault. */
  lemma StaleDrainExactly(db: Db, log: seq<Outcome>, f: Flight)
    requires f.DrainFlight? && FlightOk(db, f)
    requires WalletReconciles(db, log, f.wallet) && VaultReconciles(db, f.vault)
    requires Land(db, f).1.VaultDrained?
    ensures var (after, o) := Land(db, f);
            WalletReconciles(after, log + [o], f.wallet) && VaultReconciles(after, f.vault)
            <==> FreshRows(db, f.wallet, f.vault, f.walletRow, f.vaultRow)
  {
    var (after, o) := Land(db, f);
    var n := |db.ledger|;
    var a, b := after.ledger[n], after.ledger[n + 1];
    assert after.ledger == Appended(db.ledger, a, Some(b));
    AppendLegs(db.ledger, a, Some(b), SignedAt(UserWallet(f.wallet)));
    AppendLegs(db.ledger, a, Some(b), SignedAt(UserVault(f.vault)));
    SumAppend(log, o, CaptureOf(f.wallet));
    SumAppend(log, o, HoldOf(f.wallet));
  }

  lemma SecondSettlementShows(db: Db, log: seq<Outcome>, f: Flight)
    requires f.SettleFlight? && FlightOk(db, f) && Lives(db, log, f.tx)
    requires Land(db, f).1.DepositSettled? || Land(db, f).1.WithdrawalSettled?
    ensures var (after, o) := Land(db, f); Lives(after, log + [o], f.tx) <==> SumBy(log, SettlesOf(f.tx)) == 0
  {
    var o := Land(db, f).1;
    SumAppend(log, o, SettlesOf(f.tx));
    SumAppend(log, o, ImbalanceOf(f.tx));
  }

  /**
   A completion that was checked at any earlier time settles its transaction for the first time exactly when
   the ledger still balances under that transaction as it lands.
   */
  lemma StaleSettleExactly(actions: seq<Action>, k: nat)
    requires UndisturbedRun(START, actions)
    requires k < |Run(START, actions).inflight| && Run(START, actions).inflight[k].SettleFlight?
    requires var s := Run(START, actions);
             Land(s.db, s.inflight[k]).1.DepositSettled? || Land(s.db, s.inflight[k]).1.WithdrawalSettled?
    ensures var s := Run(START, actions);
            var t, after := s.inflight[k].tx, Step(s, Finish(k, false));
            Lives(after.db, after.log, t) <==> SumBy(s.db.ledger, SignedIn(t)) == 0
  {
    var s := Run(START, actions);
    var f := s.inflight[k];
    AlwaysWired(actions);
    TermsAlwaysPositive(actions);
    SettledAtMostOnce(actions);
    LedgerImbalanceExact(actions, f.tx);
    assert Lives(s.db, s.log, f.tx);
    SecondSettlementShows(s.db, s.log, f);
  }

  /** A flight with the terms of a pending deposit, landed twice, credits the wallet twice. */
  lemma LandsTwice(db: Db, f: Flight)
    requires f.SettleFlight? && f.txRow.kind == Deposit
    requires Land(db, f).1.DepositSettled?
    ensures var (once, first) := Land(db, f);
            var (twice, second) := Land(once, f);
            var w := f.txRow.receiverWallet.value;
            && AvailableAt(twice, w) == AvailableAt(db, w) + 2 * f.txRow.amount
            && first == second == DepositSettled(w, f.txRow.amount, f.tx)
  {
    var (once, first) := LandSettle(db, f);
    assert |once.wallets| == |db.wallets| && |once.txs| == |db.txs|;
  }

  /** Two requests checked in the same state, then both landed. */
  lemma TwoFlights(s: System, r: MoneyRequest)
    requires Check(s.db, r).Go?
    ensures var k := |s.inflight|;
            var f := Check(s.db, r).flight;
            var (once, first) := Land(s.db, f);
            var (twice, second) := Land(once, f);
            var t := Step(Step(Step(Step(s, Begin(r)), Begin(r)), Finish(k, false)), Finish(k + 1, false));
            t.db == twice && t.log == s.log + [Parked, Parked] + [first] + [second]
  {
    var k := |s.inflight|;
    var f := Check(s.db, r).flight;
    var both := Step(Step(s, Begin(r)), Begin(r));
    assert both.db == s.db && both.inflight == s.inflight + [f] + [f];
    assert both.log == s.log + [Parked] + [Parked] == s.log + [Parked, Parked];
    var once := Step(both, Finish(k, false));
    assert once.inflight[k + 1] == f && once.db == Land(s.db, f).0;
  }

  /**
   Two completions of one pending deposit that are both checked before either lands: both land, the wallet is
   credited twice and the transaction counts as settled twice.
   */
  lemma ConcurrentCompletionsCreditTwice(s: System, r: MoneyRequest)
    requires r.CompleteReq? && Check(s.db, r).Go? && s.db.txs[r.tx].kind == Deposit
    requires Land(s.db, Check(s.db, r).flight).1.DepositSettled?
    ensures var k := |s.inflight|;
            var t := Step(Step(Step(Step(s, Begin(r)), Begin(r)), Finish(k, false)), Finish(k + 1, false));
            var w := s.db.txs[r.tx].receiverWallet.value;
            && AvailableAt(t.db, w) == AvailableAt(s.db, w) + 2 * s.db.txs[r.tx].amount
            && SumBy(t.log, SettlesOf(r.tx)) == SumBy(s.log, SettlesOf(r.tx)) + 2
  {
    var f := Check(s.db, r).flight;
    TwoFlights(s, r);
    LandsTwice(s.db, f);
    var settled := Land(s.db, f).1;
    var settles := SettlesOf(r.tx);
    SumAppendTwo(s.log, Parked, Parked, settles);
    SumAppend(s.log + [Parked, Parked], settled, settles);
    SumAppend(s.log + [Parked, Parked] + [settled], settled, settles);
  }
}
