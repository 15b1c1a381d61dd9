/** What the daily limit of a wallet means for transfers: it bounds each of them and no day. */
module TransferLimits {
  import opened Schema
  import opened Endpoints
  import opened Direct
  import opened Machine
  import opened Effects
  import opened Books
  import opened Attribution

  /** 500,000 currency units. */
  const CAP := 500_000 * 10_000

  /** The standard terms of a wallet; no request of the bank changes them. */
  predicate Standard(w: Wallet) { w.dailyLimit == Some(CAP) && !w.locked }

  /** Every wallet has the standard limit and is not locked, and no transfer made or in flight exceeds it. */
  ghost predicate Capped(s: System) {
    && (forall w | 0 <= w < |s.db.wallets| :: Standard(s.db.wallets[w]))
    && (forall t | 0 <= t < |s.db.txs| && s.db.txs[t].kind == P2PTransfer :: 0 < s.db.txs[t].amount <= CAP)
    && (forall k | 0 <= k < |s.inflight| && s.inflight[k].TransferFlight? :: 0 < s.inflight[k].amount <= CAP)
  }

  predicate SameTermsOf(a: Wallet, b: Wallet) { b.dailyLimit == a.dailyLimit && b.locked == a.locked }

  lemma LandKeepsLimits(db: Db, f: Flight)
    ensures var after := Land(db, f).0;
            && |after.wallets| == |db.wallets|
            && forall w | 0 <= w < |db.wallets| :: SameTermsOf(db.wallets[w], after.wallets[w])
  {
  }

  /** A new transaction is a transfer only if a transfer has landed, and then of the flight's amount. */
  lemma LandOpensTransfer(db: Db, f: Flight)
    ensures var after := Land(db, f).0;
            |db.txs| <= |after.txs| && forall t | |db.txs| <= t < |after.txs| && after.txs[t].kind == P2PTransfer ::
              f.TransferFlight? && after.txs[t].amount == f.amount
  {
  }

  lemma GuardedKeepsLimits(db: Db, d: DirectRequest)
    requires forall w | 0 <= w < |db.wallets| :: Standard(db.wallets[w])
    ensures var after := Guarded(db, d).0; forall w | 0 <= w < |after.wallets| :: Standard(after.wallets[w])
  {
    var after := Guarded(db, d).0;
    if d.SetPrimaryReq? {
      assert |after.wallets| == |db.wallets|;
    } else if !TouchesWallets(d) {
      assert after.wallets == db.wallets;
    }
  }

  lemma CheckedIsCapped(db: Db, r: MoneyRequest)
    requires forall w | 0 <= w < |db.wallets| :: Standard(db.wallets[w])
    requires Check(db, r).Go? && Check(db, r).flight.TransferFlight?
    ensures 0 < Check(db, r).flight.amount <= CAP
  {
    var f := Check(db, r).flight;
    assert Standard(db.wallets[f.from]);
  }

  lemma LandIsCapped(db: Db, after: Db, f: Flight)
    requires Attributed(db) && FlightOk(db, f) && after.wallets == Land(db, f).0.wallets && after.txs == Land(db, f).0.txs
    requires forall w | 0 <= w < |db.wallets| :: Standard(db.wallets[w])
    requires forall t | 0 <= t < |db.txs| && db.txs[t].kind == P2PTransfer :: 0 < db.txs[t].amount <= CAP
    requires f.TransferFlight? ==> 0 < f.amount <= CAP
    ensures forall w | 0 <= w < |after.wallets| :: Standard(after.wallets[w])
    ensures forall t | 0 <= t < |after.txs| && after.txs[t].kind == P2PTransfer :: 0 < after.txs[t].amount <= CAP
  {
    LandKeepsLimits(db, f);
    LandOpensTransfer(db, f);
    LandKeepsRows(db, f);
    forall t | 0 <= t < |after.txs| && after.txs[t].kind == P2PTransfer ensures 0 < after.txs[t].amount <= CAP {
      if t < |db.txs| {
        assert SameParties(db.txs[t], after.txs[t]);
      }
    }
  }

  lemma GuardedIsCapped(s: System, d: DirectRequest)
    requires Wired(s.db) && Attributed(s.db) && Capped(s)
    ensures Capped(Step(s, CallDirect(d)))
  {
    GuardedKeepsLimits(s.db, d);
    GuardedTells(s.db, d);
    GuardedOpensCardPayments(s.db, d);
    var after := Guarded(s.db, d).0;
    forall t | 0 <= t < |after.txs| && after.txs[t].kind == P2PTransfer ensures 0 < after.txs[t].amount <= CAP {
      assert t < |s.db.txs| && SameParties(s.db.txs[t], after.txs[t]);
    }
  }

  lemma StepIsCapped(s: System, a: Action)
    requires Wired(s.db) && FlightsOk(s) && Attributed(s.db) && Capped(s)
    ensures Capped(Step(s, a))
  {
    if a.CallDirect? {
      GuardedIsCapped(s, a.d);
    } else if a.Finish? {
      if a.k < |s.inflight| && !a.aborts {
        LandIsCapped(s.db, Step(s, a).db, s.inflight[a.k]);
      }
    } else if Check(s.db, a.r).Go? {
      var f := Check(s.db, a.r).flight;
      CheckedFlight(s.db, a.r);
      if f.TransferFlight? {
        CheckedIsCapped(s.db, a.r);
      }
      if a.Call? {
        LandIsCapped(s.db, Step(s, a).db, f);
      }
    }
  }

  /** Main result: under every interleaving no single transfer exceeds 500,000 units, and none is empty or negative. */
  lemma {:induction false} TransfersAlwaysCapped(actions: seq<Action>)
    ensures Capped(Run(START, actions))
  {
    if |actions| > 0 {
      var front, last := actions[..|actions| - 1], actions[|actions| - 1];
      TransfersAlwaysCapped(front);
      AlwaysWired(front);
      AlwaysAttributed(front);
      StepIsCapped(Run(START, front), last);
    }
  }

  // ---- no bound on a day

  /** The search for the primary wallet looks at owners, marks and statuses only. */
  lemma {:induction false} PrimaryWalletStays(wallets: seq<Wallet>, after: seq<Wallet>, user: UserId)
    requires |wallets| == |after|
    requires forall w | 0 <= w < |wallets| :: IsActivePrimary(after[w], user) == IsActivePrimary(wallets[w], user)
    ensures PrimaryWallet(after, user) == PrimaryWallet(wallets, user)
  {
    if |wallets| > 0 {
      PrimaryWalletStays(wallets[..|wallets| - 1], after[..|after| - 1], user);
    }
  }

  /**
   The limit is compared with one amount and not with what was sent before: a transfer without a key that has gone
   through goes through again, at once, if and only if the wallet still has the amount available.
   */
  lemma SameAgainExactly(db: Db, r: MoneyRequest)
    requires r.TransferReq? && r.optKey.None? && Serve(db, r).1.Transferred?
    ensures var (after, o) := Serve(db, r);
            Serve(after, r).1.Transferred? <==> r.amount <= AvailableAt(after, o.from)
  {
    var (after, o) := Serve(db, r);
    PrimaryWalletStays(db.wallets, after.wallets, r.user);
    assert after.wallets[o.from].dailyLimit == db.wallets[o.from].dailyLimit;
  }
}
