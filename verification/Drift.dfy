/**
 The books of every run, stale transactions included: a transaction that writes back rows it has read earlier moves
 its wallet and its vault by exactly the difference between the rows it carries and the rows it overwrites.
 */
module Drift {
  import opened Schema
  import opened Sums
  import opened Endpoints
  import opened Direct
  import opened Machine
  import opened Effects
  import opened Books
  import opened Solvency

  /** Columns carried less columns overwritten, for the one wallet and the one vault a transaction writes. */
  datatype Gap = Gap(wallet: WalletId, balance: int, available: int, vault: VaultId, saved: int)

  const NO_GAP := Gap(0, 0, 0, 0, 0)

  /** The flight writes rows it carries, and its transaction will commit. */
  predicate Overwrites(db: Db, f: Flight) {
    match f
    case WithdrawFlight(_, _, _, _, _, _, _) => !Land(db, f).1.Rejected?
    case FundFlight(_, _, _, _, _, _, _, _, _) => !Land(db, f).1.Rejected?
    case DrainFlight(_, _, _, _, _, _, _, _) => !Land(db, f).1.Rejected?
    case _ => false
  }

  function GapOf(db: Db, f: Flight): Gap {
    if !Overwrites(db, f) then NO_GAP
    else if f.WithdrawFlight? then Gap(f.wallet, 0, f.walletRow.available - AvailableAt(db, f.wallet), 0, 0)
    else
      Gap(f.wallet, f.walletRow.balance - BalanceAt(db, f.wallet), f.walletRow.available - AvailableAt(db, f.wallet),
          f.vault, f.vaultRow.amount - SavedAt(db, f.vault))
  }

  function GapAt(s: System, a: Action): Gap {
    if a.Finish? && !a.aborts && a.k < |s.inflight| then GapOf(s.db, s.inflight[a.k]) else NO_GAP
  }

  /** One gap for every action of the run. */
  function Gaps(s: System, actions: seq<Action>): seq<Gap> {
    if |actions| == 0 then []
    else
      var front := actions[..|actions| - 1];
      Gaps(s, front) + [GapAt(Run(s, front), actions[|actions| - 1])]
  }

  function BalanceGap(w: WalletId): Gap -> int { (g: Gap) => At(g.wallet, w, g.balance) }

  function AvailableGap(w: WalletId): Gap -> int { (g: Gap) => At(g.wallet, w, g.available) }

  function SavedGap(v: VaultId): Gap -> int { (g: Gap) => At(g.vault, v, g.saved) }

  function BalanceTotal(g: Gap): int { g.balance + g.saved }

  function AvailableTotal(g: Gap): int { g.available + g.saved }

  // ---- the books with their gaps

  ghost predicate WalletOff(db: Db, log: seq<Outcome>, gaps: seq<Gap>, w: WalletId) {
    var posted := SumBy(db.ledger, SignedAt(UserWallet(w))) + SumBy(log, CaptureOf(w));
    && AvailableAt(db, w) == posted + SumBy(gaps, AvailableGap(w))
    && BalanceAt(db, w) == posted + SumBy(log, HoldOf(w)) + SumBy(gaps, BalanceGap(w))
  }

  ghost predicate VaultOff(db: Db, gaps: seq<Gap>, v: VaultId) {
    SavedAt(db, v) == SumBy(db.ledger, SignedAt(UserVault(v))) + SumBy(gaps, SavedGap(v))
  }

  ghost predicate TotalsOff(db: Db, log: seq<Outcome>, gaps: seq<Gap>) {
    && SumBy(db.wallets, Balance) + SumBy(db.vaults, Saved) == SumBy(log, DepositsSettled) + SumBy(gaps, BalanceTotal)
    && SumBy(db.wallets, Available) + SumBy(db.vaults, Saved)
       == SumBy(log, DepositsSettled) - SumBy(log, WithdrawalsOpened) + SumBy(gaps, AvailableTotal)
  }

  /** Rows and totals are off by the gaps; the ledger itself is never off. */
  ghost predicate BooksOff(db: Db, log: seq<Outcome>, gaps: seq<Gap>) {
    && (forall w: WalletId :: WalletOff(db, log, gaps, w))
    && (forall v: VaultId :: VaultOff(db, gaps, v))
    && TotalsOff(db, log, gaps)
    && LedgerBalances(db, log)
    && SuspenseReconciles(db, log)
  }

  // ---- a transaction sees the rows it carries

  /** The tables with the columns a flight writes back replaced by the ones it carries. */
  function AsSeen(db: Db, f: Flight): Db {
    if !Overwrites(db, f) then db
    else if f.WithdrawFlight? then
      db.(wallets := SetFunds(db.wallets, f.wallet, db.wallets[f.wallet].balance, f.walletRow.available))
    else
      db.(wallets := SetFunds(db.wallets, f.wallet, f.walletRow.balance, f.walletRow.available),
          vaults := db.vaults[f.vault := db.vaults[f.vault].(amount := f.vaultRow.amount)])
  }

  /** On the tables as the flight has seen them its transaction is fresh, and it leaves the very same state. */
  lemma LandsAsSeen(db: Db, f: Flight)
    requires FlightOk(db, f)
    ensures var seen := AsSeen(db, f); Land(seen, f) == Land(db, f) && FlightOk(seen, f)
    ensures !f.SettleFlight? ==> Fresh(AsSeen(db, f), f) || Land(db, f) == (db, Rejected(Aborted))
  {
    var seen := AsSeen(db, f);
    if Overwrites(db, f) {
      assert Land(seen, f).0.wallets == Land(db, f).0.wallets;
      assert Land(seen, f).0.vaults == Land(db, f).0.vaults;
    }
  }

  lemma LandingEffect(db: Db, f: Flight)
    requires FlightOk(db, f)
    ensures var (after, o) := Land(db, f); Effect(AsSeen(db, f), after, o)
  {
    LandsAsSeen(db, f);
    if f.SettleFlight? {
      SettleLands(db, f);
    } else if Land(db, f) == (db, Rejected(Aborted)) {
      QuietEffect(db, db, Rejected(Aborted));
    } else {
      LandEffect(AsSeen(db, f), f);
    }
  }

  /** The tables as seen differ from the tables by the gap. */
  lemma SeenIsOff(db: Db, f: Flight)
    ensures var seen, g := AsSeen(db, f), GapOf(db, f);
            && seen.ledger == db.ledger
            && (forall w: WalletId :: BalanceAt(seen, w) == BalanceAt(db, w) + BalanceGap(w)(g))
            && (forall w: WalletId :: AvailableAt(seen, w) == AvailableAt(db, w) + AvailableGap(w)(g))
            && (forall v: VaultId :: SavedAt(seen, v) == SavedAt(db, v) + SavedGap(v)(g))
  {
  }

  lemma SeenTotals(db: Db, f: Flight)
    ensures var seen, g := AsSeen(db, f), GapOf(db, f);
            && SumBy(seen.wallets, Balance) == SumBy(db.wallets, Balance) + g.balance
            && SumBy(seen.wallets, Available) == SumBy(db.wallets, Available) + g.available
            && SumBy(seen.vaults, Saved) == SumBy(db.vaults, Saved) + g.saved
  {
    if Overwrites(db, f) {
      var seen := AsSeen(db, f);
      SumUpdate(db.wallets, f.wallet, seen.wallets[f.wallet], Balance);
      SumUpdate(db.wallets, f.wallet, seen.wallets[f.wallet], Available);
      if !f.WithdrawFlight? {
        SumUpdate(db.vaults, f.vault, seen.vaults[f.vault], Saved);
      }
    }
  }

  // ---- the gaps add up

  lemma RowsMoveByGap(db: Db, seen: Db, log: seq<Outcome>, gaps: seq<Gap>, g: Gap, w: WalletId, v: VaultId)
    requires WalletOff(db, log, gaps, w) && VaultOff(db, gaps, v) && seen.ledger == db.ledger
    requires BalanceAt(seen, w) == BalanceAt(db, w) + BalanceGap(w)(g)
    requires AvailableAt(seen, w) == AvailableAt(db, w) + AvailableGap(w)(g)
    requires SavedAt(seen, v) == SavedAt(db, v) + SavedGap(v)(g)
    ensures WalletOff(seen, log, gaps + [g], w) && VaultOff(seen, gaps + [g], v)
  {
    SumAppend(gaps, g, AvailableGap(w));
    SumAppend(gaps, g, BalanceGap(w));
    SumAppend(gaps, g, SavedGap(v));
  }

  lemma TotalsMoveByGap(db: Db, log: seq<Outcome>, gaps: seq<Gap>, f: Flight)
    requires TotalsOff(db, log, gaps)
    ensures TotalsOff(AsSeen(db, f), log, gaps + [GapOf(db, f)])
  {
    SeenTotals(db, f);
    SumAppend(gaps, GapOf(db, f), BalanceTotal);
    SumAppend(gaps, GapOf(db, f), AvailableTotal);
  }

  lemma GapOpens(db: Db, log: seq<Outcome>, gaps: seq<Gap>, f: Flight)
    requires BooksOff(db, log, gaps)
    ensures BooksOff(AsSeen(db, f), log, gaps + [GapOf(db, f)])
  {
    var seen, g := AsSeen(db, f), GapOf(db, f);
    SeenIsOff(db, f);
    TotalsMoveByGap(db, log, gaps, f);
    forall w: WalletId ensures WalletOff(seen, log, gaps + [g], w) {
      RowsMoveByGap(db, seen, log, gaps, g, w, 0);
    }
    forall v: VaultId ensures VaultOff(seen, gaps + [g], v) {
      RowsMoveByGap(db, seen, log, gaps, g, 0, v);
    }
  }

  lemma NoGapOpens(db: Db, log: seq<Outcome>, gaps: seq<Gap>)
    requires BooksOff(db, log, gaps)
    ensures BooksOff(db, log, gaps + [NO_GAP])
  {
    GapOpens(db, log, gaps, Landed);
  }

  lemma OffBooksFollowEffect(db: Db, log: seq<Outcome>, gaps: seq<Gap>, after: Db, o: Outcome)
    requires BooksOff(db, log, gaps) && Effect(db, after, o)
    ensures BooksOff(after, log + [o], gaps)
  {
    forall w: WalletId ensures WalletOff(after, log + [o], gaps, w) {
      assert WalletOff(db, log, gaps, w);
      SumAppend(log, o, CaptureOf(w));
      SumAppend(log, o, HoldOf(w));
    }
    forall v: VaultId ensures VaultOff(after, gaps, v) {
      assert VaultOff(db, gaps, v);
    }
    SumAppend(log, o, DepositsSettled);
    SumAppend(log, o, WithdrawalsOpened);
    SumAppend(log, o, WithdrawalsSettled);
    SumAppend(log, o, DepositsOpened);
    SumAppend(log, o, NetCaptured);
    forall t: TxId ensures SumBy(after.ledger, SignedIn(t)) == SumBy(log + [o], ImbalanceOf(t)) {
      SumAppend(log, o, ImbalanceOf(t));
    }
  }

  lemma LandingKeepsOff(s: System, gaps: seq<Gap>, k: nat)
    requires FlightsOk(s) && k < |s.inflight| && BooksOff(s.db, s.log, gaps)
    ensures var t := Step(s, Finish(k, false)); BooksOff(t.db, t.log, gaps + [GapOf(s.db, s.inflight[k])])
  {
    var f := s.inflight[k];
    GapOpens(s.db, s.log, gaps, f);
    LandingEffect(s.db, f);
    OffBooksFollowEffect(AsSeen(s.db, f), s.log, gaps + [GapOf(s.db, f)], Land(s.db, f).0, Land(s.db, f).1);
  }

  lemma StepKeepsOff(s: System, gaps: seq<Gap>, a: Action)
    requires Wired(s.db) && FlightsOk(s) && BooksOff(s.db, s.log, gaps)
    ensures BooksOff(Step(s, a).db, Step(s, a).log, gaps + [GapAt(s, a)])
  {
    if a.Finish? && !a.aborts && a.k < |s.inflight| {
      LandingKeepsOff(s, gaps, a.k);
    } else {
      NoGapOpens(s.db, s.log, gaps);
      var o := StepEffect(s, a);
      if Step(s, a) != s {
        OffBooksFollowEffect(s.db, s.log, gaps + [NO_GAP], Step(s, a).db, o);
      }
    }
  }

  /**
   Main result, for every run and every interleaving: each wallet, each vault and both totals are off by exactly the
   sum of the gaps of the transactions that have landed on stale rows, and the ledger side is never off.
   */
  lemma {:induction false} BooksAreOffByGaps(actions: seq<Action>)
    ensures var s := Run(START, actions); BooksOff(s.db, s.log, Gaps(START, actions))
  {
    if |actions| > 0 {
      var front, last := actions[..|actions| - 1], actions[|actions| - 1];
      BooksAreOffByGaps(front);
      AlwaysWired(front);
      StepKeepsOff(Run(START, front), Gaps(START, front), last);
    }
  }

  ghost predicate GapsCancel(gaps: seq<Gap>) {
    && (forall w: WalletId :: SumBy(gaps, BalanceGap(w)) == 0 && SumBy(gaps, AvailableGap(w)) == 0)
    && (forall v: VaultId :: SumBy(gaps, SavedGap(v)) == 0)
    && SumBy(gaps, BalanceTotal) == 0 && SumBy(gaps, AvailableTotal) == 0
  }

  lemma OffBooksAgreeExactly(db: Db, log: seq<Outcome>, gaps: seq<Gap>)
    requires BooksOff(db, log, gaps)
    ensures BooksAgree(db, log) <==> GapsCancel(gaps)
  {
    forall w: WalletId
      ensures WalletReconciles(db, log, w) <==> SumBy(gaps, BalanceGap(w)) == 0 && SumBy(gaps, AvailableGap(w)) == 0
    {
      assert WalletOff(db, log, gaps, w);
    }
    forall v: VaultId ensures VaultReconciles(db, v) <==> SumBy(gaps, SavedGap(v)) == 0 {
      assert VaultOff(db, gaps, v);
    }
  }

  /** Main result: after any run whatever the books agree exactly when the gaps of its stale transactions cancel. */
  lemma BooksAgreeExactly(actions: seq<Action>)
    ensures var s := Run(START, actions); BooksAgree(s.db, s.log) <==> GapsCancel(Gaps(START, actions))
  {
    BooksAreOffByGaps(actions);
    var s := Run(START, actions);
    OffBooksAgreeExactly(s.db, s.log, Gaps(START, actions));
  }

  // ---- what no interleaving can do

  ghost predicate NothingNegative(db: Db) {
    && (forall w | 0 <= w < |db.wallets| :: Available(db.wallets[w]) >= 0)
    && (forall v | 0 <= v < |db.vaults| :: Saved(db.vaults[v]) >= 0)
  }

  /** The columns a flight carries are not negative either, nor is a vault amount it asks for. */
  predicate CarriesNothingNegative(f: Flight) {
    match f
    case FundFlight(_, _, _, amount, _, _, _, _, vault) => amount >= 0 && vault.amount >= 0
    case DrainFlight(_, _, _, amount, _, _, row, _) => amount >= 0 && row.available >= 0
    case _ => true
  }

  lemma LandsNothingNegative(db: Db, f: Flight)
    requires NothingNegative(db) && PositiveTerms(db) && FlightOk(db, f) && CarriesNothingNegative(f)
    ensures NothingNegative(Land(db, f).0)
  {
    var after := Land(db, f).0;
    forall w | 0 <= w < |after.wallets| ensures Available(after.wallets[w]) >= 0 {
      assert Available(db.wallets[w]) >= 0;
    }
    forall v | 0 <= v < |after.vaults| ensures Saved(after.vaults[v]) >= 0 {
      assert Saved(db.vaults[v]) >= 0;
    }
  }

  lemma ChecksCarryNothingNegative(db: Db, r: MoneyRequest)
    requires NothingNegative(db) && NonNegativeRequest(r) && Check(db, r).Go?
    ensures CarriesNothingNegative(Check(db, r).flight)
  {
    if r.FundReq? {
      assert Saved(db.vaults[r.vault]) >= 0;
    } else if r.DrainReq? {
      assert Available(db.wallets[db.vaults[r.vault].wallet]) >= 0;
    }
  }

  lemma StepNothingNegative(s: System, a: Action)
    requires Wired(s.db) && FlightsOk(s) && NonNegative(a) && PositiveTerms(s.db) && NothingNegative(s.db)
    requires forall k | 0 <= k < |s.inflight| :: CarriesNothingNegative(s.inflight[k])
    ensures NothingNegative(Step(s, a).db)
    ensures forall k | 0 <= k < |Step(s, a).inflight| :: CarriesNothingNegative(Step(s, a).inflight[k])
  {
    if a.Call? || a.Begin? {
      if Check(s.db, a.r).Go? {
        var f := Check(s.db, a.r).flight;
        CheckedFlight(s.db, a.r);
        ChecksCarryNothingNegative(s.db, a.r);
        LandsNothingNegative(s.db, f);
        var (landed, o) := Land(s.db, f);
        assert Conclude(landed, f, o).0 == landed.(keys := Conclude(landed, f, o).0.keys);
      }
    } else if a.CallDirect? {
      DispatchFunds(s.db, a.d);
    } else if !a.aborts && a.k < |s.inflight| {
      LandsNothingNegative(s.db, s.inflight[a.k]);
    }
  }

  /**
   Under every interleaving of valid requests, stale transactions included, no available balance and no vault ever
   falls below zero.
   */
  lemma {:induction false} NeverNegative(actions: seq<Action>)
    requires forall a | a in actions :: NonNegative(a)
    ensures var s := Run(START, actions);
            NothingNegative(s.db) && forall k | 0 <= k < |s.inflight| :: CarriesNothingNegative(s.inflight[k])
  {
    if |actions| > 0 {
      var front, last := actions[..|actions| - 1], actions[|actions| - 1];
      NeverNegative(front);
      AlwaysWired(front);
      TermsAlwaysPositive(front);
      assert last in actions;
      StepNothingNegative(Run(START, front), last);
    }
  }

  /**
   Main result: in every run of valid requests the withdrawals opened exceed the deposits settled by no more than the
   gaps of stale transactions add up to; without such gaps nobody withdraws money that was not deposited.
   */
  lemma OverdraftIsAtMostTheGaps(actions: seq<Action>)
    requires forall a | a in actions :: NonNegative(a)
    ensures var log := Run(START, actions).log;
            SumBy(log, WithdrawalsOpened) <= SumBy(log, DepositsSettled) + SumBy(Gaps(START, actions), AvailableTotal)
  {
    var db := Run(START, actions).db;
    BooksAreOffByGaps(actions);
    NeverNegative(actions);
    SumNotNegative(db.wallets, Available);
    SumNotNegative(db.vaults, Saved);
  }

  lemma {:induction false} SumNotNegative<T>(s: seq<T>, f: T -> int)
    requires forall i | 0 <= i < |s| :: f(s[i]) >= 0
    ensures SumBy(s, f) >= 0
  {
    if |s| > 0 {
      SumNotNegative(s[..|s| - 1], f);
    }
  }
}
