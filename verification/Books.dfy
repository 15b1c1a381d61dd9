/**
 The books of the bank: conservation of money, reconciliation of the rows with the ledger, holds, and the
 imbalance of the ledger, in every state a run can reach.
 */
module Books {
  import opened Schema
  import opened Sums
  import opened Endpoints
  import opened Direct
  import opened Machine
  import opened Effects

  // ---- what a step never undoes

  /** Tables only grow, the terms of a transaction stay, and no transaction becomes pending again. */
  ghost predicate Grows(db: Db, after: Db) {
    && |db.wallets| <= |after.wallets|
    && |db.vaults| <= |after.vaults|
    && |db.txs| <= |after.txs|
    && |db.cards| <= |after.cards|
    && |db.auths| <= |after.auths|
    && (forall t | 0 <= t < |db.txs| ::
          && after.txs[t].kind == db.txs[t].kind
          && (db.txs[t].kind != CardPayment ==> SameTerms(db.txs[t], after.txs[t]))
          && (db.txs[t].status != Pending ==> after.txs[t].status != Pending))
  }

  /** Card records refer to card payments and to cards that exist. */
  ghost predicate Wired(db: Db) {
    forall a | 0 <= a < |db.auths| ::
      && db.auths[a].card < |db.cards|
      && db.auths[a].tx < |db.txs|
      && db.txs[db.auths[a].tx].kind == CardPayment
  }

  ghost predicate FlightsOk(s: System) {
    forall k | 0 <= k < |s.inflight| :: FlightOk(s.db, s.inflight[k])
  }

  lemma LandGrows(db: Db, f: Flight)
    requires Wired(db) && FlightOk(db, f)
    ensures var (after, o) := Land(db, f); Grows(db, after) && Wired(after) && FlightOk(after, Rest(f, o))
  {
    var after := Land(db, f).0;
    assert after.auths == db.auths && after.cards == db.cards;
    assert |after.wallets| == |db.wallets| && |after.vaults| == |db.vaults|;
  }

  lemma ServeGrows(db: Db, r: MoneyRequest)
    requires Wired(db)
    ensures var (after, o) := Serve(db, r); Grows(db, after) && Wired(after)
  {
    if Check(db, r).Go? {
      CheckedFlight(db, r);
      LandGrows(db, Check(db, r).flight);
    }
  }

  lemma AuthorizeGrows(db: Db, user: UserId, card: CardId, amount: nat, currency: Currency, key: Key, now: int)
    requires Wired(db)
    ensures var after := AuthorizeCard(db, user, card, amount, currency, key, now).0; Grows(db, after) && Wired(after)
  {
  }

  lemma CaptureGrows(db: Db, user: UserId, auth: AuthId, part: Option<nat>)
    requires Wired(db)
    ensures var after := CaptureCard(db, user, auth, part).0; Grows(db, after) && Wired(after)
  {
  }

  lemma ReverseGrows(db: Db, user: UserId, tx: TxId, part: Option<nat>)
    requires Wired(db)
    ensures var after := ReverseCard(db, user, tx, part).0; Grows(db, after) && Wired(after)
  {
  }

  lemma MarkGrows(db: Db, tx: TxId, status: TxStatus)
    requires Wired(db) && tx < |db.txs| && status != Pending
    ensures var after := db.(txs := db.txs[tx := db.txs[tx].(status := status)]); Grows(db, after) && Wired(after)
  {
  }

  lemma SameTransactionsGrow(db: Db, after: Db)
    requires Wired(db) && after.txs == db.txs && after.auths == db.auths
    requires |db.wallets| <= |after.wallets| && |db.vaults| <= |after.vaults| && |db.cards| <= |after.cards|
    ensures Grows(db, after) && Wired(after)
  {
  }

  lemma GuardedGrows(db: Db, d: DirectRequest)
    requires Wired(db)
    ensures var after := Guarded(db, d).0; Grows(db, after) && Wired(after)
  {
    var after := Guarded(db, d).0;
    if after == db {
      SameTransactionsGrow(db, after);
    } else {
      match d
      case AuthorizeReq(user, card, amount, currency, key, now) => AuthorizeGrows(db, user, card, amount, currency, key, now);
      case CaptureReq(user, auth, part) => CaptureGrows(db, user, auth, part);
      case ReverseReq(user, tx, part) => ReverseGrows(db, user, tx, part);
      case AdminReverseReq(tx) => MarkGrows(db, tx, Reversed);
      case AdminFlagReq(tx) => MarkGrows(db, tx, RequiresAction);
      case _ => SameTransactionsGrow(db, after);
    }
  }

  lemma FlightStaysOk(db: Db, after: Db, f: Flight)
    requires Grows(db, after) && FlightOk(db, f)
    ensures FlightOk(after, f)
  {
  }

  lemma StepGrows(s: System, a: Action)
    requires Wired(s.db) && FlightsOk(s)
    ensures Grows(s.db, Step(s, a).db) && Wired(Step(s, a).db) && FlightsOk(Step(s, a))
  {
    match a {
      case Call(r) => ServeGrows(s.db, r);
      case CallDirect(d) => GuardedGrows(s.db, d);
      case Begin(r) => if Check(s.db, r).Go? { CheckedFlight(s.db, r); }
      case Finish(k, aborts) => if k < |s.inflight| { LandGrows(s.db, s.inflight[k]); }
    }
    var t := Step(s, a);
    forall k | 0 <= k < |t.inflight| ensures FlightOk(t.db, t.inflight[k]) {
      if k < |s.inflight| && t.inflight[k] == s.inflight[k] {
        FlightStaysOk(s.db, t.db, s.inflight[k]);
      }
    }
  }

  /** In every reachable state of every run, disturbed or not, references and parked requests are sound. */
  lemma {:induction false} AlwaysWired(actions: seq<Action>)
    ensures var s := Run(START, actions); Wired(s.db) && FlightsOk(s)
  {
    if |actions| > 0 {
      AlwaysWired(actions[..|actions| - 1]);
      StepGrows(Run(START, actions[..|actions| - 1]), actions[|actions| - 1]);
    }
  }

  // ---- the books

  function HoldOf(w: WalletId): Outcome -> int { (o: Outcome) => HoldDelta(o, w) }

  function CaptureOf(w: WalletId): Outcome -> int { (o: Outcome) => CaptureDelta(o, w) }

  function ImbalanceOf(t: TxId): Outcome -> int { (o: Outcome) => ImbalanceDelta(o, t) }

  /**
   A wallet's available balance is the signed sum of its ledger entries plus its net card captures, and its
   balance is above that by exactly the withdrawals ever opened on it.
   */
  ghost predicate WalletReconciles(db: Db, log: seq<Outcome>, w: WalletId) {
    && AvailableAt(db, w) == SumBy(db.ledger, SignedAt(UserWallet(w))) + SumBy(log, CaptureOf(w))
    && BalanceAt(db, w) - AvailableAt(db, w) == SumBy(log, HoldOf(w))
  }

  /** A vault holds the signed sum of the ledger entries under its key. */
  ghost predicate VaultReconciles(db: Db, v: VaultId) {
    SavedAt(db, v) == SumBy(db.ledger, SignedAt(UserVault(v)))
  }

  /** Money exists in wallets and vaults exactly as far as deposits were settled; holds leave the available side. */
  ghost predicate Conserves(db: Db, log: seq<Outcome>) {
    && SumBy(db.wallets, Balance) + SumBy(db.vaults, Saved) == SumBy(log, DepositsSettled)
    && SumBy(db.wallets, Available) + SumBy(db.vaults, Saved)
       == SumBy(log, DepositsSettled) - SumBy(log, WithdrawalsOpened)
  }

  ghost predicate LedgerBalances(db: Db, log: seq<Outcome>) {
    && SumBy(db.ledger, Signed) == SumBy(log, DepositsSettled) - SumBy(log, WithdrawalsSettled)
    && forall t: TxId :: SumBy(db.ledger, SignedIn(t)) == SumBy(log, ImbalanceOf(t))
  }

  /**
   The suspense account of the provider is credited by every deposit and every withdrawal that is opened, and
   settling them never debits it; payouts and card spending have their own accounts.
   */
  ghost predicate SuspenseReconciles(db: Db, log: seq<Outcome>) {
    && SumBy(db.ledger, SignedAt(ProviderSuspense)) == SumBy(log, DepositsOpened) + SumBy(log, WithdrawalsOpened)
    && SumBy(db.ledger, SignedAt(ManualPayout)) == -SumBy(log, WithdrawalsSettled)
    && SumBy(db.ledger, SignedAt(CardSuspense)) == SumBy(log, NetCaptured)
  }

  ghost predicate BooksAgree(db: Db, log: seq<Outcome>) {
    && (forall w: WalletId :: WalletReconciles(db, log, w))
    && (forall v: VaultId :: VaultReconciles(db, v))
    && Conserves(db, log)
    && LedgerBalances(db, log)
    && SuspenseReconciles(db, log)
  }

  lemma BooksFollowEffect(db: Db, log: seq<Outcome>, after: Db, o: Outcome)
    requires BooksAgree(db, log) && Effect(db, after, o)
    ensures BooksAgree(after, log + [o])
  {
    forall w: WalletId ensures WalletReconciles(after, log + [o], w) {
      assert WalletReconciles(db, log, w);
      SumAppend(log, o, CaptureOf(w));
      SumAppend(log, o, HoldOf(w));
    }
    forall v: VaultId ensures VaultReconciles(after, v) {
      assert VaultReconciles(db, v);
    }
    SumAppend(log, o, DepositsSettled);
    SumAppend(log, o, WithdrawalsOpened);
    SumAppend(log, o, WithdrawalsSettled);
    SumAppend(log, o, DepositsOpened);
    SumAppend(log, o, NetCaptured);
    forall t: TxId ensures SumBy(after.ledger, SignedIn(t)) == SumBy(log + [o], ImbalanceOf(t)) {
      SumAppend(log, o, ImbalanceOf(t));
    }
  }

  /** The outcome a step reports and, unless it lands a stale flight, the effect that outcome stands for. */
  lemma StepEffect(s: System, a: Action) returns (o: Outcome)
    requires Wired(s.db) && FlightsOk(s) && Undisturbed(s, a)
    ensures Step(s, a) == s || (Step(s, a).log == s.log + [o] && Effect(s.db, Step(s, a).db, o))
  {
    o := Parked;
    match a {
      case Call(r) =>
        ServeEffect(s.db, r);
        o := Serve(s.db, r).1;
      case CallDirect(d) =>
        GuardedEffect(s.db, d);
        o := Guarded(s.db, d).1;
      case Begin(r) =>
        if Check(s.db, r).Reply? {
          CheckReplies(s.db, r);
          o := Check(s.db, r).outcome;
        }
        QuietEffect(s.db, s.db, o);
      case Finish(k, aborts) =>
        if k < |s.inflight| {
          if aborts {
            o := Rejected(Aborted);
            QuietEffect(s.db, s.db, o);
          } else {
            LandEffect(s.db, s.inflight[k]);
            o := Land(s.db, s.inflight[k]).1;
          }
        }
    }
  }

  /**
   Main result: in every state reached by a run that lands no stale flight, whatever the interleaving, the
   books agree with what the bank has reported.
   */
  lemma {:induction false} BooksHold(actions: seq<Action>)
    requires UndisturbedRun(START, actions)
    ensures var s := Run(START, actions); BooksAgree(s.db, s.log)
  {
    if |actions| > 0 {
      var front, last := actions[..|actions| - 1], actions[|actions| - 1];
      BooksHold(front);
      AlwaysWired(front);
      var s := Run(START, front);
      var o := StepEffect(s, last);
      if Step(s, last) != s {
        BooksFollowEffect(s.db, s.log, Step(s, last).db, o);
      }
    }
  }
}
