/** Both money columns of a wallet can be recomputed from the ledger alone, and what the wallet's entries record. */
module WalletHistory {
  import opened Schema
  import opened Sums
  import opened Endpoints
  import opened Direct
  import opened Machine
  import opened Effects
  import opened Books

  /** Entries of wallet w that move its balance: all but those of withdrawals and of card payments. */
  function BookedAt(txs: seq<Txn>, w: WalletId): Leg -> int {
    (leg: Leg) =>
      if leg.account == UserWallet(w) && leg.tx < |txs| && txs[leg.tx].kind != Withdrawal && txs[leg.tx].kind != CardPayment
      then Signed(leg) else 0
  }

  /** Entries of wallet w that move its available balance: all but those of card payments. */
  function SpendableAt(txs: seq<Txn>, w: WalletId): Leg -> int {
    (leg: Leg) =>
      if leg.account == UserWallet(w) && leg.tx < |txs| && txs[leg.tx].kind != CardPayment then Signed(leg) else 0
  }

  ghost predicate ColumnsFromLedger(db: Db, w: WalletId) {
    && BalanceAt(db, w) == SumBy(db.ledger, BookedAt(db.txs, w))
    && AvailableAt(db, w) == SumBy(db.ledger, SpendableAt(db.txs, w))
  }

  /** An entry of a wallet, unless it is a withdrawal's hold, records the wallet's balance before itself. */
  ghost predicate RecordsBalance(db: Db, j: nat)
    requires j < |db.ledger| && db.ledger[j].tx < |db.txs|
  {
    var leg := db.ledger[j];
    leg.account.UserWallet? && db.txs[leg.tx].kind != Withdrawal ==>
      && leg.before == Some(SumBy(db.ledger[..j], BookedAt(db.txs, leg.account.wallet)))
      && leg.after == Some(leg.before.value + Signed(leg))
  }

  ghost predicate LegsRefer(db: Db) {
    forall j | 0 <= j < |db.ledger| :: db.ledger[j].tx < |db.txs|
  }

  ghost predicate HistoryOk(db: Db) {
    && LegsRefer(db)
    && (forall w: WalletId :: ColumnsFromLedger(db, w))
    && (forall j | 0 <= j < |db.ledger| :: RecordsBalance(db, j))
  }

  // ---- what a step appends

  predicate KindsStay(txs: seq<Txn>, after: seq<Txn>) {
    |txs| <= |after| && forall t | 0 <= t < |txs| :: after[t].kind == txs[t].kind
  }

  /** A new entry records the wallet's balance, unless it is a hold. */
  predicate RecordsNow(db: Db, txs: seq<Txn>, leg: Leg) {
    && leg.tx < |txs|
    && (leg.account.UserWallet? && txs[leg.tx].kind != Withdrawal ==>
          && leg.before == Some(BalanceAt(db, leg.account.wallet))
          && leg.after == Some(leg.before.value + Signed(leg)))
  }

  ghost predicate Posts(db: Db, after: Db, o: Outcome, a: Leg, b: Option<Leg>) {
    && after.ledger == Appended(db.ledger, a, b)
    && RecordsNow(db, after.txs, a)
    && (b.Some? ==> RecordsNow(db, after.txs, b.value) && b.value.account != a.account)
    && (forall w: WalletId :: Both(BookedAt(after.txs, w), a, b) == BalanceDelta(o, w))
    && (forall w: WalletId :: Both(SpendableAt(after.txs, w), a, b) == BalanceDelta(o, w) - HoldDelta(o, w))
  }

  ghost predicate PostsNothing(db: Db, after: Db, o: Outcome) {
    after.ledger == db.ledger && forall w: WalletId :: BalanceDelta(o, w) == HoldDelta(o, w) == 0
  }

  ghost predicate StepPosts(db: Db, after: Db, o: Outcome) {
    && KindsStay(db.txs, after.txs)
    && (PostsNothing(db, after, o)
        || (var n := |db.ledger|;
            && |after.ledger| > n
            && Posts(db, after, o, after.ledger[n], if |after.ledger| > n + 1 then Some(after.ledger[n + 1]) else None)))
  }

  lemma DepositPosts(db: Db, f: Flight)
    requires f.DepositFlight? && FlightOk(db, f) && Fresh(db, f)
    ensures var (after, o) := LandDeposit(db, f); StepPosts(db, after, o)
  {
  }

  lemma WithdrawPosts(db: Db, f: Flight)
    requires f.WithdrawFlight? && FlightOk(db, f) && Fresh(db, f)
    ensures var (after, o) := LandWithdraw(db, f); StepPosts(db, after, o)
  {
  }

  lemma TransferPosts(db: Db, f: Flight)
    requires f.TransferFlight? && FlightOk(db, f) && Fresh(db, f)
    ensures var (after, o) := LandTransfer(db, f); StepPosts(db, after, o)
  {
    var (after, o) := LandTransfer(db, f);
    if o.Transferred? {
      var n := |db.ledger|;
      assert Posts(db, after, o, after.ledger[n], Some(after.ledger[n + 1]));
    }
  }

  lemma SettlePosts(db: Db, f: Flight)
    requires f.SettleFlight? && FlightOk(db, f) && Fresh(db, f)
    ensures var (after, o) := LandSettle(db, f); StepPosts(db, after, o)
  {
  }

  lemma FundPosts(db: Db, f: Flight)
    requires f.FundFlight? && FlightOk(db, f) && Fresh(db, f)
    ensures var (after, o) := LandFund(db, f); StepPosts(db, after, o)
  {
  }

  lemma DrainPosts(db: Db, f: Flight)
    requires f.DrainFlight? && FlightOk(db, f) && Fresh(db, f)
    ensures var (after, o) := LandDrain(db, f); StepPosts(db, after, o)
  {
  }

  lemma LandPosts(db: Db, f: Flight)
    requires FlightOk(db, f) && Fresh(db, f)
    ensures var (after, o) := Land(db, f); StepPosts(db, after, o)
  {
    match f
    case DepositFlight(_, _, _, _, _, _, _) => DepositPosts(db, f);
    case WithdrawFlight(_, _, _, _, _, _, _) => WithdrawPosts(db, f);
    case TransferFlight(_, _, _, _, _, _, _, _) => TransferPosts(db, f);
    case SettleFlight(_, _) => SettlePosts(db, f);
    case FundFlight(_, _, _, _, _, _, _, _, _) => FundPosts(db, f);
    case DrainFlight(_, _, _, _, _, _, _, _) => DrainPosts(db, f);
    case _ => assert PostsNothing(db, Land(db, f).0, Land(db, f).1);
  }

  lemma CardLegsPost(db: Db, after: Db, o: Outcome, a: Leg, b: Leg)
    requires o.CardCaptured? || o.CardReversed?
    requires KindsStay(db.txs, after.txs) && after.ledger == db.ledger + [a, b]
    requires a.account == UserWallet(o.wallet) && b.account == CardSuspense
    requires a.tx == b.tx < |after.txs| && after.txs[a.tx].kind == CardPayment
    requires a.before == Some(BalanceAt(db, o.wallet)) && a.after == Some(BalanceAt(db, o.wallet) + Signed(a))
    ensures StepPosts(db, after, o)
  {
    assert Posts(db, after, o, a, Some(b));
    assert after.ledger[|db.ledger|] == a && after.ledger[|db.ledger| + 1] == b;
  }

  lemma CapturePosts(db: Db, user: UserId, auth: AuthId, part: Option<nat>)
    requires Wired(db)
    ensures var (after, o) := CaptureCard(db, user, auth, part); StepPosts(db, after, o)
  {
    var (after, o) := CaptureCard(db, user, auth, part);
    if o.CardCaptured? {
      CaptureGrows(db, user, auth, part);
      var n := |db.ledger|;
      CardLegsPost(db, after, o, after.ledger[n], after.ledger[n + 1]);
    }
  }

  lemma ReversePosts(db: Db, user: UserId, tx: TxId, part: Option<nat>)
    requires Wired(db)
    ensures var (after, o) := ReverseCard(db, user, tx, part); StepPosts(db, after, o)
  {
    var (after, o) := ReverseCard(db, user, tx, part);
    if o.CardReversed? {
      ReverseGrows(db, user, tx, part);
      var n := |db.ledger|;
      CardLegsPost(db, after, o, after.ledger[n], after.ledger[n + 1]);
    }
  }

  lemma GuardedPosts(db: Db, d: DirectRequest)
    requires Wired(db)
    ensures var (after, o) := Guarded(db, d); StepPosts(db, after, o)
  {
    GuardedGrows(db, d);
    if d.CaptureReq? {
      CapturePosts(db, d.user, d.auth, d.part);
    } else if d.ReverseReq? {
      ReversePosts(db, d.user, d.tx, d.part);
    } else {
      OthersPostNothing(db, d);
    }
  }

  lemma OthersPostNothing(db: Db, d: DirectRequest)
    requires !d.CaptureReq? && !d.ReverseReq?
    ensures PostsNothing(db, Guarded(db, d).0, Guarded(db, d).1)
  {
    DispatchQuiet(db, d);
    assert Quiet(Dispatch(db, d).1);
  }

  lemma ConcludePosts(db: Db, landed: Db, f: Flight, o: Outcome)
    requires StepPosts(db, landed, o)
    ensures var (after, last) := Conclude(landed, f, o); StepPosts(db, after, last)
  {
    var (after, last) := Conclude(landed, f, o);
    assert after == landed.(keys := after.keys);
    assert forall w: WalletId :: BalanceDelta(last, w) == BalanceDelta(o, w) && HoldDelta(last, w) == HoldDelta(o, w);
    if PostsNothing(db, landed, o) {
      assert PostsNothing(db, after, last);
    } else {
      var n := |db.ledger|;
      var a, b := after.ledger[n], if |after.ledger| > n + 1 then Some(after.ledger[n + 1]) else None;
      assert Posts(db, after, last, a, b);
    }
  }

  lemma ServePosts(db: Db, r: MoneyRequest)
    ensures var (after, o) := Serve(db, r); StepPosts(db, after, o)
  {
    match Check(db, r)
    case Reply(o) => CheckReplies(db, r);
    case Go(f) =>
      CheckedFlight(db, r);
      LandPosts(db, f);
      var (landed, o) := Land(db, f);
      ConcludePosts(db, landed, f, o);
  }

  // ---- the history goes on

  lemma KindsDecide(ledger: seq<Leg>, txs: seq<Txn>, after: seq<Txn>, w: WalletId)
    requires KindsStay(txs, after)
    requires forall j | 0 <= j < |ledger| :: ledger[j].tx < |txs|
    ensures SumBy(ledger, BookedAt(after, w)) == SumBy(ledger, BookedAt(txs, w))
    ensures SumBy(ledger, SpendableAt(after, w)) == SumBy(ledger, SpendableAt(txs, w))
  {
    SumSame(ledger, BookedAt(after, w), BookedAt(txs, w));
    SumSame(ledger, SpendableAt(after, w), SpendableAt(txs, w));
  }

  lemma ColumnsFollow(db: Db, after: Db, o: Outcome, w: WalletId)
    requires LegsRefer(db) && ColumnsFromLedger(db, w)
    requires StepPosts(db, after, o) && WalletEffect(db, after, o)
    ensures ColumnsFromLedger(after, w)
  {
    KindsDecide(db.ledger, db.txs, after.txs, w);
    if !PostsNothing(db, after, o) {
      var n := |db.ledger|;
      var a, b := after.ledger[n], if |after.ledger| > n + 1 then Some(after.ledger[n + 1]) else None;
      AppendLegs(db.ledger, a, b, BookedAt(after.txs, w));
      AppendLegs(db.ledger, a, b, SpendableAt(after.txs, w));
    }
  }

  lemma OldRecordsStay(db: Db, after: Db, j: nat)
    requires LegsRefer(db) && j < |db.ledger| && RecordsBalance(db, j)
    requires KindsStay(db.txs, after.txs) && db.ledger <= after.ledger
    ensures RecordsBalance(after, j)
  {
    assert after.ledger[j] == db.ledger[j] && after.ledger[..j] == db.ledger[..j];
    if db.ledger[j].account.UserWallet? {
      KindsDecide(db.ledger[..j], db.txs, after.txs, db.ledger[j].account.wallet);
    }
  }

  /** A first or second new entry: the entry between it and the old ledger, if any, is of another account. */
  lemma NewRecordHolds(db: Db, after: Db, j: nat)
    requires LegsRefer(db) && KindsStay(db.txs, after.txs) && db.ledger <= after.ledger
    requires forall w: WalletId :: ColumnsFromLedger(db, w)
    requires |db.ledger| <= j < |after.ledger| && j <= |db.ledger| + 1
    requires RecordsNow(db, after.txs, after.ledger[j])
    requires j > |db.ledger| ==> after.ledger[j - 1].account != after.ledger[j].account
    ensures RecordsBalance(after, j)
  {
    var n, leg := |db.ledger|, after.ledger[j];
    if leg.account.UserWallet? {
      var w := leg.account.wallet;
      assert ColumnsFromLedger(db, w);
      KindsDecide(db.ledger, db.txs, after.txs, w);
      assert after.ledger[..n] == db.ledger;
      if j > n {
        assert after.ledger[..j] == db.ledger + [after.ledger[n]];
        SumAppend(db.ledger, after.ledger[n], BookedAt(after.txs, w));
      }
    }
  }

  lemma HistoryFollows(db: Db, after: Db, o: Outcome)
    requires HistoryOk(db) && StepPosts(db, after, o) && WalletEffect(db, after, o)
    ensures HistoryOk(after)
  {
    forall w: WalletId ensures ColumnsFromLedger(after, w) {
      ColumnsFollow(db, after, o, w);
    }
    forall j | 0 <= j < |after.ledger| ensures RecordsBalance(after, j) {
      if j < |db.ledger| {
        OldRecordsStay(db, after, j);
      } else {
        NewRecordHolds(db, after, j);
      }
    }
  }

  lemma StepKeepsHistory(s: System, a: Action)
    requires Wired(s.db) && FlightsOk(s) && Undisturbed(s, a) && HistoryOk(s.db)
    ensures HistoryOk(Step(s, a).db)
  {
    if a.Call? {
      ServePosts(s.db, a.r);
      ServeEffect(s.db, a.r);
      HistoryFollows(s.db, Serve(s.db, a.r).0, Serve(s.db, a.r).1);
    } else if a.CallDirect? {
      GuardedPosts(s.db, a.d);
      GuardedEffect(s.db, a.d);
      HistoryFollows(s.db, Guarded(s.db, a.d).0, Guarded(s.db, a.d).1);
    } else if a.Finish? && a.k < |s.inflight| && !a.aborts {
      var f := s.inflight[a.k];
      LandPosts(s.db, f);
      LandEffect(s.db, f);
      HistoryFollows(s.db, Land(s.db, f).0, Land(s.db, f).1);
    }
  }

  /**
   Main result: in every state reached without landing a stale flight, the ledger alone determines both columns of
   every wallet, and every wallet entry other than a hold records the balance the wallet had.
   */
  lemma {:induction false} WalletsFollowLedger(actions: seq<Action>)
    requires UndisturbedRun(START, actions)
    ensures HistoryOk(Run(START, actions).db)
  {
    if |actions| > 0 {
      var front, last := actions[..|actions| - 1], actions[|actions| - 1];
      WalletsFollowLedger(front);
      AlwaysWired(front);
      StepKeepsHistory(Run(START, front), last);
    }
  }
}
