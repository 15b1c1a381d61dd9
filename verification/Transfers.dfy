/** Transfers between users: conservation under every interleaving, currencies, admission and repetition. */
module Transfers {
  import opened Schema
  import opened Sums
  import opened Endpoints
  import opened Direct
  import opened Machine
  import opened Effects
  import opened KycGate
  import opened Idempotency

  // ---- transfers alone

  predicate TransferOnly(a: Action) {
    match a
    case Call(r) => r.TransferReq?
    case Begin(r) => r.TransferReq?
    case Finish(_, _) => true
    case _ => false
  }

  ghost predicate TransfersInFlight(s: System) {
    forall k | 0 <= k < |s.inflight| ::
      && (s.inflight[k].TransferFlight? || s.inflight[k].StoreKeyFlight? || s.inflight[k].Landed?)
      && FlightOk(s.db, s.inflight[k])
  }

  ghost predicate SameMoney(before: Db, after: Db) {
    && SumBy(after.wallets, Balance) == SumBy(before.wallets, Balance)
    && SumBy(after.wallets, Available) == SumBy(before.wallets, Available)
    && |after.wallets| == |before.wallets|
    && ((forall w | 0 <= w < |before.wallets| :: before.wallets[w].available >= 0)
        ==> forall w | 0 <= w < |after.wallets| :: after.wallets[w].available >= 0)
  }

  lemma TransferLandsSafely(db: Db, f: Flight)
    requires f.TransferFlight? && FlightOk(db, f)
    ensures var (after, o) := Land(db, f); SameMoney(db, after) && FlightOk(after, Rest(f, o))
  {
    TransferMovesFunds(db, f);
    if !Land(db, f).1.Transferred? {
      assert Land(db, f).0 == db;
    }
  }

  lemma ServeTransferSafely(db: Db, r: MoneyRequest)
    requires r.TransferReq?
    ensures SameMoney(db, Serve(db, r).0)
  {
    if Check(db, r).Go? {
      CheckedFlight(db, r);
      var f := Check(db, r).flight;
      TransferLandsSafely(db, f);
      assert Serve(db, r).0.wallets == Land(db, f).0.wallets;
    }
  }

  lemma StepOfTransfers(s: System, a: Action)
    requires TransfersInFlight(s) && TransferOnly(a)
    ensures TransfersInFlight(Step(s, a)) && SameMoney(s.db, Step(s, a).db)
  {
    if a.Call? {
      ServeTransferSafely(s.db, a.r);
    } else if a.Begin? {
      if Check(s.db, a.r).Go? {
        CheckedFlight(s.db, a.r);
      }
    } else if a.Finish? && a.k < |s.inflight| && !a.aborts && s.inflight[a.k].TransferFlight? {
      TransferLandsSafely(s.db, s.inflight[a.k]);
    }
  }

  /**
   Main result: from any state whatever, every interleaving of transfers, with checks as stale as can be,
   keeps the sum of the balances, keeps the sum of the available balances, and overdraws no wallet.
   */
  lemma {:induction false} TransfersConserve(s: System, actions: seq<Action>)
    requires TransfersInFlight(s)
    requires forall a | a in actions :: TransferOnly(a)
    ensures TransfersInFlight(Run(s, actions)) && SameMoney(s.db, Run(s, actions).db)
  {
    if |actions| > 0 {
      var front, last := actions[..|actions| - 1], actions[|actions| - 1];
      TransfersConserve(s, front);
      assert last in actions;
      StepOfTransfers(Run(s, front), last);
    }
  }

  function BalanceIn(c: Currency): Wallet -> int {
    (w: Wallet) => if w.currency == c then w.balance else 0
  }

  /** One landed transfer keeps the money of every single currency exactly when both wallets share their currency. */
  lemma TransferKeepsCurrenciesExactly(db: Db, f: Flight)
    requires f.TransferFlight? && FlightOk(db, f) && Land(db, f).1.Transferred?
    ensures (forall c :: SumBy(Land(db, f).0.wallets, BalanceIn(c)) == SumBy(db.wallets, BalanceIn(c)))
            <==> db.wallets[f.from].currency == db.wallets[f.to].currency
  {
    var sent := Shift(db.wallets, f.from, -f.amount, -f.amount);
    var after := Land(db, f).0.wallets;
    assert after == Shift(sent, f.to, f.amount, f.amount);
    forall c ensures SumBy(after, BalanceIn(c))
          == SumBy(db.wallets, BalanceIn(c)) - BalanceIn(c)(db.wallets[f.from]) + BalanceIn(c)(sent[f.from])
             - BalanceIn(c)(sent[f.to]) + BalanceIn(c)(after[f.to])
    {
      SumUpdate(db.wallets, f.from, sent[f.from], BalanceIn(c));
      SumUpdate(sent, f.to, after[f.to], BalanceIn(c));
    }
    var home := db.wallets[f.from].currency;
    if home != db.wallets[f.to].currency {
      assert SumBy(after, BalanceIn(home)) == SumBy(db.wallets, BalanceIn(home)) - f.amount;
    }
  }

  // ---- transfers, whose key is stored only after the money has moved

  /**
   A transfer that every other check lets through moves money exactly when its key is unknown or belongs to
   another user; in the second case the money moves although the key cannot be stored.
   */
  lemma TransferIgnoresForeignKeysExactly(db: Db, r: MoneyRequest, k: Key)
    requires r.TransferReq? && r.optKey == Some(k)
    requires Serve(db, r.(optKey := None)).1.Transferred?
    ensures Serve(db, r).1.Transferred? <==> k !in db.keys || db.keys[k].user != r.user
    ensures Serve(db, r).1.Transferred? ==> (Serve(db, r).1.keyRefused <==> k in db.keys)
  {
  }

  /** Wallet from may send what the request asks for. */
  ghost predicate MayTransfer(db: Db, from: WalletId, r: MoneyRequest)
    requires r.TransferReq?
  {
    && from < |db.wallets| && IsActivePrimary(db.wallets[from], r.user) && !db.wallets[from].locked
    && r.receiver < |db.wallets| && r.receiver != from && CanReceive(db.wallets[r.receiver])
    && (r.confirmed.Some? ==> r.confirmed.value == r.receiver)
    && db.wallets[from].currency == r.currency
    && 0 < r.amount <= db.wallets[from].available
    && (db.wallets[from].dailyLimit.Some? ==> r.amount <= db.wallets[from].dailyLimit.value)
  }

  /** With at most one primary wallet per user, the search for it finds the one that may send. */
  lemma SenderIsFound(db: Db, from: WalletId, r: MoneyRequest)
    requires r.TransferReq? && AtMostOnePrimary(db.wallets) && MayTransfer(db, from, r)
    ensures PrimaryWallet(db.wallets, r.user) == Some(from)
  {
  }

  /** The request's key was used before by the same user. */
  predicate OwnKey(db: Db, r: MoneyRequest)
    requires r.TransferReq?
  {
    r.optKey.Some? && r.optKey.value in db.keys && db.keys[r.optKey.value].user == r.user
  }

  lemma TransferAdmitted(db: Db, r: MoneyRequest)
    requires r.TransferReq?
    ensures var o := Serve(db, r).1;
            var found := PrimaryWallet(db.wallets, r.user);
            && (o.Transferred? <==> !OwnKey(db, r) && r.pin == PinRight && found.Some? && MayTransfer(db, found.value, r))
            && (o.Transferred? ==> o.from == found.value)
  {
  }

  /**
   In every reachable state a transfer happens exactly when its key is not the sender's own, the PIN is right and
   some wallet may send it; and it is that wallet, being the only one, that sends.
   */
  lemma TransferAdmittedExactly(actions: seq<Action>, r: MoneyRequest)
    requires r.TransferReq?
    ensures var db := Run(START, actions).db;
            var o := Serve(db, r).1;
            && (o.Transferred? <==>
                  !OwnKey(db, r) && r.pin == PinRight && exists from: WalletId :: MayTransfer(db, from, r))
            && (forall from: WalletId | o.Transferred? && MayTransfer(db, from, r) :: o.from == from)
  {
    GateAlwaysHolds(actions);
    var db := Run(START, actions).db;
    TransferAdmitted(db, r);
    forall from: WalletId | MayTransfer(db, from, r) ensures PrimaryWallet(db.wallets, r.user) == Some(from) {
      SenderIsFound(db, from, r);
    }
  }

  lemma KnownTransferReplays(db: Db, r: MoneyRequest, k: Key, response: Response)
    requires r.TransferReq? && r.optKey == Some(k) && k in db.keys && db.keys[k].user == r.user
    requires db.keys[k].status == Some(200) && db.keys[k].response == Some(response)
    ensures Serve(db, r) == (db, Replayed(response))
  {
  }

  /**
   A transfer whose key could be stored is never repeated by its sender: after any further run, every request under
   that key is answered with the stored response and moves nothing.
   */
  lemma TransferReplays(before: seq<Action>, r: MoneyRequest, k: Key, later: seq<Action>, again: MoneyRequest)
    requires r.TransferReq? && r.optKey == Some(k) && again.TransferReq? && again.optKey == Some(k)
    requires again.user == r.user
    requires var o := Serve(Run(START, before).db, r).1; o.Transferred? && !o.keyRefused
    ensures var db := Run(START, before + [Call(r)] + later).db;
            Serve(db, again) == (db, Replayed(Response(Serve(Run(START, before).db, r).1.tx, None)))
  {
    var made := before + [Call(r)];
    assert made[..|before|] == before;
    var (after, o) := Serve(Run(START, before).db, r);
    assert k in after.keys && after.keys[k] == KeyRow(r.user, PostTransfer, NoHash, Some(200), Some(Response(o.tx, None)));
    StoredKeysStay(made, later, k);
    KnownTransferReplays(Run(START, made + later).db, again, k, Response(o.tx, None));
  }
}
