/**
 Who is named where: in every state of every run, stale transactions included, each transaction names the users who
 own the wallets it moves, and each ledger entry is one its transaction accounts for.
 */
module Attribution {
  import opened Schema
  import opened Endpoints
  import opened Direct
  import opened Machine
  import opened Effects
  import opened Books
  import opened Idempotency

  predicate Owns(db: Db, user: Option<UserId>, wallet: Option<WalletId>) {
    user.Some? && wallet.Some? && wallet.value < |db.wallets| && db.wallets[wallet.value].owner == user.value
  }

  predicate InItsCurrency(db: Db, wallet: Option<WalletId>, currency: Currency) {
    wallet.Some? && wallet.value < |db.wallets| && db.wallets[wallet.value].currency == currency
  }

  /** The transaction names the owners of the wallets it is about, and no other party. */
  predicate NamesOwners(db: Db, tx: Txn) {
    && tx.net == tx.amount
    && match tx.kind
       case Deposit =>
         tx.sender.None? && tx.senderWallet.None? && Owns(db, tx.receiver, tx.receiverWallet)
         && InItsCurrency(db, tx.receiverWallet, tx.currency)
       case Withdrawal =>
         tx.receiver.None? && tx.receiverWallet.None? && Owns(db, tx.sender, tx.senderWallet)
         && InItsCurrency(db, tx.senderWallet, tx.currency)
       case P2PTransfer =>
         Owns(db, tx.sender, tx.senderWallet) && Owns(db, tx.receiver, tx.receiverWallet)
         && tx.senderWallet != tx.receiverWallet && InItsCurrency(db, tx.senderWallet, tx.currency)
       case VaultContribution =>
         Owns(db, tx.sender, tx.senderWallet) && tx.receiver == tx.sender && tx.receiverWallet == tx.senderWallet
       case VaultWithdrawal =>
         Owns(db, tx.sender, tx.senderWallet) && tx.receiver == tx.sender && tx.receiverWallet == tx.senderWallet
       case CardPayment => tx.receiver.None? && tx.receiverWallet.None? && Owns(db, tx.sender, tx.senderWallet)
       case _ => false
  }

  /** The transaction accounts for the entry: its account, direction and currency, and its amount but for card payments. */
  predicate AccountsFor(db: Db, tx: Txn, leg: Leg) {
    && leg.currency == tx.currency
    && (tx.kind != CardPayment ==> leg.amount == tx.amount)
    && match leg.account
       case UserWallet(w) =>
         if leg.direction == Debit then tx.kind in {Withdrawal, P2PTransfer, VaultContribution, CardPayment} && tx.senderWallet == Some(w)
         else if tx.kind == CardPayment then tx.senderWallet == Some(w)
         else tx.kind in {Deposit, P2PTransfer, VaultWithdrawal} && tx.receiverWallet == Some(w)
       case UserVault(v) =>
         && v < |db.vaults| && tx.sender == Some(db.vaults[v].owner) && tx.senderWallet == Some(db.vaults[v].wallet)
         && tx.kind == (if leg.direction == Credit then VaultContribution else VaultWithdrawal)
       case ProviderSuspense => leg.direction == Credit && tx.kind in {Deposit, Withdrawal}
       case Provider(_) => leg.direction == Debit && tx.kind == Deposit
       case ManualPayout => leg.direction == Debit && tx.kind == Withdrawal
       case CardSuspense => tx.kind == CardPayment
  }

  predicate LegTells(db: Db, leg: Leg) {
    leg.tx < |db.txs| && AccountsFor(db, db.txs[leg.tx], leg)
  }

  predicate VaultTells(db: Db, v: Vault) { Owns(db, Some(v.owner), Some(v.wallet)) }

  predicate CardTells(db: Db, c: Card) { Owns(db, Some(c.owner), Some(c.wallet)) }

  predicate AuthTells(db: Db, a: Auth) {
    && a.card < |db.cards| && a.tx < |db.txs|
    && db.txs[a.tx].sender == Some(db.cards[a.card].owner) && db.txs[a.tx].senderWallet == Some(db.cards[a.card].wallet)
  }

  ghost predicate Attributed(db: Db) {
    && (forall t | 0 <= t < |db.txs| :: NamesOwners(db, db.txs[t]))
    && (forall j | 0 <= j < |db.ledger| :: LegTells(db, db.ledger[j]))
    && (forall v | 0 <= v < |db.vaults| :: VaultTells(db, db.vaults[v]))
    && (forall c | 0 <= c < |db.cards| :: CardTells(db, db.cards[c]))
    && (forall a | 0 <= a < |db.auths| :: AuthTells(db, db.auths[a]))
  }

  /** The users and rows a flight names belong together. */
  predicate FlightTells(db: Db, f: Flight) {
    match f
    case DepositFlight(user, w, _, currency, _, _, _) =>
      Owns(db, Some(user), Some(w)) && InItsCurrency(db, Some(w), currency)
    case WithdrawFlight(user, w, _, currency, _, _, _) =>
      Owns(db, Some(user), Some(w)) && InItsCurrency(db, Some(w), currency)
    case TransferFlight(user, receiver, from, to, _, currency, _, _) =>
      Owns(db, Some(user), Some(from)) && Owns(db, Some(receiver), Some(to)) && InItsCurrency(db, Some(from), currency)
    case FundFlight(user, v, w, _, _, _, _, _, _) =>
      v < |db.vaults| && db.vaults[v].owner == user && db.vaults[v].wallet == w
    case DrainFlight(user, v, w, _, _, _, _, _) =>
      v < |db.vaults| && db.vaults[v].owner == user && db.vaults[v].wallet == w
    case _ => true
  }

  // ---- what no step changes

  predicate SameParties(a: Txn, b: Txn) {
    && a.kind == b.kind && a.currency == b.currency && b.net == b.amount
    && a.sender == b.sender && a.receiver == b.receiver
    && a.senderWallet == b.senderWallet && a.receiverWallet == b.receiverWallet
    && (a.kind != CardPayment ==> a.amount == b.amount)
  }

  ghost predicate KeepsRows(db: Db, after: Db) {
    && OwnersStay(db, after)
    && |db.txs| <= |after.txs| && |db.vaults| <= |after.vaults| && |db.cards| <= |after.cards|
    && |db.auths| <= |after.auths| && db.ledger <= after.ledger
    && (forall t | 0 <= t < |db.txs| :: SameParties(db.txs[t], after.txs[t]))
    && (forall v | 0 <= v < |db.vaults| ::
          after.vaults[v].owner == db.vaults[v].owner && after.vaults[v].wallet == db.vaults[v].wallet)
    && (forall c | 0 <= c < |db.cards| ::
          after.cards[c].owner == db.cards[c].owner && after.cards[c].wallet == db.cards[c].wallet)
    && (forall a | 0 <= a < |db.auths| ::
          after.auths[a].card == db.auths[a].card && after.auths[a].tx == db.auths[a].tx)
  }

  /** What was told stays told. */
  lemma OldRowsTell(db: Db, after: Db)
    requires Attributed(db) && KeepsRows(db, after)
    ensures forall t | 0 <= t < |db.txs| :: NamesOwners(after, after.txs[t])
    ensures forall j | 0 <= j < |db.ledger| :: LegTells(after, after.ledger[j])
    ensures forall v | 0 <= v < |db.vaults| :: VaultTells(after, after.vaults[v])
    ensures forall c | 0 <= c < |db.cards| :: CardTells(after, after.cards[c])
    ensures forall a | 0 <= a < |db.auths| :: AuthTells(after, after.auths[a])
  {
    forall t | 0 <= t < |db.txs| ensures NamesOwners(after, after.txs[t]) {
      assert NamesOwners(db, db.txs[t]) && SameParties(db.txs[t], after.txs[t]);
    }
    forall j | 0 <= j < |db.ledger| ensures LegTells(after, after.ledger[j]) {
      var leg := db.ledger[j];
      assert LegTells(db, leg) && after.ledger[j] == leg && SameParties(db.txs[leg.tx], after.txs[leg.tx]);
    }
    forall v | 0 <= v < |db.vaults| ensures VaultTells(after, after.vaults[v]) {
      assert VaultTells(db, db.vaults[v]);
    }
    forall c | 0 <= c < |db.cards| ensures CardTells(after, after.cards[c]) {
      assert CardTells(db, db.cards[c]);
    }
    forall a | 0 <= a < |db.auths| ensures AuthTells(after, after.auths[a]) {
      assert AuthTells(db, db.auths[a]) && SameParties(db.txs[db.auths[a].tx], after.txs[db.auths[a].tx]);
    }
  }

  lemma FlightStaysTold(db: Db, after: Db, f: Flight)
    requires FlightTells(db, f) && KeepsRows(db, after)
    ensures FlightTells(after, f)
  {
  }

  /** At most one transaction and two legs are new, and no vault, card or authorization. */
  lemma LandingTells(db: Db, after: Db)
    requires Attributed(db) && KeepsRows(db, after)
    requires |after.vaults| == |db.vaults| && |after.cards| == |db.cards| && |after.auths| == |db.auths|
    requires forall t | |db.txs| <= t < |after.txs| :: NamesOwners(after, after.txs[t])
    requires forall j | |db.ledger| <= j < |after.ledger| :: LegTells(after, after.ledger[j])
    ensures Attributed(after)
  {
    OldRowsTell(db, after);
  }

  // ---- the transactions of the money endpoints

  lemma LandKeepsRows(db: Db, f: Flight)
    requires Attributed(db) && FlightOk(db, f)
    ensures KeepsRows(db, Land(db, f).0)
    ensures var after := Land(db, f).0;
            |after.vaults| == |db.vaults| && |after.cards| == |db.cards| && |after.auths| == |db.auths|
  {
    var after := Land(db, f).0;
    forall t | 0 <= t < |db.txs| ensures SameParties(db.txs[t], after.txs[t]) {
      assert NamesOwners(db, db.txs[t]);
    }
    assert after.cards == db.cards && after.auths == db.auths;
  }

  lemma OpeningTells(db: Db, f: Flight)
    requires Attributed(db) && FlightOk(db, f) && FlightTells(db, f) && (f.DepositFlight? || f.WithdrawFlight?)
    ensures Attributed(Land(db, f).0)
  {
    LandKeepsRows(db, f);
    LandingTells(db, Land(db, f).0);
  }

  lemma TransferTells(db: Db, f: Flight)
    requires Attributed(db) && FlightOk(db, f) && FlightTells(db, f) && f.TransferFlight?
    ensures Attributed(Land(db, f).0)
  {
    LandKeepsRows(db, f);
    LandingTells(db, Land(db, f).0);
  }

  lemma SettlingTells(db: Db, f: Flight)
    requires Attributed(db) && FlightOk(db, f) && f.SettleFlight?
    ensures Attributed(Land(db, f).0)
  {
    LandKeepsRows(db, f);
    if f.tx < |db.txs| {
      assert NamesOwners(db, db.txs[f.tx]);
    }
    LandingTells(db, Land(db, f).0);
  }

  lemma VaultMoveTells(db: Db, f: Flight)
    requires Attributed(db) && FlightOk(db, f) && FlightTells(db, f) && (f.FundFlight? || f.DrainFlight?)
    ensures Attributed(Land(db, f).0)
  {
    LandKeepsRows(db, f);
    assert VaultTells(db, db.vaults[f.vault]);
    LandingTells(db, Land(db, f).0);
  }

  lemma LandTells(db: Db, f: Flight)
    requires Attributed(db) && FlightOk(db, f) && FlightTells(db, f)
    ensures var (after, o) := Land(db, f); Attributed(after) && FlightTells(after, Rest(f, o))
  {
    match f
    case DepositFlight(_, _, _, _, _, _, _) => OpeningTells(db, f);
    case WithdrawFlight(_, _, _, _, _, _, _) => OpeningTells(db, f);
    case TransferFlight(_, _, _, _, _, _, _, _) => TransferTells(db, f);
    case SettleFlight(_, _) => SettlingTells(db, f);
    case FundFlight(_, _, _, _, _, _, _, _, _) => VaultMoveTells(db, f);
    case DrainFlight(_, _, _, _, _, _, _, _) => VaultMoveTells(db, f);
    case Landed =>
    case StoreKeyFlight(_, _, _) => LandingTells(db, Land(db, f).0);
  }

  lemma CheckedFlightTells(db: Db, r: MoneyRequest)
    requires Attributed(db) && Check(db, r).Go?
    ensures FlightTells(db, Check(db, r).flight)
  {
  }

  lemma ServeTells(db: Db, r: MoneyRequest)
    requires Attributed(db)
    ensures Attributed(Serve(db, r).0) && KeepsRows(db, Serve(db, r).0)
  {
    if Check(db, r).Go? {
      var f := Check(db, r).flight;
      CheckedFlight(db, r);
      CheckedFlightTells(db, r);
      LandTells(db, f);
      LandKeepsRows(db, f);
      KeysDoNotMatter(db, f);
    } else {
      NothingKeepsRows(db);
    }
  }

  lemma NothingKeepsRows(db: Db)
    requires Attributed(db)
    ensures KeepsRows(db, db)
  {
    forall t | 0 <= t < |db.txs| ensures SameParties(db.txs[t], db.txs[t]) {
      assert NamesOwners(db, db.txs[t]);
    }
  }

  lemma KeysDoNotMatter(db: Db, f: Flight)
    requires Attributed(Land(db, f).0) && KeepsRows(db, Land(db, f).0)
    ensures var (landed, o) := Land(db, f); Attributed(Conclude(landed, f, o).0) && KeepsRows(db, Conclude(landed, f, o).0)
  {
    var (landed, o) := Land(db, f);
    var after := Conclude(landed, f, o).0;
    assert after == landed.(keys := after.keys);
    if after != landed {
      NothingKeepsRows(landed);
      assert KeepsRows(landed, after) by {
        assert forall t | 0 <= t < |landed.txs| :: SameParties(landed.txs[t], after.txs[t]);
      }
      LandingTells(landed, after);
    }
  }

  // ---- the requests served in one piece

  lemma CreationTells(db: Db, d: DirectRequest)
    requires Attributed(db) && (d.CreateCardReq? || d.CreateVaultReq?)
    ensures var after := Guarded(db, d).0; Attributed(after) && KeepsRows(db, after)
  {
    var after := Guarded(db, d).0;
    NothingKeepsRows(db);
    assert after.txs == db.txs && after.ledger == db.ledger && after.auths == db.auths && after.wallets == db.wallets;
    assert KeepsRows(db, after) by {
      assert forall t | 0 <= t < |db.txs| :: SameParties(db.txs[t], after.txs[t]);
    }
    OldRowsTell(db, after);
  }

  lemma AuthorizeTells(db: Db, user: UserId, card: CardId, amount: nat, currency: Currency, key: Key, now: int)
    requires Attributed(db)
    ensures var after := AuthorizeCard(db, user, card, amount, currency, key, now).0; Attributed(after) && KeepsRows(db, after)
  {
    var (after, o) := AuthorizeCard(db, user, card, amount, currency, key, now);
    NothingKeepsRows(db);
    if o.CardAuthorized? {
      assert CardTells(db, db.cards[card]);
      assert KeepsRows(db, after) by {
        assert forall t | 0 <= t < |db.txs| :: SameParties(db.txs[t], after.txs[t]);
      }
      OldRowsTell(db, after);
    }
  }

  /** A capture or a reversal rewrites rows in place and posts two legs of the card's payment. */
  lemma CardPostTells(db: Db, after: Db, a: Leg, b: Leg, tx: TxId, wallet: WalletId)
    requires Attributed(db) && Wired(db) && KeepsRows(db, after) && after.ledger == db.ledger + [a, b]
    requires |after.txs| == |db.txs| && |after.vaults| == |db.vaults|
    requires |after.cards| == |db.cards| && |after.auths| == |db.auths|
    requires tx < |db.txs| && after.txs[tx].kind == CardPayment && after.txs[tx].senderWallet == Some(wallet)
    requires a.tx == b.tx == tx && a.currency == b.currency == after.txs[tx].currency
    requires a.account == UserWallet(wallet) && b.account == CardSuspense
    ensures Attributed(after)
  {
    OldRowsTell(db, after);
    forall j | 0 <= j < |after.ledger| ensures LegTells(after, after.ledger[j]) {
      if j < |db.ledger| {
        assert after.ledger[j] == db.ledger[j];
      }
    }
  }

  lemma CaptureTells(db: Db, user: UserId, auth: AuthId, part: Option<nat>)
    requires Attributed(db) && Wired(db)
    ensures var after := CaptureCard(db, user, auth, part).0; Attributed(after) && KeepsRows(db, after)
  {
    var (after, o) := CaptureCard(db, user, auth, part);
    NothingKeepsRows(db);
    if o.CardCaptured? {
      assert AuthTells(db, db.auths[auth]);
      assert KeepsRows(db, after) by {
        assert forall t | 0 <= t < |db.txs| :: SameParties(db.txs[t], after.txs[t]);
      }
      var n := |db.ledger|;
      CardPostTells(db, after, after.ledger[n], after.ledger[n + 1], o.tx, o.wallet);
    }
  }

  lemma ReverseTells(db: Db, user: UserId, tx: TxId, part: Option<nat>)
    requires Attributed(db) && Wired(db)
    ensures var after := ReverseCard(db, user, tx, part).0; Attributed(after) && KeepsRows(db, after)
  {
    var (after, o) := ReverseCard(db, user, tx, part);
    NothingKeepsRows(db);
    if o.CardReversed? {
      assert AuthTells(db, db.auths[o.auth]);
      assert KeepsRows(db, after) by {
        assert forall t | 0 <= t < |db.txs| :: SameParties(db.txs[t], after.txs[t]);
      }
      var n := |db.ledger|;
      CardPostTells(db, after, after.ledger[n], after.ledger[n + 1], tx, o.wallet);
    }
  }

  lemma StatusTells(db: Db, tx: TxId, status: TxStatus)
    requires Attributed(db) && tx < |db.txs|
    ensures var after := db.(txs := db.txs[tx := db.txs[tx].(status := status)]); Attributed(after) && KeepsRows(db, after)
  {
    var after := db.(txs := db.txs[tx := db.txs[tx].(status := status)]);
    NothingKeepsRows(db);
    assert KeepsRows(db, after) by {
      assert forall t | 0 <= t < |db.txs| :: SameParties(db.txs[t], after.txs[t]);
    }
    OldRowsTell(db, after);
  }

  lemma OthersTell(db: Db, d: DirectRequest)
    requires Attributed(db)
    requires !d.CreateCardReq? && !d.CreateVaultReq? && !d.AuthorizeReq? && !d.CaptureReq? && !d.ReverseReq?
    requires !d.AdminReverseReq? && !d.AdminFlagReq?
    ensures var after := Guarded(db, d).0; Attributed(after) && KeepsRows(db, after)
  {
    var after := Guarded(db, d).0;
    OthersKeepRows(db, d);
    NothingKeepsRows(db);
    assert KeepsRows(db, after) by {
      assert forall t | 0 <= t < |db.txs| :: SameParties(db.txs[t], after.txs[t]);
    }
    OldRowsTell(db, after);
  }

  lemma OthersKeepRows(db: Db, d: DirectRequest)
    requires !d.CreateCardReq? && !d.CreateVaultReq? && !d.AuthorizeReq? && !d.CaptureReq? && !d.ReverseReq?
    requires !d.AdminReverseReq? && !d.AdminFlagReq?
    ensures var after := Guarded(db, d).0;
            && after.txs == db.txs && after.ledger == db.ledger && after.auths == db.auths
            && |after.vaults| == |db.vaults| && |after.cards| == |db.cards| && OwnersStay(db, after)
            && (forall v | 0 <= v < |db.vaults| ::
                  after.vaults[v].owner == db.vaults[v].owner && after.vaults[v].wallet == db.vaults[v].wallet)
            && (forall c | 0 <= c < |db.cards| ::
                  after.cards[c].owner == db.cards[c].owner && after.cards[c].wallet == db.cards[c].wallet)
  {
  }

  lemma GuardedTells(db: Db, d: DirectRequest)
    requires Attributed(db) && Wired(db)
    ensures var after := Guarded(db, d).0; Attributed(after) && KeepsRows(db, after)
  {
    NothingKeepsRows(db);
    if Guarded(db, d).0 == db {
    } else if d.CreateCardReq? || d.CreateVaultReq? {
      CreationTells(db, d);
    } else if d.AuthorizeReq? {
      AuthorizeTells(db, d.user, d.card, d.amount, d.currency, d.key, d.now);
    } else if d.CaptureReq? {
      CaptureTells(db, d.user, d.auth, d.part);
    } else if d.ReverseReq? {
      ReverseTells(db, d.user, d.tx, d.part);
    } else if d.AdminReverseReq? {
      StatusTells(db, d.tx, Reversed);
    } else if d.AdminFlagReq? {
      StatusTells(db, d.tx, RequiresAction);
    } else {
      OthersTell(db, d);
    }
  }

  // ---- every run

  ghost predicate AllTell(s: System) {
    Attributed(s.db) && forall k | 0 <= k < |s.inflight| :: FlightTells(s.db, s.inflight[k])
  }

  lemma StepTells(s: System, a: Action)
    requires Wired(s.db) && FlightsOk(s) && AllTell(s)
    ensures AllTell(Step(s, a)) && KeepsRows(s.db, Step(s, a).db)
  {
    NothingKeepsRows(s.db);
    if a.Call? {
      ServeTells(s.db, a.r);
    } else if a.CallDirect? {
      GuardedTells(s.db, a.d);
    } else if a.Begin? {
      if Check(s.db, a.r).Go? {
        CheckedFlightTells(s.db, a.r);
      }
    } else if !a.aborts && a.k < |s.inflight| {
      LandTells(s.db, s.inflight[a.k]);
      LandKeepsRows(s.db, s.inflight[a.k]);
    }
    var t := Step(s, a);
    forall k | 0 <= k < |t.inflight| ensures FlightTells(t.db, t.inflight[k]) {
      if k < |s.inflight| && t.inflight[k] == s.inflight[k] {
        FlightStaysTold(s.db, t.db, s.inflight[k]);
      }
    }
  }

  /**
   Main result, for every run and every interleaving: every transaction names the owners of the wallets it is about, in
   the roles of its kind, and every ledger entry has the account, direction, currency and amount its transaction
   accounts for. In particular the sender of a transfer owns the wallet debited and its receiver the one credited.
   */
  lemma {:induction false} AlwaysAttributed(actions: seq<Action>)
    ensures AllTell(Run(START, actions))
  {
    if |actions| > 0 {
      var front, last := actions[..|actions| - 1], actions[|actions| - 1];
      AlwaysAttributed(front);
      AlwaysWired(front);
      StepTells(Run(START, front), last);
    }
  }
}
