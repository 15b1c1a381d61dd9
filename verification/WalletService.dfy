/** The wallet service: each method updates the database in place, write by write, as its specification says. */
module WalletService {
  import opened Schema
  import opened Endpoints
  import opened Direct

  method InitiateDeposit(db: Database, user: UserId, walletId: WalletId, amount: int, currency: Currency, key: Key,
                         provider: string, now: int)
    returns (o: Outcome)
    modifies db
    ensures (db.Snapshot(), o)
            == Serve(old(db.Snapshot()), DepositReq(user, walletId, amount, currency, key, provider, now))
  {
    if walletId >= |db.wallets| || db.wallets[walletId].owner != user { return Rejected(NotFound); }
    if amount <= 0 { return Rejected(BadRequest); }
    if db.wallets[walletId].currency != currency { return Rejected(BadRequest); }
    var hash := WalletHash(user, walletId, amount, currency);
    if key in db.keys {
      var existing := db.keys[key];
      if existing.user == user && existing.hash == hash && existing.response.Some? {
        return Replayed(existing.response.value);
      }
      return Rejected(Conflict);
    }
    o := CommitDeposit(db, user, walletId, amount, currency, key, provider, now);
  }

  /** The serializable transaction of a deposit. */
  method CommitDeposit(db: Database, user: UserId, walletId: WalletId, amount: int, currency: Currency, key: Key,
                       provider: string, now: int)
    returns (o: Outcome)
    modifies db
    ensures (db.Snapshot(), o)
            == LandDeposit(old(db.Snapshot()), DepositFlight(user, walletId, amount, currency, key, provider, now))
  {
    if key in db.keys || KeyUsed(db.txs, key) { return Rejected(Aborted); }
    db.keys := db.keys[key := KeyRow(user, PostDeposit, WalletHash(user, walletId, amount, currency), None, None)];
    var t := |db.txs|;
    db.txs := db.txs + [Txn(Deposit, None, Some(user), None, Some(walletId), amount, amount, currency, Pending,
                            Some(key), now, None)];
    db.ledger := db.ledger + [Leg(t, ProviderSuspense, Credit, amount, currency, None, None),
                              Leg(t, Provider(provider), Debit, amount, currency, None, None)];
    var response := Response(t, Some(key));
    db.keys := db.keys[key := db.keys[key].(status := Some(202), response := Some(response))];
    assert db.keys == old(db.keys)[key := db.keys[key]];
    return DepositOpened(walletId, amount, response);
  }

  method InitiateWithdraw(db: Database, user: UserId, walletId: WalletId, amount: int, currency: Currency, key: Key,
                          pin: PinVerdict, now: int)
    returns (o: Outcome)
    modifies db
    ensures (db.Snapshot(), o)
            == Serve(old(db.Snapshot()), WithdrawReq(user, walletId, amount, currency, key, pin, now))
  {
    if pin != PinRight { return Rejected(Forbidden); }
    if walletId >= |db.wallets| || db.wallets[walletId].owner != user { return Rejected(NotFound); }
    var wallet := db.wallets[walletId];
    if amount <= 0 { return Rejected(BadRequest); }
    if wallet.currency != currency { return Rejected(BadRequest); }
    if wallet.locked { return Rejected(Forbidden); }
    if wallet.available < amount { return Rejected(BadRequest); }
    var hash := WalletHash(user, walletId, amount, currency);
    if key in db.keys {
      var existing := db.keys[key];
      if existing.user == user && existing.hash == hash && existing.response.Some? {
        return Replayed(existing.response.value);
      }
      return Rejected(Conflict);
    }
    o := CommitWithdrawal(db, user, walletId, amount, currency, key, now, wallet);
  }

  /** The serializable transaction of a withdrawal, on the wallet row its checks have read. */
  method CommitWithdrawal(db: Database, user: UserId, walletId: WalletId, amount: int, currency: Currency, key: Key,
                          now: int, wallet: Wallet)
    returns (o: Outcome)
    modifies db
    ensures (db.Snapshot(), o)
            == LandWithdraw(old(db.Snapshot()), WithdrawFlight(user, walletId, amount, currency, key, now, wallet))
  {
    if key in db.keys || KeyUsed(db.txs, key) || walletId >= |db.wallets| { return Rejected(Aborted); }
    db.keys := db.keys[key := KeyRow(user, PostWithdraw, WalletHash(user, walletId, amount, currency), None, None)];
    var t := |db.txs|;
    db.txs := db.txs + [Txn(Withdrawal, Some(user), None, Some(walletId), None, amount, amount, currency, Pending,
                            Some(key), now, None)];
    db.ledger := db.ledger + [Leg(t, UserWallet(walletId), Debit, amount, currency,
                                  Some(wallet.balance), Some(wallet.balance - amount)),
                              Leg(t, ProviderSuspense, Credit, amount, currency, None, None)];
    db.wallets := db.wallets[walletId := db.wallets[walletId].(available := wallet.available - amount)];
    var response := Response(t, Some(key));
    db.keys := db.keys[key := db.keys[key].(status := Some(202), response := Some(response))];
    assert db.keys == old(db.keys)[key := db.keys[key]];
    return WithdrawalOpened(walletId, amount, response);
  }

  method TransferP2P(db: Database, user: UserId, receiverId: WalletId, amount: int, currency: Currency,
                     key: Option<Key>, pin: PinVerdict, confirmed: Option<WalletId>, now: int)
    returns (o: Outcome)
    modifies db
    ensures (db.Snapshot(), o)
            == Serve(old(db.Snapshot()), TransferReq(user, receiverId, amount, currency, key, pin, confirmed, now))
  {
    if key.Some? && key.value in db.keys && db.keys[key.value].user == user {
      var existing := db.keys[key.value];
      if existing.status == Some(200) && existing.response.Some? { return Replayed(existing.response.value); }
      return Rejected(Conflict);
    }
    if pin == PinUnset || pin == PinLocked { return Rejected(Forbidden); }
    if pin == PinWrong { return Rejected(Unauthorized); }
    var from := PrimaryWallet(db.wallets, user);
    if from.None? { return Rejected(NotFound); }
    var senderId := from.value;
    var sender := db.wallets[senderId];
    if confirmed.Some? {
      if receiverId >= |db.wallets| { return Rejected(NotFound); }
      if !CanReceive(db.wallets[receiverId]) { return Rejected(BadRequest); }
      if confirmed.value != receiverId { return Rejected(BadRequest); }
    }
    if sender.locked { return Rejected(Forbidden); }
    if amount <= 0 { return Rejected(BadRequest); }
    if sender.currency != currency { return Rejected(BadRequest); }
    if receiverId >= |db.wallets| { return Rejected(NotFound); }
    var receiver := db.wallets[receiverId];
    if !CanReceive(receiver) { return Rejected(BadRequest); }
    if receiverId == senderId { return Rejected(BadRequest); }
    if sender.dailyLimit.Some? && amount > sender.dailyLimit.value { return Rejected(BadRequest); }
    o := CommitTransfer(db, user, receiver.owner, senderId, receiverId, amount, currency, key, now);
    // the key is stored after the money has moved
    if o.Transferred? && key.Some? {
      if key.value in db.keys { return o.(keyRefused := true); }
      db.keys := db.keys[key.value := KeyRow(user, PostTransfer, NoHash, Some(200), Some(Response(o.tx, None)))];
    }
  }

  /** The serializable transaction of a transfer, on rows it reads again. */
  method CommitTransfer(db: Database, user: UserId, receiverUser: UserId, senderId: WalletId, receiverId: WalletId,
                        amount: int, currency: Currency, key: Option<Key>, now: int)
    returns (o: Outcome)
    modifies db
    ensures (db.Snapshot(), o)
            == LandTransfer(old(db.Snapshot()),
                            TransferFlight(user, receiverUser, senderId, receiverId, amount, currency, key, now))
  {
    if senderId >= |db.wallets| || receiverId >= |db.wallets| { return Rejected(Aborted); }
    var freshSender, freshReceiver := db.wallets[senderId], db.wallets[receiverId];
    if freshSender.available < amount { return Rejected(BadRequest); }
    var newSenderBalance, newSenderAvailable := freshSender.balance - amount, freshSender.available - amount;
    var newReceiverBalance, newReceiverAvailable := freshReceiver.balance + amount, freshReceiver.available + amount;
    var t := |db.txs|;
    db.txs := db.txs + [Txn(P2PTransfer, Some(user), Some(receiverUser), Some(senderId), Some(receiverId), amount,
                            amount, currency, Completed, None, now, None)];
    db.ledger := db.ledger + [Leg(t, UserWallet(senderId), Debit, amount, currency,
                                  Some(freshSender.balance), Some(newSenderBalance)),
                              Leg(t, UserWallet(receiverId), Credit, amount, currency,
                                  Some(freshReceiver.balance), Some(newReceiverBalance))];
    db.wallets := db.wallets[senderId :=
      db.wallets[senderId].(balance := newSenderBalance, available := newSenderAvailable)];
    db.wallets := db.wallets[receiverId :=
      db.wallets[receiverId].(balance := newReceiverBalance, available := newReceiverAvailable)];
    return Transferred(senderId, receiverId, amount, t, false);
  }

  method CompleteTransaction(db: Database, user: UserId, txId: TxId) returns (o: Outcome)
    modifies db
    ensures (db.Snapshot(), o) == Serve(old(db.Snapshot()), CompleteReq(user, txId))
  {
    if txId >= |db.txs| { return Rejected(NotFound); }
    var tx := db.txs[txId];
    if tx.status != Pending { return AlreadyProcessed(tx.status); }
    if tx.receiver != Some(user) && tx.sender != Some(user) { return Rejected(Forbidden); }
    if tx.kind == Deposit {
      // the serializable transaction
      if tx.receiverWallet.None? || tx.receiverWallet.value >= |db.wallets| { return Rejected(Aborted); }
      var w := tx.receiverWallet.value;
      var wallet := db.wallets[w];
      db.ledger := db.ledger + [Leg(txId, UserWallet(w), Credit, tx.amount, tx.currency,
                                    Some(wallet.balance), Some(wallet.balance + tx.amount))];
      db.wallets := db.wallets[w :=
        db.wallets[w].(balance := wallet.balance + tx.amount, available := wallet.available + tx.amount)];
      db.txs := db.txs[txId := db.txs[txId].(status := Completed)];
      return DepositSettled(w, tx.amount, txId);
    }
    if tx.kind == Withdrawal {
      // the serializable transaction; the wallet's balance is not lowered
      if tx.senderWallet.None? || tx.senderWallet.value >= |db.wallets| { return Rejected(Aborted); }
      db.ledger := db.ledger + [Leg(txId, ManualPayout, Debit, tx.amount, tx.currency, None, None)];
      db.txs := db.txs[txId := db.txs[txId].(status := Completed)];
      return WithdrawalSettled(tx.senderWallet.value, tx.amount, txId);
    }
    return Rejected(BadRequest);
  }

  method CreateWallet(db: Database, user: UserId, currency: Currency) returns (o: Outcome)
    modifies db
    ensures (db.Snapshot(), o) == Direct.CreateWallet(old(db.Snapshot()), user, currency)
  {
    if user >= |db.users| { return Rejected(NotFound); }
    if currency !in AllowedCurrencies(db.users[user].tier) { return Rejected(BadRequest); }
    if Holds(db.wallets, user, currency) { return Rejected(Conflict); }
    db.wallets := db.wallets + [NewWallet(user, currency, false)];
    return Done;
  }

  method EnsurePrimaryWallet(db: Database, user: UserId)
    modifies db
    ensures db.Snapshot() == Direct.EnsurePrimaryWallet(old(db.Snapshot()), user)
  {
    if !HoldsAny(db.wallets, user) {
      db.wallets := db.wallets + [NewWallet(user, RWF, true)];
    }
  }

  method SetPrimaryWallet(db: Database, user: UserId, walletId: WalletId) returns (o: Outcome)
    modifies db
    ensures (db.Snapshot(), o) == SetPrimary(old(db.Snapshot()), user, walletId)
  {
    if walletId >= |db.wallets| || db.wallets[walletId].owner != user { return Rejected(NotFound); }
    if db.wallets[walletId].primary { return Done; }
    if db.wallets[walletId].status != WalletActive { return Rejected(BadRequest); }
    // one transaction: the mark is removed from all wallets of the user, then set on the chosen one
    ghost var before := db.wallets;
    var i := 0;
    while i < |db.wallets|
      invariant 0 <= i <= |db.wallets| == |before|
      invariant db.Snapshot() == old(db.Snapshot()).(wallets := db.wallets)
      invariant forall w | 0 <= w < |before| ::
        db.wallets[w] == if w < i && before[w].owner == user then before[w].(primary := false) else before[w]
    {
      if db.wallets[i].owner == user {
        db.wallets := db.wallets[i := db.wallets[i].(primary := false)];
      }
      i := i + 1;
    }
    db.wallets := db.wallets[walletId := db.wallets[walletId].(primary := true)];
    assert db.wallets == MovePrimary(before, user, walletId);
    return Done;
  }
}
