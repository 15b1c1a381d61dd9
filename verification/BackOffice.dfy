/** Administration of wallets and transactions, review of identity documents, and the onboarding of users. */
module AdminFinanceService {
  import opened Schema
  import opened Endpoints
  import Direct

  method FreezeWallet(db: Database, walletId: WalletId) returns (o: Outcome)
    modifies db
    ensures (db.Snapshot(), o) == Direct.FreezeWallet(old(db.Snapshot()), walletId)
  {
    if walletId >= |db.wallets| { return Rejected(NotFound); }
    if db.wallets[walletId].status == WalletClosed { return Rejected(BadRequest); }
    if db.wallets[walletId].status == WalletFrozen { return Rejected(BadRequest); }
    db.wallets := db.wallets[walletId := db.wallets[walletId].(status := WalletFrozen)];
    return Done;
  }

  method UnfreezeWallet(db: Database, walletId: WalletId) returns (o: Outcome)
    modifies db
    ensures (db.Snapshot(), o) == Direct.UnfreezeWallet(old(db.Snapshot()), walletId)
  {
    if walletId >= |db.wallets| { return Rejected(NotFound); }
    if db.wallets[walletId].status != WalletFrozen { return Rejected(BadRequest); }
    db.wallets := db.wallets[walletId := db.wallets[walletId].(status := WalletActive)];
    return Done;
  }

  method ReverseTransaction(db: Database, txId: TxId) returns (o: Outcome)
    modifies db
    ensures (db.Snapshot(), o) == Direct.AdminReverse(old(db.Snapshot()), txId)
  {
    if txId >= |db.txs| { return Rejected(NotFound); }
    if db.txs[txId].status == Reversed { return Rejected(BadRequest); }
    if db.txs[txId].status != Completed && db.txs[txId].status != Processing { return Rejected(BadRequest); }
    db.txs := db.txs[txId := db.txs[txId].(status := Reversed)];
    return Done;
  }

  method FlagTransaction(db: Database, txId: TxId) returns (o: Outcome)
    modifies db
    ensures (db.Snapshot(), o) == Direct.AdminFlag(old(db.Snapshot()), txId)
  {
    if txId >= |db.txs| { return Rejected(NotFound); }
    if db.txs[txId].status == RequiresAction { return Rejected(BadRequest); }
    db.txs := db.txs[txId := db.txs[txId].(status := RequiresAction)];
    return Done;
  }
}

module AdminKycService {
  import opened Schema
  import opened Endpoints
  import Direct

  method ApproveKyc(db: Database, docId: DocId, now: int) returns (o: Outcome)
    modifies db
    ensures (db.Snapshot(), o) == Direct.ApproveKyc(old(db.Snapshot()), docId, now)
  {
    if docId >= |db.docs| { return Rejected(NotFound); }
    var doc := db.docs[docId];
    if doc.verifiedAt.Some? { return Rejected(BadRequest); }
    if doc.rejectedAt.Some? { return Rejected(BadRequest); }
    if doc.user >= |db.users| { return Rejected(Aborted); }
    db.docs := db.docs[docId := db.docs[docId].(verifiedAt := Some(now))];
    db.users := db.users[doc.user := db.users[doc.user].(kyc := Verified, tier := Tier2)];
    return Done;
  }

  method RejectKyc(db: Database, docId: DocId, now: int) returns (o: Outcome)
    modifies db
    ensures (db.Snapshot(), o) == Direct.RejectKyc(old(db.Snapshot()), docId, now)
  {
    if docId >= |db.docs| { return Rejected(NotFound); }
    var doc := db.docs[docId];
    if doc.verifiedAt.Some? { return Rejected(BadRequest); }
    if doc.rejectedAt.Some? { return Rejected(BadRequest); }
    if doc.user >= |db.users| { return Rejected(Aborted); }
    db.docs := db.docs[docId := db.docs[docId].(rejectedAt := Some(now))];
    db.users := db.users[doc.user := db.users[doc.user].(kyc := Refused)];
    return Done;
  }
}

module OnboardingService {
  import opened Schema
  import opened Endpoints
  import Direct
  import WalletService

  method Register(db: Database, email: string, phone: string) returns (o: Outcome)
    modifies db
    ensures (db.Snapshot(), o) == Direct.Register(old(db.Snapshot()), email, phone)
  {
    if Direct.Registered(db.users, email, phone) { return Rejected(Conflict); }
    db.users := db.users + [User(email, phone, UserPending, false, NotStarted, Tier0)];
    return Done;
  }

  /** codeAccepted is the verdict of the one-time code check. */
  method VerifyEmail(db: Database, user: UserId, codeAccepted: bool) returns (o: Outcome)
    modifies db
    ensures (db.Snapshot(), o) == Direct.VerifyEmail(old(db.Snapshot()), user, codeAccepted)
  {
    if user >= |db.users| { return Rejected(NotFound); }
    if db.users[user].emailVerified { return Rejected(BadRequest); }
    if !codeAccepted { return Rejected(BadRequest); }
    db.users := db.users[user := db.users[user].(emailVerified := true, status := UserActive, tier := Tier1)];
    WalletService.EnsurePrimaryWallet(db, user);
    return Done;
  }

  method SubmitKyc(db: Database, user: UserId) returns (o: Outcome)
    modifies db
    ensures (db.Snapshot(), o) == Direct.SubmitKyc(old(db.Snapshot()), user)
  {
    if user >= |db.users| { return Rejected(NotFound); }
    if db.users[user].kyc == Verified { return Rejected(BadRequest); }
    var found := Direct.DocOf(db.docs, user);
    if found.Some? {
      db.docs := db.docs[found.value := db.docs[found.value].(rejectedAt := None)];
    } else {
      db.docs := db.docs + [Doc(user, None, None)];
    }
    db.users := db.users[user := db.users[user].(kyc := InProgress)];
    return Done;
  }
}
