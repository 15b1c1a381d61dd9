/** Exactly which money requests go through, what they record about whom, and whose stored answer a repeated key gets. */
module Admission {
  import opened Schema
  import opened Sums
  import opened Endpoints
  import opened Direct
  import opened Machine
  import opened Effects
  import opened Books
  import opened Lifecycle
  import opened Idempotency
  import opened Attribution

  // ---- the requests under a key

  predicate OwnWallet(db: Db, user: UserId, w: WalletId) {
    w < |db.wallets| && db.wallets[w].owner == user
  }

  predicate OwnVault(db: Db, user: UserId, v: VaultId) {
    v < |db.vaults| && db.vaults[v].owner == user && db.vaults[v].wallet < |db.wallets|
  }

  /** Everything but the key allows the request. */
  predicate Allowed(db: Db, r: MoneyRequest)
    requires Keyed(r)
  {
    match r
    case DepositReq(user, w, amount, currency, _, _, _) =>
      OwnWallet(db, user, w) && amount > 0 && db.wallets[w].currency == currency
    case WithdrawReq(user, w, amount, currency, _, pin, _) =>
      && pin == PinRight && OwnWallet(db, user, w) && !db.wallets[w].locked && db.wallets[w].currency == currency
      && 0 < amount <= db.wallets[w].available
    case FundReq(user, v, amount, _, _, _) =>
      OwnVault(db, user, v) && amount <= db.wallets[db.vaults[v].wallet].available
    case DrainReq(user, v, amount, _, _) =>
      OwnVault(db, user, v) && !db.vaults[v].locked && amount <= db.vaults[v].amount
    case _ => false
  }

  /** The request opens its transaction. */
  predicate Opens(o: Outcome, r: MoneyRequest) {
    match r
    case DepositReq(_, _, _, _, _, _, _) => o.DepositOpened?
    case WithdrawReq(_, _, _, _, _, _, _) => o.WithdrawalOpened?
    case FundReq(_, _, _, _, _, _) => o.VaultFunded?
    case DrainReq(_, _, _, _, _) => o.VaultDrained?
    case _ => false
  }

  /** The stored key was used by the same user for a request of the same content. */
  predicate SameContent(row: KeyRow, r: MoneyRequest)
    requires Keyed(r)
  {
    && row.user == r.user && row.response.Some?
    && row.hash == (if r.DepositReq? || r.WithdrawReq? then WalletHash(r.user, r.wallet, r.amount, r.currency)
                    else VaultHash(r.user, r.vault, r.amount))
  }

  lemma DepositAnswers(db: Db, r: MoneyRequest)
    requires r.DepositReq?
    ensures var (after, o) := Serve(db, r); Answers(db, r, after, o)
  {
  }

  lemma WithdrawalAnswers(db: Db, r: MoneyRequest)
    requires r.WithdrawReq?
    ensures var (after, o) := Serve(db, r); Answers(db, r, after, o)
  {
  }

  lemma FundAnswers(db: Db, r: MoneyRequest)
    requires r.FundReq?
    ensures var (after, o) := Serve(db, r); Answers(db, r, after, o)
  {
  }

  lemma DrainAnswers(db: Db, r: MoneyRequest)
    requires r.DrainReq?
    ensures var (after, o) := Serve(db, r); Answers(db, r, after, o)
  {
  }

  predicate Answers(db: Db, r: MoneyRequest, after: Db, o: Outcome)
    requires Keyed(r)
  {
    && (Opens(o, r) <==> Allowed(db, r) && !Taken(db, r.key))
    && (o.Replayed? <==> Allowed(db, r) && r.key in db.keys && SameContent(db.keys[r.key], r))
    && (Opens(o, r) || o.Replayed? || o.Rejected?)
    && (!Opens(o, r) ==> after == db)
  }

  /**
   Main result: a deposit, a withdrawal or a vault move opens its transaction if and only if its user owns the wallet or
   vault, its PIN, lock, currency and funds allow it, and its key is unused; it gets a stored answer if and only if
   they allow it and the same user has used the key for the same content; it is rejected otherwise, and only an opened
   transaction changes anything.
   */
  lemma AnsweredExactly(db: Db, r: MoneyRequest)
    requires Keyed(r)
    ensures var (after, o) := Serve(db, r); Answers(db, r, after, o)
  {
    if r.DepositReq? {
      DepositAnswers(db, r);
    } else if r.WithdrawReq? {
      WithdrawalAnswers(db, r);
    } else if r.FundReq? {
      FundAnswers(db, r);
    } else {
      DrainAnswers(db, r);
    }
  }

  /** The wallet or vault of the request exists and is its user's, and the wallet of the vault exists. */
  predicate Reaches(db: Db, r: MoneyRequest)
    requires Keyed(r)
  {
    if r.DepositReq? || r.WithdrawReq? then OwnWallet(db, r.user, r.wallet) else OwnVault(db, r.user, r.vault)
  }

  /** A wrong PIN stops a withdrawal before anything else is looked at. */
  predicate PinStops(r: MoneyRequest) {
    r.WithdrawReq? && r.pin != PinRight
  }

  /** A withdrawal that is fine in itself meets a locked wallet. */
  predicate LockStops(db: Db, r: MoneyRequest) {
    && r.WithdrawReq? && r.pin == PinRight && r.amount > 0 && OwnWallet(db, r.user, r.wallet)
    && db.wallets[r.wallet].currency == r.currency && db.wallets[r.wallet].locked
  }

  /**
   What a refusal tells: the caller's PIN or a lock, that nothing of the caller's is there, a key used for something
   else, or a key that another transaction carries.
   */
  lemma RefusalsTell(db: Db, r: MoneyRequest)
    requires Keyed(r)
    ensures var o := Serve(db, r).1;
            && (PinStops(r) ==> o == Rejected(Forbidden))
            && (!PinStops(r) && !Reaches(db, r) && !(r.DrainReq? && r.vault < |db.vaults|) ==> o == Rejected(NotFound))
            && (Allowed(db, r) && r.key in db.keys && !SameContent(db.keys[r.key], r) ==>
                  o == Rejected(if r.DepositReq? || r.WithdrawReq? then Conflict else BadRequest))
            && (Allowed(db, r) && r.key !in db.keys && KeyUsed(db.txs, r.key) ==> o == Rejected(Aborted))
            && (LockStops(db, r) ==> o == Rejected(Forbidden))
  {
  }

  // ---- what an opened request records

  /** The new transaction carries the terms of the request and names its user in the roles of its kind. */
  predicate Records(db: Db, r: MoneyRequest, tx: Txn)
    requires Keyed(r)
  {
    && tx.amount == tx.net == r.amount && tx.key == Some(r.key) && tx.createdAt == r.now && tx.category.None?
    && match r
       case DepositReq(user, w, _, currency, _, _, _) =>
         tx.kind == Deposit && tx.status == Pending && tx.currency == currency
         && (tx.sender, tx.senderWallet, tx.receiver, tx.receiverWallet) == (None, None, Some(user), Some(w))
       case WithdrawReq(user, w, _, currency, _, _, _) =>
         tx.kind == Withdrawal && tx.status == Pending && tx.currency == currency
         && (tx.sender, tx.senderWallet, tx.receiver, tx.receiverWallet) == (Some(user), Some(w), None, None)
       case FundReq(user, v, _, _, _, _) =>
         tx.kind == VaultContribution && tx.status == Completed && MovesWithin(db, tx, user, v)
       case DrainReq(user, v, _, _, _) =>
         tx.kind == VaultWithdrawal && tx.status == Completed && MovesWithin(db, tx, user, v)
       case _ => false
  }

  predicate MovesWithin(db: Db, tx: Txn, user: UserId, v: VaultId) {
    && v < |db.vaults| && tx.currency == db.vaults[v].currency
    && tx.sender == tx.receiver == Some(user)
    && tx.senderWallet == tx.receiverWallet == Some(db.vaults[v].wallet)
  }

  function HashOf(r: MoneyRequest): RequestHash
    requires Keyed(r)
  {
    if r.DepositReq? || r.WithdrawReq? then WalletHash(r.user, r.wallet, r.amount, r.currency)
    else VaultHash(r.user, r.vault, r.amount)
  }

  /** The key is stored with its user, its content, and a response that names the transaction. */
  predicate StoresKey(db: Db, r: MoneyRequest, after: Db)
    requires Keyed(r)
  {
    && r.key in after.keys && after.keys.Keys == db.keys.Keys + {r.key}
    && after.keys[r.key].user == r.user && after.keys[r.key].hash == HashOf(r)
    && after.keys[r.key].status == Some(if r.DepositReq? || r.WithdrawReq? then 202 else 200)
    && after.keys[r.key].response == Some(Response(|db.txs|, Some(r.key)))
  }

  /** The outcome reports the wallet or vault of the request and its amount. */
  predicate Reports(db: Db, r: MoneyRequest, o: Outcome) {
    match r
    case DepositReq(_, w, amount, _, key, _, _) => o == DepositOpened(w, amount, Response(|db.txs|, Some(key)))
    case WithdrawReq(_, w, amount, _, key, _, _) => o == WithdrawalOpened(w, amount, Response(|db.txs|, Some(key)))
    case FundReq(_, v, amount, key, _, _) =>
      v < |db.vaults| && o == VaultFunded(db.vaults[v].wallet, v, amount, Response(|db.txs|, Some(key)))
    case DrainReq(_, v, amount, key, _) =>
      v < |db.vaults| && o == VaultDrained(db.vaults[v].wallet, v, amount, Response(|db.txs|, Some(key)))
    case _ => false
  }

  predicate RecordsRequest(db: Db, r: MoneyRequest, after: Db, o: Outcome)
    requires Keyed(r)
  {
    && |after.txs| == |db.txs| + 1 && db.txs <= after.txs && Records(db, r, after.txs[|db.txs|])
    && StoresKey(db, r, after) && Reports(db, r, o)
  }

  lemma WalletRequestRecords(db: Db, r: MoneyRequest)
    requires (r.DepositReq? || r.WithdrawReq?) && Opens(Serve(db, r).1, r)
    ensures var (after, o) := Serve(db, r); RecordsRequest(db, r, after, o)
  {
  }

  lemma VaultRequestRecords(db: Db, r: MoneyRequest)
    requires (r.FundReq? || r.DrainReq?) && Opens(Serve(db, r).1, r)
    ensures var (after, o) := Serve(db, r); RecordsRequest(db, r, after, o)
  {
  }

  /** Main result: what an opened request records is its own user, wallet or vault, amount, currency, key and time. */
  lemma OpenedRecordsRequest(db: Db, r: MoneyRequest)
    requires Keyed(r) && Opens(Serve(db, r).1, r)
    ensures var (after, o) := Serve(db, r); RecordsRequest(db, r, after, o)
  {
    if r.DepositReq? || r.WithdrawReq? {
      WalletRequestRecords(db, r);
    } else {
      VaultRequestRecords(db, r);
    }
  }

  /** A vault deposit leaves a contribution record of its vault, wallet, transaction, amount and source. */
  lemma FundRecordsContribution(db: Db, r: MoneyRequest)
    requires r.FundReq? && Serve(db, r).1.VaultFunded?
    ensures var after := Serve(db, r).0;
            && |after.contributions| == |db.contributions| + 1 && db.contributions <= after.contributions
            && var c := after.contributions[|db.contributions|];
               c.vault == r.vault && c.wallet == db.vaults[r.vault].wallet && c.tx == |db.txs| && c.amount == r.amount
               && c.source == r.source
  {
  }

  /** The hold of a withdrawal records the balance of the wallet and what it will be once paid out. */
  lemma HoldRecordsBalance(db: Db, r: MoneyRequest)
    requires r.WithdrawReq? && Serve(db, r).1.WithdrawalOpened?
    ensures var after := Serve(db, r).0;
            && |after.ledger| == |db.ledger| + 2
            && var hold := after.ledger[|db.ledger|];
               hold.account == UserWallet(r.wallet) && hold.before == Some(BalanceAt(db, r.wallet))
               && hold.after == Some(BalanceAt(db, r.wallet) - r.amount)
  {
  }

  /** A deposit names its provider on the debit side. */
  lemma DepositNamesProvider(db: Db, r: MoneyRequest)
    requires r.DepositReq? && Serve(db, r).1.DepositOpened?
    ensures var after := Serve(db, r).0;
            |after.ledger| == |db.ledger| + 2 && after.ledger[|db.ledger| + 1].account == Provider(r.provider)
  {
  }

  // ---- completions

  predicate Settled(o: Outcome) {
    o.DepositSettled? || o.WithdrawalSettled?
  }

  /** The wallet a deposit or a withdrawal was opened on. */
  function WalletOf(tx: Txn): Option<WalletId> {
    if tx.kind == Deposit then tx.receiverWallet else tx.senderWallet
  }

  /** The user owns the wallet the pending deposit or withdrawal was opened on. */
  predicate MaySettle(db: Db, user: UserId, t: TxId) {
    && t < |db.txs| && db.txs[t].status == Pending
    && (db.txs[t].kind == Deposit || db.txs[t].kind == Withdrawal)
    && Owns(db, Some(user), WalletOf(db.txs[t]))
  }

  predicate NoPartyOfPending(db: Db, user: UserId, t: TxId) {
    && t < |db.txs| && db.txs[t].status == Pending
    && db.txs[t].sender != Some(user) && db.txs[t].receiver != Some(user)
  }

  lemma SettlesExactly(db: Db, r: MoneyRequest)
    requires r.CompleteReq? && (r.tx < |db.txs| ==> NamesOwners(db, db.txs[r.tx]))
    ensures Settled(Serve(db, r).1) <==> MaySettle(db, r.user, r.tx)
  {
  }

  lemma SettlementReports(db: Db, r: MoneyRequest)
    requires r.CompleteReq? && Settled(Serve(db, r).1)
    ensures var (after, o) := Serve(db, r);
            && r.tx < |db.txs| && o.tx == r.tx && o.amount == db.txs[r.tx].amount && WalletOf(db.txs[r.tx]) == Some(o.wallet)
            && (o.DepositSettled? <==> db.txs[r.tx].kind == Deposit)
            && after.txs == db.txs[r.tx := db.txs[r.tx].(status := Completed)]
  {
  }

  /**
   Main result, in every reachable state: a completion settles a transaction if and only if it is a pending deposit or
   withdrawal and the caller owns the wallet it was opened on; a caller who is no party is refused, and nothing but a
   settlement changes anything.
   */
  lemma SettledExactly(actions: seq<Action>, db: Db, r: MoneyRequest)
    requires db == Run(START, actions).db && r.CompleteReq?
    ensures var (after, o) := Serve(db, r);
            && (Settled(o) <==> MaySettle(db, r.user, r.tx))
            && (Settled(o) ==> OwnWallet(db, r.user, o.wallet) && o.tx == r.tx)
            && (!Settled(o) ==> after == db)
            && (NoPartyOfPending(db, r.user, r.tx) ==> o == Rejected(Forbidden))
            && (r.tx < |db.txs| && db.txs[r.tx].status != Pending ==> o == AlreadyProcessed(db.txs[r.tx].status))
  {
    AlwaysAttributed(actions);
    SettlesExactly(db, r);
    if Settled(Serve(db, r).1) {
      SettlementReports(db, r);
    }
  }

  /** Owners never change, so the user who settles a transaction is the user who opened it. */
  lemma {:induction false} SettlerOpenedIt(before: seq<Action>, r: MoneyRequest, later: seq<Action>, c: MoneyRequest)
    requires (r.DepositReq? || r.WithdrawReq?) && Opens(Serve(Run(START, before).db, r).1, r)
    requires c.CompleteReq? && c.tx == Serve(Run(START, before).db, r).1.response.tx
    requires Settled(Serve(Run(START, before + [Call(r)] + later).db, c).1)
    ensures c.user == r.user
  {
    var made := before + [Call(r)];
    assert made[..|before|] == before;
    var was, db := Run(START, made).db, Run(START, made + later).db;
    WalletRequestRecords(Run(START, before).db, r);
    RunContinues(START, made, later);
    AlwaysAttributed(made);
    RowsStay(made, later);
    AlwaysAttributed(made + later);
    SettlesExactly(db, c);
    assert SameParties(was.txs[c.tx], db.txs[c.tx]);
    assert NamesOwners(db, db.txs[c.tx]) && NamesOwners(was, was.txs[c.tx]);
  }

  lemma {:induction false} RowsStay(before: seq<Action>, later: seq<Action>)
    ensures KeepsRows(Run(START, before).db, Run(START, before + later).db)
  {
    if |later| == 0 {
      assert before + later == before;
      AlwaysAttributed(before);
      NothingKeepsRows(Run(START, before).db);
    } else {
      var n := |later| - 1;
      RowsStay(before, later[..n]);
      assert (before + later)[..|before + later| - 1] == before + later[..n];
      AlwaysAttributed(before + later[..n]);
      AlwaysWired(before + later[..n]);
      StepTells(Run(START, before + later[..n]), later[n]);
      KeepsRowsOn(Run(START, before).db, Run(START, before + later[..n]).db, Run(START, before + later).db);
    }
  }

  lemma KeepsRowsOn(a: Db, b: Db, c: Db)
    requires KeepsRows(a, b) && KeepsRows(b, c)
    ensures KeepsRows(a, c)
  {
    forall t | 0 <= t < |a.txs| ensures SameParties(a.txs[t], c.txs[t]) {
      assert SameParties(a.txs[t], b.txs[t]) && SameParties(b.txs[t], c.txs[t]);
    }
  }

  // ---- transfers

  /** The row of a transfer names the requester and the owner of the receiving wallet, and the two wallets. */
  lemma TransferNamesParties(db: Db, r: MoneyRequest)
    requires r.TransferReq? && Serve(db, r).1.Transferred?
    ensures var (after, o) := Serve(db, r);
            && |after.txs| == |db.txs| + 1 && db.txs <= after.txs && o.tx == |db.txs|
            && r.receiver < |db.wallets| && o.to == r.receiver && o.amount == r.amount
            && var tx := after.txs[o.tx];
               && tx.kind == P2PTransfer && tx.status == Completed && tx.createdAt == r.now && tx.currency == r.currency
               && tx.sender == Some(r.user) && tx.receiver == Some(db.wallets[r.receiver].owner)
               && tx.senderWallet == Some(o.from) && tx.receiverWallet == Some(r.receiver)
               && tx.amount == tx.net == r.amount && tx.key.None? && tx.category.None?
  {
  }

  /** A frozen wallet neither sends nor receives a transfer. */
  lemma FrozenTransfersNothing(db: Db, r: MoneyRequest, w: WalletId)
    requires r.TransferReq? && w < |db.wallets| && db.wallets[w].status == WalletFrozen
    ensures var o := Serve(db, r).1; o.Transferred? ==> o.from != w && o.to != w
  {
  }

  // ---- vaults

  /** A vault is made exactly on a wallet of the user, empty, unlocked, and ready to be paid into by that user alone. */
  lemma VaultMadeExactly(db: Db, user: UserId, wallet: WalletId, currency: Currency)
    ensures var (after, o) := CreateVault(db, user, wallet, currency);
            && (o.Done? <==> OwnWallet(db, user, wallet))
            && (o.Done? ==>
                  && |after.vaults| == |db.vaults| + 1 && db.vaults <= after.vaults
                  && SavedAt(after, |db.vaults|) == 0 && after.vaults[|db.vaults|].currency == currency
                  && after.vaults[|db.vaults|].wallet == wallet
                  && (forall saver: UserId :: OwnVault(after, saver, |db.vaults|) <==> saver == user)
                  && !after.vaults[|db.vaults|].locked)
  {
  }

  /** Nothing is taken out of a locked vault; unlocking it makes it what it was. */
  lemma LockedVaultPaysNothing(db: Db, user: UserId, v: VaultId, r: MoneyRequest)
    requires v < |db.vaults| && db.vaults[v].owner == user && !db.vaults[v].locked
    requires r.DrainReq? && r.vault == v
    ensures var locked := LockVault(db, user, v, true).0;
            !Serve(locked, r).1.VaultDrained? && LockVault(locked, user, v, false) == (db, Done)
    ensures forall other: UserId, lock: bool | other != user :: LockVault(db, other, v, lock) == (db, Rejected(NotFound))
  {
    var locked := LockVault(db, user, v, true).0;
    assert LockVault(locked, user, v, false).0.vaults == db.vaults;
    DrainAnswers(locked, r);
  }
}
