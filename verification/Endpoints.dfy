/**
 Specification of the endpoints that move money between wallets, vaults and the provider.

 Each of them runs in two phases: checks that read the tables outside any database transaction, and one
 serializable transaction that writes. Check gives either the final answer or the request in flight, with
 the rows it has read; Land is the transaction, and it uses the rows the flight carries exactly where the
 source does. Serve is a request whose two phases nothing separates.
 */
module Endpoints {
  import opened Schema

  datatype Error = NotFound | BadRequest | Forbidden | Unauthorized | Conflict | Aborted

  /** What the PIN check answers; the PIN itself is handled by the PIN module. */
  datatype PinVerdict = PinUnset | PinLocked | PinWrong | PinRight

  datatype MoneyRequest =
    | DepositReq(user: UserId, wallet: WalletId, amount: int, currency: Currency, key: Key,
                 provider: string, now: int)
    | WithdrawReq(user: UserId, wallet: WalletId, amount: int, currency: Currency, key: Key,
                  pin: PinVerdict, now: int)
    | TransferReq(user: UserId, receiver: WalletId, amount: int, currency: Currency, optKey: Option<Key>,
                  pin: PinVerdict, confirmed: Option<WalletId>, now: int)
    | CompleteReq(user: UserId, tx: TxId)
    | FundReq(user: UserId, vault: VaultId, amount: int, key: Key, source: Source, now: int)
    | DrainReq(user: UserId, vault: VaultId, amount: int, key: Key, now: int)

  /** What one call, or one landed transaction, reports. */
  datatype Outcome =
    | Rejected(error: Error)
    | Replayed(response: Response)
    | AlreadyProcessed(status: TxStatus)
    | Parked
    | Done
    | DepositOpened(wallet: WalletId, amount: int, response: Response)
    | WithdrawalOpened(wallet: WalletId, amount: int, response: Response)
    | Transferred(from: WalletId, to: WalletId, amount: int, tx: TxId, keyRefused: bool)
    | DepositSettled(wallet: WalletId, amount: int, tx: TxId)
    | WithdrawalSettled(wallet: WalletId, amount: int, tx: TxId)
    | VaultFunded(wallet: WalletId, vault: VaultId, amount: int, response: Response)
    | VaultDrained(wallet: WalletId, vault: VaultId, amount: int, response: Response)
    | CardAuthorized(card: CardId, auth: AuthId, amount: int, tx: TxId)
    | CardCaptured(card: CardId, auth: AuthId, wallet: WalletId, amount: int, tx: TxId)
    | CardReversed(card: CardId, auth: AuthId, wallet: WalletId, amount: int, tx: TxId)

  /** A request between its checks and its transaction, with the rows the checks have read. */
  datatype Flight =
    | Landed
    | DepositFlight(user: UserId, wallet: WalletId, amount: int, currency: Currency, key: Key,
                    provider: string, now: int)
    | WithdrawFlight(user: UserId, wallet: WalletId, amount: int, currency: Currency, key: Key, now: int,
                     walletRow: Wallet)
    | TransferFlight(user: UserId, receiver: UserId, from: WalletId, to: WalletId, amount: int,
                     currency: Currency, optKey: Option<Key>, now: int)
    | SettleFlight(tx: TxId, txRow: Txn)
    | FundFlight(user: UserId, vault: VaultId, wallet: WalletId, amount: int, key: Key, source: Source,
                 now: int, walletRow: Wallet, vaultRow: Vault)
    | DrainFlight(user: UserId, vault: VaultId, wallet: WalletId, amount: int, key: Key, now: int,
                  walletRow: Wallet, vaultRow: Vault)
    | StoreKeyFlight(user: UserId, key: Key, tx: TxId)

  datatype Decision = Reply(outcome: Outcome) | Go(flight: Flight)

  // ---- reads shared by several endpoints

  /** The answer a known idempotency key forces, if the key is known. */
  function KeyAnswer(keys: map<Key, KeyRow>, key: Key, user: UserId, hash: RequestHash, clash: Error)
    : (answer: Option<Outcome>)
    ensures answer.None? <==> key !in keys
  {
    if key !in keys then None
    else if keys[key].user == user && keys[key].hash == hash && keys[key].response.Some?
    then Some(Replayed(keys[key].response.value))
    else Some(Rejected(clash))
  }

  /** Some transaction carries the key. */
  predicate KeyUsed(txs: seq<Txn>, key: Key) {
    exists t | 0 <= t < |txs| :: txs[t].key == Some(key)
  }

  /** A transaction that reserves the key and writes it on its row would violate a unique column. */
  predicate Taken(db: Db, key: Key) {
    key in db.keys || KeyUsed(db.txs, key)
  }

  /** The first active primary wallet of the user. */
  function PrimaryWallet(wallets: seq<Wallet>, user: UserId): (w: Option<WalletId>)
    ensures w.Some? ==> w.value < |wallets| && IsActivePrimary(wallets[w.value], user)
    ensures w.None? ==> forall i | 0 <= i < |wallets| :: !IsActivePrimary(wallets[i], user)
  {
    if |wallets| == 0 then None
    else
      var last := |wallets| - 1;
      var w := PrimaryWallet(wallets[..last], user);
      if w.Some? then w else if IsActivePrimary(wallets[last], user) then Some(last) else None
  }

  predicate IsActivePrimary(w: Wallet, user: UserId) {
    w.owner == user && w.primary && w.status == WalletActive
  }

  predicate CanReceive(w: Wallet) {
    w.status == WalletActive && !w.locked
  }

  // ---- phase one: the checks

  function CheckDeposit(db: Db, r: MoneyRequest): Decision
    requires r.DepositReq?
  {
    if r.wallet >= |db.wallets| || db.wallets[r.wallet].owner != r.user then Reply(Rejected(NotFound))
    else if r.amount <= 0 || db.wallets[r.wallet].currency != r.currency then Reply(Rejected(BadRequest))
    else match KeyAnswer(db.keys, r.key, r.user, WalletHash(r.user, r.wallet, r.amount, r.currency), Conflict)
      case Some(answer) => Reply(answer)
      case None => Go(DepositFlight(r.user, r.wallet, r.amount, r.currency, r.key, r.provider, r.now))
  }

  function CheckWithdraw(db: Db, r: MoneyRequest): Decision
    requires r.WithdrawReq?
  {
    if r.pin != PinRight then Reply(Rejected(Forbidden))
    else if r.wallet >= |db.wallets| || db.wallets[r.wallet].owner != r.user then Reply(Rejected(NotFound))
    else
      var row := db.wallets[r.wallet];
      if r.amount <= 0 || row.currency != r.currency then Reply(Rejected(BadRequest))
      else if row.locked then Reply(Rejected(Forbidden))
      else if row.available < r.amount then Reply(Rejected(BadRequest))
      else match KeyAnswer(db.keys, r.key, r.user, WalletHash(r.user, r.wallet, r.amount, r.currency), Conflict)
        case Some(answer) => Reply(answer)
        case None => Go(WithdrawFlight(r.user, r.wallet, r.amount, r.currency, r.key, r.now, row))
  }

  function CheckTransfer(db: Db, r: MoneyRequest): Decision
    requires r.TransferReq?
  {
    if r.optKey.Some? && r.optKey.value in db.keys && db.keys[r.optKey.value].user == r.user then
      var row := db.keys[r.optKey.value];
      if row.status == Some(200) && row.response.Some? then Reply(Replayed(row.response.value))
      else Reply(Rejected(Conflict))
    else if r.pin == PinUnset || r.pin == PinLocked then Reply(Rejected(Forbidden))
    else if r.pin == PinWrong then Reply(Rejected(Unauthorized))
    else match PrimaryWallet(db.wallets, r.user)
      case None => Reply(Rejected(NotFound))
      case Some(from) =>
        var sender := db.wallets[from];
        if r.confirmed.Some? && r.receiver >= |db.wallets| then Reply(Rejected(NotFound))
        else if r.confirmed.Some? && (!CanReceive(db.wallets[r.receiver]) || r.confirmed.value != r.receiver)
        then Reply(Rejected(BadRequest))
        else if sender.locked then Reply(Rejected(Forbidden))
        else if r.amount <= 0 || sender.currency != r.currency then Reply(Rejected(BadRequest))
        else if r.receiver >= |db.wallets| then Reply(Rejected(NotFound))
        else if !CanReceive(db.wallets[r.receiver]) || r.receiver == from then Reply(Rejected(BadRequest))
        else if sender.dailyLimit.Some? && r.amount > sender.dailyLimit.value then Reply(Rejected(BadRequest))
        else Go(TransferFlight(r.user, db.wallets[r.receiver].owner, from, r.receiver, r.amount, r.currency,
                               r.optKey, r.now))
  }

  function CheckComplete(db: Db, r: MoneyRequest): Decision
    requires r.CompleteReq?
  {
    if r.tx >= |db.txs| then Reply(Rejected(NotFound))
    else
      var row := db.txs[r.tx];
      if row.status != Pending then Reply(AlreadyProcessed(row.status))
      else if row.receiver != Some(r.user) && row.sender != Some(r.user) then Reply(Rejected(Forbidden))
      else if row.kind != Deposit && row.kind != Withdrawal then Reply(Rejected(BadRequest))
      else Go(SettleFlight(r.tx, row))
  }

  function CheckFund(db: Db, r: MoneyRequest): Decision
    requires r.FundReq?
  {
    if r.vault >= |db.vaults| || db.vaults[r.vault].owner != r.user then Reply(Rejected(NotFound))
    else
      var vault := db.vaults[r.vault];
      if vault.wallet >= |db.wallets| then Reply(Rejected(NotFound))
      else
        var wallet := db.wallets[vault.wallet];
        if wallet.available < r.amount then Reply(Rejected(BadRequest))
        else match KeyAnswer(db.keys, r.key, r.user, VaultHash(r.user, r.vault, r.amount), BadRequest)
          case Some(answer) => Reply(answer)
          case None =>
            Go(FundFlight(r.user, r.vault, vault.wallet, r.amount, r.key, r.source, r.now, wallet, vault))
  }

  function CheckDrain(db: Db, r: MoneyRequest): Decision
    requires r.DrainReq?
  {
    if r.vault >= |db.vaults| || db.vaults[r.vault].owner != r.user then Reply(Rejected(NotFound))
    else
      var vault := db.vaults[r.vault];
      if vault.locked || vault.amount < r.amount then Reply(Rejected(BadRequest))
      else if vault.wallet >= |db.wallets| then Reply(Rejected(NotFound))
      else match KeyAnswer(db.keys, r.key, r.user, VaultHash(r.user, r.vault, r.amount), BadRequest)
        case Some(answer) => Reply(answer)
        case None =>
          Go(DrainFlight(r.user, r.vault, vault.wallet, r.amount, r.key, r.now, db.wallets[vault.wallet], vault))
  }

  function Check(db: Db, r: MoneyRequest): Decision {
    match r
    case DepositReq(_, _, _, _, _, _, _) => CheckDeposit(db, r)
    case WithdrawReq(_, _, _, _, _, _, _) => CheckWithdraw(db, r)
    case TransferReq(_, _, _, _, _, _, _, _) => CheckTransfer(db, r)
    case CompleteReq(_, _) => CheckComplete(db, r)
    case FundReq(_, _, _, _, _, _) => CheckFund(db, r)
    case DrainReq(_, _, _, _, _) => CheckDrain(db, r)
  }

  // ---- phase two: the serializable transactions

  /** The wallets with the two money columns of row w overwritten. */
  function SetFunds(wallets: seq<Wallet>, w: WalletId, balance: int, available: int): seq<Wallet>
    requires w < |wallets|
  {
    wallets[w := wallets[w].(balance := balance, available := available)]
  }

  /** The wallets with the two money columns of row w moved by the given differences. */
  function Shift(wallets: seq<Wallet>, w: WalletId, balance: int, available: int): seq<Wallet>
    requires w < |wallets|
  {
    SetFunds(wallets, w, wallets[w].balance + balance, wallets[w].available + available)
  }

  function LandDeposit(db: Db, f: Flight): (Db, Outcome)
    requires f.DepositFlight?
  {
    if Taken(db, f.key) then (db, Rejected(Aborted))
    else
      var t := |db.txs|;
      var response := Response(t, Some(f.key));
      (db.(keys := db.keys[f.key := KeyRow(f.user, PostDeposit,
                             WalletHash(f.user, f.wallet, f.amount, f.currency), Some(202), Some(response))],
           txs := db.txs + [Txn(Deposit, None, Some(f.user), None, Some(f.wallet), f.amount, f.amount,
                                f.currency, Pending, Some(f.key), f.now, None)],
           ledger := db.ledger + [Leg(t, ProviderSuspense, Credit, f.amount, f.currency, None, None),
                                  Leg(t, Provider(f.provider), Debit, f.amount, f.currency, None, None)]),
       DepositOpened(f.wallet, f.amount, response))
  }

  function LandWithdraw(db: Db, f: Flight): (Db, Outcome)
    requires f.WithdrawFlight?
  {
    if Taken(db, f.key) || f.wallet >= |db.wallets| then (db, Rejected(Aborted))
    else
      var t := |db.txs|;
      var response := Response(t, Some(f.key));
      (db.(keys := db.keys[f.key := KeyRow(f.user, PostWithdraw,
                             WalletHash(f.user, f.wallet, f.amount, f.currency), Some(202), Some(response))],
           txs := db.txs + [Txn(Withdrawal, Some(f.user), None, Some(f.wallet), None, f.amount, f.amount,
                                f.currency, Pending, Some(f.key), f.now, None)],
           ledger := db.ledger + [Leg(t, UserWallet(f.wallet), Debit, f.amount, f.currency,
                                      Some(f.walletRow.balance), Some(f.walletRow.balance - f.amount)),
                                  Leg(t, ProviderSuspense, Credit, f.amount, f.currency, None, None)],
           wallets := SetFunds(db.wallets, f.wallet, db.wallets[f.wallet].balance,
                               f.walletRow.available - f.amount)),
       WithdrawalOpened(f.wallet, f.amount, response))
  }

  function LandTransfer(db: Db, f: Flight): (Db, Outcome)
    requires f.TransferFlight?
  {
    if f.from >= |db.wallets| || f.to >= |db.wallets| then (db, Rejected(Aborted))
    else if db.wallets[f.from].available < f.amount then (db, Rejected(BadRequest))
    else
      var t := |db.txs|;
      var sender, receiver := db.wallets[f.from], db.wallets[f.to];
      (db.(txs := db.txs + [Txn(P2PTransfer, Some(f.user), Some(f.receiver), Some(f.from), Some(f.to), f.amount,
                                f.amount, f.currency, Completed, None, f.now, None)],
           ledger := db.ledger + [Leg(t, UserWallet(f.from), Debit, f.amount, f.currency,
                                      Some(sender.balance), Some(sender.balance - f.amount)),
                                  Leg(t, UserWallet(f.to), Credit, f.amount, f.currency,
                                      Some(receiver.balance), Some(receiver.balance + f.amount))],
           wallets := SetFunds(Shift(db.wallets, f.from, -f.amount, -f.amount),
                               f.to, receiver.balance + f.amount, receiver.available + f.amount)),
       Transferred(f.from, f.to, f.amount, t, false))
  }

  function LandSettle(db: Db, f: Flight): (Db, Outcome)
    requires f.SettleFlight?
  {
    var row := f.txRow;
    if f.tx >= |db.txs| then (db, Rejected(Aborted))
    else if row.kind == Deposit then
      if row.receiverWallet.None? || row.receiverWallet.value >= |db.wallets| then (db, Rejected(Aborted))
      else
        var w := row.receiverWallet.value;
        var before := db.wallets[w].balance;
        (db.(ledger := db.ledger + [Leg(f.tx, UserWallet(w), Credit, row.amount, row.currency,
                                        Some(before), Some(before + row.amount))],
             wallets := Shift(db.wallets, w, row.amount, row.amount),
             txs := db.txs[f.tx := db.txs[f.tx].(status := Completed)]),
         DepositSettled(w, row.amount, f.tx))
    else
      if row.senderWallet.None? || row.senderWallet.value >= |db.wallets| then (db, Rejected(Aborted))
      else
        (db.(ledger := db.ledger + [Leg(f.tx, ManualPayout, Debit, row.amount, row.currency, None, None)],
             txs := db.txs[f.tx := db.txs[f.tx].(status := Completed)]),
         WithdrawalSettled(row.senderWallet.value, row.amount, f.tx))
  }

  function LandFund(db: Db, f: Flight): (Db, Outcome)
    requires f.FundFlight?
  {
    if Taken(db, f.key) || f.wallet >= |db.wallets| || f.vault >= |db.vaults| then (db, Rejected(Aborted))
    else
      var t := |db.txs|;
      var response := Response(t, Some(f.key));
      var wallet, vault := f.walletRow, f.vaultRow;
      (db.(keys := db.keys[f.key := KeyRow(f.user, PostVaultDeposit, VaultHash(f.user, f.vault, f.amount),
                                           Some(200), Some(response))],
           txs := db.txs + [Txn(VaultContribution, Some(f.user), Some(f.user), Some(f.wallet), Some(f.wallet),
                                f.amount, f.amount, vault.currency, Completed, Some(f.key), f.now, None)],
           ledger := db.ledger + [Leg(t, UserWallet(f.wallet), Debit, f.amount, vault.currency,
                                      Some(wallet.balance), Some(wallet.balance - f.amount)),
                                  Leg(t, UserVault(f.vault), Credit, f.amount, vault.currency,
                                      Some(vault.amount), Some(vault.amount + f.amount))],
           contributions := db.contributions + [Contribution(f.vault, f.wallet, t, f.amount, f.source)],
           wallets := SetFunds(db.wallets, f.wallet, wallet.balance - f.amount, wallet.available - f.amount),
           vaults := db.vaults[f.vault := db.vaults[f.vault].(amount := vault.amount + f.amount)]),
       VaultFunded(f.wallet, f.vault, f.amount, response))
  }

  function LandDrain(db: Db, f: Flight): (Db, Outcome)
    requires f.DrainFlight?
  {
    if Taken(db, f.key) || f.wallet >= |db.wallets| || f.vault >= |db.vaults| then (db, Rejected(Aborted))
    else
      var t := |db.txs|;
      var response := Response(t, Some(f.key));
      var wallet, vault := f.walletRow, f.vaultRow;
      (db.(keys := db.keys[f.key := KeyRow(f.user, PostVaultWithdraw, VaultHash(f.user, f.vault, f.amount),
                                           Some(200), Some(response))],
           txs := db.txs + [Txn(VaultWithdrawal, Some(f.user), Some(f.user), Some(f.wallet), Some(f.wallet),
                                f.amount, f.amount, vault.currency, Completed, Some(f.key), f.now, None)],
           ledger := db.ledger + [Leg(t, UserVault(f.vault), Debit, f.amount, vault.currency,
                                      Some(vault.amount), Some(vault.amount - f.amount)),
                                  Leg(t, UserWallet(f.wallet), Credit, f.amount, vault.currency,
                                      Some(wallet.balance), Some(wallet.balance + f.amount))],
           wallets := SetFunds(db.wallets, f.wallet, wallet.balance + f.amount, wallet.available + f.amount),
           vaults := db.vaults[f.vault := db.vaults[f.vault].(amount := vault.amount - f.amount)]),
       VaultDrained(f.wallet, f.vault, f.amount, response))
  }

  /** A transfer's key is stored by a write of its own, after the money has moved. */
  function LandStoreKey(db: Db, f: Flight): (Db, Outcome)
    requires f.StoreKeyFlight?
  {
    if f.key in db.keys then (db, Rejected(Aborted))
    else
      (db.(keys := db.keys[f.key := KeyRow(f.user, PostTransfer, NoHash, Some(200), Some(Response(f.tx, None)))]),
       Done)
  }

  function Land(db: Db, f: Flight): (Db, Outcome) {
    match f
    case Landed => (db, Done)
    case DepositFlight(_, _, _, _, _, _, _) => LandDeposit(db, f)
    case WithdrawFlight(_, _, _, _, _, _, _) => LandWithdraw(db, f)
    case TransferFlight(_, _, _, _, _, _, _, _) => LandTransfer(db, f)
    case SettleFlight(_, _) => LandSettle(db, f)
    case FundFlight(_, _, _, _, _, _, _, _, _) => LandFund(db, f)
    case DrainFlight(_, _, _, _, _, _, _, _) => LandDrain(db, f)
    case StoreKeyFlight(_, _, _) => LandStoreKey(db, f)
  }

  /** What is left to do once a flight has landed: a transfer made under a key still has to store it. */
  function Rest(f: Flight, o: Outcome): Flight {
    if f.TransferFlight? && o.Transferred? && f.optKey.Some? then StoreKeyFlight(f.user, f.optKey.value, o.tx)
    else Landed
  }

  /** The rest of a request whose transaction has landed, done at once. */
  function Conclude(db: Db, f: Flight, o: Outcome): (Db, Outcome) {
    match Rest(f, o)
    case StoreKeyFlight(user, key, tx) =>
      var (stored, last) := LandStoreKey(db, StoreKeyFlight(user, key, tx));
      (stored, o.(keyRefused := last.Rejected?))
    case _ => (db, o)
  }

  /** A request served without interruption. */
  function Serve(db: Db, r: MoneyRequest): (Db, Outcome) {
    match Check(db, r)
    case Reply(outcome) => (db, outcome)
    case Go(flight) =>
      var (landed, outcome) := Land(db, flight);
      Conclude(landed, flight, outcome)
  }
}
