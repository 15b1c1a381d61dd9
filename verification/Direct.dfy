/**
 Specification of the endpoints that are served in one piece: virtual cards, savings vaults, administration,
 and the onboarding of users with their identity documents and wallets.
 */
module Direct {
  import opened Schema
  import opened Endpoints

  datatype DirectRequest =
    // virtual cards
    | CreateCardReq(user: UserId, wallet: WalletId, currency: Currency, spendingLimit: Option<int>,
                    dailyLimit: Option<int>)
    | UpdateCardReq(user: UserId, card: CardId, spendingLimit: Option<int>, dailyLimit: Option<int>)
    | FreezeCardReq(user: UserId, card: CardId, frozen: bool)
    | AuthorizeReq(user: UserId, card: CardId, amount: nat, currency: Currency, key: Key, now: int)
    | CaptureReq(user: UserId, auth: AuthId, part: Option<nat>)
    | ReverseReq(user: UserId, tx: TxId, part: Option<nat>)
    // savings vaults
    | CreateVaultReq(user: UserId, wallet: WalletId, currency: Currency)
    | LockVaultReq(user: UserId, vault: VaultId, locked: bool)
    // administration
    | AdminReverseReq(tx: TxId)
    | AdminFlagReq(tx: TxId)
    | FreezeWalletReq(wallet: WalletId)
    | UnfreezeWalletReq(wallet: WalletId)
    // onboarding
    | RegisterReq(email: string, phone: string)
    | VerifyEmailReq(user: UserId, codeAccepted: bool)
    | CreateWalletReq(user: UserId, currency: Currency)
    | SetPrimaryReq(user: UserId, wallet: WalletId)
    | SubmitKycReq(user: UserId)
    | ApproveKycReq(doc: DocId, now: int)
    | RejectKycReq(doc: DocId, now: int)

  const DEFAULT_DAILY_LIMIT := 500_000 * UNITS_PER_WHOLE

  // ---- virtual cards

  function CreateCard(db: Db, user: UserId, wallet: WalletId, currency: Currency, spendingLimit: Option<int>,
                      dailyLimit: Option<int>): (Db, Outcome)
  {
    if wallet >= |db.wallets| || db.wallets[wallet].owner != user then (db, Rejected(Forbidden))
    else
      (db.(cards := db.cards + [Card(user, wallet, CardActive, currency, spendingLimit, dailyLimit, 0, 0)]), Done)
  }

  function UpdateCard(db: Db, user: UserId, card: CardId, spendingLimit: Option<int>, dailyLimit: Option<int>)
    : (Db, Outcome)
  {
    if card >= |db.cards| || db.cards[card].owner != user then (db, Rejected(NotFound))
    else
      var row := db.cards[card];
      (db.(cards := db.cards[card := row.(
                               spendingLimit := if spendingLimit.Some? then spendingLimit else row.spendingLimit,
                               dailyLimit := if dailyLimit.Some? then dailyLimit else row.dailyLimit)]),
       Done)
  }

  function FreezeCard(db: Db, user: UserId, card: CardId, frozen: bool): (Db, Outcome) {
    if card >= |db.cards| || db.cards[card].owner != user then (db, Rejected(NotFound))
    else
      (db.(cards := db.cards[card := db.cards[card].(status := if frozen then CardFrozen else CardActive)]), Done)
  }

  predicate WithinLimit(limit: Option<int>, total: int) {
    limit.Some? ==> total <= limit.value
  }

  function AuthorizeCard(db: Db, user: UserId, card: CardId, amount: nat, currency: Currency, key: Key, now: int)
    : (Db, Outcome)
  {
    if card >= |db.cards| || db.cards[card].owner != user then (db, Rejected(NotFound))
    else
      var row := db.cards[card];
      if row.status != CardActive || row.currency != currency
         || !WithinLimit(row.dailyLimit, row.spentToday + amount)
         || !WithinLimit(row.spendingLimit, row.spentTotal + amount)
      then (db, Rejected(BadRequest))
      else if KeyUsed(db.txs, key) then (db, Rejected(Aborted))
      else
        var t := |db.txs|;
        (db.(txs := db.txs + [Txn(CardPayment, Some(user), None, Some(row.wallet), None, amount, amount, currency,
                                  Pending, Some(key), now, None)],
             auths := db.auths + [Auth(card, t, amount, Authorized)],
             cards := db.cards[card := row.(spentToday := row.spentToday + amount)]),
         CardAuthorized(card, |db.auths|, amount, t))
  }

  function WalletBalance(wallets: seq<Wallet>, w: WalletId): int {
    if w < |wallets| then wallets[w].balance else 0
  }

  function CaptureCard(db: Db, user: UserId, auth: AuthId, part: Option<nat>): (Db, Outcome) {
    if auth >= |db.auths| || db.auths[auth].card >= |db.cards| || db.cards[db.auths[auth].card].owner != user
       || db.auths[auth].tx >= |db.txs|
    then (db, Rejected(NotFound))
    else
      var row := db.auths[auth];
      var amount := if part.Some? then part.value else row.amount;
      if row.status != Authorized || amount < 0 || amount > row.amount then (db, Rejected(BadRequest))
      else
        var card, tx := db.cards[row.card], db.txs[row.tx];
        var before := WalletBalance(db.wallets, card.wallet);
        (db.(auths := db.auths[auth := row.(status := Captured, amount := amount)],
             txs := db.txs[row.tx := tx.(status := Completed, amount := amount, net := amount)],
             cards := db.cards[row.card := card.(spentTotal := card.spentTotal + amount)],
             ledger := db.ledger + [Leg(row.tx, UserWallet(card.wallet), Debit, amount, tx.currency,
                                        Some(before), Some(before - amount)),
                                    Leg(row.tx, CardSuspense, Credit, amount, tx.currency, None, None)]),
         CardCaptured(row.card, auth, card.wallet, amount, row.tx))
  }

  /** The card record of a transaction, if it has one. */
  function AuthOf(auths: seq<Auth>, tx: TxId): (a: Option<AuthId>)
    ensures a.Some? ==> a.value < |auths| && auths[a.value].tx == tx
    ensures a.None? ==> forall i | 0 <= i < |auths| :: auths[i].tx != tx
  {
    if |auths| == 0 then None
    else
      var last := |auths| - 1;
      var a := AuthOf(auths[..last], tx);
      if a.Some? then a else if auths[last].tx == tx then Some(last) else None
  }

  function ReverseCard(db: Db, user: UserId, tx: TxId, part: Option<nat>): (Db, Outcome) {
    match AuthOf(db.auths, tx)
    case None => (db, Rejected(NotFound))
    case Some(auth) =>
      var row := db.auths[auth];
      if tx >= |db.txs| || row.card >= |db.cards| || db.cards[row.card].owner != user then (db, Rejected(NotFound))
      else
        var card := db.cards[row.card];
        var amount := if part.Some? then part.value else db.txs[tx].amount;
        if db.txs[tx].status != Completed || amount < 0 || amount > db.txs[tx].amount
        then (db, Rejected(BadRequest))
        else
          var before := WalletBalance(db.wallets, card.wallet);
          (db.(auths := db.auths[auth := row.(status := AuthReversed)],
               txs := db.txs[tx := db.txs[tx].(status := Reversed)],
               cards := db.cards[row.card := card.(spentTotal := card.spentTotal - amount,
                                                   spentToday := card.spentToday - amount)],
               ledger := db.ledger + [Leg(tx, UserWallet(card.wallet), Credit, amount, db.txs[tx].currency,
                                          Some(before), Some(before + amount)),
                                      Leg(tx, CardSuspense, Debit, amount, db.txs[tx].currency, None, None)]),
           CardReversed(row.card, auth, card.wallet, amount, tx))
  }

  // ---- savings vaults

  function CreateVault(db: Db, user: UserId, wallet: WalletId, currency: Currency): (Db, Outcome) {
    if wallet >= |db.wallets| || db.wallets[wallet].owner != user then (db, Rejected(Forbidden))
    else (db.(vaults := db.vaults + [Vault(user, wallet, 0, currency, false)]), Done)
  }

  function LockVault(db: Db, user: UserId, vault: VaultId, locked: bool): (Db, Outcome) {
    if vault >= |db.vaults| || db.vaults[vault].owner != user then (db, Rejected(NotFound))
    else (db.(vaults := db.vaults[vault := db.vaults[vault].(locked := locked)]), Done)
  }

  // ---- administration

  function AdminReverse(db: Db, tx: TxId): (Db, Outcome) {
    if tx >= |db.txs| then (db, Rejected(NotFound))
    else if db.txs[tx].status != Completed && db.txs[tx].status != Processing then (db, Rejected(BadRequest))
    else (db.(txs := db.txs[tx := db.txs[tx].(status := Reversed)]), Done)
  }

  function AdminFlag(db: Db, tx: TxId): (Db, Outcome) {
    if tx >= |db.txs| then (db, Rejected(NotFound))
    else if db.txs[tx].status == RequiresAction then (db, Rejected(BadRequest))
    else (db.(txs := db.txs[tx := db.txs[tx].(status := RequiresAction)]), Done)
  }

  function FreezeWallet(db: Db, wallet: WalletId): (Db, Outcome) {
    if wallet >= |db.wallets| then (db, Rejected(NotFound))
    else if db.wallets[wallet].status != WalletActive then (db, Rejected(BadRequest))
    else (db.(wallets := db.wallets[wallet := db.wallets[wallet].(status := WalletFrozen)]), Done)
  }

  function UnfreezeWallet(db: Db, wallet: WalletId): (Db, Outcome) {
    if wallet >= |db.wallets| then (db, Rejected(NotFound))
    else if db.wallets[wallet].status != WalletFrozen then (db, Rejected(BadRequest))
    else (db.(wallets := db.wallets[wallet := db.wallets[wallet].(status := WalletActive)]), Done)
  }

  // ---- onboarding

  function NewWallet(user: UserId, currency: Currency, primary: bool): Wallet {
    Wallet(user, currency, 0, 0, false, WalletActive, primary, Some(DEFAULT_DAILY_LIMIT))
  }

  function AllowedCurrencies(tier: KycTier): set<Currency> {
    match tier
    case Tier0 => {RWF}
    case Tier1 => {RWF}
    case Tier2 => {RWF, USD, EUR, KES}
    case Tier3 => {RWF, USD, EUR, KES, UGX, TZS}
  }

  predicate Holds(wallets: seq<Wallet>, user: UserId, currency: Currency) {
    exists i | 0 <= i < |wallets| :: wallets[i].owner == user && wallets[i].currency == currency
  }

  predicate HoldsAny(wallets: seq<Wallet>, user: UserId) {
    exists i | 0 <= i < |wallets| :: wallets[i].owner == user
  }

  predicate Registered(users: seq<User>, email: string, phone: string) {
    exists u | 0 <= u < |users| :: users[u].email == email || users[u].phone == phone
  }

  function Register(db: Db, email: string, phone: string): (Db, Outcome) {
    if Registered(db.users, email, phone) then (db, Rejected(Conflict))
    else (db.(users := db.users + [User(email, phone, UserPending, false, NotStarted, Tier0)]), Done)
  }

  function EnsurePrimaryWallet(db: Db, user: UserId): Db {
    if HoldsAny(db.wallets, user) then db else db.(wallets := db.wallets + [NewWallet(user, RWF, true)])
  }

  function VerifyEmail(db: Db, user: UserId, codeAccepted: bool): (Db, Outcome) {
    if user >= |db.users| then (db, Rejected(NotFound))
    else if db.users[user].emailVerified || !codeAccepted then (db, Rejected(BadRequest))
    else
      var row := db.users[user].(emailVerified := true, status := UserActive, tier := Tier1);
      (EnsurePrimaryWallet(db.(users := db.users[user := row]), user), Done)
  }

  function CreateWallet(db: Db, user: UserId, currency: Currency): (Db, Outcome) {
    if user >= |db.users| then (db, Rejected(NotFound))
    else if currency !in AllowedCurrencies(db.users[user].tier) then (db, Rejected(BadRequest))
    else if Holds(db.wallets, user, currency) then (db, Rejected(Conflict))
    else (db.(wallets := db.wallets + [NewWallet(user, currency, false)]), Done)
  }

  /** The wallets with the primary mark of the given user moved to one wallet. */
  function MovePrimary(wallets: seq<Wallet>, user: UserId, wallet: WalletId): (moved: seq<Wallet>)
    requires wallet < |wallets|
    ensures |moved| == |wallets|
  {
    seq(|wallets|, i requires 0 <= i < |wallets| =>
      if i == wallet then wallets[i].(primary := true)
      else if wallets[i].owner == user then wallets[i].(primary := false)
      else wallets[i])
  }

  function SetPrimary(db: Db, user: UserId, wallet: WalletId): (Db, Outcome) {
    if wallet >= |db.wallets| || db.wallets[wallet].owner != user then (db, Rejected(NotFound))
    else if db.wallets[wallet].primary then (db, Done)
    else if db.wallets[wallet].status != WalletActive then (db, Rejected(BadRequest))
    else (db.(wallets := MovePrimary(db.wallets, user, wallet)), Done)
  }

  /** The identity document of a user, if one was submitted. */
  function DocOf(docs: seq<Doc>, user: UserId): (d: Option<DocId>)
    ensures d.Some? ==> d.value < |docs| && docs[d.value].user == user
    ensures d.None? ==> forall i | 0 <= i < |docs| :: docs[i].user != user
  {
    if |docs| == 0 then None
    else
      var last := |docs| - 1;
      var d := DocOf(docs[..last], user);
      if d.Some? then d else if docs[last].user == user then Some(last) else None
  }

  function SubmitKyc(db: Db, user: UserId): (Db, Outcome) {
    if user >= |db.users| then (db, Rejected(NotFound))
    else if db.users[user].kyc == Verified then (db, Rejected(BadRequest))
    else (StoreSubmission(db, user), Done)
  }

  /** The writes of a submission, made after the user's status has been checked. */
  function StoreSubmission(db: Db, user: UserId): Db
    requires user < |db.users|
  {
    var d := DocOf(db.docs, user);
    db.(docs := if d.Some? then db.docs[d.value := db.docs[d.value].(rejectedAt := None)]
                else db.docs + [Doc(user, None, None)],
        users := db.users[user := db.users[user].(kyc := InProgress)])
  }

  function ApproveKyc(db: Db, doc: DocId, now: int): (Db, Outcome) {
    if doc >= |db.docs| then (db, Rejected(NotFound))
    else if db.docs[doc].verifiedAt.Some? || db.docs[doc].rejectedAt.Some? then (db, Rejected(BadRequest))
    else if db.docs[doc].user >= |db.users| then (db, Rejected(Aborted))
    else (StoreApproval(db, doc, now), Done)
  }

  /** The writes of an approval, made after the document has been checked. */
  function StoreApproval(db: Db, doc: DocId, now: int): Db
    requires doc < |db.docs| && db.docs[doc].user < |db.users|
  {
    var user := db.docs[doc].user;
    db.(docs := db.docs[doc := db.docs[doc].(verifiedAt := Some(now))],
        users := db.users[user := db.users[user].(kyc := Verified, tier := Tier2)])
  }

  function RejectKyc(db: Db, doc: DocId, now: int): (Db, Outcome) {
    if doc >= |db.docs| then (db, Rejected(NotFound))
    else if db.docs[doc].verifiedAt.Some? || db.docs[doc].rejectedAt.Some? then (db, Rejected(BadRequest))
    else if db.docs[doc].user >= |db.users| then (db, Rejected(Aborted))
    else (StoreRejection(db, doc, now), Done)
  }

  /** The writes of a rejection, made after the document has been checked. */
  function StoreRejection(db: Db, doc: DocId, now: int): Db
    requires doc < |db.docs| && db.docs[doc].user < |db.users|
  {
    var user := db.docs[doc].user;
    db.(docs := db.docs[doc := db.docs[doc].(rejectedAt := Some(now))],
        users := db.users[user := db.users[user].(kyc := Refused)])
  }

  // ---- the access guard and the dispatch

  /** The user an access token speaks for must be active. */
  predicate Live(db: Db, user: UserId) {
    user < |db.users| && db.users[user].status == UserActive
  }

  /** The requests that reach their service only behind the access guard, with the caller's user id. */
  function Caller(r: DirectRequest): Option<UserId> {
    match r
    case CreateCardReq(user, _, _, _, _) => Some(user)
    case UpdateCardReq(user, _, _, _) => Some(user)
    case FreezeCardReq(user, _, _) => Some(user)
    case AuthorizeReq(user, _, _, _, _, _) => Some(user)
    case CaptureReq(user, _, _) => Some(user)
    case ReverseReq(user, _, _) => Some(user)
    case CreateVaultReq(user, _, _) => Some(user)
    case LockVaultReq(user, _, _) => Some(user)
    case CreateWalletReq(user, _) => Some(user)
    case SetPrimaryReq(user, _) => Some(user)
    case SubmitKycReq(user) => Some(user)
    case _ => None
  }

  function Dispatch(db: Db, r: DirectRequest): (Db, Outcome) {
    match r
    case CreateCardReq(user, wallet, currency, spending, daily) =>
      CreateCard(db, user, wallet, currency, spending, daily)
    case UpdateCardReq(user, card, spending, daily) => UpdateCard(db, user, card, spending, daily)
    case FreezeCardReq(user, card, frozen) => FreezeCard(db, user, card, frozen)
    case AuthorizeReq(user, card, amount, currency, key, now) =>
      AuthorizeCard(db, user, card, amount, currency, key, now)
    case CaptureReq(user, auth, part) => CaptureCard(db, user, auth, part)
    case ReverseReq(user, tx, part) => ReverseCard(db, user, tx, part)
    case CreateVaultReq(user, wallet, currency) => CreateVault(db, user, wallet, currency)
    case LockVaultReq(user, vault, locked) => LockVault(db, user, vault, locked)
    case AdminReverseReq(tx) => AdminReverse(db, tx)
    case AdminFlagReq(tx) => AdminFlag(db, tx)
    case FreezeWalletReq(wallet) => FreezeWallet(db, wallet)
    case UnfreezeWalletReq(wallet) => UnfreezeWallet(db, wallet)
    case RegisterReq(email, phone) => Register(db, email, phone)
    case VerifyEmailReq(user, codeAccepted) => VerifyEmail(db, user, codeAccepted)
    case CreateWalletReq(user, currency) => CreateWallet(db, user, currency)
    case SetPrimaryReq(user, wallet) => SetPrimary(db, user, wallet)
    case SubmitKycReq(user) => SubmitKyc(db, user)
    case ApproveKycReq(doc, now) => ApproveKyc(db, doc, now)
    case RejectKycReq(doc, now) => RejectKyc(db, doc, now)
  }

  function Guarded(db: Db, r: DirectRequest): (Db, Outcome) {
    if Caller(r).Some? && !Live(db, Caller(r).value) then (db, Rejected(Unauthorized)) else Dispatch(db, r)
  }
}
