/**
 The tables of the bank, one datatype per row type, and the database that holds them.

 A row id is the position of the row in its table: rows are only ever appended, so an id names the same
 row for ever and the id of the next row is new. Money is a whole number of 0.0001 units, the precision
 of the Decimal(18,4) columns.
 */
module Schema {

  datatype Option<+T> = None | Some(value: T)

  type UserId = nat
  type DocId = nat
  type WalletId = nat
  type VaultId = nat
  type TxId = nat
  type CardId = nat
  type AuthId = nat
  type Key = string

  const UNITS_PER_WHOLE := 10_000

  datatype Currency = RWF | USD | EUR | KES | UGX | TZS

  // ---- users and their identity documents

  datatype UserStatus = UserPending | UserActive | UserSuspended | UserClosed
  datatype KycStatus = NotStarted | InProgress | Verified | Refused
  datatype KycTier = Tier0 | Tier1 | Tier2 | Tier3

  datatype User = User(
    email: string,
    phone: string,
    status: UserStatus,
    emailVerified: bool,
    kyc: KycStatus,
    tier: KycTier)

  datatype Doc = Doc(user: UserId, verifiedAt: Option<int>, rejectedAt: Option<int>)

  // ---- wallets and vaults

  datatype WalletStatus = WalletActive | WalletFrozen | WalletClosed

  datatype Wallet = Wallet(
    owner: UserId,
    currency: Currency,
    balance: int,
    available: int,
    locked: bool,
    status: WalletStatus,
    primary: bool,
    dailyLimit: Option<int>)

  datatype Vault = Vault(owner: UserId, wallet: WalletId, amount: int, currency: Currency, locked: bool)

  datatype Source = Manual | RoundUpRule | PercentageRule | FixedRule | ScheduledRule

  datatype Contribution = Contribution(vault: VaultId, wallet: WalletId, tx: TxId, amount: int, source: Source)

  // ---- transactions and the ledger

  datatype TxKind =
    | Deposit | Withdrawal | P2PTransfer | MerchantPayment | QrPayment | ScheduledTransfer | CardPayment
    | VaultContribution | VaultWithdrawal | SubscriptionCharge | Reversal | Refund | Fee

  datatype TxStatus = Pending | Processing | Completed | Failed | Reversed | Cancelled | RequiresAction

  datatype Category =
    | FoodAndDining | Groceries | Transport | Shopping | Entertainment | Utilities | Rent | Health
    | Education | Travel | Subscriptions | Transfers | Income | Fees | Savings | Other

  datatype Txn = Txn(
    kind: TxKind,
    sender: Option<UserId>,
    receiver: Option<UserId>,
    senderWallet: Option<WalletId>,
    receiverWallet: Option<WalletId>,
    amount: int,
    net: int,
    currency: Currency,
    status: TxStatus,
    key: Option<Key>,
    createdAt: int,
    category: Option<Category>)

  datatype Direction = Credit | Debit

  datatype Account =
    | UserWallet(wallet: WalletId)
    | UserVault(vault: VaultId)
    | ProviderSuspense
    | CardSuspense
    | Provider(reference: string)
    | ManualPayout

  datatype Leg = Leg(
    tx: TxId,
    account: Account,
    direction: Direction,
    amount: int,
    currency: Currency,
    before: Option<int>,
    after: Option<int>)

  // ---- idempotency records

  datatype Endpoint = PostDeposit | PostWithdraw | PostTransfer | PostVaultDeposit | PostVaultWithdraw

  /** The hashed request: SHA-256 is taken to be injective, so the hash is the hashed content. */
  datatype RequestHash =
    | WalletHash(user: UserId, wallet: WalletId, amount: int, currency: Currency)
    | VaultHash(user: UserId, vault: VaultId, amount: int)
    | NoHash

  datatype Response = Response(tx: TxId, key: Option<Key>)

  datatype KeyRow = KeyRow(
    user: UserId,
    endpoint: Endpoint,
    hash: RequestHash,
    status: Option<int>,
    response: Option<Response>)

  // ---- virtual cards

  datatype CardStatus = CardActive | CardFrozen | CardExpired | CardCancelled

  datatype Card = Card(
    owner: UserId,
    wallet: WalletId,
    status: CardStatus,
    currency: Currency,
    spendingLimit: Option<int>,
    dailyLimit: Option<int>,
    spentToday: int,
    spentTotal: int)

  datatype AuthStatus = Authorized | Captured | Declined | AuthReversed | Refunded

  datatype Auth = Auth(card: CardId, tx: TxId, amount: int, status: AuthStatus)

  /** One state of the whole database. */
  datatype Db = Db(
    users: seq<User>,
    docs: seq<Doc>,
    wallets: seq<Wallet>,
    vaults: seq<Vault>,
    txs: seq<Txn>,
    ledger: seq<Leg>,
    keys: map<Key, KeyRow>,
    cards: seq<Card>,
    auths: seq<Auth>,
    contributions: seq<Contribution>)

  const EMPTY_DB := Db([], [], [], [], [], [], map[], [], [], [])

  /** The database the services update in place. */
  class Database {
    var users: seq<User>
    var docs: seq<Doc>
    var wallets: seq<Wallet>
    var vaults: seq<Vault>
    var txs: seq<Txn>
    var ledger: seq<Leg>
    var keys: map<Key, KeyRow>
    var cards: seq<Card>
    var auths: seq<Auth>
    var contributions: seq<Contribution>

    constructor ()
      ensures Snapshot() == EMPTY_DB
    {
      users, docs, wallets, vaults, txs, ledger := [], [], [], [], [], [];
      keys, cards, auths, contributions := map[], [], [], [];
    }

    /** The value of all tables, which the endpoint specifications are functions of. */
    ghost function Snapshot(): Db
      reads this
    {
      Db(users, docs, wallets, vaults, txs, ledger, keys, cards, auths, contributions)
    }
  }
}
