/**
 What one reported outcome means for the money columns and the ledger, and the proof that every step of the
 bank moves exactly that. The laws over whole runs are then arithmetic about outcomes.
 */
module Effects {
  import opened Schema
  import opened Sums
  import opened Endpoints
  import opened Direct
  import opened Machine

  // ---- the money columns; a row that does not exist holds nothing

  function BalanceAt(db: Db, w: WalletId): int {
    if w < |db.wallets| then db.wallets[w].balance else 0
  }

  function AvailableAt(db: Db, w: WalletId): int {
    if w < |db.wallets| then db.wallets[w].available else 0
  }

  function SavedAt(db: Db, v: VaultId): int {
    if v < |db.vaults| then db.vaults[v].amount else 0
  }

  function Balance(w: Wallet): int { w.balance }

  function Available(w: Wallet): int { w.available }

  function Saved(v: Vault): int { v.amount }

  function Signed(leg: Leg): int {
    if leg.direction == Credit then leg.amount else -leg.amount
  }

  /** Credits minus debits posted to one account. */
  function SignedAt(account: Account): Leg -> int {
    (leg: Leg) => if leg.account == account then Signed(leg) else 0
  }

  /** Credits minus debits posted under one transaction. */
  function SignedIn(t: TxId): Leg -> int {
    (leg: Leg) => if leg.tx == t then Signed(leg) else 0
  }

  // ---- the meaning of an outcome

  function At(x: nat, y: nat, amount: int): int {
    if x == y then amount else 0
  }

  /** Money an outcome puts on the balance of wallet w. */
  function BalanceDelta(o: Outcome, w: WalletId): int {
    match o
    case Transferred(from, to, amount, _, _) => At(to, w, amount) - At(from, w, amount)
    case DepositSettled(x, amount, _) => At(x, w, amount)
    case VaultFunded(x, _, amount, _) => -At(x, w, amount)
    case VaultDrained(x, _, amount, _) => At(x, w, amount)
    case _ => 0
  }

  /** The amount an outcome puts on hold in wallet w. */
  function HoldDelta(o: Outcome, w: WalletId): int {
    match o
    case WithdrawalOpened(x, amount, _) => At(x, w, amount)
    case _ => 0
  }

  function SavedDelta(o: Outcome, v: VaultId): int {
    match o
    case VaultFunded(_, x, amount, _) => At(x, v, amount)
    case VaultDrained(_, x, amount, _) => -At(x, v, amount)
    case _ => 0
  }

  /** Card spending an outcome books on the ledger account of wallet w without touching the wallet row. */
  function CaptureDelta(o: Outcome, w: WalletId): int {
    match o
    case CardCaptured(_, _, x, amount, _) => At(x, w, amount)
    case CardReversed(_, _, x, amount, _) => -At(x, w, amount)
    case _ => 0
  }

  /** What an outcome leaves unbalanced in the ledger under transaction t. */
  function ImbalanceDelta(o: Outcome, t: TxId): int {
    match o
    case DepositSettled(_, amount, x) => At(x, t, amount)
    case WithdrawalSettled(_, amount, x) => -At(x, t, amount)
    case _ => 0
  }

  function DepositsSettled(o: Outcome): int {
    match o
    case DepositSettled(_, amount, _) => amount
    case _ => 0
  }

  function WithdrawalsSettled(o: Outcome): int {
    match o
    case WithdrawalSettled(_, amount, _) => amount
    case _ => 0
  }

  function WithdrawalsOpened(o: Outcome): int {
    match o
    case WithdrawalOpened(_, amount, _) => amount
    case _ => 0
  }

  function DepositsOpened(o: Outcome): int {
    match o
    case DepositOpened(_, amount, _) => amount
    case _ => 0
  }

  /** Card spending captured, less card spending reversed. */
  function NetCaptured(o: Outcome): int {
    match o
    case CardCaptured(_, _, _, amount, _) => amount
    case CardReversed(_, _, _, amount, _) => -amount
    case _ => 0
  }

  function ToVaults(o: Outcome): int {
    match o
    case VaultFunded(_, _, amount, _) => amount
    case VaultDrained(_, _, amount, _) => -amount
    case _ => 0
  }

  // ---- one step moves what its outcome means

  ghost predicate WalletEffect(db: Db, after: Db, o: Outcome) {
    && |db.wallets| <= |after.wallets|
    && (forall w: WalletId :: BalanceAt(after, w) == BalanceAt(db, w) + BalanceDelta(o, w))
    && (forall w: WalletId :: AvailableAt(after, w) == AvailableAt(db, w) + BalanceDelta(o, w) - HoldDelta(o, w))
    && SumBy(after.wallets, Balance) == SumBy(db.wallets, Balance) + DepositsSettled(o) - ToVaults(o)
    && SumBy(after.wallets, Available)
       == SumBy(db.wallets, Available) + DepositsSettled(o) - ToVaults(o) - WithdrawalsOpened(o)
  }

  ghost predicate VaultEffect(db: Db, after: Db, o: Outcome) {
    && |db.vaults| <= |after.vaults|
    && (forall v: VaultId :: SavedAt(after, v) == SavedAt(db, v) + SavedDelta(o, v))
    && SumBy(after.vaults, Saved) == SumBy(db.vaults, Saved) + ToVaults(o)
  }

  ghost predicate LedgerEffect(db: Db, after: Db, o: Outcome) {
    && |db.txs| <= |after.txs|
    && db.ledger <= after.ledger
    && SumBy(after.ledger, Signed) == SumBy(db.ledger, Signed) + DepositsSettled(o) - WithdrawalsSettled(o)
    && (forall w: WalletId :: SumBy(after.ledger, SignedAt(UserWallet(w)))
                  == SumBy(db.ledger, SignedAt(UserWallet(w)))
                     + BalanceDelta(o, w) - HoldDelta(o, w) - CaptureDelta(o, w))
    && (forall v: VaultId :: SumBy(after.ledger, SignedAt(UserVault(v)))
                  == SumBy(db.ledger, SignedAt(UserVault(v))) + SavedDelta(o, v))
    && (forall t: TxId :: SumBy(after.ledger, SignedIn(t)) == SumBy(db.ledger, SignedIn(t)) + ImbalanceDelta(o, t))
  }

  /** The provider's suspense account, the payout account and the card suspense account. */
  ghost predicate SuspenseEffect(db: Db, after: Db, o: Outcome) {
    && SumBy(after.ledger, SignedAt(ProviderSuspense))
       == SumBy(db.ledger, SignedAt(ProviderSuspense)) + DepositsOpened(o) + WithdrawalsOpened(o)
    && SumBy(after.ledger, SignedAt(ManualPayout)) == SumBy(db.ledger, SignedAt(ManualPayout)) - WithdrawalsSettled(o)
    && SumBy(after.ledger, SignedAt(CardSuspense)) == SumBy(db.ledger, SignedAt(CardSuspense)) + NetCaptured(o)
  }

  ghost predicate Effect(db: Db, after: Db, o: Outcome) {
    WalletEffect(db, after, o) && VaultEffect(db, after, o) && LedgerEffect(db, after, o) && SuspenseEffect(db, after, o)
  }

  // ---- how single writes move the sums

  lemma ShiftEffect(wallets: seq<Wallet>, w: WalletId, balance: int, available: int)
    requires w < |wallets|
    ensures SumBy(Shift(wallets, w, balance, available), Balance) == SumBy(wallets, Balance) + balance
    ensures SumBy(Shift(wallets, w, balance, available), Available) == SumBy(wallets, Available) + available
  {
    var row := wallets[w].(balance := wallets[w].balance + balance, available := wallets[w].available + available);
    SumUpdate(wallets, w, row, Balance);
    SumUpdate(wallets, w, row, Available);
  }

  /** The legs carry exactly what the outcome means for every account and every transaction. */
  ghost predicate LegsMean(a: Leg, b: Option<Leg>, o: Outcome) {
    && Both(Signed, a, b) == DepositsSettled(o) - WithdrawalsSettled(o)
    && (forall w: WalletId :: Both(SignedAt(UserWallet(w)), a, b) == BalanceDelta(o, w) - HoldDelta(o, w) - CaptureDelta(o, w))
    && (forall v: VaultId :: Both(SignedAt(UserVault(v)), a, b) == SavedDelta(o, v))
    && (forall t: TxId :: Both(SignedIn(t), a, b) == ImbalanceDelta(o, t))
    && Both(SignedAt(ProviderSuspense), a, b) == DepositsOpened(o) + WithdrawalsOpened(o)
    && Both(SignedAt(ManualPayout), a, b) == -WithdrawalsSettled(o)
    && Both(SignedAt(CardSuspense), a, b) == NetCaptured(o)
  }

  function Both(f: Leg -> int, a: Leg, b: Option<Leg>): int {
    f(a) + if b.Some? then f(b.value) else 0
  }

  function Appended(ledger: seq<Leg>, a: Leg, b: Option<Leg>): seq<Leg> {
    if b.Some? then ledger + [a, b.value] else ledger + [a]
  }

  lemma AppendLegs(ledger: seq<Leg>, a: Leg, b: Option<Leg>, f: Leg -> int)
    ensures SumBy(Appended(ledger, a, b), f) == SumBy(ledger, f) + Both(f, a, b)
  {
    if b.Some? {
      SumAppendTwo(ledger, a, b.value, f);
    } else {
      SumAppend(ledger, a, f);
    }
  }

  lemma PostedAccounts(db: Db, after: Db, o: Outcome, a: Leg, b: Option<Leg>, w: WalletId, v: VaultId, t: TxId)
    requires after.ledger == Appended(db.ledger, a, b) && LegsMean(a, b, o)
    ensures SumBy(after.ledger, SignedAt(UserWallet(w)))
            == SumBy(db.ledger, SignedAt(UserWallet(w))) + BalanceDelta(o, w) - HoldDelta(o, w) - CaptureDelta(o, w)
    ensures SumBy(after.ledger, SignedAt(UserVault(v))) == SumBy(db.ledger, SignedAt(UserVault(v))) + SavedDelta(o, v)
    ensures SumBy(after.ledger, SignedIn(t)) == SumBy(db.ledger, SignedIn(t)) + ImbalanceDelta(o, t)
  {
    AppendLegs(db.ledger, a, b, SignedAt(UserWallet(w)));
    AppendLegs(db.ledger, a, b, SignedAt(UserVault(v)));
    AppendLegs(db.ledger, a, b, SignedIn(t));
  }

  lemma PostedLedger(db: Db, after: Db, o: Outcome, a: Leg, b: Option<Leg>)
    requires after.ledger == Appended(db.ledger, a, b) && |db.txs| <= |after.txs| && LegsMean(a, b, o)
    ensures LedgerEffect(db, after, o)
  {
    AppendLegs(db.ledger, a, b, Signed);
    forall w: WalletId ensures SumBy(after.ledger, SignedAt(UserWallet(w)))
        == SumBy(db.ledger, SignedAt(UserWallet(w))) + BalanceDelta(o, w) - HoldDelta(o, w) - CaptureDelta(o, w)
    {
      PostedAccounts(db, after, o, a, b, w, 0, 0);
    }
    forall v: VaultId ensures SumBy(after.ledger, SignedAt(UserVault(v)))
        == SumBy(db.ledger, SignedAt(UserVault(v))) + SavedDelta(o, v)
    {
      PostedAccounts(db, after, o, a, b, 0, v, 0);
    }
    forall t: TxId ensures SumBy(after.ledger, SignedIn(t)) == SumBy(db.ledger, SignedIn(t)) + ImbalanceDelta(o, t) {
      PostedAccounts(db, after, o, a, b, 0, 0, t);
    }
  }

  lemma PostedSuspense(db: Db, after: Db, o: Outcome, a: Leg, b: Option<Leg>)
    requires after.ledger == Appended(db.ledger, a, b) && LegsMean(a, b, o)
    ensures SuspenseEffect(db, after, o)
  {
    AppendLegs(db.ledger, a, b, SignedAt(ProviderSuspense));
    AppendLegs(db.ledger, a, b, SignedAt(ManualPayout));
    AppendLegs(db.ledger, a, b, SignedAt(CardSuspense));
  }

  /** Appending legs with the meaning of the outcome has the effect of the outcome on the ledger. */
  lemma PostedEffect(db: Db, after: Db, o: Outcome, a: Leg, b: Option<Leg>)
    requires after.ledger == Appended(db.ledger, a, b) && |db.txs| <= |after.txs| && LegsMean(a, b, o)
    ensures LedgerEffect(db, after, o) && SuspenseEffect(db, after, o)
  {
    PostedLedger(db, after, o, a, b);
    PostedSuspense(db, after, o, a, b);
  }

  // ---- requests that leave every money column alone

  /** The rows of s keep column f in t, and the rows t adds have none. */
  lemma SameColumn<T>(s: seq<T>, t: seq<T>, f: T -> int)
    requires |s| <= |t|
    requires forall i | 0 <= i < |s| :: f(t[i]) == f(s[i])
    requires forall i | |s| <= i < |t| :: f(t[i]) == 0
    ensures SumBy(t, f) == SumBy(s, f)
  {
    var old_rows, new_rows := t[..|s|], t[|s|..];
    SumConcat(old_rows, new_rows, f);
    assert t == old_rows + new_rows;
    SumCongruent(s, old_rows, f);
    SumZero(new_rows, f);
  }

  ghost predicate Quiet(o: Outcome) {
    o.Done? || o.Rejected? || o.Replayed? || o.AlreadyProcessed? || o.Parked? || o.CardAuthorized?
  }

  ghost predicate KeepsFunds(db: Db, after: Db) {
    && |db.wallets| <= |after.wallets|
    && (forall i | 0 <= i < |db.wallets| ::
          Balance(after.wallets[i]) == Balance(db.wallets[i]) && Available(after.wallets[i]) == Available(db.wallets[i]))
    && (forall i | |db.wallets| <= i < |after.wallets| ::
          Balance(after.wallets[i]) == 0 && Available(after.wallets[i]) == 0)
    && |db.vaults| <= |after.vaults|
    && (forall i | 0 <= i < |db.vaults| :: Saved(after.vaults[i]) == Saved(db.vaults[i]))
    && (forall i | |db.vaults| <= i < |after.vaults| :: Saved(after.vaults[i]) == 0)
  }

  /** An outcome that reports no movement means no movement. */
  lemma QuietMeansNothing(o: Outcome)
    requires Quiet(o)
    ensures forall w: WalletId :: BalanceDelta(o, w) == HoldDelta(o, w) == CaptureDelta(o, w) == 0
    ensures forall v: VaultId :: SavedDelta(o, v) == 0
    ensures forall t: TxId :: ImbalanceDelta(o, t) == 0
    ensures DepositsSettled(o) == WithdrawalsSettled(o) == WithdrawalsOpened(o) == ToVaults(o) == 0
    ensures DepositsOpened(o) == NetCaptured(o) == 0
  {
  }

  lemma SameBalances(db: Db, after: Db)
    requires KeepsFunds(db, after)
    ensures forall w: WalletId :: BalanceAt(after, w) == BalanceAt(db, w) && AvailableAt(after, w) == AvailableAt(db, w)
    ensures forall v: VaultId :: SavedAt(after, v) == SavedAt(db, v)
    ensures SumBy(after.wallets, Balance) == SumBy(db.wallets, Balance)
    ensures SumBy(after.wallets, Available) == SumBy(db.wallets, Available)
    ensures SumBy(after.vaults, Saved) == SumBy(db.vaults, Saved)
  {
    SameColumn(db.wallets, after.wallets, Balance);
    SameColumn(db.wallets, after.wallets, Available);
    SameColumn(db.vaults, after.vaults, Saved);
    forall w: WalletId
      ensures BalanceAt(after, w) == BalanceAt(db, w) && AvailableAt(after, w) == AvailableAt(db, w)
    {
      if w < |db.wallets| {
        assert Balance(after.wallets[w]) == Balance(db.wallets[w]);
      } else if w < |after.wallets| {
        assert Balance(after.wallets[w]) == 0;
      }
    }
    forall v: VaultId ensures SavedAt(after, v) == SavedAt(db, v) {
      if v < |db.vaults| {
        assert Saved(after.vaults[v]) == Saved(db.vaults[v]);
      } else if v < |after.vaults| {
        assert Saved(after.vaults[v]) == 0;
      }
    }
  }

  lemma QuietEffect(db: Db, after: Db, o: Outcome)
    requires KeepsFunds(db, after) && after.ledger == db.ledger && |db.txs| <= |after.txs|
    requires Quiet(o)
    ensures Effect(db, after, o)
  {
    QuietMeansNothing(o);
    SameBalances(db, after);
  }

  // ---- the transactions of the money endpoints

  /** What the checks guarantee about a flight and no other request can undo. */
  ghost predicate FlightOk(db: Db, f: Flight) {
    match f
    case DepositFlight(_, w, amount, _, _, _, _) => w < |db.wallets| && amount > 0
    case WithdrawFlight(_, w, amount, _, _, _, row) => w < |db.wallets| && 0 < amount <= row.available
    case TransferFlight(_, _, from, to, amount, _, _, _) =>
      from < |db.wallets| && to < |db.wallets| && from != to && amount > 0
    case SettleFlight(t, row) =>
      t < |db.txs| && (row.kind == Deposit || row.kind == Withdrawal) && SameTerms(row, db.txs[t])
    case FundFlight(_, v, w, amount, _, _, _, row, _) =>
      w < |db.wallets| && v < |db.vaults| && amount <= row.available
    case DrainFlight(_, v, w, amount, _, _, _, vault) =>
      w < |db.wallets| && v < |db.vaults| && amount <= vault.amount
    case _ => true
  }

  /** Two versions of a transaction that differ at most in their status. */
  predicate SameTerms(a: Txn, b: Txn) {
    a.(status := b.status) == b
  }

  // What the legs of each kind of transaction mean.

  lemma ExternalLegsMean(a: Leg, b: Leg, o: Outcome)
    requires o.DepositOpened? && a.tx == b.tx
    requires a.account == ProviderSuspense && a.direction == Credit && a.amount == o.amount
    requires b.account.Provider? && b.direction == Debit && b.amount == o.amount
    ensures LegsMean(a, Some(b), o)
  {
  }

  lemma HoldLegsMean(a: Leg, b: Leg, o: Outcome)
    requires o.WithdrawalOpened? && a.tx == b.tx
    requires a.account == UserWallet(o.wallet) && a.direction == Debit && a.amount == o.amount
    requires b.account == ProviderSuspense && b.direction == Credit && b.amount == o.amount
    ensures LegsMean(a, Some(b), o)
  {
  }

  lemma TransferLegsMean(a: Leg, b: Leg, o: Outcome)
    requires o.Transferred? && a.tx == b.tx
    requires a.account == UserWallet(o.from) && a.direction == Debit && a.amount == o.amount
    requires b.account == UserWallet(o.to) && b.direction == Credit && b.amount == o.amount
    ensures LegsMean(a, Some(b), o)
  {
  }

  lemma SettlementLegMeans(a: Leg, o: Outcome)
    requires o.DepositSettled? || o.WithdrawalSettled?
    requires a.tx == o.tx && a.amount == o.amount
    requires if o.DepositSettled? then a.account == UserWallet(o.wallet) && a.direction == Credit
             else a.account == ManualPayout && a.direction == Debit
    ensures LegsMean(a, None, o)
  {
  }

  lemma VaultLegsMean(wallet: Leg, vault: Leg, o: Outcome)
    requires o.VaultFunded? || o.VaultDrained?
    requires wallet.tx == vault.tx && wallet.amount == vault.amount == o.amount
    requires wallet.account == UserWallet(o.wallet) && vault.account == UserVault(o.vault)
    requires wallet.direction == (if o.VaultFunded? then Debit else Credit)
    requires vault.direction == (if o.VaultFunded? then Credit else Debit)
    ensures LegsMean(wallet, Some(vault), o) && LegsMean(vault, Some(wallet), o)
  {
  }

  lemma CardLegsMean(a: Leg, b: Leg, o: Outcome)
    requires o.CardCaptured? || o.CardReversed?
    requires a.account == UserWallet(o.wallet) && b.account == CardSuspense && a.tx == b.tx
    requires Signed(b) == -Signed(a) == if o.CardCaptured? then o.amount else -o.amount
    ensures LegsMean(a, Some(b), o)
  {
  }

  lemma DepositLands(db: Db, f: Flight)
    requires f.DepositFlight?
    ensures var (after, o) := LandDeposit(db, f); Effect(db, after, o)
  {
    var (after, o) := LandDeposit(db, f);
    if o.DepositOpened? {
      var n := |db.ledger|;
      ExternalLegsMean(after.ledger[n], after.ledger[n + 1], o);
      PostedEffect(db, after, o, after.ledger[n], Some(after.ledger[n + 1]));
    } else {
      QuietEffect(db, after, o);
    }
  }

  lemma WithdrawMovesFunds(db: Db, f: Flight)
    requires f.WithdrawFlight? && FlightOk(db, f) && Fresh(db, f)
    ensures var (after, o) := LandWithdraw(db, f); o.WithdrawalOpened? ==> WalletEffect(db, after, o) && VaultEffect(db, after, o)
  {
    var (after, o) := LandWithdraw(db, f);
    if o.WithdrawalOpened? {
      ShiftEffect(db.wallets, f.wallet, 0, -f.amount);
      assert after.wallets == Shift(db.wallets, f.wallet, 0, -f.amount);
    }
  }

  lemma WithdrawLands(db: Db, f: Flight)
    requires f.WithdrawFlight? && FlightOk(db, f) && Fresh(db, f)
    ensures var (after, o) := LandWithdraw(db, f); Effect(db, after, o)
  {
    var (after, o) := LandWithdraw(db, f);
    if o.WithdrawalOpened? {
      WithdrawMovesFunds(db, f);
      var n := |db.ledger|;
      HoldLegsMean(after.ledger[n], after.ledger[n + 1], o);
      PostedEffect(db, after, o, after.ledger[n], Some(after.ledger[n + 1]));
    } else {
      QuietEffect(db, after, o);
    }
  }

  /** Moving an amount from one wallet to another leaves both sums alone. */
  lemma MoveBetween(wallets: seq<Wallet>, from: WalletId, to: WalletId, amount: int)
    requires from < |wallets| && to < |wallets|
    ensures var moved := Shift(Shift(wallets, from, -amount, -amount), to, amount, amount);
            SumBy(moved, Balance) == SumBy(wallets, Balance) && SumBy(moved, Available) == SumBy(wallets, Available)
  {
    ShiftEffect(wallets, from, -amount, -amount);
    ShiftEffect(Shift(wallets, from, -amount, -amount), to, amount, amount);
  }

  lemma TransferMovesFunds(db: Db, f: Flight)
    requires f.TransferFlight? && FlightOk(db, f)
    ensures var (after, o) := LandTransfer(db, f); o.Transferred? ==> WalletEffect(db, after, o) && VaultEffect(db, after, o)
  {
    var (after, o) := LandTransfer(db, f);
    if o.Transferred? {
      MoveBetween(db.wallets, f.from, f.to, f.amount);
      assert after.wallets == Shift(Shift(db.wallets, f.from, -f.amount, -f.amount), f.to, f.amount, f.amount);
      assert after.vaults == db.vaults;
    }
  }

  lemma TransferLands(db: Db, f: Flight)
    requires f.TransferFlight? && FlightOk(db, f)
    ensures var (after, o) := LandTransfer(db, f); Effect(db, after, o)
  {
    var (after, o) := LandTransfer(db, f);
    if o.Transferred? {
      TransferMovesFunds(db, f);
      var n := |db.ledger|;
      TransferLegsMean(after.ledger[n], after.ledger[n + 1], o);
      PostedEffect(db, after, o, after.ledger[n], Some(after.ledger[n + 1]));
    } else {
      QuietEffect(db, after, o);
    }
  }

  lemma SettleMovesFunds(db: Db, f: Flight)
    requires f.SettleFlight?
    ensures var (after, o) := LandSettle(db, f);
            o.DepositSettled? || o.WithdrawalSettled? ==> WalletEffect(db, after, o) && VaultEffect(db, after, o)
  {
    var (after, o) := LandSettle(db, f);
    if o.DepositSettled? {
      ShiftEffect(db.wallets, o.wallet, o.amount, o.amount);
    }
  }

  lemma SettleLands(db: Db, f: Flight)
    requires f.SettleFlight?
    ensures var (after, o) := LandSettle(db, f); Effect(db, after, o)
  {
    var (after, o) := LandSettle(db, f);
    if o.DepositSettled? || o.WithdrawalSettled? {
      SettleMovesFunds(db, f);
      SettlementLegMeans(after.ledger[|db.ledger|], o);
      PostedEffect(db, after, o, after.ledger[|db.ledger|], None);
    } else {
      QuietEffect(db, after, o);
    }
  }

  lemma FundMovesFunds(db: Db, f: Flight)
    requires f.FundFlight? && Fresh(db, f)
    ensures var (after, o) := LandFund(db, f); o.VaultFunded? ==> WalletEffect(db, after, o) && VaultEffect(db, after, o)
  {
    var (after, o) := LandFund(db, f);
    if o.VaultFunded? {
      ShiftEffect(db.wallets, f.wallet, -f.amount, -f.amount);
      assert after.wallets == Shift(db.wallets, f.wallet, -f.amount, -f.amount);
      SumUpdate(db.vaults, f.vault, after.vaults[f.vault], Saved);
    }
  }

  lemma FundLands(db: Db, f: Flight)
    requires f.FundFlight? && Fresh(db, f)
    ensures var (after, o) := LandFund(db, f); Effect(db, after, o)
  {
    var (after, o) := LandFund(db, f);
    if o.VaultFunded? {
      FundMovesFunds(db, f);
      var n := |db.ledger|;
      VaultLegsMean(after.ledger[n], after.ledger[n + 1], o);
      PostedEffect(db, after, o, after.ledger[n], Some(after.ledger[n + 1]));
    } else {
      QuietEffect(db, after, o);
    }
  }

  lemma DrainMovesFunds(db: Db, f: Flight)
    requires f.DrainFlight? && Fresh(db, f)
    ensures var (after, o) := LandDrain(db, f); o.VaultDrained? ==> WalletEffect(db, after, o) && VaultEffect(db, after, o)
  {
    var (after, o) := LandDrain(db, f);
    if o.VaultDrained? {
      ShiftEffect(db.wallets, f.wallet, f.amount, f.amount);
      assert after.wallets == Shift(db.wallets, f.wallet, f.amount, f.amount);
      SumUpdate(db.vaults, f.vault, after.vaults[f.vault], Saved);
    }
  }

  lemma DrainLands(db: Db, f: Flight)
    requires f.DrainFlight? && Fresh(db, f)
    ensures var (after, o) := LandDrain(db, f); Effect(db, after, o)
  {
    var (after, o) := LandDrain(db, f);
    if o.VaultDrained? {
      DrainMovesFunds(db, f);
      var n := |db.ledger|;
      VaultLegsMean(after.ledger[n + 1], after.ledger[n], o);
      PostedEffect(db, after, o, after.ledger[n], Some(after.ledger[n + 1]));
    } else {
      QuietEffect(db, after, o);
    }
  }

  lemma LandEffect(db: Db, f: Flight)
    requires FlightOk(db, f) && Fresh(db, f)
    ensures var (after, o) := Land(db, f); Effect(db, after, o)
  {
    match f
    case Landed => QuietEffect(db, db, Done);
    case DepositFlight(_, _, _, _, _, _, _) => DepositLands(db, f);
    case WithdrawFlight(_, _, _, _, _, _, _) => WithdrawLands(db, f);
    case TransferFlight(_, _, _, _, _, _, _, _) => TransferLands(db, f);
    case SettleFlight(_, _) => SettleLands(db, f);
    case FundFlight(_, _, _, _, _, _, _, _, _) => FundLands(db, f);
    case DrainFlight(_, _, _, _, _, _, _, _) => DrainLands(db, f);
    case StoreKeyFlight(_, _, _) => QuietEffect(db, Land(db, f).0, Land(db, f).1);
  }

  // ---- the requests served in one piece

  lemma CardLegsEffect(db: Db, after: Db, o: Outcome, a: Leg, b: Leg)
    requires o.CardCaptured? || o.CardReversed?
    requires after.wallets == db.wallets && after.vaults == db.vaults && |db.txs| <= |after.txs|
    requires after.ledger == db.ledger + [a, b]
    requires a.account == UserWallet(o.wallet) && b.account == CardSuspense && a.tx == b.tx
    requires Signed(b) == -Signed(a) == if o.CardCaptured? then o.amount else -o.amount
    ensures Effect(db, after, o)
  {
    SameBalances(db, after);
    CardLegsMean(a, b, o);
    assert after.ledger == Appended(db.ledger, a, Some(b));
    PostedEffect(db, after, o, a, Some(b));
  }

  predicate TouchesWallets(d: DirectRequest) {
    d.FreezeWalletReq? || d.UnfreezeWalletReq? || d.VerifyEmailReq? || d.CreateWalletReq? || d.SetPrimaryReq?
  }

  predicate TouchesVaults(d: DirectRequest) {
    d.CreateVaultReq? || d.LockVaultReq?
  }

  /** Outside the money endpoints, no row's money changes and every new wallet or vault is empty. */
  lemma DispatchFunds(db: Db, d: DirectRequest)
    ensures KeepsFunds(db, Dispatch(db, d).0)
  {
    var after := Dispatch(db, d).0;
    if !TouchesWallets(d) {
      assert after.wallets == db.wallets;
    } else {
      assert after.vaults == db.vaults;
    }
    if !TouchesVaults(d) {
      assert after.vaults == db.vaults;
    }
  }

  /** A request other than a capture or a reversal posts nothing and reports nothing that moves money. */
  lemma DispatchQuiet(db: Db, d: DirectRequest)
    ensures var (after, o) := Dispatch(db, d);
            |db.txs| <= |after.txs| && (Quiet(o) || ((o.CardCaptured? || o.CardReversed?) && |after.ledger| == |db.ledger| + 2))
    ensures var (after, o) := Dispatch(db, d); Quiet(o) ==> after.ledger == db.ledger
  {
  }

  lemma GuardedMovesOnlyCards(db: Db, d: DirectRequest)
    ensures var o := Guarded(db, d).1; Quiet(o) || o.CardCaptured? || o.CardReversed?
  {
    DispatchQuiet(db, d);
  }

  lemma CardEffect(db: Db, d: DirectRequest)
    requires d.CaptureReq? || d.ReverseReq?
    ensures var (after, o) := Dispatch(db, d); Quiet(o) || Effect(db, after, o)
  {
    var (after, o) := Dispatch(db, d);
    if !Quiet(o) {
      var n := |db.ledger|;
      CardLegsEffect(db, after, o, after.ledger[n], after.ledger[n + 1]);
    }
  }

  lemma DispatchEffect(db: Db, d: DirectRequest)
    ensures var (after, o) := Dispatch(db, d); Effect(db, after, o)
  {
    var (after, o) := Dispatch(db, d);
    DispatchQuiet(db, d);
    if Quiet(o) {
      DispatchFunds(db, d);
      QuietEffect(db, after, o);
    } else {
      CardEffect(db, d);
    }
  }

  /** Outside the money endpoints, the only transactions opened are card payments. */
  lemma GuardedOpensCardPayments(db: Db, d: DirectRequest)
    ensures var after := Guarded(db, d).0;
            forall t | |db.txs| <= t < |after.txs| :: after.txs[t].kind == CardPayment
  {
  }

  lemma GuardedEffect(db: Db, d: DirectRequest)
    ensures var (after, o) := Guarded(db, d); Effect(db, after, o)
  {
    DispatchEffect(db, d);
    QuietEffect(db, db, Rejected(Unauthorized));
  }

  // ---- requests with checks

  /** The checks park a request only with rows they have just read and with what its transaction relies on. */
  lemma CheckedFlight(db: Db, r: MoneyRequest)
    requires Check(db, r).Go?
    ensures FlightOk(db, Check(db, r).flight) && Fresh(db, Check(db, r).flight)
  {
  }

  lemma CheckReplies(db: Db, r: MoneyRequest)
    requires Check(db, r).Reply?
    ensures Quiet(Check(db, r).outcome)
  {
  }

  /** A later key leaves every column a transfer has moved as it is. */
  lemma KeyStoredFunds(db: Db, after: Db, o: Outcome, keys: map<Key, KeyRow>, refused: bool)
    requires o.Transferred? && WalletEffect(db, after, o) && VaultEffect(db, after, o)
    ensures var stored, reported := after.(keys := keys), o.(keyRefused := refused);
            WalletEffect(db, stored, reported) && VaultEffect(db, stored, reported)
  {
    var stored := after.(keys := keys);
    forall w: WalletId ensures BalanceAt(stored, w) == BalanceAt(after, w) && AvailableAt(stored, w) == AvailableAt(after, w) {
    }
    forall v: VaultId ensures SavedAt(stored, v) == SavedAt(after, v) {
    }
  }

  lemma KeyStoredLegs(db: Db, after: Db, o: Outcome, keys: map<Key, KeyRow>, refused: bool)
    requires o.Transferred? && LedgerEffect(db, after, o) && SuspenseEffect(db, after, o)
    ensures var stored, reported := after.(keys := keys), o.(keyRefused := refused);
            LedgerEffect(db, stored, reported) && SuspenseEffect(db, stored, reported)
  {
  }

  lemma ConcludeEffect(db: Db, landed: Db, f: Flight, o: Outcome)
    requires Effect(db, landed, o)
    ensures var (after, last) := Conclude(landed, f, o); Effect(db, after, last)
  {
    var (after, last) := Conclude(landed, f, o);
    if Rest(f, o).StoreKeyFlight? {
      KeyStoredFunds(db, landed, o, after.keys, last.keyRefused);
      KeyStoredLegs(db, landed, o, after.keys, last.keyRefused);
      assert after == landed.(keys := after.keys);
    }
  }

  lemma ServeEffect(db: Db, r: MoneyRequest)
    ensures var (after, o) := Serve(db, r); Effect(db, after, o)
  {
    match Check(db, r)
    case Reply(o) =>
      CheckReplies(db, r);
      QuietEffect(db, db, o);
    case Go(f) =>
      CheckedFlight(db, r);
      LandEffect(db, f);
      var (landed, o) := Land(db, f);
      ConcludeEffect(db, landed, f, o);
  }
}
