/** The savings service: moves between wallets and vaults, and the loops that apply savings rules. */
module SavingsService {
  import opened Schema
  import opened Endpoints
  import opened Direct
  import opened SavingsRules

  method CreateVault(db: Database, user: UserId, walletId: WalletId, currency: Currency) returns (o: Outcome)
    modifies db
    ensures (db.Snapshot(), o) == Direct.CreateVault(old(db.Snapshot()), user, walletId, currency)
  {
    if walletId >= |db.wallets| || db.wallets[walletId].owner != user { return Rejected(Forbidden); }
    db.vaults := db.vaults + [Vault(user, walletId, 0, currency, false)];
    return Done;
  }

  method SetVaultLock(db: Database, user: UserId, vaultId: VaultId, locked: bool) returns (o: Outcome)
    modifies db
    ensures (db.Snapshot(), o) == LockVault(old(db.Snapshot()), user, vaultId, locked)
  {
    if vaultId >= |db.vaults| || db.vaults[vaultId].owner != user { return Rejected(NotFound); }
    db.vaults := db.vaults[vaultId := db.vaults[vaultId].(locked := locked)];
    return Done;
  }

  method DepositToVault(db: Database, user: UserId, vaultId: VaultId, amount: int, key: Key, source: Source, now: int)
    returns (o: Outcome)
    modifies db
    ensures (db.Snapshot(), o) == Serve(old(db.Snapshot()), FundReq(user, vaultId, amount, key, source, now))
  {
    if vaultId >= |db.vaults| || db.vaults[vaultId].owner != user { return Rejected(NotFound); }
    var vault := db.vaults[vaultId];
    if vault.wallet >= |db.wallets| { return Rejected(NotFound); }
    var wallet := db.wallets[vault.wallet];
    if wallet.available < amount { return Rejected(BadRequest); }
    var hash := VaultHash(user, vaultId, amount);
    if key in db.keys {
      var existing := db.keys[key];
      if existing.user == user && existing.hash == hash && existing.response.Some? {
        return Replayed(existing.response.value);
      }
      return Rejected(BadRequest);
    }
    o := CommitDeposit(db, user, vaultId, amount, key, source, now, wallet, vault);
  }

  /** The serializable transaction of a vault deposit, on the rows its checks have read. */
  method CommitDeposit(db: Database, user: UserId, vaultId: VaultId, amount: int, key: Key, source: Source, now: int,
                       wallet: Wallet, vault: Vault)
    returns (o: Outcome)
    modifies db
    ensures (db.Snapshot(), o)
            == LandFund(old(db.Snapshot()), FundFlight(user, vaultId, vault.wallet, amount, key, source, now, wallet, vault))
  {
    if key in db.keys || KeyUsed(db.txs, key) { return Rejected(Aborted); }
    if vault.wallet >= |db.wallets| || vaultId >= |db.vaults| { return Rejected(Aborted); }
    db.keys := db.keys[key := KeyRow(user, PostVaultDeposit, VaultHash(user, vaultId, amount), None, None)];
    var t := |db.txs|;
    db.txs := db.txs + [Txn(VaultContribution, Some(user), Some(user), Some(vault.wallet), Some(vault.wallet), amount,
                            amount, vault.currency, Completed, Some(key), now, None)];
    db.ledger := db.ledger + [Leg(t, UserWallet(vault.wallet), Debit, amount, vault.currency,
                                  Some(wallet.balance), Some(wallet.balance - amount)),
                              Leg(t, UserVault(vaultId), Credit, amount, vault.currency,
                                  Some(vault.amount), Some(vault.amount + amount))];
    db.contributions := db.contributions + [Contribution(vaultId, vault.wallet, t, amount, source)];
    WriteAmounts(db, vault.wallet, wallet.balance - amount, wallet.available - amount, vaultId, vault.amount + amount);
    var response := Response(t, Some(key));
    db.keys := db.keys[key := db.keys[key].(status := Some(200), response := Some(response))];
    assert db.keys == old(db.keys)[key := db.keys[key]];
    return VaultFunded(vault.wallet, vaultId, amount, response);
  }

  /** The two updates that end either transaction: they overwrite the columns and leave the rest of both rows. */
  method WriteAmounts(db: Database, walletId: WalletId, balance: int, available: int, vaultId: VaultId, amount: int)
    requires walletId < |db.wallets| && vaultId < |db.vaults|
    modifies db
    ensures db.Snapshot()
            == old(db.Snapshot()).(wallets := SetFunds(old(db.wallets), walletId, balance, available),
                                   vaults := old(db.vaults)[vaultId := old(db.vaults)[vaultId].(amount := amount)])
  {
    db.wallets := db.wallets[walletId := db.wallets[walletId].(balance := balance, available := available)];
    db.vaults := db.vaults[vaultId := db.vaults[vaultId].(amount := amount)];
  }

  method WithdrawFromVault(db: Database, user: UserId, vaultId: VaultId, amount: int, key: Key, now: int)
    returns (o: Outcome)
    modifies db
    ensures (db.Snapshot(), o) == Serve(old(db.Snapshot()), DrainReq(user, vaultId, amount, key, now))
  {
    if vaultId >= |db.vaults| || db.vaults[vaultId].owner != user { return Rejected(NotFound); }
    var vault := db.vaults[vaultId];
    if vault.locked { return Rejected(BadRequest); }
    if vault.amount < amount { return Rejected(BadRequest); }
    if vault.wallet >= |db.wallets| { return Rejected(NotFound); }
    var wallet := db.wallets[vault.wallet];
    var hash := VaultHash(user, vaultId, amount);
    if key in db.keys {
      var existing := db.keys[key];
      if existing.user == user && existing.hash == hash && existing.response.Some? {
        return Replayed(existing.response.value);
      }
      return Rejected(BadRequest);
    }
    o := CommitWithdrawal(db, user, vaultId, amount, key, now, wallet, vault);
  }

  /** The serializable transaction of a vault withdrawal, on the rows its checks have read. */
  method CommitWithdrawal(db: Database, user: UserId, vaultId: VaultId, amount: int, key: Key, now: int, wallet: Wallet,
                          vault: Vault)
    returns (o: Outcome)
    modifies db
    ensures (db.Snapshot(), o)
            == LandDrain(old(db.Snapshot()), DrainFlight(user, vaultId, vault.wallet, amount, key, now, wallet, vault))
  {
    if key in db.keys || KeyUsed(db.txs, key) { return Rejected(Aborted); }
    if vault.wallet >= |db.wallets| || vaultId >= |db.vaults| { return Rejected(Aborted); }
    db.keys := db.keys[key := KeyRow(user, PostVaultWithdraw, VaultHash(user, vaultId, amount), None, None)];
    var t := |db.txs|;
    db.txs := db.txs + [Txn(VaultWithdrawal, Some(user), Some(user), Some(vault.wallet), Some(vault.wallet), amount,
                            amount, vault.currency, Completed, Some(key), now, None)];
    db.ledger := db.ledger + [Leg(t, UserVault(vaultId), Debit, amount, vault.currency,
                                  Some(vault.amount), Some(vault.amount - amount)),
                              Leg(t, UserWallet(vault.wallet), Credit, amount, vault.currency,
                                  Some(wallet.balance), Some(wallet.balance + amount))];
    WriteAmounts(db, vault.wallet, wallet.balance + amount, wallet.available + amount, vaultId, vault.amount - amount);
    var response := Response(t, Some(key));
    db.keys := db.keys[key := db.keys[key].(status := Some(200), response := Some(response))];
    assert db.keys == old(db.keys)[key := db.keys[key]];
    return VaultDrained(vault.wallet, vaultId, amount, response);
  }

  /** The amount a rule saves, found as the loop over the rules finds it. */
  method FindSaving(rule: Rule, spent: int) returns (amount: Option<int>)
    ensures amount == Saving(rule, spent)
  {
    amount := None;
    if rule.kind == RoundUp {
      var diff := Ceiling(spent) - spent;
      if diff > 0 { amount := Some(diff); }
    } else if rule.kind == FixedAmount {
      if rule.amount.Some? { amount := Some(rule.amount.value); }
    } else if rule.kind == Percentage {
      if rule.percentage.Some? && rule.percentage.value != 0.0 {
        var share := spent as real * rule.percentage.value / 100.0;
        if share > 0.0 { amount := Some(share.Floor); }
      }
    }
  }

  /** Rule i deposits under the generated key keys[i]; the result is false if the loop was cut short. */
  method ApplyRulesForTransaction(db: Database, sender: UserId, spent: int, rules: seq<Rule>, keys: seq<Key>, now: int)
    returns (completed: bool)
    requires |keys| == |rules|
    requires forall i | 0 <= i < |rules| :: WholeShare(rules[i], spent)
    modifies db
    ensures var deposits := seq(|rules|, i requires 0 <= i < |rules| =>
                TransactionDeposit(rules[i], sender, spent, keys[i], now));
            var loop := MakeDeposits(old(db.Snapshot()), deposits);
            db.Snapshot() == loop.db && completed == !loop.stopped
  {
    ghost var deposits := seq(|rules|, i requires 0 <= i < |rules| =>
      TransactionDeposit(rules[i], sender, spent, keys[i], now));
    var n := 0;
    while n < |rules|
      invariant 0 <= n <= |rules|
      invariant MakeDeposits(old(db.Snapshot()), deposits[..n]).db == db.Snapshot()
      invariant !MakeDeposits(old(db.Snapshot()), deposits[..n]).stopped
    {
      var rule := rules[n];
      var amount := FindSaving(rule, spent);
      assert deposits[..n + 1][..n] == deposits[..n];
      if amount.Some? {
        var o := DepositToVault(db, sender, rule.vault, amount.value, keys[n], SourceOf(rule.kind), now);
        if o.Rejected? {
          StoppedStays(old(db.Snapshot()), deposits, n + 1);
          return false;
        }
      }
      n := n + 1;
    }
    assert deposits[..n] == deposits;
    return true;
  }

  method RunScheduledRules(db: Database, rules: seq<Rule>, keys: seq<Key>, now: int) returns (completed: bool)
    requires |keys| == |rules|
    modifies db
    ensures var deposits := seq(|rules|, i requires 0 <= i < |rules| => ScheduledDeposit(rules[i], keys[i], now));
            var loop := MakeDeposits(old(db.Snapshot()), deposits);
            db.Snapshot() == loop.db && completed == !loop.stopped
  {
    ghost var deposits := seq(|rules|, i requires 0 <= i < |rules| => ScheduledDeposit(rules[i], keys[i], now));
    var n := 0;
    while n < |rules|
      invariant 0 <= n <= |rules|
      invariant MakeDeposits(old(db.Snapshot()), deposits[..n]).db == db.Snapshot()
      invariant !MakeDeposits(old(db.Snapshot()), deposits[..n]).stopped
    {
      var rule := rules[n];
      assert deposits[..n + 1][..n] == deposits[..n];
      if rule.amount.Some? {
        var o := DepositToVault(db, rule.user, rule.vault, rule.amount.value, keys[n], ScheduledRule, now);
        if o.Rejected? {
          StoppedStays(old(db.Snapshot()), deposits, n + 1);
          return false;
        }
      }
      n := n + 1;
    }
    assert deposits[..n] == deposits;
    return true;
  }
}
