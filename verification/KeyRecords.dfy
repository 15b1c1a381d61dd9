/** What a stored idempotency key says about the transaction it names, and whose answer a repeated key gets. */
module KeyRecords {
  import opened Schema
  import opened Endpoints
  import opened Direct
  import opened Machine
  import opened Effects
  import opened Books
  import opened Lifecycle
  import opened Idempotency

  /** The hash of a key row describes the transaction its response names, and the endpoint decides its kind. */
  predicate RowDescribes(row: KeyRow, tx: Txn) {
    match row.endpoint
    case PostDeposit =>
      tx.kind == Deposit && tx.receiverWallet.Some?
      && row.hash == WalletHash(row.user, tx.receiverWallet.value, tx.amount, tx.currency)
    case PostWithdraw =>
      tx.kind == Withdrawal && tx.senderWallet.Some?
      && row.hash == WalletHash(row.user, tx.senderWallet.value, tx.amount, tx.currency)
    case PostVaultDeposit =>
      tx.kind == VaultContribution && row.hash.VaultHash? && row.hash.user == row.user && row.hash.amount == tx.amount
    case PostVaultWithdraw =>
      tx.kind == VaultWithdrawal && row.hash.VaultHash? && row.hash.user == row.user && row.hash.amount == tx.amount
    case PostTransfer => row.hash == NoHash
  }

  ghost predicate RowsDescribe(db: Db) {
    forall k | k in db.keys ::
      && db.keys[k].response.Some? && db.keys[k].response.value.tx < |db.txs|
      && RowDescribes(db.keys[k], db.txs[db.keys[k].response.value.tx])
  }

  lemma RowsKeepDescribing(db: Db, after: Db)
    requires RowsDescribe(db) && KeepsKeys(db, after) && Grows(db, after)
    requires forall k | k in after.keys && k !in db.keys ::
      && after.keys[k].response.Some? && after.keys[k].response.value.tx < |after.txs|
      && RowDescribes(after.keys[k], after.txs[after.keys[k].response.value.tx])
    ensures RowsDescribe(after)
  {
    forall k | k in after.keys
      ensures after.keys[k].response.Some? && after.keys[k].response.value.tx < |after.txs|
      ensures RowDescribes(after.keys[k], after.txs[after.keys[k].response.value.tx])
    {
      if k in db.keys {
        var t := db.keys[k].response.value.tx;
        assert RowDescribes(db.keys[k], db.txs[t]);
        assert db.txs[t].kind != CardPayment ==> SameTerms(db.txs[t], after.txs[t]);
      }
    }
  }

  /** The rows of a request in flight: a transfer that still has to store its key names a transaction that exists. */
  ghost predicate StoresExisting(db: Db, f: Flight) {
    f.StoreKeyFlight? ==> f.tx < |db.txs|
  }

  lemma KeyedLandDescribes(db: Db, f: Flight)
    requires KeyedFlight(f) && Wired(db) && FlightOk(db, f) && RowsDescribe(db)
    ensures RowsDescribe(Land(db, f).0)
  {
    LandGrows(db, f);
    LandKeys(db, f);
    NewRowDescribes(db, f);
    RowsKeepDescribing(db, Land(db, f).0);
  }

  lemma LaterKeyDescribes(db: Db, f: Flight)
    requires f.StoreKeyFlight? && f.tx < |db.txs| && RowsDescribe(db)
    ensures RowsDescribe(Land(db, f).0)
  {
    var after := LandStoreKey(db, f).0;
    assert after.txs == db.txs && (after.keys == db.keys || f.key !in db.keys);
  }

  lemma OthersStoreNoKey(db: Db, f: Flight)
    requires !KeyedFlight(f) && !f.StoreKeyFlight?
    ensures Land(db, f).0.keys == db.keys
  {
  }

  lemma LandDescribes(db: Db, f: Flight)
    requires Wired(db) && FlightOk(db, f) && StoresExisting(db, f) && RowsDescribe(db)
    ensures var (after, o) := Land(db, f); RowsDescribe(after) && StoresExisting(after, Rest(f, o))
  {
    if KeyedFlight(f) {
      KeyedLandDescribes(db, f);
    } else if f.StoreKeyFlight? {
      LaterKeyDescribes(db, f);
    } else {
      LandGrows(db, f);
      LandKeys(db, f);
      OthersStoreNoKey(db, f);
      RowsKeepDescribing(db, Land(db, f).0);
    }
  }

  lemma NewRowDescribes(db: Db, f: Flight)
    requires KeyedFlight(f)
    ensures var (after, o) := Land(db, f);
            o.Rejected? || (
              && after.keys.Keys == db.keys.Keys + {f.key}
              && after.keys[f.key].response == Some(Response(|db.txs|, Some(f.key)))
              && |after.txs| == |db.txs| + 1
              && RowDescribes(after.keys[f.key], after.txs[|db.txs|]))
    ensures Land(db, f).1.Rejected? ==> Land(db, f).0 == db
  {
  }

  lemma ServeDescribes(db: Db, r: MoneyRequest)
    requires Wired(db) && RowsDescribe(db)
    ensures RowsDescribe(Serve(db, r).0)
  {
    if Check(db, r).Go? {
      var f := Check(db, r).flight;
      CheckedFlight(db, r);
      LandDescribes(db, f);
      var (landed, o) := Land(db, f);
      if Rest(f, o).StoreKeyFlight? {
        LandGrows(db, f);
        LandDescribes(landed, Rest(f, o));
      }
    }
  }

  lemma GuardedDescribes(db: Db, d: DirectRequest)
    requires Wired(db) && RowsDescribe(db)
    ensures RowsDescribe(Guarded(db, d).0)
  {
    GuardedGrows(db, d);
    GuardedStoresNothing(db, d);
    GuardedKeys(db, d);
    RowsKeepDescribing(db, Guarded(db, d).0);
  }

  lemma StepDescribes(s: System, a: Action)
    requires Wired(s.db) && FlightsOk(s) && RowsDescribe(s.db)
    requires forall k | 0 <= k < |s.inflight| :: StoresExisting(s.db, s.inflight[k])
    ensures RowsDescribe(Step(s, a).db)
    ensures forall k | 0 <= k < |Step(s, a).inflight| :: StoresExisting(Step(s, a).db, Step(s, a).inflight[k])
  {
    StepGrows(s, a);
    if a.Call? {
      ServeDescribes(s.db, a.r);
    } else if a.CallDirect? {
      GuardedDescribes(s.db, a.d);
    } else if a.Finish? && a.k < |s.inflight| && !a.aborts {
      LandDescribes(s.db, s.inflight[a.k]);
    }
  }

  lemma {:induction false} RowsAlwaysDescribe(actions: seq<Action>)
    ensures var s := Run(START, actions);
            RowsDescribe(s.db) && forall k | 0 <= k < |s.inflight| :: StoresExisting(s.db, s.inflight[k])
  {
    if |actions| > 0 {
      var front, last := actions[..|actions| - 1], actions[|actions| - 1];
      RowsAlwaysDescribe(front);
      AlwaysWired(front);
      StepDescribes(Run(START, front), last);
    }
  }

  function KindOf(r: MoneyRequest): TxKind
    requires Keyed(r)
  {
    if r.DepositReq? then Deposit else if r.WithdrawReq? then Withdrawal
    else if r.FundReq? then VaultContribution else VaultWithdrawal
  }

  function EndpointOf(r: MoneyRequest): Endpoint
    requires Keyed(r)
  {
    if r.DepositReq? then PostDeposit else if r.WithdrawReq? then PostWithdraw
    else if r.FundReq? then PostVaultDeposit else PostVaultWithdraw
  }

  /**
   The hash of a request does not contain the endpoint. A replayed request is answered with a transaction of its own
   amount, and of its own kind exactly when the key was stored by its own endpoint.
   */
  lemma ReplayIsOwnKindExactly(actions: seq<Action>, r: MoneyRequest)
    requires Keyed(r) && Serve(Run(START, actions).db, r).1.Replayed?
    ensures var db := Run(START, actions).db;
            var t := Serve(db, r).1.response.tx;
            && r.key in db.keys && t < |db.txs| && db.txs[t].amount == r.amount
            && (db.txs[t].kind == KindOf(r) <==> db.keys[r.key].endpoint == EndpointOf(r))
  {
    RowsAlwaysDescribe(actions);
    var db := Run(START, actions).db;
    ReplayIsStored(db, r);
    var row := db.keys[r.key];
    assert RowDescribes(row, db.txs[row.response.value.tx]);
  }

  lemma ReplayIsStored(db: Db, r: MoneyRequest)
    requires Keyed(r) && Serve(db, r).1.Replayed?
    ensures r.key in db.keys && db.keys[r.key].response == Some(Serve(db, r).1.response)
    ensures var hash := db.keys[r.key].hash;
            if r.DepositReq? || r.WithdrawReq? then hash == WalletHash(r.user, r.wallet, r.amount, r.currency)
            else hash == VaultHash(r.user, r.vault, r.amount)
  {
  }

  /** A withdrawal its other checks would admit, under the key of an opened deposit with its wallet, amount and currency. */
  lemma WithdrawalGetsDepositsAnswer(before: seq<Action>, deposit: MoneyRequest, later: seq<Action>, r: MoneyRequest)
    requires deposit.DepositReq? && Serve(Run(START, before).db, deposit).1.DepositOpened?
    requires r.WithdrawReq? && r.user == deposit.user && r.wallet == deposit.wallet && r.amount == deposit.amount
    requires r.currency == deposit.currency && r.key == deposit.key && r.pin == PinRight
    requires var db := Run(START, before + [Call(deposit)] + later).db;
             r.wallet < |db.wallets| ==> !db.wallets[r.wallet].locked && r.amount <= db.wallets[r.wallet].available
    ensures var db := Run(START, before + [Call(deposit)] + later).db;
            Serve(db, r) == (db, Replayed(Serve(Run(START, before).db, deposit).1.response))
  {
    var made := before + [Call(deposit)];
    assert made[..|before|] == before;
    OpenedDepositStoresKey(Run(START, before).db, deposit);
    StoredKeysStay(made, later, r.key);
    RunContinues(START, made, later);
    OwnersAlwaysStay(Run(START, made), later);
    KnownWithdrawalReplays(Run(START, made + later).db, r, Serve(Run(START, before).db, deposit).1.response);
  }

  lemma KnownWithdrawalReplays(db: Db, r: MoneyRequest, response: Response)
    requires r.WithdrawReq? && r.amount > 0 && r.pin == PinRight
    requires r.wallet < |db.wallets| && db.wallets[r.wallet].owner == r.user && db.wallets[r.wallet].currency == r.currency
    requires !db.wallets[r.wallet].locked && r.amount <= db.wallets[r.wallet].available
    requires r.key in db.keys && db.keys[r.key].response == Some(response) && db.keys[r.key].user == r.user
    requires db.keys[r.key].hash == WalletHash(r.user, r.wallet, r.amount, r.currency)
    ensures Serve(db, r) == (db, Replayed(response))
  {
  }
}
