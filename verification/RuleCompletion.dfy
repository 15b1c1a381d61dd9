/** Exactly when the loop over the savings rules reaches the end of the list, told from the state before it. */
module RuleCompletion {
  import opened Schema
  import opened Sums
  import opened Endpoints
  import opened SavingsRules

  /** The vault of the request exists, belongs to its requester, and its wallet exists. */
  predicate ReachesWallet(db: Db, r: MoneyRequest) {
    && r.FundReq?
    && r.vault < |db.vaults| && db.vaults[r.vault].owner == r.user
    && db.vaults[r.vault].wallet < |db.wallets|
  }

  /** What one deposit of the list takes from wallet w. */
  function DrawOn(db: Db, w: WalletId): Option<MoneyRequest> -> int {
    (d: Option<MoneyRequest>) =>
      if d.Some? && d.value.FundReq? && d.value.vault < |db.vaults| && db.vaults[d.value.vault].wallet == w
      then d.value.amount else 0
  }

  /** Deposit i finds its wallet, and the wallet covers it together with all earlier deposits that draw on it. */
  predicate Payable(db: Db, deposits: seq<Option<MoneyRequest>>, i: nat)
    requires i < |deposits|
  {
    deposits[i].Some? ==>
      && ReachesWallet(db, deposits[i].value)
      && var w := db.vaults[deposits[i].value.vault].wallet;
         SumBy(deposits[..i + 1], DrawOn(db, w)) <= db.wallets[w].available
  }

  predicate UsesKey(d: Option<MoneyRequest>, key: Key) {
    d.Some? && d.value.FundReq? && d.value.key == key
  }

  /** The deposits are made under keys that are generated for them: unused and pairwise different. */
  ghost predicate KeysGenerated(db: Db, deposits: seq<Option<MoneyRequest>>) {
    && (forall i | 0 <= i < |deposits| && deposits[i].Some? ::
          deposits[i].value.FundReq? && !Taken(db, deposits[i].value.key))
    && (forall i, j | 0 <= i < j < |deposits| && deposits[j].Some? :: !UsesKey(deposits[i], deposits[j].value.key))
  }

  // ---- one deposit

  predicate Covered(db: Db, r: MoneyRequest)
    requires r.FundReq?
  {
    ReachesWallet(db, r) && r.amount <= db.wallets[db.vaults[r.vault].wallet].available
  }

  /** What the deposits of a loop leave as it was. */
  ghost predicate SameOwners(db: Db, after: Db) {
    && |after.vaults| == |db.vaults| && |after.wallets| == |db.wallets|
    && (forall v | 0 <= v < |db.vaults| ::
          after.vaults[v].owner == db.vaults[v].owner && after.vaults[v].wallet == db.vaults[v].wallet)
  }

  lemma DepositDecidesExactly(db: Db, r: MoneyRequest)
    requires r.FundReq? && !Taken(db, r.key)
    ensures Serve(db, r).1.Rejected? <==> !Covered(db, r)
    ensures Covered(db, r) ==> Serve(db, r).1.VaultFunded?
  {
  }

  lemma DepositDraws(db: Db, r: MoneyRequest)
    requires r.FundReq? && Serve(db, r).1.VaultFunded?
    ensures var after := Serve(db, r).0;
            && SameOwners(db, after)
            && (forall w | 0 <= w < |db.wallets| ::
                  after.wallets[w].available == db.wallets[w].available - DrawOn(db, w)(Some(r)))
            && (forall k: Key | Taken(after, k) :: Taken(db, k) || k == r.key)
  {
    var after := Serve(db, r).0;
    forall k: Key | Taken(after, k) ensures Taken(db, k) || k == r.key {
      if KeyUsed(after.txs, k) && k != r.key {
        var t :| 0 <= t < |after.txs| && after.txs[t].key == Some(k);
        assert t < |db.txs| && db.txs[t].key == Some(k);
      }
    }
  }

  // ---- the loop

  /** The state of a loop that has not stopped: the available balances are down by what was drawn. */
  ghost predicate Drawn(db: Db, after: Db, deposits: seq<Option<MoneyRequest>>) {
    && SameOwners(db, after)
    && (forall w | 0 <= w < |db.wallets| ::
          after.wallets[w].available == db.wallets[w].available - SumBy(deposits, DrawOn(db, w)))
    && (forall k: Key | Taken(after, k) :: Taken(db, k) || exists i :: 0 <= i < |deposits| && UsesKey(deposits[i], k))
  }

  lemma DrawnContinues(db: Db, now: Db, front: seq<Option<MoneyRequest>>, r: MoneyRequest)
    requires Drawn(db, now, front) && r.FundReq? && Serve(now, r).1.VaultFunded?
    ensures Drawn(db, Serve(now, r).0, front + [Some(r)])
  {
    var after, all := Serve(now, r).0, front + [Some(r)];
    DepositDraws(now, r);
    forall w | 0 <= w < |db.wallets|
      ensures after.wallets[w].available == db.wallets[w].available - SumBy(all, DrawOn(db, w))
    {
      SumAppend(front, Some(r), DrawOn(db, w));
    }
    forall k: Key | Taken(after, k) && !Taken(db, k) ensures exists i :: 0 <= i < |all| && UsesKey(all[i], k) {
      if Taken(now, k) {
        var i :| 0 <= i < |front| && UsesKey(front[i], k);
        assert UsesKey(all[i], k);
      } else {
        assert UsesKey(all[|front|], k);
      }
    }
  }

  lemma DrawnSkips(db: Db, now: Db, front: seq<Option<MoneyRequest>>)
    requires Drawn(db, now, front)
    ensures Drawn(db, now, front + [None])
  {
    var all := front + [None];
    forall w | 0 <= w < |db.wallets| ensures SumBy(all, DrawOn(db, w)) == SumBy(front, DrawOn(db, w)) {
      SumAppend(front, None, DrawOn(db, w));
    }
    forall k: Key | Taken(now, k) && !Taken(db, k) ensures exists i :: 0 <= i < |all| && UsesKey(all[i], k) {
      var i :| 0 <= i < |front| && UsesKey(front[i], k);
      assert UsesKey(all[i], k);
    }
  }

  /** In a state the loop has reached, the next deposit is covered exactly when it is payable from the start. */
  lemma CoveredIsPayable(db: Db, now: Db, front: seq<Option<MoneyRequest>>, r: MoneyRequest)
    requires Drawn(db, now, front) && r.FundReq?
    ensures Covered(now, r) <==> Payable(db, front + [Some(r)], |front|)
  {
    var all := front + [Some(r)];
    assert all[..|front| + 1] == all;
    if ReachesWallet(db, r) {
      SumAppend(front, Some(r), DrawOn(db, db.vaults[r.vault].wallet));
    }
  }

  lemma PayableInPrefix(db: Db, deposits: seq<Option<MoneyRequest>>, n: nat, i: nat)
    requires i < n <= |deposits|
    ensures Payable(db, deposits[..n], i) <==> Payable(db, deposits, i)
  {
    assert deposits[..n][..i + 1] == deposits[..i + 1];
  }

  /**
   Main result, for any list of deposits under generated keys: the loop reaches its end exactly when every vault
   belongs to its requester and has a wallet, and every wallet covers, deposit by deposit, all that draw on it so far.
   */
  lemma {:induction false} LoopCompletesExactly(db: Db, deposits: seq<Option<MoneyRequest>>)
    requires KeysGenerated(db, deposits)
    ensures !MakeDeposits(db, deposits).stopped <==> forall i | 0 <= i < |deposits| :: Payable(db, deposits, i)
    ensures !MakeDeposits(db, deposits).stopped ==> Drawn(db, MakeDeposits(db, deposits).db, deposits)
  {
    if |deposits| > 0 {
      var n := |deposits| - 1;
      var front, last := deposits[..n], deposits[n];
      LoopCompletesExactly(db, front);
      assert deposits == front + [last];
      forall i | 0 <= i < n ensures Payable(db, front, i) <==> Payable(db, deposits, i) {
        PayableInPrefix(db, deposits, n, i);
      }
      var loop := MakeDeposits(db, front);
      if !loop.stopped {
        if last.None? {
          DrawnSkips(db, loop.db, front);
        } else {
          assert !Taken(loop.db, last.value.key);
          DepositDecidesExactly(loop.db, last.value);
          CoveredIsPayable(db, loop.db, front, last.value);
          if Covered(loop.db, last.value) {
            DrawnContinues(db, loop.db, front, last.value);
          }
        }
      } else {
        assert MakeDeposits(db, deposits).stopped;
      }
    }
  }

  /**
   Main result: at the first deposit that is not payable the loop is cut short, and the state it leaves is the one
   the deposits before it have made, whatever the rest of the list asks for.
   */
  lemma StopsAtFirstUnpayable(db: Db, deposits: seq<Option<MoneyRequest>>, n: nat)
    requires KeysGenerated(db, deposits) && n < |deposits|
    requires !Payable(db, deposits, n) && forall i | 0 <= i < n :: Payable(db, deposits, i)
    ensures MakeDeposits(db, deposits).stopped && !MakeDeposits(db, deposits[..n]).stopped
    ensures MakeDeposits(db, deposits).db == MakeDeposits(db, deposits[..n]).db
  {
    var front, r := deposits[..n], deposits[n].value;
    forall i | 0 <= i < n ensures Payable(db, front, i) {
      PayableInPrefix(db, deposits, n, i);
    }
    LoopCompletesExactly(db, front);
    assert deposits[..n + 1] == front + [Some(r)];
    PayableInPrefix(db, deposits, n + 1, n);
    NotPayableStops(db, front, r);
    StoppedStays(db, deposits, n + 1);
  }

  lemma NotPayableStops(db: Db, front: seq<Option<MoneyRequest>>, r: MoneyRequest)
    requires KeysGenerated(db, front + [Some(r)]) && r.FundReq?
    requires var loop := MakeDeposits(db, front); !loop.stopped && Drawn(db, loop.db, front)
    requires !Payable(db, front + [Some(r)], |front|)
    ensures var all := MakeDeposits(db, front + [Some(r)]); all.stopped && all.db == MakeDeposits(db, front).db
  {
    var loop, all := MakeDeposits(db, front), front + [Some(r)];
    assert all[..|front|] == front && all[|front|] == Some(r);
    forall i | 0 <= i < |front| ensures !UsesKey(front[i], r.key) {
      assert all[i] == front[i];
    }
    assert !Taken(loop.db, r.key);
    DepositDecidesExactly(loop.db, r);
    CoveredIsPayable(db, loop.db, front, r);
    DepositAllOrNothing(loop.db, r);
  }
}
