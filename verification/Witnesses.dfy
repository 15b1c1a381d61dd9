/**
 Runs from the empty bank that reach what the exact conditions leave open: money opened for withdrawal or saved twice,
 a transfer between currencies, a transfer under a foreign key, a vault below zero, a rule that stops the rules after
 it, and a card above its spending limit.
 */
module Witnesses {
  import opened Schema
  import opened Sums
  import opened Endpoints
  import opened Direct
  import opened Machine
  import opened Effects
  import opened Books
  import opened Solvency
  import opened SavingsRules
  import opened Transfers
  import opened Interleaving

  // ---- one user with 100 units

  const DEPOSIT := DepositReq(0, 0, 100, RWF, "deposit", "bank", 0)

  const JOIN := CallDirect(RegisterReq("a@imari", "1"))

  const JOINED: seq<Action> := [JOIN, CallDirect(VerifyEmailReq(0, true))]

  const OPENED: seq<Action> := JOINED + [Call(DEPOSIT)]

  const FUNDED: seq<Action> := OPENED + [Call(CompleteReq(0, 0))]

  const ALICE := User("a@imari", "1", UserActive, true, NotStarted, Tier1)

  lemma Then(actions: seq<Action>, a: Action)
    ensures Run(START, actions + [a]) == Step(Run(START, actions), a)
  {
    assert (actions + [a])[..|actions|] == actions;
  }

  lemma Registered()
    ensures Run(START, [JOIN])
            == System(EMPTY_DB.(users := [User("a@imari", "1", UserPending, false, NotStarted, Tier0)]), [], [Done])
  {
    Then([], JOIN);
    assert [] + [JOIN] == [JOIN];
    var s := Step(START, JOIN);
    assert s.db.users == [User("a@imari", "1", UserPending, false, NotStarted, Tier0)] && s.log == [Done];
  }

  lemma Joined()
    ensures Run(START, JOINED)
            == System(EMPTY_DB.(users := [ALICE], wallets := [NewWallet(0, RWF, true)]), [], [Done, Done])
  {
    Registered();
    var s := Run(START, [JOIN]);
    var verify := CallDirect(VerifyEmailReq(0, true));
    Then([JOIN], verify);
    assert JOINED == [JOIN] + [verify];
    assert Guarded(s.db, verify.d) == VerifyEmail(s.db, 0, true);
    assert s.db.users[0 := ALICE] == [ALICE];
    assert s.db.wallets + [NewWallet(0, RWF, true)] == [NewWallet(0, RWF, true)];
    assert s.log + [Done] == [Done, Done];
  }

  lemma Opened()
    ensures var s := Run(START, OPENED);
            && s.db.users == [ALICE] && s.db.wallets == [NewWallet(0, RWF, true)] && s.db.vaults == []
            && |s.db.txs| == 1 && s.db.txs[0].kind == Deposit && s.db.txs[0].status == Pending && s.db.txs[0].amount == 100
            && s.db.txs[0].receiver == Some(0) && s.db.txs[0].receiverWallet == Some(0)
            && s.db.txs[0].key == Some("deposit") && s.db.keys.Keys == {"deposit"} && s.db.keys["deposit"].user == 0
            && s.db.cards == [] && s.db.auths == [] && s.db.docs == [] && s.inflight == []
            && s.log == [Done, Done, DepositOpened(0, 100, Response(0, Some("deposit")))]
  {
    Joined();
    Then(JOINED, Call(DEPOSIT));
  }

  lemma OpenedLog()
    ensures var log := Run(START, OPENED).log;
            && SumBy(log, DepositsSettled) == 0 && SumBy(log, WithdrawalsOpened) == 0 && SumBy(log, HoldOf(0)) == 0
  {
    Opened();
    SumZero(Run(START, OPENED).log, DepositsSettled);
    SumZero(Run(START, OPENED).log, WithdrawalsOpened);
    SumZero(Run(START, OPENED).log, HoldOf(0));
  }

  /** User 0 holds one wallet with 100 units, all available, and has used one key. */
  ghost predicate IsFunded(s: System) {
    && s.db.users == [ALICE] && s.db.docs == []
    && s.db.wallets == [NewWallet(0, RWF, true).(balance := 100, available := 100)]
    && s.db.vaults == [] && s.db.cards == [] && s.db.auths == [] && s.inflight == []
    && |s.db.txs| == 1 && s.db.txs[0].key == Some("deposit")
    && s.db.keys.Keys == {"deposit"} && s.db.keys["deposit"].user == 0
    && SumBy(s.log, DepositsSettled) == 100 && SumBy(s.log, WithdrawalsOpened) == 0 && SumBy(s.log, HoldOf(0)) == 0
  }

  lemma Funded()
    ensures IsFunded(Run(START, FUNDED))
  {
    Opened();
    OpenedLog();
    var s := Run(START, OPENED);
    var settle := Call(CompleteReq(0, 0));
    Then(OPENED, settle);
    var o := Serve(s.db, CompleteReq(0, 0)).1;
    assert o == DepositSettled(0, 100, 0);
    assert Step(s, settle).log == s.log + [o];
    SumAppend(s.log, o, DepositsSettled);
    SumAppend(s.log, o, WithdrawalsOpened);
    SumAppend(s.log, o, HoldOf(0));
  }

  // ---- withdrawals and vault deposits on a stale row

  function Withdraw60(key: Key): MoneyRequest { WithdrawReq(0, 0, 60, RWF, key, PinRight, 0) }

  /** Two withdrawals from one wallet, both checked before either lands, are both opened from the one balance. */
  lemma BothWithdrawalsOpen(s: System, r: MoneyRequest, q: MoneyRequest)
    requires r.WithdrawReq? && q.WithdrawReq? && r.wallet == q.wallet && r.key != q.key
    requires Check(s.db, r).Go? && Check(s.db, q).Go? && !Taken(s.db, r.key) && !Taken(s.db, q.key)
    ensures var t := Step(Step(Step(s, Begin(r)), Call(q)), Finish(|s.inflight|, false));
            && AvailableAt(t.db, r.wallet) == AvailableAt(s.db, r.wallet) - r.amount
            && BalanceAt(t.db, r.wallet) == BalanceAt(s.db, r.wallet)
            && |t.log| == |s.log| + 3 && t.log[|s.log|] == Parked
            && t.log[..|s.log|] == s.log
            && t.log[|s.log| + 1].WithdrawalOpened? && t.log[|s.log| + 2].WithdrawalOpened?
            && t.log[|s.log| + 1].wallet == q.wallet && t.log[|s.log| + 1].amount == q.amount
            && t.log[|s.log| + 2].wallet == r.wallet && t.log[|s.log| + 2].amount == r.amount
  {
    var begun := Step(s, Begin(r));
    assert begun.db == s.db && begun.inflight[|s.inflight|] == Check(s.db, r).flight;
    var called := Step(begun, Call(q));
    assert !Taken(called.db, r.key) by {
      assert called.db.txs[..|s.db.txs|] == s.db.txs;
    }
  }

  lemma ThreeMore(log: seq<Outcome>, all: seq<Outcome>, f: Outcome -> int)
    requires |all| == |log| + 3 && all[..|log|] == log
    ensures SumBy(all, f) == SumBy(log, f) + f(all[|log|]) + f(all[|log| + 1]) + f(all[|log| + 2])
  {
    var n := |log|;
    assert all == log + [all[n], all[n + 1]] + [all[n + 2]];
    SumAppend(log + [all[n], all[n + 1]], all[n + 2], f);
    SumAppendTwo(log, all[n], all[n + 1], f);
  }

  lemma FundedAdmits(s: System, key: Key)
    requires IsFunded(s) && key != "deposit"
    ensures Check(s.db, Withdraw60(key)).Go? && !Taken(s.db, key)
  {
  }

  lemma FundedOverdraws(s: System)
    requires IsFunded(s)
    ensures var t := Step(Step(Step(s, Begin(Withdraw60("a"))), Call(Withdraw60("b"))), Finish(0, false));
            && SumBy(t.log, DepositsSettled) == 100 && SumBy(t.log, WithdrawalsOpened) == 120
            && BalanceAt(t.db, 0) == 100 && AvailableAt(t.db, 0) == 40 && !WalletReconciles(t.db, t.log, 0)
  {
    FundedAdmits(s, "a");
    FundedAdmits(s, "b");
    BothWithdrawalsOpen(s, Withdraw60("a"), Withdraw60("b"));
    var t := Step(Step(Step(s, Begin(Withdraw60("a"))), Call(Withdraw60("b"))), Finish(0, false));
    ThreeMore(s.log, t.log, DepositsSettled);
    ThreeMore(s.log, t.log, WithdrawalsOpened);
    ThreeMore(s.log, t.log, HoldOf(0));
  }

  lemma ThenThree(actions: seq<Action>, a: Action, b: Action, c: Action)
    ensures Run(START, actions + [a] + [b] + [c]) == Step(Step(Step(Run(START, actions), a), b), c)
  {
    Then(actions, a);
    Then(actions + [a], b);
    Then(actions + [a] + [b], c);
  }

  /** A run that overdraws: 120 units are opened for withdrawal where 100 were deposited, and the wallet shows 40. */
  lemma StaleWithdrawalOverdraws()
    ensures var s := Run(START, FUNDED + [Begin(Withdraw60("a"))] + [Call(Withdraw60("b"))] + [Finish(0, false)]);
            && SumBy(s.log, DepositsSettled) == 100 && SumBy(s.log, WithdrawalsOpened) == 120
            && BalanceAt(s.db, 0) == 100 && AvailableAt(s.db, 0) == 40 && !WalletReconciles(s.db, s.log, 0)
  {
    Funded();
    FundedOverdraws(Run(START, FUNDED));
    ThenThree(FUNDED, Begin(Withdraw60("a")), Call(Withdraw60("b")), Finish(0, false));
  }

  const SETTLED_TWICE: seq<Action> :=
    OPENED + [Begin(CompleteReq(0, 0))] + [Begin(CompleteReq(0, 0))] + [Finish(0, false)] + [Finish(1, false)]

  /** A run in which one deposit of 100 units credits its wallet twice. */
  lemma DepositCreditedTwice()
    ensures AvailableAt(Run(START, OPENED).db, 0) == 0 && AvailableAt(Run(START, SETTLED_TWICE).db, 0) == 200
  {
    Opened();
    var begin := Begin(CompleteReq(0, 0));
    ThenThree(OPENED, begin, begin, Finish(0, false));
    Then(OPENED + [begin] + [begin] + [Finish(0, false)], Finish(1, false));
    ConcurrentCompletionsCreditTwice(Run(START, OPENED), CompleteReq(0, 0));
  }

  // ---- a vault

  const WITH_VAULT: seq<Action> := FUNDED + [CallDirect(CreateVaultReq(0, 0, RWF))]

  /** The funded bank with an empty vault. */
  ghost predicate HasVault(s: System) {
    IsFunded(System(s.db.(vaults := []), s.inflight, s.log)) && s.db.vaults == [Vault(0, 0, 0, RWF, false)]
  }

  lemma VaultCreated()
    ensures HasVault(Run(START, WITH_VAULT))
  {
    Funded();
    var s, create := Run(START, FUNDED), CallDirect(CreateVaultReq(0, 0, RWF));
    Then(FUNDED, create);
    assert Step(s, create).db.vaults == [Vault(0, 0, 0, RWF, false)];
    assert Step(s, create).log == s.log + [Done];
    SumAppend(s.log, Done, DepositsSettled);
    SumAppend(s.log, Done, WithdrawalsOpened);
    SumAppend(s.log, Done, HoldOf(0));
    assert Step(s, create).db.(vaults := []) == s.db;
  }

  function Save(amount: int, key: Key, source: Source): MoneyRequest { FundReq(0, 0, amount, key, source, 0) }

  /** A vault deposit and a withdrawal from its wallet, the withdrawal between the other's checks and its transaction. */
  lemma SavesWhatIsWithdrawn(s: System)
    requires HasVault(s)
    ensures var t := Step(Step(Step(s, Begin(Save(60, "a", Manual))), Call(Withdraw60("b"))), Finish(0, false));
            && |t.db.wallets| == |t.db.vaults| == 1 && t.db.wallets[0].available == 40 && t.db.vaults[0].amount == 60
            && |t.log| == |s.log| + 3 && t.log[..|s.log|] == s.log
            && t.log[|s.log|..] == [Parked, WithdrawalOpened(0, 60, Response(1, Some("b"))),
                                    VaultFunded(0, 0, 60, Response(2, Some("a")))]
  {
    var begun := Step(s, Begin(Save(60, "a", Manual)));
    assert begun.db == s.db && begun.log == s.log + [Parked];
    assert begun.inflight == [FundFlight(0, 0, 0, 60, "a", Manual, 0, s.db.wallets[0], s.db.vaults[0])];
    var called := Step(begun, Call(Withdraw60("b")));
    assert called.log == begun.log + [WithdrawalOpened(0, 60, Response(1, Some("b")))];
    assert called.db.txs[0].key == Some("deposit") && called.db.txs[1].key == Some("b");
    assert !Taken(called.db, "a");
    var t := Step(called, Finish(0, false));
    assert t.log == called.log + [VaultFunded(0, 0, 60, Response(2, Some("a")))];
  }

  lemma SavedAndWithdrawn(before: seq<Outcome>, db: Db, log: seq<Outcome>)
    requires SumBy(before, DepositsSettled) == 100 && SumBy(before, WithdrawalsOpened) == 0
    requires |db.wallets| == |db.vaults| == 1 && db.wallets[0].available == 40 && db.vaults[0].amount == 60
    requires |log| == |before| + 3 && log[..|before|] == before
    requires log[|before|..] == [Parked, WithdrawalOpened(0, 60, Response(1, Some("b"))),
                                 VaultFunded(0, 0, 60, Response(2, Some("a")))]
    ensures SumBy(log, DepositsSettled) == 100 && SumBy(log, WithdrawalsOpened) == 60
    ensures !Conserves(db, log)
  {
    var n := |before|;
    assert log[n] == log[n..][0] && log[n + 1] == log[n..][1] && log[n + 2] == log[n..][2];
    ThreeMore(before, log, DepositsSettled);
    ThreeMore(before, log, WithdrawalsOpened);
    SumAppend([], db.wallets[0], Available);
    SumAppend([], db.vaults[0], Saved);
    assert [] + [db.wallets[0]] == db.wallets && [] + [db.vaults[0]] == db.vaults;
  }

  /** A run that doubles money: of 100 units deposited 60 leave by a withdrawal, 60 are in a vault and 40 available. */
  lemma StaleVaultDepositDoubles()
    ensures var s := Run(START, WITH_VAULT + [Begin(Save(60, "a", Manual))] + [Call(Withdraw60("b"))] + [Finish(0, false)]);
            && SumBy(s.log, DepositsSettled) == 100 && SumBy(s.log, WithdrawalsOpened) == 60
            && AvailableAt(s.db, 0) == 40 && SavedAt(s.db, 0) == 60 && !BooksAgree(s.db, s.log)
  {
    VaultCreated();
    var s := Run(START, WITH_VAULT);
    SavesWhatIsWithdrawn(s);
    ThenThree(WITH_VAULT, Begin(Save(60, "a", Manual)), Call(Withdraw60("b")), Finish(0, false));
    var t := Run(START, WITH_VAULT + [Begin(Save(60, "a", Manual))] + [Call(Withdraw60("b"))] + [Finish(0, false)]);
    SavedAndWithdrawn(s.log, t.db, t.log);
  }

  // ---- savings rules

  function Fixed(amount: int): Rule { Rule(FixedAmount, 0, 0, Some(amount), None) }

  /** A run in which a savings rule with a negative amount takes a vault below zero. */
  lemma NegativeRuleEmptiesVault()
    ensures TransactionDeposit(Fixed(-10), 0, 50, "a", 0) == Some(Save(-10, "a", FixedRule))
    ensures var s := Run(START, WITH_VAULT + [Call(Save(-10, "a", FixedRule))]);
            SavedAt(s.db, 0) == -10 && BalanceAt(s.db, 0) == 110 && !Solvent(s.db)
  {
    VaultCreated();
    Then(WITH_VAULT, Call(Save(-10, "a", FixedRule)));
    var t := Run(START, WITH_VAULT + [Call(Save(-10, "a", FixedRule))]);
    assert t.db.vaults[0].amount == -10;
  }

  /**
   A reachable state in which one rule that asks for too much keeps a later rule from being applied: the second
   deposit is covered and would be made on its own, but after the first is rejected it is not made.
   */
  lemma RejectedRuleStopsLaterOne()
    ensures var db := Run(START, WITH_VAULT).db;
            var large := TransactionDeposit(Fixed(200), 0, 50, "a", 0);
            var small := TransactionDeposit(Fixed(50), 0, 50, "b", 0);
            && MakeDeposits(db, [large, small]).stopped && MakeDeposits(db, [large, small]).db == db
            && !MakeDeposits(db, [small]).stopped && SavedAt(MakeDeposits(db, [small]).db, 0) == 50
  {
    VaultCreated();
    var db := Run(START, WITH_VAULT).db;
    var large, small := Some(Save(200, "a", FixedRule)), Some(Save(50, "b", FixedRule));
    assert [large, small][..1] == [large];
    assert MakeDeposits(db, []) == Loop(db, [], false);
    assert Serve(db, large.value) == (db, Rejected(BadRequest));
    assert MakeDeposits(db, [large]).stopped && MakeDeposits(db, [large]).db == db;
    assert !KeyUsed(db.txs, "b");
    assert Serve(db, small.value).1.VaultFunded?;
  }

  // ---- transfers

  /** The funded user with a verified identity and a second, empty wallet in USD. */
  ghost predicate HasTwoCurrencies(db: Db) {
    && Live(db, 0)
    && db.wallets == [NewWallet(0, RWF, true).(balance := 100, available := 100), NewWallet(0, USD, false)]
  }

  const VERIFIED: seq<Action> :=
    FUNDED + [CallDirect(SubmitKycReq(0))] + [CallDirect(ApproveKycReq(0, 1))] + [CallDirect(CreateWalletReq(0, USD))]

  lemma BecomesVerified(db: Db)
    requires db.users == [ALICE] && db.docs == []
    ensures var submitted := Guarded(db, SubmitKycReq(0)).0;
            var approved := Guarded(submitted, ApproveKycReq(0, 1)).0;
            approved.users == [ALICE.(kyc := Verified, tier := Tier2)] && approved.wallets == db.wallets
  {
    var submitted := Guarded(db, SubmitKycReq(0)).0;
    assert submitted.docs == [Doc(0, None, None)] && submitted.users == [ALICE.(kyc := InProgress)];
  }

  lemma SecondCurrency(s: System)
    requires IsFunded(s)
    ensures var t := Step(Step(Step(s, CallDirect(SubmitKycReq(0))), CallDirect(ApproveKycReq(0, 1))),
                          CallDirect(CreateWalletReq(0, USD)));
            HasTwoCurrencies(t.db)
  {
    BecomesVerified(s.db);
    var approved := Step(Step(s, CallDirect(SubmitKycReq(0))), CallDirect(ApproveKycReq(0, 1)));
    assert approved.db.wallets == s.db.wallets && Live(approved.db, 0);
    assert !Holds(approved.db.wallets, 0, USD);
  }

  function Transfer(amount: int, to: WalletId, key: Option<Key>): MoneyRequest {
    TransferReq(0, to, amount, RWF, key, PinRight, None, 0)
  }

  lemma SendsAbroad(db: Db)
    requires HasTwoCurrencies(db)
    ensures var after := Serve(db, Transfer(60, 1, None)).0;
            && SumBy(db.wallets, BalanceIn(RWF)) == 100 && SumBy(db.wallets, BalanceIn(USD)) == 0
            && SumBy(after.wallets, BalanceIn(RWF)) == 40 && SumBy(after.wallets, BalanceIn(USD)) == 60
  {
    var after, o := Serve(db, Transfer(60, 1, None)).0, Serve(db, Transfer(60, 1, None)).1;
    assert PrimaryWallet(db.wallets, 0) == Some(0) by {
      assert db.wallets[..1] == [db.wallets[0]] && db.wallets[..1][..0] == [];
      assert IsActivePrimary(db.wallets[..1][0], 0);
    }
    assert o.Transferred?;
    TwoRows(db.wallets, BalanceIn(RWF));
    TwoRows(db.wallets, BalanceIn(USD));
    TwoRows(after.wallets, BalanceIn(RWF));
    TwoRows(after.wallets, BalanceIn(USD));
  }

  lemma TwoRows(wallets: seq<Wallet>, f: Wallet -> int)
    requires |wallets| == 2
    ensures SumBy(wallets, f) == f(wallets[0]) + f(wallets[1])
  {
    assert wallets == [] + [wallets[0], wallets[1]];
    SumAppendTwo([], wallets[0], wallets[1], f);
  }

  /** A run in which an admitted transfer turns 60 units of RWF into 60 units of USD. */
  lemma TransferChangesCurrency()
    ensures var before, after := Run(START, VERIFIED).db, Run(START, VERIFIED + [Call(Transfer(60, 1, None))]).db;
            && SumBy(before.wallets, BalanceIn(RWF)) == 100 && SumBy(before.wallets, BalanceIn(USD)) == 0
            && SumBy(after.wallets, BalanceIn(RWF)) == 40 && SumBy(after.wallets, BalanceIn(USD)) == 60
  {
    Funded();
    SecondCurrency(Run(START, FUNDED));
    ThenThree(FUNDED, CallDirect(SubmitKycReq(0)), CallDirect(ApproveKycReq(0, 1)), CallDirect(CreateWalletReq(0, USD)));
    SendsAbroad(Run(START, VERIFIED).db);
    Then(VERIFIED, Call(Transfer(60, 1, None)));
  }

  const BOB_JOINS := CallDirect(RegisterReq("b@imari", "2"))

  const BOBS_DEPOSIT := DepositReq(1, 1, 5, RWF, "his", "bank", 0)

  const WITH_BOB: seq<Action> :=
    FUNDED + [BOB_JOINS] + [CallDirect(VerifyEmailReq(1, true))] + [Call(BOBS_DEPOSIT)]

  /** The funded user, and a second one with an empty wallet who has used the key "his". */
  ghost predicate HasBob(db: Db, available: int) {
    && Live(db, 0)
    && |db.wallets| == 2 && db.wallets[1].owner == 1 && CanReceive(db.wallets[1])
    && db.wallets[0] == NewWallet(0, RWF, true).(balance := available, available := available)
    && "his" in db.keys && db.keys["his"].user == 1
  }

  lemma BobJoins(s: System)
    requires IsFunded(s)
    ensures var t := Step(Step(Step(s, BOB_JOINS), CallDirect(VerifyEmailReq(1, true))), Call(BOBS_DEPOSIT));
            HasBob(t.db, 100)
  {
    var registered := Step(s, BOB_JOINS);
    assert registered.db.users == [ALICE, User("b@imari", "2", UserPending, false, NotStarted, Tier0)];
    assert registered.db.wallets == s.db.wallets && registered.db.txs == s.db.txs && registered.db.keys == s.db.keys;
    assert !HoldsAny(registered.db.wallets, 1);
    var joined := Step(registered, CallDirect(VerifyEmailReq(1, true)));
    assert joined.db.wallets == s.db.wallets + [NewWallet(1, RWF, true)];
    assert joined.db.txs == s.db.txs && joined.db.keys == s.db.keys;
    assert !Taken(joined.db, "his");
  }

  lemma SendsUnderForeignKey(db: Db, available: int)
    requires HasBob(db, available) && available >= 40
    ensures var (after, o) := Serve(db, Transfer(40, 1, Some("his")));
            o.Transferred? && o.keyRefused && HasBob(after, available - 40)
  {
    assert PrimaryWallet(db.wallets, 0) == Some(0) by {
      assert db.wallets[..1] == [db.wallets[0]] && db.wallets[..1][..0] == [];
      assert IsActivePrimary(db.wallets[..1][0], 0);
    }
  }

  /** A run in which one transfer, sent twice under a key another user has taken, moves its amount both times. */
  lemma ForeignKeyMovesTwice()
    ensures var once := Run(START, WITH_BOB + [Call(Transfer(40, 1, Some("his")))]);
            var twice := Run(START, WITH_BOB + [Call(Transfer(40, 1, Some("his")))] + [Call(Transfer(40, 1, Some("his")))]);
            AvailableAt(Run(START, WITH_BOB).db, 0) == 100 && AvailableAt(once.db, 0) == 60 && AvailableAt(twice.db, 0) == 20
  {
    Funded();
    BobJoins(Run(START, FUNDED));
    ThenThree(FUNDED, BOB_JOINS, CallDirect(VerifyEmailReq(1, true)), Call(BOBS_DEPOSIT));
    var send := Call(Transfer(40, 1, Some("his")));
    SendsUnderForeignKey(Run(START, WITH_BOB).db, 100);
    Then(WITH_BOB, send);
    SendsUnderForeignKey(Run(START, WITH_BOB + [send]).db, 60);
    Then(WITH_BOB + [send], send);
  }

  // ---- a card

  function Pay(key: Key): Action { CallDirect(AuthorizeReq(0, 0, 60, RWF, key, 0)) }

  const WITH_CARD: seq<Action> := JOINED + [CallDirect(CreateCardReq(0, 0, RWF, Some(100), None))]

  const AUTHORIZED_TWICE: seq<Action> := WITH_CARD + [Pay("a")] + [Pay("b")]

  const CAPTURED_TWICE: seq<Action> :=
    AUTHORIZED_TWICE + [CallDirect(CaptureReq(0, 0, None))] + [CallDirect(CaptureReq(0, 1, None))]

  lemma CardCreated()
    ensures var db := Run(START, WITH_CARD).db;
            && Live(db, 0) && db.txs == [] && db.auths == []
            && db.cards == [Card(0, 0, CardActive, RWF, Some(100), None, 0, 0)]
  {
    Joined();
    Then(JOINED, CallDirect(CreateCardReq(0, 0, RWF, Some(100), None)));
  }

  lemma PaidOnce()
    ensures var db := Run(START, WITH_CARD + [Pay("a")]).db;
            && Live(db, 0) && |db.txs| == 1 && db.txs[0].key == Some("a")
            && db.auths == [Auth(0, 0, 60, Authorized)]
            && db.cards == [Card(0, 0, CardActive, RWF, Some(100), None, 60, 0)]
  {
    CardCreated();
    Then(WITH_CARD, Pay("a"));
    assert !KeyUsed(Run(START, WITH_CARD).db.txs, "a");
  }

  lemma PaidTwice()
    ensures var db := Run(START, AUTHORIZED_TWICE).db;
            && Live(db, 0) && |db.txs| == 2
            && db.auths == [Auth(0, 0, 60, Authorized), Auth(0, 1, 60, Authorized)]
            && db.cards == [Card(0, 0, CardActive, RWF, Some(100), None, 120, 0)]
  {
    PaidOnce();
    Then(WITH_CARD + [Pay("a")], Pay("b"));
    assert !KeyUsed(Run(START, WITH_CARD + [Pay("a")]).db.txs, "b");
  }

  /** A run in which a card with a spending limit of 100 has 120 captured: both payments passed the limit alone. */
  lemma CapturesExceedLimit()
    ensures var cards := Run(START, CAPTURED_TWICE).db.cards;
            |cards| == 1 && cards[0].spendingLimit == Some(100) && cards[0].spentTotal == 120
  {
    PaidTwice();
    var first, second := CallDirect(CaptureReq(0, 0, None)), CallDirect(CaptureReq(0, 1, None));
    Then(AUTHORIZED_TWICE, first);
    Then(AUTHORIZED_TWICE + [first], second);
    var once := Step(Run(START, AUTHORIZED_TWICE), first).db;
    assert once.cards == [Card(0, 0, CardActive, RWF, Some(100), None, 120, 60)];
    assert once.auths[1] == Auth(0, 1, 60, Authorized);
  }
}
