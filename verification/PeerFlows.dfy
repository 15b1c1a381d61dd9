/** Transfers between users cancel in the cash flow of the users together, whatever the bank has been through. */
module PeerFlows {
  import opened Schema
  import opened Sums
  import opened Endpoints
  import opened Direct
  import opened Machine
  import opened Effects
  import opened Books
  import opened Analytics

  /** What one transaction adds to a user's net cash flow. */
  function NetOf(user: UserId): Txn -> int {
    (tx: Txn) => Receipt(user, tx) - Payment(user, tx)
  }

  /** A user's net cash flow in a period, as the user's snapshot computes it. */
  function CashFlow(txs: seq<Txn>, start: int, end: int): UserId -> int {
    (user: UserId) => SumBy(Select(txs, user, start, end), NetOf(user))
  }

  /** What a transaction adds to the cash flow of a group of users; a transfer inside the group adds nothing. */
  function GroupFlow(users: seq<UserId>): Txn -> int {
    (tx: Txn) =>
      if tx.kind == P2PTransfer then 0
      else (if IsIncome(tx.kind) && tx.receiver.Some? && tx.receiver.value in users then tx.net else 0)
           - (if IsExpense(tx.kind) && tx.sender.Some? && tx.sender.value in users then tx.amount else 0)
  }

  lemma CashFlowIsNetFlow(s: Snapshot, txs: seq<Txn>, user: UserId, start: int, end: int, resolve: Txn -> Category)
    requires Describes(s, Select(txs, user, start, end), user, resolve)
    ensures s.netCashFlow == CashFlow(txs, start, end)(user)
  {
    SumDifference(Select(txs, user, start, end), IncomeOf(user), ExpenseOf(user), NetOf(user));
  }

  // ---- one transaction, all users

  function FlowIn(tx: Txn): UserId -> int {
    (user: UserId) => Receipt(user, tx) - Payment(user, tx)
  }

  function ReceiptIn(tx: Txn): UserId -> int {
    (user: UserId) => Receipt(user, tx)
  }

  function PaymentIn(tx: Txn): UserId -> int {
    (user: UserId) => Payment(user, tx)
  }

  lemma {:induction false} OneReceiver(users: seq<UserId>, tx: Txn)
    requires Distinct(users)
    ensures SumBy(users, ReceiptIn(tx))
            == if IsIncome(tx.kind) && tx.receiver.Some? && tx.receiver.value in users then tx.net else 0
  {
    if |users| > 0 {
      var front, last := users[..|users| - 1], users[|users| - 1];
      OneReceiver(front, tx);
      assert users == front + [last];
      assert last !in front;
    }
  }

  lemma {:induction false} OneSender(users: seq<UserId>, tx: Txn)
    requires Distinct(users)
    ensures SumBy(users, PaymentIn(tx))
            == if IsExpense(tx.kind) && tx.sender.Some? && tx.sender.value in users then tx.amount else 0
  {
    if |users| > 0 {
      var front, last := users[..|users| - 1], users[|users| - 1];
      OneSender(front, tx);
      assert users == front + [last];
      assert last !in front;
    }
  }

  /** A completed transfer names both parties and moves the same amount out and in. */
  predicate PeerTerms(tx: Txn) {
    tx.kind == P2PTransfer ==> tx.sender.Some? && tx.receiver.Some? && tx.net == tx.amount
  }

  predicate PartiesIn(tx: Txn, users: seq<UserId>) {
    tx.kind == P2PTransfer && tx.sender.Some? && tx.receiver.Some? ==>
      tx.sender.value in users && tx.receiver.value in users
  }

  lemma OneTransaction(users: seq<UserId>, tx: Txn)
    requires Distinct(users) && PeerTerms(tx) && PartiesIn(tx, users)
    ensures SumBy(users, FlowIn(tx)) == GroupFlow(users)(tx)
  {
    OneReceiver(users, tx);
    OneSender(users, tx);
    SumDifference(users, ReceiptIn(tx), PaymentIn(tx), FlowIn(tx));
  }

  // ---- all transactions, all users

  lemma CashFlowLast(txs: seq<Txn>, start: int, end: int, user: UserId)
    requires |txs| > 0
    ensures var front, last := txs[..|txs| - 1], txs[|txs| - 1];
            CashFlow(txs, start, end)(user)
            == CashFlow(front, start, end)(user) + if InPeriod(last, start, end) then FlowIn(last)(user) else 0
  {
    SelectLast(txs, user, start, end, NetOf(user));
  }

  /**
   Main result: summed over any group of users that contains all senders and receivers of transfers, the net
   cash flows are the flows from and to the outside; transfers contribute nothing.
   */
  lemma {:induction false} TransfersCancel(txs: seq<Txn>, users: seq<UserId>, start: int, end: int)
    requires Distinct(users)
    requires forall t | 0 <= t < |txs| :: PeerTerms(txs[t]) && PartiesIn(txs[t], users)
    ensures SumBy(users, CashFlow(txs, start, end)) == SumBy(Within(txs, start, end), GroupFlow(users))
  {
    if |txs| == 0 {
      SumZero(users, CashFlow(txs, start, end));
    } else {
      var front, last := txs[..|txs| - 1], txs[|txs| - 1];
      TransfersCancel(front, users, start, end);
      forall i | 0 <= i < |users|
        ensures CashFlow(txs, start, end)(users[i])
             == CashFlow(front, start, end)(users[i]) + if InPeriod(last, start, end) then FlowIn(last)(users[i]) else 0
      {
        CashFlowLast(txs, start, end, users[i]);
      }
      if InPeriod(last, start, end) {
        OneTransaction(users, last);
        SumDifference(users, CashFlow(txs, start, end), CashFlow(front, start, end), FlowIn(last));
        SumAppend(Within(front, start, end), last, GroupFlow(users));
      } else {
        SumSame(users, CashFlow(txs, start, end), CashFlow(front, start, end));
        assert Within(front, start, end) + [] == Within(front, start, end);
      }
    }
  }

  // ---- the transfers of the bank

  ghost predicate AllPeerTerms(db: Db) {
    forall t | 0 <= t < |db.txs| :: PeerTerms(db.txs[t])
  }

  lemma LandPeerTerms(db: Db, f: Flight)
    requires AllPeerTerms(db)
    ensures AllPeerTerms(Land(db, f).0)
  {
  }

  lemma ServePeerTerms(db: Db, r: MoneyRequest)
    requires AllPeerTerms(db)
    ensures AllPeerTerms(Serve(db, r).0)
  {
    if Check(db, r).Go? {
      var f := Check(db, r).flight;
      LandPeerTerms(db, f);
      assert Serve(db, r).0.txs == Land(db, f).0.txs;
    }
  }

  lemma GuardedPeerTerms(db: Db, d: DirectRequest)
    requires Wired(db) && AllPeerTerms(db)
    ensures AllPeerTerms(Guarded(db, d).0)
  {
  }

  lemma {:induction false} PeerTermsAlways(actions: seq<Action>)
    ensures AllPeerTerms(Run(START, actions).db)
  {
    if |actions| > 0 {
      var front, last := actions[..|actions| - 1], actions[|actions| - 1];
      PeerTermsAlways(front);
      AlwaysWired(front);
      var s := Run(START, front);
      match last {
        case Call(r) => ServePeerTerms(s.db, r);
        case CallDirect(d) => GuardedPeerTerms(s.db, d);
        case Begin(r) =>
        case Finish(k, aborts) => if k < |s.inflight| { LandPeerTerms(s.db, s.inflight[k]); }
      }
    }
  }

  function NetCash(s: Snapshot): int { s.netCashFlow }

  /** Two tables of one length whose columns agree row by row have one sum. */
  lemma {:induction false} SumPaired<S, T>(s: seq<S>, t: seq<T>, f: S -> int, g: T -> int)
    requires |s| == |t| && forall i | 0 <= i < |s| :: f(s[i]) == g(t[i])
    ensures SumBy(s, f) == SumBy(t, g)
  {
    if |s| > 0 {
      SumPaired(s[..|s| - 1], t[..|t| - 1], f, g);
    }
  }

  /** Snapshot i is that of user i over one period of the given transactions. */
  ghost predicate AreSnapshots(snapshots: seq<Snapshot>, users: seq<UserId>, txs: seq<Txn>, start: int, end: int,
                               resolve: Txn -> Category)
  {
    && |snapshots| == |users|
    && forall i | 0 <= i < |users| :: Describes(snapshots[i], Select(txs, users[i], start, end), users[i], resolve)
  }

  /**
   Main result, in every state of every run: in the net cash flows of the snapshots of all users together the
   transfers of the bank cancel, and what is left are the flows from and to the outside.
   */
  lemma BankTransfersCancel(actions: seq<Action>, users: seq<UserId>, snapshots: seq<Snapshot>, start: int, end: int,
                            resolve: Txn -> Category)
    requires Distinct(users)
    requires forall t | 0 <= t < |Run(START, actions).db.txs| :: PartiesIn(Run(START, actions).db.txs[t], users)
    requires AreSnapshots(snapshots, users, Run(START, actions).db.txs, start, end, resolve)
    ensures var txs := Run(START, actions).db.txs;
            SumBy(snapshots, NetCash) == SumBy(Within(txs, start, end), GroupFlow(users))
  {
    var txs := Run(START, actions).db.txs;
    PeerTermsAlways(actions);
    TransfersCancel(txs, users, start, end);
    forall i | 0 <= i < |users| ensures NetCash(snapshots[i]) == CashFlow(txs, start, end)(users[i]) {
      CashFlowIsNetFlow(snapshots[i], txs, users[i], start, end, resolve);
    }
    SumPaired(snapshots, users, NetCash, CashFlow(txs, start, end));
  }
}
