/** What each operation of the bank does to the cash flow that a user's snapshot shows. */
module CashFlows {
  import opened Schema
  import opened Sums
  import opened Endpoints
  import opened Direct
  import opened Machine
  import opened Analytics
  import opened PeerFlows
  import Books
  import opened Idempotency
  import opened Attribution
  import opened Admission
  import opened CardAccounting
  import opened CardTerms

  predicate Falls(tx: Txn, start: int, end: int) {
    start <= tx.createdAt < end
  }

  /** What a completed transaction of the bank is worth to a user, told by its kind. */
  function Worth(user: UserId, tx: Txn): int {
    match tx.kind
    case Deposit => if tx.receiver == Some(user) then tx.amount else 0
    case Withdrawal => if tx.sender == Some(user) then -tx.amount else 0
    case CardPayment => if tx.sender == Some(user) then -tx.amount else 0
    case P2PTransfer =>
      (if tx.receiver == Some(user) then tx.amount else 0) - (if tx.sender == Some(user) then tx.amount else 0)
    case _ => 0
  }

  function Counted(user: UserId, start: int, end: int): Txn -> int {
    (tx: Txn) => if tx.status == Completed && Falls(tx, start, end) then Worth(user, tx) else 0
  }

  lemma WorthIsFlow(db: Db, tx: Txn, user: UserId)
    requires NamesOwners(db, tx)
    ensures Receipt(user, tx) - Payment(user, tx) == Worth(user, tx)
  {
  }

  /** A user's cash flow is the worth of the completed transactions of the period, and of nothing else. */
  lemma {:induction false} CashFlowIsWorth(db: Db, txs: seq<Txn>, user: UserId, start: int, end: int)
    requires forall t | 0 <= t < |txs| :: NamesOwners(db, txs[t])
    ensures CashFlow(txs, start, end)(user) == SumBy(txs, Counted(user, start, end))
  {
    if |txs| > 0 {
      CashFlowIsWorth(db, txs[..|txs| - 1], user, start, end);
      CashFlowLast(txs, start, end, user);
      WorthIsFlow(db, txs[|txs| - 1], user);
    }
  }

  /** The change of a user's cash flow, and with it of the net cash flow of every snapshot, over one request. */
  function Moved(db: Db, after: Db, user: UserId, start: int, end: int): int {
    CashFlow(after.txs, start, end)(user) - CashFlow(db.txs, start, end)(user)
  }

  lemma FlowCounts(db: Db, user: UserId, start: int, end: int)
    requires Attributed(db)
    ensures CashFlow(db.txs, start, end)(user) == SumBy(db.txs, Counted(user, start, end))
  {
    CashFlowIsWorth(db, db.txs, user, start, end);
  }

  lemma SumOneMore(txs: seq<Txn>, after: seq<Txn>, f: Txn -> int)
    requires |after| == |txs| + 1 && txs <= after
    ensures SumBy(after, f) == SumBy(txs, f) + f(after[|txs|])
  {
    assert after == txs + [after[|txs|]];
    SumAppend(txs, after[|txs|], f);
  }

  lemma AppendMoves(db: Db, after: Db, user: UserId, start: int, end: int)
    requires Attributed(db) && Attributed(after)
    requires |after.txs| == |db.txs| + 1 && db.txs <= after.txs
    ensures Moved(db, after, user, start, end) == Counted(user, start, end)(after.txs[|db.txs|])
  {
    FlowCounts(db, user, start, end);
    FlowCounts(after, user, start, end);
    SumOneMore(db.txs, after.txs, Counted(user, start, end));
  }

  lemma UpdateMoves(db: Db, after: Db, t: TxId, user: UserId, start: int, end: int)
    requires Attributed(db) && Attributed(after) && t < |db.txs| == |after.txs|
    requires after.txs == db.txs[t := after.txs[t]]
    ensures Moved(db, after, user, start, end)
            == Counted(user, start, end)(after.txs[t]) - Counted(user, start, end)(db.txs[t])
  {
    FlowCounts(db, user, start, end);
    FlowCounts(after, user, start, end);
    SumUpdate(db.txs, t, after.txs[t], Counted(user, start, end));
  }

  function Gain(counts: bool, amount: int): int {
    if counts then amount else 0
  }

  /**
   Main result, in every reachable state: a transfer moves its amount out of the cash flow of its sender and into that of
   the owner of the receiving wallet, at the time of the request, and touches nobody else's.
   */
  lemma TransferMovesCashFlow(actions: seq<Action>, db: Db, r: MoneyRequest, user: UserId, start: int, end: int)
    requires db == Run(START, actions).db && r.TransferReq? && Serve(db, r).1.Transferred?
    ensures r.receiver < |db.wallets|
    ensures Moved(db, Serve(db, r).0, user, start, end)
            == Gain(start <= r.now < end && user == db.wallets[r.receiver].owner, r.amount)
               - Gain(start <= r.now < end && user == r.user, r.amount)
  {
    AlwaysAttributed(actions);
    ServeTells(db, r);
    TransferNamesParties(db, r);
    AppendMoves(db, Serve(db, r).0, user, start, end);
  }

  /** Opening a deposit or a withdrawal, and moving money into or out of a vault, moves nobody's cash flow. */
  lemma OpeningMovesNoCashFlow(actions: seq<Action>, db: Db, r: MoneyRequest, user: UserId, start: int, end: int)
    requires db == Run(START, actions).db && Keyed(r)
    ensures Moved(db, Serve(db, r).0, user, start, end) == 0
  {
    AlwaysAttributed(actions);
    AnsweredExactly(db, r);
    if Opens(Serve(db, r).1, r) {
      ServeTells(db, r);
      OpenedRecordsRequest(db, r);
      AppendMoves(db, Serve(db, r).0, user, start, end);
    }
  }

  lemma SettledMoves(db: Db, after: Db, t: TxId, user: UserId, start: int, end: int)
    requires Attributed(db) && Attributed(after) && t < |db.txs|
    requires after.txs == db.txs[t := db.txs[t].(status := Completed)]
    requires db.txs[t].status == Pending && (db.txs[t].kind == Deposit || db.txs[t].kind == Withdrawal)
    ensures Moved(db, after, user, start, end) == Gain(Falls(db.txs[t], start, end), Worth(user, db.txs[t]))
  {
    UpdateMoves(db, after, t, user, start, end);
  }

  /** Settling a deposit brings its amount to its owner, and a withdrawal takes it, at the time it was opened. */
  lemma SettlingMovesCashFlow(actions: seq<Action>, db: Db, r: MoneyRequest, user: UserId, start: int, end: int)
    requires db == Run(START, actions).db && r.CompleteReq? && Settled(Serve(db, r).1)
    ensures r.tx < |db.txs|
    ensures var tx := db.txs[r.tx];
            Moved(db, Serve(db, r).0, user, start, end)
            == Gain(Falls(tx, start, end) && user == r.user, if tx.kind == Deposit then tx.amount else -tx.amount)
  {
    AlwaysAttributed(actions);
    ServeTells(db, r);
    SettlesExactly(db, r);
    SettlementReports(db, r);
    SettledMoves(db, Serve(db, r).0, r.tx, user, start, end);
    assert NamesOwners(db, db.txs[r.tx]);
  }

  lemma BookedCaptureMoves(db: Db, after: Db, a: AuthId, amount: int, o: Outcome, user: UserId, start: int, end: int)
    requires Attributed(db) && Attributed(after) && BooksCapture(db, a, amount, after, o)
    requires AuthTells(db, db.auths[a]) && db.txs[db.auths[a].tx].kind == CardPayment
    requires db.txs[db.auths[a].tx].status != Completed
    ensures Moved(db, after, user, start, end)
            == -Gain(Falls(db.txs[db.auths[a].tx], start, end) && user == db.cards[db.auths[a].card].owner, amount)
  {
    UpdateMoves(db, after, db.auths[a].tx, user, start, end);
  }

  lemma BookedReversalMoves(db: Db, after: Db, a: AuthId, amount: int, o: Outcome, user: UserId, start: int, end: int)
    requires Attributed(db) && Attributed(after) && BooksReversal(db, a, amount, after, o)
    requires AuthTells(db, db.auths[a]) && db.txs[db.auths[a].tx].kind == CardPayment
    requires db.txs[db.auths[a].tx].status == Completed
    ensures Moved(db, after, user, start, end)
            == Gain(Falls(db.txs[db.auths[a].tx], start, end) && user == db.cards[db.auths[a].card].owner,
                    db.txs[db.auths[a].tx].amount)
  {
    UpdateMoves(db, after, db.auths[a].tx, user, start, end);
  }

  /** A captured card payment costs its card's owner the amount captured, at the time it was authorized. */
  lemma CaptureMovesCashFlow(actions: seq<Action>, s: System, payer: UserId, a: AuthId, part: Option<nat>, user: UserId,
                             start: int, end: int)
    requires s == Run(START, actions) && MayCapture(s.db, payer, a, part)
    ensures s.db.auths[a].tx < |s.db.txs|
    ensures Moved(s.db, CaptureCard(s.db, payer, a, part).0, user, start, end)
            == -Gain(Falls(s.db.txs[s.db.auths[a].tx], start, end) && user == payer, Asked(part, s.db.auths[a].amount))
  {
    AlwaysAttributed(actions);
    AlwaysWiredHere(actions, s);
    CardsAlwaysOk(actions);
    CapturedExactly(actions, s, payer, a, part);
    CaptureTells(s.db, payer, a, part);
    assert AuthTells(s.db, s.db.auths[a]) && MarkOk(s.db, a, Marks(s.log)[a]);
    var (after, o) := CaptureCard(s.db, payer, a, part);
    BookedCaptureMoves(s.db, after, a, Asked(part, s.db.auths[a].amount), o, user, start, end);
  }

  lemma AlwaysWiredHere(actions: seq<Action>, s: System)
    requires s == Run(START, actions)
    ensures Books.Wired(s.db)
  {
    Books.AlwaysWired(actions);
  }

  /** Reversing a card payment, even in part, takes the whole payment out of the cash flow of the card's owner. */
  lemma CardReversalMovesCashFlow(actions: seq<Action>, s: System, payer: UserId, a: AuthId, part: Option<nat>,
                                  user: UserId, start: int, end: int)
    requires s == Run(START, actions) && MayReverse(s.db, payer, a, part)
    ensures Moved(s.db, ReverseCard(s.db, payer, s.db.auths[a].tx, part).0, user, start, end)
            == Gain(Falls(s.db.txs[s.db.auths[a].tx], start, end) && user == payer, s.db.txs[s.db.auths[a].tx].amount)
  {
    AlwaysAttributed(actions);
    AlwaysWiredHere(actions, s);
    ReversedExactly(actions, s, payer, a, part);
    ReverseTells(s.db, payer, s.db.auths[a].tx, part);
    var (after, o) := ReverseCard(s.db, payer, s.db.auths[a].tx, part);
    assert AuthTells(s.db, s.db.auths[a]);
    BookedReversalMoves(s.db, after, a, Asked(part, s.db.txs[s.db.auths[a].tx].amount), o, user, start, end);
  }

  /** An administrator may reverse exactly what is completed or in process, and flag exactly what is not flagged yet. */
  lemma AdminMarksExactly(db: Db, t: TxId)
    ensures AdminReverse(db, t).1.Done? <==> t < |db.txs| && db.txs[t].status in {Completed, Processing}
    ensures AdminFlag(db, t).1.Done? <==> t < |db.txs| && db.txs[t].status != RequiresAction
    ensures AdminReverse(db, t).1.Done? ==> AdminReverse(db, t).0 == db.(txs := db.txs[t := db.txs[t].(status := Reversed)])
    ensures AdminFlag(db, t).1.Done? ==> AdminFlag(db, t).0 == db.(txs := db.txs[t := db.txs[t].(status := RequiresAction)])
    ensures !AdminReverse(db, t).1.Done? ==> AdminReverse(db, t).0 == db
    ensures !AdminFlag(db, t).1.Done? ==> AdminFlag(db, t).0 == db
  {
  }

  /** Either mark takes a completed transaction back out of the cash flow of its parties, though its money stays moved. */
  lemma AdminMarkMovesCashFlow(actions: seq<Action>, db: Db, d: DirectRequest, user: UserId, start: int, end: int)
    requires db == Run(START, actions).db && (d.AdminReverseReq? || d.AdminFlagReq?) && Guarded(db, d).1.Done?
    ensures d.tx < |db.txs|
    ensures Moved(db, Guarded(db, d).0, user, start, end)
            == -Gain(db.txs[d.tx].status == Completed && Falls(db.txs[d.tx], start, end), Worth(user, db.txs[d.tx]))
    ensures Guarded(db, d).0.wallets == db.wallets && Guarded(db, d).0.ledger == db.ledger
  {
    AlwaysAttributed(actions);
    AdminMarksExactly(db, d.tx);
    Attribution.StatusTells(db, d.tx, if d.AdminReverseReq? then Reversed else RequiresAction);
    UpdateMoves(db, Guarded(db, d).0, d.tx, user, start, end);
  }

  /** What a user's snapshot of a period shows as saved. */
  function SavedIn(db: Db, user: UserId, start: int, end: int): int {
    SumBy(Select(db.txs, user, start, end), SavedBy(user))
  }

  /** Money put into a vault shows as saved by its owner, at the time of the request; taking it out does not undo that. */
  lemma SavingShows(db: Db, r: MoneyRequest, user: UserId, start: int, end: int)
    requires Keyed(r) && Opens(Serve(db, r).1, r)
    ensures SavedIn(Serve(db, r).0, user, start, end)
            == SavedIn(db, user, start, end) + Gain(r.FundReq? && user == r.user && start <= r.now < end, r.amount)
  {
    OpenedRecordsRequest(db, r);
    var after := Serve(db, r).0;
    assert after.txs[..|after.txs| - 1] == db.txs;
    SelectLast(after.txs, user, start, end, SavedBy(user));
  }
}
