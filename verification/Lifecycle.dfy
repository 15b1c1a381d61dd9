/** The life of a transaction: never pending twice, settled at most once, and its exact imbalance in the ledger. */
module Lifecycle {
  import opened Schema
  import opened Sums
  import opened Endpoints
  import opened Direct
  import opened Machine
  import opened Effects
  import opened Books

  /** 1 for an outcome that settles transaction t, 0 for any other. */
  function SettleCount(o: Outcome, t: TxId): int {
    match o
    case DepositSettled(_, _, x) => At(x, t, 1)
    case WithdrawalSettled(_, _, x) => At(x, t, 1)
    case _ => 0
  }

  function SettlesOf(t: TxId): Outcome -> int { (o: Outcome) => SettleCount(o, t) }

  /** What transaction t leaves unbalanced in the ledger: nothing until it is settled, then its amount. */
  function ExpectedImbalance(db: Db, log: seq<Outcome>, t: TxId): int {
    if t >= |db.txs| || SumBy(log, SettlesOf(t)) == 0 then 0
    else if db.txs[t].kind == Deposit then db.txs[t].amount
    else if db.txs[t].kind == Withdrawal then -db.txs[t].amount
    else 0
  }

  ghost predicate Lives(db: Db, log: seq<Outcome>, t: TxId) {
    var settled := SumBy(log, SettlesOf(t));
    && 0 <= settled <= 1
    && (t >= |db.txs| || db.txs[t].status == Pending ==> settled == 0)
    && (settled == 1 ==> db.txs[t].kind == Deposit || db.txs[t].kind == Withdrawal)
    && SumBy(log, ImbalanceOf(t)) == ExpectedImbalance(db, log, t)
  }

  /** If the outcome settles a transaction, that one was pending, is not any more, and the amount is its own. */
  ghost predicate SettlesPending(db: Db, after: Db, o: Outcome) {
    o.DepositSettled? || o.WithdrawalSettled? ==>
      && o.tx < |db.txs| && o.tx < |after.txs|
      && db.txs[o.tx].status == Pending && after.txs[o.tx].status == Completed
      && db.txs[o.tx].kind == (if o.DepositSettled? then Deposit else Withdrawal)
      && db.txs[o.tx].amount == o.amount
      && (o.DepositSettled? ==> db.txs[o.tx].receiverWallet == Some(o.wallet))
  }

  lemma LandSettles(db: Db, f: Flight)
    requires FlightOk(db, f) && Fresh(db, f)
    ensures var (after, o) := Land(db, f); SettlesPending(db, after, o)
  {
  }

  lemma ServeSettles(db: Db, r: MoneyRequest)
    ensures var (after, o) := Serve(db, r); SettlesPending(db, after, o)
  {
    if Check(db, r).Reply? {
      CheckReplies(db, r);
    } else {
      CheckedFlight(db, r);
      LandSettles(db, Check(db, r).flight);
    }
  }

  lemma StepSettles(s: System, a: Action, o: Outcome)
    requires FlightsOk(s) && Undisturbed(s, a)
    requires Step(s, a).log == s.log + [o]
    ensures SettlesPending(s.db, Step(s, a).db, o)
  {
    assert o == Step(s, a).log[|s.log|];
    if a.Call? {
      ServeSettles(s.db, a.r);
    } else if a.CallDirect? {
      GuardedMovesOnlyCards(s.db, a.d);
    } else if a.Begin? {
      if Check(s.db, a.r).Reply? {
        CheckReplies(s.db, a.r);
      }
    } else if !a.aborts && a.k < |s.inflight| {
      LandSettles(s.db, s.inflight[a.k]);
    }
  }

  lemma LifeContinues(db: Db, log: seq<Outcome>, after: Db, o: Outcome, t: TxId)
    requires Lives(db, log, t) && Grows(db, after) && SettlesPending(db, after, o)
    ensures Lives(after, log + [o], t)
  {
    SumAppend(log, o, SettlesOf(t));
    SumAppend(log, o, ImbalanceOf(t));
  }

  /** Main result: every deposit and every withdrawal is settled at most once, and only out of PENDING. */
  lemma {:induction false} SettledAtMostOnce(actions: seq<Action>)
    requires UndisturbedRun(START, actions)
    ensures forall t: TxId :: Lives(Run(START, actions).db, Run(START, actions).log, t)
  {
    if |actions| > 0 {
      var front, last := actions[..|actions| - 1], actions[|actions| - 1];
      SettledAtMostOnce(front);
      AlwaysWired(front);
      var s := Run(START, front);
      StepGrows(s, last);
      var o := StepEffect(s, last);
      if Step(s, last) != s {
        StepSettles(s, last, o);
        forall t: TxId ensures Lives(Step(s, last).db, Step(s, last).log, t) {
          LifeContinues(s.db, s.log, Step(s, last).db, o, t);
        }
      }
    }
  }

  /**
   Main result: credits minus debits under one transaction are zero, except for a settled deposit, where they
   are its amount, and a settled withdrawal, where they are minus its amount.
   */
  lemma LedgerImbalanceExact(actions: seq<Action>, t: TxId)
    requires UndisturbedRun(START, actions)
    ensures var s := Run(START, actions); SumBy(s.db.ledger, SignedIn(t)) == ExpectedImbalance(s.db, s.log, t)
  {
    BooksHold(actions);
    SettledAtMostOnce(actions);
    var s := Run(START, actions);
    assert Lives(s.db, s.log, t);
    assert LedgerBalances(s.db, s.log);
  }

  lemma {:induction false} RunContinues(s: System, first: seq<Action>, second: seq<Action>)
    ensures Run(s, first + second) == Run(Run(s, first), second)
  {
    if |second| == 0 {
      assert first + second == first;
    } else {
      var n := |second| - 1;
      RunContinues(s, first, second[..n]);
      assert (first + second)[..|first + second| - 1] == first + second[..n];
    }
  }

  /** Main result: under every interleaving, stale transactions included, what has left PENDING never returns to it. */
  lemma {:induction false} NeverPendingAgain(before: seq<Action>, later: seq<Action>, t: TxId)
    requires t < |Run(START, before).db.txs| && Run(START, before).db.txs[t].status != Pending
    ensures t < |Run(START, before + later).db.txs| && Run(START, before + later).db.txs[t].status != Pending
  {
    if |later| == 0 {
      assert before + later == before;
    } else {
      var n := |later| - 1;
      NeverPendingAgain(before, later[..n], t);
      assert (before + later)[..|before + later| - 1] == before + later[..n];
      AlwaysWired(before + later[..n]);
      StepGrows(Run(START, before + later[..n]), later[n]);
    }
  }
}
