/** Card spending against the history of authorizations, captures and reversals, in every state of every run. */
module CardAccounting {
  import opened Schema
  import opened Sums
  import opened Endpoints
  import opened Direct
  import opened Machine
  import opened Effects
  import opened Books

  /** The history of one authorization, as reported: its original amount and what was captured and reversed. */
  datatype Mark = Mark(card: CardId, original: int, captured: int, reversed: int, captures: nat, reversals: nat)

  function Observe(marks: seq<Mark>, o: Outcome): seq<Mark> {
    match o
    case CardAuthorized(card, _, amount, _) => marks + [Mark(card, amount, 0, 0, 0, 0)]
    case CardCaptured(_, a, _, amount, _) =>
      if a >= |marks| then marks
      else marks[a := marks[a].(captured := marks[a].captured + amount, captures := marks[a].captures + 1)]
    case CardReversed(_, a, _, amount, _) =>
      if a >= |marks| then marks
      else marks[a := marks[a].(reversed := marks[a].reversed + amount, reversals := marks[a].reversals + 1)]
    case _ => marks
  }

  /** One mark for every authorization ever reported, in order. */
  function Marks(log: seq<Outcome>): seq<Mark> {
    if |log| == 0 then [] else Observe(Marks(log[..|log| - 1]), log[|log| - 1])
  }

  lemma MarksAppend(log: seq<Outcome>, o: Outcome)
    ensures Marks(log + [o]) == Observe(Marks(log), o)
  {
    assert (log + [o])[..|log|] == log;
  }

  function SpentOn(card: CardId): Mark -> int {
    (m: Mark) => if m.card == card then m.captured - m.reversed else 0
  }

  function ReservedOn(card: CardId): Mark -> int {
    (m: Mark) => if m.card == card then m.original - m.reversed else 0
  }

  function UncapturedOn(card: CardId): Mark -> int {
    (m: Mark) => if m.card == card then m.original - m.captured else 0
  }

  function SpentTotalOf(db: Db, c: CardId): int {
    if c < |db.cards| then db.cards[c].spentTotal else 0
  }

  function SpentTodayOf(db: Db, c: CardId): int {
    if c < |db.cards| then db.cards[c].spentToday else 0
  }

  /** The row of an authorization and its transaction agree with its history. */
  predicate MarkOk(db: Db, a: AuthId, m: Mark)
    requires a < |db.auths|
  {
    var row := db.auths[a];
    && row.card == m.card < |db.cards|
    && row.tx < |db.txs|
    && db.txs[row.tx].kind == CardPayment
    && 0 <= m.reversed <= m.captured <= m.original
    && match row.status
       case Authorized =>
         m.captures == m.reversals == 0 && m.captured == 0 && row.amount == m.original && db.txs[row.tx].status != Completed
       case Captured =>
         m.captures == 1 && m.reversals == 0 && m.reversed == 0 && m.captured == row.amount == db.txs[row.tx].amount
       case AuthReversed => m.captures == m.reversals == 1 && db.txs[row.tx].status != Completed
       case _ => false
  }

  ghost predicate MarksOk(db: Db, marks: seq<Mark>) {
    && |marks| == |db.auths|
    && (forall a | 0 <= a < |marks| :: MarkOk(db, a, marks[a]))
    && (forall a, b | 0 <= a < b < |db.auths| :: db.auths[a].tx != db.auths[b].tx)
  }

  ghost predicate SpendingOk(db: Db, marks: seq<Mark>, c: CardId) {
    && SpentTotalOf(db, c) == SumBy(marks, SpentOn(c))
    && SpentTodayOf(db, c) == SumBy(marks, ReservedOn(c))
  }

  ghost predicate CardsOk(db: Db, marks: seq<Mark>) {
    MarksOk(db, marks) && forall c: CardId :: SpendingOk(db, marks, c)
  }

  // ---- the three card operations

  /** A new authorization on a transaction of its own. */
  lemma MarkAdded(db: Db, after: Db, marks: seq<Mark>, m: Mark)
    requires MarksOk(db, marks)
    requires |after.auths| == |db.auths| + 1 && |after.txs| == |db.txs| + 1 && |after.cards| == |db.cards|
    requires db.auths <= after.auths && db.txs <= after.txs
    requires after.auths[|db.auths|].tx == |db.txs| && MarkOk(after, |db.auths|, m)
    ensures MarksOk(after, marks + [m])
  {
    forall a | 0 <= a < |db.auths| ensures db.auths[a].tx < |db.txs| && MarkOk(after, a, marks[a]) {
      assert MarkOk(db, a, marks[a]);
    }
  }

  lemma SpendingAdded(db: Db, after: Db, marks: seq<Mark>, m: Mark, marked: seq<Mark>)
    requires marked == marks + [m]
    requires forall c: CardId :: SpendingOk(db, marks, c)
    requires forall c: CardId :: SpentTotalOf(after, c) == SpentTotalOf(db, c) + SpentOn(c)(m)
    requires forall c: CardId :: SpentTodayOf(after, c) == SpentTodayOf(db, c) + ReservedOn(c)(m)
    ensures forall c: CardId :: SpendingOk(after, marked, c)
  {
    forall c: CardId ensures SpendingOk(after, marked, c) {
      assert SpendingOk(db, marks, c);
      SumAppend(marks, m, SpentOn(c));
      SumAppend(marks, m, ReservedOn(c));
    }
  }

  lemma AuthorizeKeeps(db: Db, marks: seq<Mark>, user: UserId, card: CardId, amount: nat, currency: Currency, key: Key,
                       now: int)
    requires CardsOk(db, marks)
    ensures var (after, o) := AuthorizeCard(db, user, card, amount, currency, key, now); CardsOk(after, Observe(marks, o))
  {
    var (after, o) := AuthorizeCard(db, user, card, amount, currency, key, now);
    if o.CardAuthorized? {
      var m := Mark(card, amount, 0, 0, 0, 0);
      MarkAdded(db, after, marks, m);
      SpendingAdded(db, after, marks, m, Observe(marks, o));
    }
  }

  /** The history of one authorization changes; every other history stays. */
  lemma SpendingMoves(db: Db, after: Db, marks: seq<Mark>, a: AuthId, m: Mark, moved: seq<Mark>)
    requires a < |marks| && moved == marks[a := m]
    requires forall c: CardId :: SpendingOk(db, marks, c)
    requires forall c: CardId ::
      SpentTotalOf(after, c) == SpentTotalOf(db, c) + SpentOn(c)(m) - SpentOn(c)(marks[a])
    requires forall c: CardId ::
      SpentTodayOf(after, c) == SpentTodayOf(db, c) + ReservedOn(c)(m) - ReservedOn(c)(marks[a])
    ensures forall c: CardId :: SpendingOk(after, moved, c)
  {
    forall c: CardId ensures SpendingOk(after, moved, c) {
      assert SpendingOk(db, marks, c);
      SumUpdate(marks, a, m, SpentOn(c));
      SumUpdate(marks, a, m, ReservedOn(c));
    }
  }

  /** One authorization and its transaction get new rows; the others keep theirs. */
  lemma MarkMoves(db: Db, after: Db, marks: seq<Mark>, a: AuthId, row: Auth, tx: Txn, m: Mark, moved: seq<Mark>)
    requires MarksOk(db, marks) && a < |marks| && moved == marks[a := m]
    requires row.card == db.auths[a].card && row.tx == db.auths[a].tx < |db.txs|
    requires after.auths == db.auths[a := row] && after.txs == db.txs[row.tx := tx] && |after.cards| == |db.cards|
    requires MarkOk(after, a, m)
    ensures MarksOk(after, moved)
  {
    forall i | 0 <= i < |moved| ensures MarkOk(after, i, moved[i]) {
      assert MarkOk(db, i, marks[i]);
      assert i != a ==> db.auths[i].tx != db.auths[a].tx;
    }
  }

  lemma CaptureKeeps(db: Db, marks: seq<Mark>, user: UserId, auth: AuthId, part: Option<nat>)
    requires CardsOk(db, marks)
    ensures var (after, o) := CaptureCard(db, user, auth, part); CardsOk(after, Observe(marks, o))
  {
    var (after, o) := CaptureCard(db, user, auth, part);
    if o.CardCaptured? {
      assert MarkOk(db, auth, marks[auth]);
      var m := marks[auth].(captured := marks[auth].captured + o.amount, captures := marks[auth].captures + 1);
      MarkMoves(db, after, marks, auth, after.auths[auth], after.txs[o.tx], m, Observe(marks, o));
      SpendingMoves(db, after, marks, auth, m, Observe(marks, o));
    }
  }

  lemma ReverseKeeps(db: Db, marks: seq<Mark>, user: UserId, tx: TxId, part: Option<nat>)
    requires CardsOk(db, marks)
    ensures var (after, o) := ReverseCard(db, user, tx, part); CardsOk(after, Observe(marks, o))
  {
    var (after, o) := ReverseCard(db, user, tx, part);
    if o.CardReversed? {
      var auth := o.auth;
      assert MarkOk(db, auth, marks[auth]);
      var m := marks[auth].(reversed := marks[auth].reversed + o.amount, reversals := marks[auth].reversals + 1);
      MarkMoves(db, after, marks, auth, after.auths[auth], after.txs[tx], m, Observe(marks, o));
      SpendingMoves(db, after, marks, auth, m, Observe(marks, o));
    }
  }

  // ---- everything else

  predicate CardEvent(o: Outcome) {
    o.CardAuthorized? || o.CardCaptured? || o.CardReversed?
  }

  /** Cards keep what they have spent, authorizations stay, and no card payment is completed. */
  ghost predicate CardsUntouched(db: Db, after: Db) {
    && after.auths == db.auths
    && |db.cards| <= |after.cards|
    && (forall c: CardId :: SpentTotalOf(after, c) == SpentTotalOf(db, c) && SpentTodayOf(after, c) == SpentTodayOf(db, c))
    && |db.txs| <= |after.txs|
    && (forall t | 0 <= t < |db.txs| && db.txs[t].kind == CardPayment ::
          && after.txs[t].kind == CardPayment && after.txs[t].amount == db.txs[t].amount
          && (after.txs[t].status == Completed ==> db.txs[t].status == Completed))
  }

  lemma UntouchedKeeps(db: Db, after: Db, marks: seq<Mark>)
    requires CardsOk(db, marks) && CardsUntouched(db, after)
    ensures CardsOk(after, marks)
  {
    forall a | 0 <= a < |marks| ensures MarkOk(after, a, marks[a]) {
      assert MarkOk(db, a, marks[a]);
    }
    forall c: CardId ensures SpendingOk(after, marks, c) {
      assert SpendingOk(db, marks, c);
    }
  }

  lemma LandUntouched(db: Db, f: Flight)
    requires FlightOk(db, f)
    ensures var (after, o) := Land(db, f); CardsUntouched(db, after) && !CardEvent(o)
  {
    var after := Land(db, f).0;
    assert after.auths == db.auths && after.cards == db.cards;
    assert forall t | 0 <= t < |db.txs| && after.txs[t] != db.txs[t] :: f.SettleFlight? && db.txs[t].kind != CardPayment;
  }

  lemma ServeUntouched(db: Db, r: MoneyRequest)
    ensures var (after, o) := Serve(db, r); CardsUntouched(db, after) && !CardEvent(o)
  {
    if Check(db, r).Go? {
      CheckedFlight(db, r);
      LandUntouched(db, Check(db, r).flight);
    } else {
      CheckReplies(db, r);
    }
  }

  lemma QuietKeeps(db: Db, log: seq<Outcome>, after: Db, o: Outcome)
    requires CardsOk(db, Marks(log)) && CardsUntouched(db, after) && !CardEvent(o)
    ensures CardsOk(after, Marks(log + [o]))
  {
    MarksAppend(log, o);
    UntouchedKeeps(db, after, Marks(log));
  }

  lemma MarkUntouched(db: Db, tx: TxId, status: TxStatus)
    requires tx < |db.txs| && status != Completed
    ensures CardsUntouched(db, db.(txs := db.txs[tx := db.txs[tx].(status := status)]))
  {
  }

  lemma CardRowUntouched(db: Db, c: CardId, row: Card)
    requires c <= |db.cards|
    requires row.spentToday == SpentTodayOf(db, c) && row.spentTotal == SpentTotalOf(db, c)
    ensures CardsUntouched(db, db.(cards := if c < |db.cards| then db.cards[c := row] else db.cards + [row]))
  {
  }

  lemma OthersUntouched(db: Db, d: DirectRequest)
    requires !d.AuthorizeReq? && !d.CaptureReq? && !d.ReverseReq?
    ensures CardsUntouched(db, Guarded(db, d).0) && !CardEvent(Guarded(db, d).1)
  {
    var after := Guarded(db, d).0;
    if after == db {
    } else if d.AdminReverseReq? {
      MarkUntouched(db, d.tx, Reversed);
    } else if d.AdminFlagReq? {
      MarkUntouched(db, d.tx, RequiresAction);
    } else if d.CreateCardReq? {
      CardRowUntouched(db, |db.cards|, after.cards[|db.cards|]);
    } else if d.UpdateCardReq? || d.FreezeCardReq? {
      CardRowUntouched(db, d.card, after.cards[d.card]);
    } else {
      assert after.cards == db.cards && after.auths == db.auths && after.txs == db.txs;
    }
  }

  lemma GuardedKeeps(db: Db, log: seq<Outcome>, d: DirectRequest)
    requires CardsOk(db, Marks(log))
    ensures var (after, o) := Guarded(db, d); CardsOk(after, Marks(log + [o]))
  {
    var (after, o) := Guarded(db, d);
    var marks := Marks(log);
    MarksAppend(log, o);
    if d.AuthorizeReq? {
      AuthorizeKeeps(db, marks, d.user, d.card, d.amount, d.currency, d.key, d.now);
    } else if d.CaptureReq? {
      CaptureKeeps(db, marks, d.user, d.auth, d.part);
    } else if d.ReverseReq? {
      ReverseKeeps(db, marks, d.user, d.tx, d.part);
    } else {
      OthersUntouched(db, d);
      UntouchedKeeps(db, after, marks);
    }
  }

  lemma StepKeepsCards(s: System, a: Action)
    requires FlightsOk(s) && CardsOk(s.db, Marks(s.log))
    ensures CardsOk(Step(s, a).db, Marks(Step(s, a).log))
  {
    match a
    case Call(r) =>
      ServeUntouched(s.db, r);
      QuietKeeps(s.db, s.log, Serve(s.db, r).0, Serve(s.db, r).1);
    case CallDirect(d) =>
      GuardedKeeps(s.db, s.log, d);
    case Begin(r) =>
      var o := if Check(s.db, r).Reply? then Check(s.db, r).outcome else Parked;
      if Check(s.db, r).Reply? {
        CheckReplies(s.db, r);
      }
      QuietKeeps(s.db, s.log, s.db, o);
    case Finish(k, aborts) =>
      if k < |s.inflight| {
        if aborts {
          QuietKeeps(s.db, s.log, s.db, Rejected(Aborted));
        } else {
          LandUntouched(s.db, s.inflight[k]);
          QuietKeeps(s.db, s.log, Land(s.db, s.inflight[k]).0, Land(s.db, s.inflight[k]).1);
        }
      }
  }

  lemma {:induction false} CardsAlwaysOk(actions: seq<Action>)
    ensures CardsOk(Run(START, actions).db, Marks(Run(START, actions).log))
  {
    if |actions| > 0 {
      var front, last := actions[..|actions| - 1], actions[|actions| - 1];
      CardsAlwaysOk(front);
      AlwaysWired(front);
      StepKeepsCards(Run(START, front), last);
    }
  }

  /**
   Main result, for any run over any number of cards: a card's total is between zero and its daily spending,
   the gap between the two is exactly what was authorized and not captured, and every authorization is captured
   at most once and reversed at most once.
   */
  lemma SpendingFollowsHistory(actions: seq<Action>, c: CardId)
    ensures var s := Run(START, actions);
            var marks := Marks(s.log);
            && 0 <= SpentTotalOf(s.db, c) <= SpentTodayOf(s.db, c)
            && SpentTodayOf(s.db, c) - SpentTotalOf(s.db, c) == SumBy(marks, UncapturedOn(c))
            && (forall a | 0 <= a < |marks| :: marks[a].captures <= 1 && marks[a].reversals <= marks[a].captures)
  {
    CardsAlwaysOk(actions);
    var s := Run(START, actions);
    var marks := Marks(s.log);
    assert SpendingOk(s.db, marks, c);
    forall a | 0 <= a < |marks|
      ensures 0 <= marks[a].reversed <= marks[a].captured <= marks[a].original
      ensures marks[a].captures <= 1 && marks[a].reversals <= marks[a].captures
    {
      assert MarkOk(s.db, a, marks[a]);
    }
    var nothing := (m: Mark) => 0;
    SumZero(marks, nothing);
    SumAtMost(marks, nothing, SpentOn(c));
    SumAtMost(marks, SpentOn(c), ReservedOn(c));
    SumDifference(marks, ReservedOn(c), SpentOn(c), UncapturedOn(c));
  }

  lemma AuthorizedWithinLimit(db: Db, marks: seq<Mark>, user: UserId, c: CardId, amount: nat, currency: Currency, key: Key,
                       now: int)
    requires CardsOk(db, marks)
    requires AuthorizeCard(db, user, c, amount, currency, key, now).1.CardAuthorized?
    ensures var (after, o) := AuthorizeCard(db, user, c, amount, currency, key, now);
            WithinLimit(after.cards[c].dailyLimit, SumBy(Observe(marks, o), ReservedOn(c)))
  {
    AuthorizeKeeps(db, marks, user, c, amount, currency, key, now);
    var (after, o) := AuthorizeCard(db, user, c, amount, currency, key, now);
    assert SpendingOk(after, Observe(marks, o), c);
  }

  /**
   Nothing ever resets a card's daily spending, so the daily limit in force when a payment is authorized bounds
   everything ever authorized on the card, less what was reversed.
   */
  lemma DailyLimitBoundsLifetime(actions: seq<Action>, user: UserId, c: CardId, amount: nat, currency: Currency, key: Key,
                       now: int)
    requires Guarded(Run(START, actions).db, AuthorizeReq(user, c, amount, currency, key, now)).1.CardAuthorized?
    ensures var s := Step(Run(START, actions), CallDirect(AuthorizeReq(user, c, amount, currency, key, now)));
            WithinLimit(s.db.cards[c].dailyLimit, SumBy(Marks(s.log), ReservedOn(c)))
  {
    var s := Run(START, actions);
    CardsAlwaysOk(actions);
    MarksAppend(s.log, Guarded(s.db, AuthorizeReq(user, c, amount, currency, key, now)).1);
    AuthorizedWithinLimit(s.db, Marks(s.log), user, c, amount, currency, key, now);
  }
}
