/** What the spending limit of a card promises about captures: it is checked when a payment is authorized only. */
module CardLimits {
  import opened Schema
  import opened Sums
  import opened Endpoints
  import opened Direct
  import opened Machine
  import opened Effects
  import opened Books
  import opened CardAccounting

  datatype Capture = Capture(user: UserId, auth: AuthId, part: Option<nat>)

  function AfterCaptures(db: Db, captures: seq<Capture>): Db {
    if |captures| == 0 then db
    else
      var last := captures[|captures| - 1];
      CaptureCard(AfterCaptures(db, captures[..|captures| - 1]), last.user, last.auth, last.part).0
  }

  /** The amount an authorization still holds open on card c. */
  function OutstandingOn(c: CardId): Auth -> int {
    (row: Auth) => if row.card == c && row.status == Authorized then row.amount else 0
  }

  function Outstanding(db: Db, c: CardId): int {
    SumBy(db.auths, OutstandingOn(c))
  }

  ghost predicate AuthsSound(db: Db) {
    Wired(db) && forall a | 0 <= a < |db.auths| && db.auths[a].status == Authorized :: db.auths[a].amount >= 0
  }

  /** No capture changes a limit or an owner. */
  ghost predicate SameCards(db: Db, after: Db) {
    && |after.cards| == |db.cards| && |after.auths| == |db.auths|
    && (forall c | 0 <= c < |db.cards| ::
          after.cards[c].spendingLimit == db.cards[c].spendingLimit && after.cards[c].owner == db.cards[c].owner)
    && (forall a | 0 <= a < |db.auths| :: after.auths[a].card == db.auths[a].card)
  }

  /** The part of its authorization that a capture leaves uncaptured for good, if it is one of card c. */
  function Released(db: Db, o: Outcome, c: CardId): int {
    if o.CardCaptured? && o.card == c && o.auth < |db.auths| then db.auths[o.auth].amount - o.amount else 0
  }

  /** A capture lowers what is spent and outstanding together by exactly the part left uncaptured. */
  lemma CaptureReleases(db: Db, user: UserId, auth: AuthId, part: Option<nat>, c: CardId)
    requires AuthsSound(db)
    ensures var (after, o) := CaptureCard(db, user, auth, part);
            && AuthsSound(after) && SameCards(db, after)
            && SpentTotalOf(after, c) + Outstanding(after, c) == SpentTotalOf(db, c) + Outstanding(db, c) - Released(db, o, c)
            && Released(db, o, c) >= 0
  {
    var (after, o) := CaptureCard(db, user, auth, part);
    if o.CardCaptured? {
      CaptureGrows(db, user, auth, part);
      SumUpdate(db.auths, auth, after.auths[auth], OutstandingOn(c));
    }
  }

  lemma OutstandingIsPositive(db: Db, c: CardId)
    requires AuthsSound(db)
    ensures Outstanding(db, c) >= 0
  {
    var nothing := (row: Auth) => 0;
    SumZero(db.auths, nothing);
    SumAtMost(db.auths, nothing, OutstandingOn(c));
  }

  lemma {:induction false} CapturesOnlyRelease(db: Db, captures: seq<Capture>, c: CardId)
    requires AuthsSound(db)
    ensures var after := AfterCaptures(db, captures);
            && AuthsSound(after) && SameCards(db, after)
            && SpentTotalOf(after, c) + Outstanding(after, c) <= SpentTotalOf(db, c) + Outstanding(db, c)
  {
    if |captures| > 0 {
      var front, last := captures[..|captures| - 1], captures[|captures| - 1];
      CapturesOnlyRelease(db, front, c);
      CaptureReleases(AfterCaptures(db, front), last.user, last.auth, last.part, c);
    }
  }

  // ---- the captures that leave nothing outstanding

  /** All open authorizations of card c among the first n, captured in full by the owner of the card. */
  function FullCaptures(db: Db, c: CardId, n: nat): seq<Capture>
    requires c < |db.cards| && n <= |db.auths|
  {
    if n == 0 then []
    else
      FullCaptures(db, c, n - 1)
      + if db.auths[n - 1].card == c && db.auths[n - 1].status == Authorized
        then [Capture(db.cards[c].owner, n - 1, None)] else []
  }

  /** State now is db with the first n authorizations of card c captured in full. */
  ghost predicate FullyCaptured(db: Db, now: Db, c: CardId, n: nat) {
    && AuthsSound(now) && SameCards(db, now)
    && SpentTotalOf(now, c) + Outstanding(now, c) == SpentTotalOf(db, c) + Outstanding(db, c)
    && (forall a | 0 <= a < |now.auths| && a < n && now.auths[a].card == c :: now.auths[a].status != Authorized)
    && (forall a | n <= a < |db.auths| && a < |now.auths| :: now.auths[a] == db.auths[a])
  }

  lemma FullCapture(db: Db, c: CardId, a: AuthId)
    requires AuthsSound(db) && c < |db.cards| && a < |db.auths|
    requires db.auths[a].card == c && db.auths[a].status == Authorized
    ensures var (after, o) := CaptureCard(db, db.cards[c].owner, a, None);
            && o.CardCaptured? && Released(db, o, c) == 0
            && after.auths == db.auths[a := after.auths[a]] && after.auths[a].status == Captured
  {
  }

  lemma CapturesOneMore(db: Db, now: Db, c: CardId, n: nat)
    requires c < |db.cards| && n < |db.auths| && FullyCaptured(db, now, c, n)
    requires db.auths[n].card == c && db.auths[n].status == Authorized
    ensures FullyCaptured(db, CaptureCard(now, db.cards[c].owner, n, None).0, c, n + 1)
  {
    assert now.auths[n] == db.auths[n];
    FullCapture(now, c, n);
    CaptureReleases(now, db.cards[c].owner, n, None, c);
  }

  lemma CapturesNoMore(db: Db, now: Db, c: CardId, n: nat)
    requires n < |db.auths| && FullyCaptured(db, now, c, n)
    requires db.auths[n].card != c || db.auths[n].status != Authorized
    ensures FullyCaptured(db, now, c, n + 1)
  {
    assert now.auths[n] == db.auths[n];
  }

  lemma OneCaptureLater(db: Db, front: seq<Capture>, last: Capture)
    ensures AfterCaptures(db, front + [last])
            == CaptureCard(AfterCaptures(db, front), last.user, last.auth, last.part).0
  {
    assert (front + [last])[..|front|] == front;
  }

  lemma FullCapturesStep(db: Db, c: CardId, n: nat)
    requires c < |db.cards| && n < |db.auths|
    requires FullyCaptured(db, AfterCaptures(db, FullCaptures(db, c, n)), c, n)
    ensures FullyCaptured(db, AfterCaptures(db, FullCaptures(db, c, n + 1)), c, n + 1)
  {
    var front := FullCaptures(db, c, n);
    var now := AfterCaptures(db, front);
    if db.auths[n].card == c && db.auths[n].status == Authorized {
      OneCaptureLater(db, front, Capture(db.cards[c].owner, n, None));
      CapturesOneMore(db, now, c, n);
    } else {
      assert FullCaptures(db, c, n + 1) == front;
      CapturesNoMore(db, now, c, n);
    }
  }

  lemma NothingCapturedYet(db: Db, c: CardId)
    requires AuthsSound(db) && c < |db.cards|
    ensures FullyCaptured(db, AfterCaptures(db, FullCaptures(db, c, 0)), c, 0)
  {
    assert AfterCaptures(db, FullCaptures(db, c, 0)) == db;
  }

  lemma {:induction false} FullCapturesRelease(db: Db, c: CardId, n: nat)
    requires AuthsSound(db) && c < |db.cards| && n <= |db.auths|
    ensures FullyCaptured(db, AfterCaptures(db, FullCaptures(db, c, n)), c, n)
  {
    if n == 0 {
      NothingCapturedYet(db, c);
    } else {
      FullCapturesRelease(db, c, n - 1);
      FullCapturesStep(db, c, n - 1);
    }
  }

  ghost predicate EndsWithinLimit(db: Db, captures: seq<Capture>, c: CardId) {
    var after := AfterCaptures(db, captures);
    c < |after.cards| && WithinLimit(after.cards[c].spendingLimit, after.cards[c].spentTotal)
  }

  /** No sequence of captures whatever ends above the spending limit of card c. */
  ghost predicate NoCapturesExceed(db: Db, c: CardId) {
    forall captures: seq<Capture> :: EndsWithinLimit(db, captures, c)
  }

  lemma CapturesStayWithinExactly(db: Db, c: CardId)
    requires AuthsSound(db) && c < |db.cards|
    ensures NoCapturesExceed(db, c) <==> WithinLimit(db.cards[c].spendingLimit, db.cards[c].spentTotal + Outstanding(db, c))
  {
    if WithinLimit(db.cards[c].spendingLimit, db.cards[c].spentTotal + Outstanding(db, c)) {
      forall captures: seq<Capture> ensures EndsWithinLimit(db, captures, c) {
        CapturesOnlyRelease(db, captures, c);
        OutstandingIsPositive(AfterCaptures(db, captures), c);
      }
    } else {
      var all := FullCaptures(db, c, |db.auths|);
      FullCapturesRelease(db, c, |db.auths|);
      SumZero(AfterCaptures(db, all).auths, OutstandingOn(c));
      assert !EndsWithinLimit(db, all, c);
    }
  }

  lemma AuthsAlwaysSound(actions: seq<Action>)
    ensures AuthsSound(Run(START, actions).db)
  {
    var s := Run(START, actions);
    AlwaysWired(actions);
    CardsAlwaysOk(actions);
    forall a | 0 <= a < |s.db.auths| && s.db.auths[a].status == Authorized ensures s.db.auths[a].amount >= 0 {
      assert MarkOk(s.db, a, Marks(s.log)[a]);
    }
  }

  /**
   Main result, in every reachable state and for any number of open authorizations captured in any order and in any
   parts: no captures take card c above its spending limit exactly when the limit covers what is spent together with
   everything outstanding.
   */
  lemma CapturesKeepSpendingLimitExactly(actions: seq<Action>, db: Db, c: CardId)
    requires db == Run(START, actions).db && c < |db.cards|
    ensures NoCapturesExceed(db, c)
            <==> WithinLimit(db.cards[c].spendingLimit, db.cards[c].spentTotal + Outstanding(db, c))
  {
    AuthsAlwaysSound(actions);
    CapturesStayWithinExactly(db, c);
  }
}
