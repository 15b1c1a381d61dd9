/** Exactly which card operations succeed, and that each books the amount that was asked for. */
module CardTerms {
  import opened Schema
  import opened Sums
  import opened Endpoints
  import opened Direct
  import opened Machine
  import opened Effects
  import opened Books
  import opened CardAccounting
  import opened Attribution

  predicate OwnCard(db: Db, user: UserId, c: CardId) {
    c < |db.cards| && db.cards[c].owner == user
  }

  // ---- authorizing

  predicate MayAuthorize(db: Db, user: UserId, c: CardId, amount: nat, currency: Currency, key: Key) {
    && OwnCard(db, user, c) && db.cards[c].status == CardActive && db.cards[c].currency == currency
    && (db.cards[c].dailyLimit.Some? ==> db.cards[c].spentToday + amount <= db.cards[c].dailyLimit.value)
    && (db.cards[c].spendingLimit.Some? ==> db.cards[c].spentTotal + amount <= db.cards[c].spendingLimit.value)
    && forall t | 0 <= t < |db.txs| :: db.txs[t].key != Some(key)
  }

  /** A payment is authorized exactly on the user's own active card, in its currency, within both limits, under a new key. */
  lemma AuthorizedExactly(db: Db, user: UserId, c: CardId, amount: nat, currency: Currency, key: Key, now: int)
    ensures var (after, o) := AuthorizeCard(db, user, c, amount, currency, key, now);
            && (o.CardAuthorized? <==> MayAuthorize(db, user, c, amount, currency, key))
            && (!o.CardAuthorized? ==> after == db)
  {
  }

  /** It reserves its amount of the day and records a pending payment of the card's owner from the card's wallet. */
  lemma AuthorizationRecords(db: Db, user: UserId, c: CardId, amount: nat, currency: Currency, key: Key, now: int)
    requires MayAuthorize(db, user, c, amount, currency, key)
    ensures var (after, o) := AuthorizeCard(db, user, c, amount, currency, key, now);
            && o == CardAuthorized(c, |db.auths|, amount, |db.txs|)
            && after.auths == db.auths + [Auth(c, |db.txs|, amount, Authorized)]
            && |after.txs| == |db.txs| + 1 && db.txs <= after.txs
            && after.cards == db.cards[c := db.cards[c].(spentToday := db.cards[c].spentToday + amount)]
            && var tx := after.txs[|db.txs|];
               && tx.kind == CardPayment && tx.status == Pending && tx.amount == tx.net == amount && tx.currency == currency
               && tx.sender == Some(user) && tx.senderWallet == Some(db.cards[c].wallet) && tx.receiver.None?
               && tx.key == Some(key) && tx.createdAt == now
  {
  }

  // ---- capturing

  /** The part asked for, or all of it. */
  function Asked(part: Option<nat>, all: int): int {
    if part.Some? then part.value else all
  }

  predicate MayCapture(db: Db, user: UserId, a: AuthId, part: Option<nat>) {
    && a < |db.auths| && OwnCard(db, user, db.auths[a].card) && db.auths[a].status == Authorized
    && (part.Some? ==> part.value <= db.auths[a].amount)
  }

  lemma CapturesExactly(db: Db, user: UserId, a: AuthId, part: Option<nat>)
    requires a < |db.auths| && db.auths[a].status == Authorized ==> db.auths[a].amount >= 0
    requires a < |db.auths| ==> AuthTells(db, db.auths[a])
    ensures var (after, o) := CaptureCard(db, user, a, part);
            && (o.CardCaptured? <==> MayCapture(db, user, a, part))
            && (!o.CardCaptured? ==> after == db)
  {
  }

  /** What a capture of the given amount books: on the record, the payment, the card's total and both legs. */
  predicate BooksCapture(db: Db, a: AuthId, amount: int, after: Db, o: Outcome) {
    && a < |db.auths| && db.auths[a].card < |db.cards| && db.auths[a].tx < |db.txs|
    && var auth := db.auths[a];
       var card, tx := db.cards[auth.card], db.txs[auth.tx];
       && o == CardCaptured(auth.card, a, card.wallet, amount, auth.tx)
       && after.auths == db.auths[a := auth.(status := Captured, amount := amount)]
       && after.txs == db.txs[auth.tx := tx.(status := Completed, amount := amount, net := amount)]
       && after.cards == db.cards[auth.card := card.(spentTotal := card.spentTotal + amount)]
       && PostsPair(db, after, auth.tx, card.wallet, Debit, amount, tx.currency)
  }

  /** One leg on the wallet's account and one on the suspense account of cards, of one amount in opposite directions. */
  predicate PostsPair(db: Db, after: Db, tx: TxId, wallet: WalletId, direction: Direction, amount: int, currency: Currency) {
    && |after.ledger| == |db.ledger| + 2 && db.ledger <= after.ledger
    && var a, b := after.ledger[|db.ledger|], after.ledger[|db.ledger| + 1];
       && a.tx == b.tx == tx && a.amount == b.amount == amount && a.currency == b.currency == currency
       && a.account == UserWallet(wallet) && a.direction == direction
       && b.account == CardSuspense && b.direction != direction
  }

  lemma CaptureBooks(db: Db, user: UserId, a: AuthId, part: Option<nat>)
    requires CaptureCard(db, user, a, part).1.CardCaptured?
    ensures var (after, o) := CaptureCard(db, user, a, part);
            a < |db.auths| && BooksCapture(db, a, Asked(part, db.auths[a].amount), after, o)
  {
  }

  /**
   Main result, in every reachable state: a capture succeeds if and only if the authorization is open, on a card of the
   user, and the part asked for is within it; it then books exactly the part asked for, or all of it when none is
   named, on the record, the payment, the card, both ledger legs and the reported history.
   */
  lemma CapturedExactly(actions: seq<Action>, s: System, user: UserId, a: AuthId, part: Option<nat>)
    requires s == Run(START, actions)
    ensures var (after, o) := CaptureCard(s.db, user, a, part);
            && (o.CardCaptured? <==> MayCapture(s.db, user, a, part))
            && (!o.CardCaptured? ==> after == s.db)
            && (o.CardCaptured? ==>
                  var amount := Asked(part, s.db.auths[a].amount);
                  && BooksCapture(s.db, a, amount, after, o)
                  && a < |Marks(s.log + [o])| && Marks(s.log + [o])[a].captured == amount)
  {
    AlwaysAttributed(actions);
    CardsAlwaysOk(actions);
    var marks := Marks(s.log);
    if a < |s.db.auths| {
      assert MarkOk(s.db, a, marks[a]) && AuthTells(s.db, s.db.auths[a]);
    }
    CapturesExactly(s.db, user, a, part);
    var o := CaptureCard(s.db, user, a, part).1;
    if o.CardCaptured? {
      CaptureBooks(s.db, user, a, part);
      MarksAppend(s.log, o);
    }
  }

  // ---- reversing

  predicate MayReverse(db: Db, user: UserId, a: AuthId, part: Option<nat>) {
    && a < |db.auths| && OwnCard(db, user, db.auths[a].card)
    && db.auths[a].tx < |db.txs| && db.txs[db.auths[a].tx].status == Completed
    && (part.Some? ==> part.value <= db.txs[db.auths[a].tx].amount)
  }

  /** What a reversal of the given amount books: both counters of the card go down and both legs come back. */
  predicate BooksReversal(db: Db, a: AuthId, amount: int, after: Db, o: Outcome) {
    && a < |db.auths| && db.auths[a].card < |db.cards| && db.auths[a].tx < |db.txs|
    && var auth := db.auths[a];
       var card, tx := db.cards[auth.card], db.txs[auth.tx];
       && o == CardReversed(auth.card, a, card.wallet, amount, auth.tx)
       && after.auths == db.auths[a := auth.(status := AuthReversed)]
       && after.txs == db.txs[auth.tx := tx.(status := Reversed)]
       && after.cards == db.cards[auth.card := card.(spentTotal := card.spentTotal - amount,
                                                     spentToday := card.spentToday - amount)]
       && PostsPair(db, after, auth.tx, card.wallet, Credit, amount, tx.currency)
  }

  lemma ReversesExactly(db: Db, user: UserId, a: AuthId, part: Option<nat>)
    requires a < |db.auths| && AuthTells(db, db.auths[a]) && AuthOf(db.auths, db.auths[a].tx) == Some(a)
    requires db.txs[db.auths[a].tx].status == Completed ==> db.txs[db.auths[a].tx].amount >= 0
    ensures var (after, o) := ReverseCard(db, user, db.auths[a].tx, part);
            && (o.CardReversed? <==> MayReverse(db, user, a, part))
            && (!o.CardReversed? ==> after == db)
            && (o.CardReversed? ==> BooksReversal(db, a, Asked(part, db.txs[db.auths[a].tx].amount), after, o))
  {
  }

  /** The part of the history of an authorization that a reversal reports. */
  lemma ReversalIsMarked(db: Db, marks: seq<Mark>, user: UserId, a: AuthId, part: Option<nat>)
    requires a < |db.auths| && AuthTells(db, db.auths[a]) && CardsOk(db, marks)
    ensures AuthOf(db.auths, db.auths[a].tx) == Some(a)
    ensures db.txs[db.auths[a].tx].status == Completed ==> db.txs[db.auths[a].tx].amount >= 0
    ensures var o := ReverseCard(db, user, db.auths[a].tx, part).1;
            o.CardReversed? && o.auth == a ==> a < |Observe(marks, o)| && Observe(marks, o)[a].reversed == o.amount
  {
    assert MarkOk(db, a, marks[a]);
    var found := AuthOf(db.auths, db.auths[a].tx);
    assert found.Some? && db.auths[found.value].tx == db.auths[a].tx;
  }

  /**
   Main result, in every reachable state: a reversal of a card's payment succeeds if and only if the payment is
   completed, on a card of the user, and the part asked for is within it; it then takes exactly the part asked for, or
   all of it, off both counters of the card and books it back in both legs and the reported history.
   */
  lemma ReversedExactly(actions: seq<Action>, s: System, user: UserId, a: AuthId, part: Option<nat>)
    requires s == Run(START, actions) && a < |s.db.auths|
    ensures s.db.auths[a].tx < |s.db.txs|
    ensures var (after, o) := ReverseCard(s.db, user, s.db.auths[a].tx, part);
            && (o.CardReversed? <==> MayReverse(s.db, user, a, part))
            && (!o.CardReversed? ==> after == s.db)
            && (o.CardReversed? ==>
                  var amount := Asked(part, s.db.txs[s.db.auths[a].tx].amount);
                  && BooksReversal(s.db, a, amount, after, o)
                  && a < |Marks(s.log + [o])| && Marks(s.log + [o])[a].reversed == amount)
  {
    AlwaysAttributed(actions);
    CardsAlwaysOk(actions);
    assert AuthTells(s.db, s.db.auths[a]);
    ReversalIsMarked(s.db, Marks(s.log), user, a, part);
    ReversesExactly(s.db, user, a, part);
    MarksAppend(s.log, ReverseCard(s.db, user, s.db.auths[a].tx, part).1);
  }

  /** A transaction that is no card payment, or does not exist, is never reversed here. */
  lemma OnlyCardPaymentsReverse(actions: seq<Action>, db: Db, user: UserId, tx: TxId, part: Option<nat>)
    requires db == Run(START, actions).db && ReverseCard(db, user, tx, part).1.CardReversed?
    ensures tx < |db.txs| && db.txs[tx].kind == CardPayment && db.txs[tx].sender == Some(user)
    ensures exists a :: 0 <= a < |db.auths| && db.auths[a].tx == tx
  {
    AlwaysAttributed(actions);
    AlwaysWired(actions);
    var a := AuthOf(db.auths, tx).value;
    assert AuthTells(db, db.auths[a]);
  }

  // ---- the card itself

  /** A card is made exactly on a wallet of the user, and the limits it is given are in force on it. */
  lemma CardMadeExactly(db: Db, user: UserId, wallet: WalletId, currency: Currency, spending: Option<int>, daily: Option<int>)
    ensures var (after, o) := CreateCard(db, user, wallet, currency, spending, daily);
            && (o.Done? <==> wallet < |db.wallets| && db.wallets[wallet].owner == user)
            && (o.Done? ==>
                  && |after.cards| == |db.cards| + 1 && db.cards <= after.cards && OwnCard(after, user, |db.cards|)
                  && after.cards[|db.cards|].wallet == wallet && after.cards[|db.cards|].spentToday == 0
                  && forall amount: nat, key: Key ::
                       MayAuthorize(after, user, |db.cards|, amount, currency, key)
                       <==> && (daily.Some? ==> amount <= daily.value) && (spending.Some? ==> amount <= spending.value)
                            && !KeyUsed(db.txs, key))
  {
  }

  /** A frozen card authorizes nothing until its owner activates it, and then it is as before. */
  lemma FrozenCardPaysNothing(db: Db, user: UserId, c: CardId)
    requires OwnCard(db, user, c) && db.cards[c].status == CardActive
    ensures var frozen := FreezeCard(db, user, c, true).0;
            && (forall payer: UserId, amount: nat, currency: Currency, key: Key ::
                  !MayAuthorize(frozen, payer, c, amount, currency, key))
            && FreezeCard(frozen, user, c, false) == (db, Done)
  {
    var frozen := FreezeCard(db, user, c, true).0;
    assert FreezeCard(frozen, user, c, false).0.cards == db.cards;
  }

  /** New limits are in force for the owner's next payment, and those not given stay. */
  lemma NewLimitsBind(db: Db, user: UserId, c: CardId, spending: Option<int>, daily: Option<int>, amount: nat,
                      currency: Currency, key: Key)
    requires MayAuthorize(db, user, c, amount, currency, key)
    ensures var after := UpdateCard(db, user, c, spending, daily).0;
            MayAuthorize(after, user, c, amount, currency, key)
            <==> && (daily.Some? ==> db.cards[c].spentToday + amount <= daily.value)
                 && (spending.Some? ==> db.cards[c].spentTotal + amount <= spending.value)
  {
  }

  /** Nobody but its owner changes a card. */
  lemma OthersLeaveCard(db: Db, user: UserId, c: CardId, frozen: bool, spending: Option<int>, daily: Option<int>)
    requires !OwnCard(db, user, c)
    ensures FreezeCard(db, user, c, frozen) == UpdateCard(db, user, c, spending, daily) == (db, Rejected(NotFound))
  {
  }
}
