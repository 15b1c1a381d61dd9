/** The virtual card service. */
module VirtualCardService {
  import opened Schema
  import opened Endpoints
  import opened Direct
  import opened Luhn

  /** The sixteen digits made of fifteen random ones: they come first, and the whole number is valid. */
  method GenerateCardNumber(random: seq<Digit>) returns (number: seq<Digit>)
    requires |random| == 15
    ensures |number| == 16 && number[..15] == random && Valid(number)
  {
    var nums: seq<Digit> := [];
    for i := 0 to 15
      invariant nums == random[..i]
    {
      nums := nums + [random[i]];
    }
    var sum := 0;
    for i := 0 to 15
      invariant sum == PartialSum(nums, i)
    {
      var digit: int := nums[i];
      if (14 - i) % 2 == 0 {
        digit := digit * 2;
        if digit > 9 { digit := digit - 9; }
      }
      sum := sum + digit;
    }
    var checkDigit: Digit := sum * 9 % 10;
    CheckDigitIsTheOne(nums, checkDigit);
    return nums + [checkDigit];
  }

  method CreateVirtualCard(db: Database, user: UserId, walletId: WalletId, currency: Currency,
                           spendingLimit: Option<int>, dailyLimit: Option<int>)
    returns (o: Outcome)
    modifies db
    ensures (db.Snapshot(), o)
            == CreateCard(old(db.Snapshot()), user, walletId, currency, spendingLimit, dailyLimit)
  {
    if walletId >= |db.wallets| || db.wallets[walletId].owner != user { return Rejected(Forbidden); }
    db.cards := db.cards + [Card(user, walletId, CardActive, currency, spendingLimit, dailyLimit, 0, 0)];
    return Done;
  }

  method UpdateVirtualCard(db: Database, user: UserId, cardId: CardId, spendingLimit: Option<int>,
                           dailyLimit: Option<int>)
    returns (o: Outcome)
    modifies db
    ensures (db.Snapshot(), o) == UpdateCard(old(db.Snapshot()), user, cardId, spendingLimit, dailyLimit)
  {
    if cardId >= |db.cards| || db.cards[cardId].owner != user { return Rejected(NotFound); }
    var row := db.cards[cardId];
    if spendingLimit.Some? { row := row.(spendingLimit := spendingLimit); }
    if dailyLimit.Some? { row := row.(dailyLimit := dailyLimit); }
    db.cards := db.cards[cardId := row];
    return Done;
  }

  method FreezeVirtualCard(db: Database, user: UserId, cardId: CardId, frozen: bool) returns (o: Outcome)
    modifies db
    ensures (db.Snapshot(), o) == FreezeCard(old(db.Snapshot()), user, cardId, frozen)
  {
    if cardId >= |db.cards| || db.cards[cardId].owner != user { return Rejected(NotFound); }
    db.cards := db.cards[cardId := db.cards[cardId].(status := if frozen then CardFrozen else CardActive)];
    return Done;
  }

  method AuthorizeTransaction(db: Database, user: UserId, cardId: CardId, amount: nat, currency: Currency, key: Key,
                              now: int)
    returns (o: Outcome)
    modifies db
    ensures (db.Snapshot(), o) == AuthorizeCard(old(db.Snapshot()), user, cardId, amount, currency, key, now)
  {
    if cardId >= |db.cards| || db.cards[cardId].owner != user { return Rejected(NotFound); }
    var card := db.cards[cardId];
    if card.status != CardActive { return Rejected(BadRequest); }
    if card.currency != currency { return Rejected(BadRequest); }
    if card.dailyLimit.Some? && card.spentToday + amount > card.dailyLimit.value { return Rejected(BadRequest); }
    if card.spendingLimit.Some? && card.spentTotal + amount > card.spendingLimit.value { return Rejected(BadRequest); }
    if KeyUsed(db.txs, key) { return Rejected(Aborted); }
    var t, a := |db.txs|, |db.auths|;
    db.txs := db.txs + [Txn(CardPayment, Some(user), None, Some(card.wallet), None, amount, amount, currency, Pending,
                            Some(key), now, None)];
    db.auths := db.auths + [Auth(cardId, t, amount, Authorized)];
    db.cards := db.cards[cardId := db.cards[cardId].(spentToday := card.spentToday + amount)];
    return CardAuthorized(cardId, a, amount, t);
  }

  method CaptureTransaction(db: Database, user: UserId, authId: AuthId, part: Option<nat>) returns (o: Outcome)
    modifies db
    ensures (db.Snapshot(), o) == CaptureCard(old(db.Snapshot()), user, authId, part)
  {
    if authId >= |db.auths| { return Rejected(NotFound); }
    var auth := db.auths[authId];
    if auth.card >= |db.cards| || db.cards[auth.card].owner != user || auth.tx >= |db.txs| {
      return Rejected(NotFound);
    }
    var card, tx := db.cards[auth.card], db.txs[auth.tx];
    if auth.status != Authorized { return Rejected(BadRequest); }
    var amount := if part.Some? then part.value else auth.amount;
    if amount < 0 || amount > auth.amount { return Rejected(BadRequest); }
    db.auths := db.auths[authId := db.auths[authId].(status := Captured, amount := amount)];
    db.txs := db.txs[auth.tx := db.txs[auth.tx].(status := Completed, amount := amount, net := amount)];
    db.cards := db.cards[auth.card := db.cards[auth.card].(spentTotal := card.spentTotal + amount)];
    var before := WalletBalance(db.wallets, card.wallet);
    db.ledger := db.ledger + [Leg(auth.tx, UserWallet(card.wallet), Debit, amount, tx.currency,
                                  Some(before), Some(before - amount)),
                              Leg(auth.tx, CardSuspense, Credit, amount, tx.currency, None, None)];
    return CardCaptured(auth.card, authId, card.wallet, amount, auth.tx);
  }

  method ReverseTransaction(db: Database, user: UserId, txId: TxId, part: Option<nat>) returns (o: Outcome)
    modifies db
    ensures (db.Snapshot(), o) == ReverseCard(old(db.Snapshot()), user, txId, part)
  {
    var found := AuthOf(db.auths, txId);
    if found.None? || txId >= |db.txs| { return Rejected(NotFound); }
    var auth, tx := db.auths[found.value], db.txs[txId];
    if auth.card >= |db.cards| || db.cards[auth.card].owner != user { return Rejected(NotFound); }
    var card := db.cards[auth.card];
    if tx.status != Completed { return Rejected(BadRequest); }
    var amount := if part.Some? then part.value else tx.amount;
    if amount < 0 || amount > tx.amount { return Rejected(BadRequest); }
    db.txs := db.txs[txId := db.txs[txId].(status := Reversed)];
    db.auths := db.auths[found.value := db.auths[found.value].(status := AuthReversed)];
    db.cards := db.cards[auth.card := db.cards[auth.card].(spentTotal := card.spentTotal - amount,
                                                          spentToday := card.spentToday - amount)];
    var before := WalletBalance(db.wallets, card.wallet);
    db.ledger := db.ledger + [Leg(txId, UserWallet(card.wallet), Credit, amount, tx.currency,
                                  Some(before), Some(before + amount)),
                              Leg(txId, CardSuspense, Debit, amount, tx.currency, None, None)];
    return CardReversed(auth.card, found.value, card.wallet, amount, txId);
  }
}
