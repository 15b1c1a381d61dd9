/** Idempotency keys: at most one committed transaction per key under every interleaving, and what a replay gets. */
module Idempotency {
  import opened Schema
  import opened Sums
  import opened Endpoints
  import opened Direct
  import opened Machine
  import opened Effects
  import opened Books
  import opened Lifecycle
  import opened KycGate

  /** 1 for an outcome that committed a transaction under key k at one of the four reserving endpoints. */
  function CommitCount(o: Outcome, k: Key): int {
    match o
    case DepositOpened(_, _, response) => if response.key == Some(k) then 1 else 0
    case WithdrawalOpened(_, _, response) => if response.key == Some(k) then 1 else 0
    case VaultFunded(_, _, _, response) => if response.key == Some(k) then 1 else 0
    case VaultDrained(_, _, _, response) => if response.key == Some(k) then 1 else 0
    case _ => 0
  }

  function CommitsUnder(k: Key): Outcome -> int { (o: Outcome) => CommitCount(o, k) }

  predicate Reserved(db: Db, k: Key) {
    k in db.keys && db.keys[k].endpoint != PostTransfer
  }

  ghost predicate KeyOk(db: Db, log: seq<Outcome>, k: Key) {
    && (k in db.keys ==> db.keys[k].response.Some?)
    && (Reserved(db, k) ==>
          var response := db.keys[k].response.value;
          && response.tx < |db.txs| && db.txs[response.tx].key == Some(k) && response.key == Some(k)
          && db.txs[response.tx].kind != CardPayment)
    && SumBy(log, CommitsUnder(k)) == (if Reserved(db, k) then 1 else 0)
  }

  /** A transaction that carries a key, card payments aside, is the one the key's stored response names. */
  ghost predicate TxKeyOk(db: Db, t: TxId)
    requires t < |db.txs|
  {
    db.txs[t].key.Some? && db.txs[t].kind != CardPayment ==>
      var k := db.txs[t].key.value;
      Reserved(db, k) && db.keys[k].response == Some(Response(t, Some(k)))
  }

  /** The unique column: no two transactions carry one key. */
  ghost predicate KeysDistinct(txs: seq<Txn>) {
    forall t, u | 0 <= t < u < |txs| && txs[t].key.Some? :: txs[t].key != txs[u].key
  }

  ghost predicate KeysOk(db: Db, log: seq<Outcome>) {
    && KeysDistinct(db.txs)
    && (forall k: Key :: KeyOk(db, log, k))
    && (forall t | 0 <= t < |db.txs| :: TxKeyOk(db, t))
  }

  // ---- what one step does to the keys

  /** Stored keys stay as they are, and the keys of existing transactions do too. */
  ghost predicate KeepsKeys(db: Db, after: Db) {
    && (forall k | k in db.keys :: k in after.keys && after.keys[k] == db.keys[k])
    && |db.txs| <= |after.txs|
    && (forall t | 0 <= t < |db.txs| :: after.txs[t].key == db.txs[t].key && after.txs[t].kind == db.txs[t].kind)
  }

  /** The step opens at most one transaction, and if that carries a key then no other does. */
  ghost predicate OpensUnderNewKey(db: Db, after: Db) {
    && |after.txs| <= |db.txs| + 1
    && (|after.txs| == |db.txs| + 1 && after.txs[|db.txs|].key.Some? ==>
          !KeyUsed(db.txs, after.txs[|db.txs|].key.value))
  }

  /** The step committed one new transaction under one new key, and stored the response naming it. */
  ghost predicate Commits(db: Db, after: Db, o: Outcome, k: Key) {
    && k !in db.keys
    && after.keys.Keys == db.keys.Keys + {k}
    && after.keys[k].endpoint != PostTransfer
    && |after.txs| == |db.txs| + 1
    && after.txs[|db.txs|].key == Some(k) && after.txs[|db.txs|].kind != CardPayment
    && after.keys[k].response == Some(Response(|db.txs|, Some(k)))
    && (forall j: Key :: CommitCount(o, j) == if j == k then 1 else 0)
  }

  /** The step committed nothing under a key; at most it stored the key of a transfer that has already happened. */
  ghost predicate CommitsNothing(db: Db, after: Db, o: Outcome) {
    && (forall k | k in after.keys && k !in db.keys :: after.keys[k].endpoint == PostTransfer && after.keys[k].response.Some?)
    && (forall t | |db.txs| <= t < |after.txs| :: after.txs[t].key == None || after.txs[t].kind == CardPayment)
    && (forall j: Key :: CommitCount(o, j) == 0)
  }

  ghost predicate KeyStep(db: Db, after: Db, o: Outcome) {
    && KeepsKeys(db, after)
    && OpensUnderNewKey(db, after)
    && (CommitsNothing(db, after, o) || exists k: Key :: Commits(db, after, o, k))
  }

  predicate KeyedFlight(f: Flight) {
    f.DepositFlight? || f.WithdrawFlight? || f.FundFlight? || f.DrainFlight?
  }

  lemma CommitsOne(db: Db, after: Db, o: Outcome, k: Key, row: KeyRow, tx: Txn)
    requires !Taken(db, k) && after.keys == db.keys[k := row] && after.txs == db.txs + [tx]
    requires row.endpoint != PostTransfer && row.response == Some(Response(|db.txs|, Some(k)))
    requires tx.key == Some(k) && tx.kind != CardPayment
    requires forall j: Key :: CommitCount(o, j) == if j == k then 1 else 0
    ensures KeyStep(db, after, o)
  {
    assert Commits(db, after, o, k);
  }

  lemma KeyedLandKeys(db: Db, f: Flight)
    requires KeyedFlight(f)
    ensures var (after, o) := Land(db, f); KeyStep(db, after, o)
  {
    var (after, o) := Land(db, f);
    if o.Rejected? {
      assert CommitsNothing(db, after, o);
    } else {
      CommitsOne(db, after, o, f.key, after.keys[f.key], after.txs[|db.txs|]);
    }
  }

  lemma LandKeys(db: Db, f: Flight)
    ensures var (after, o) := Land(db, f); KeyStep(db, after, o)
  {
    if KeyedFlight(f) {
      KeyedLandKeys(db, f);
    } else {
      assert CommitsNothing(db, Land(db, f).0, Land(db, f).1);
    }
  }

  lemma ConcludeKeys(db: Db, landed: Db, f: Flight, o: Outcome)
    requires f.TransferFlight? && (landed, o) == Land(db, f)
    ensures var (after, last) := Conclude(landed, f, o); KeyStep(db, after, last)
  {
    var (after, last) := Conclude(landed, f, o);
    assert CommitsNothing(db, after, last);
  }

  lemma ServeKeys(db: Db, r: MoneyRequest)
    ensures var (after, o) := Serve(db, r); KeyStep(db, after, o)
  {
    match Check(db, r)
    case Reply(o) =>
      CheckReplies(db, r);
      assert CommitsNothing(db, db, o);
    case Go(f) =>
      LandKeys(db, f);
      if f.TransferFlight? {
        ConcludeKeys(db, Land(db, f).0, f, Land(db, f).1);
      }
  }

  lemma GuardedStoresNothing(db: Db, d: DirectRequest)
    ensures Guarded(db, d).0.keys == db.keys
    ensures forall k: Key :: CommitCount(Guarded(db, d).1, k) == 0
  {
  }

  lemma GuardedKeepsTxKeys(db: Db, d: DirectRequest)
    ensures var after := Guarded(db, d).0;
            && |db.txs| <= |after.txs|
            && OpensUnderNewKey(db, after)
            && forall t | 0 <= t < |db.txs| :: after.txs[t].key == db.txs[t].key && after.txs[t].kind == db.txs[t].kind
  {
  }

  lemma GuardedKeys(db: Db, d: DirectRequest)
    ensures var (after, o) := Guarded(db, d); KeyStep(db, after, o)
  {
    var (after, o) := Guarded(db, d);
    GuardedStoresNothing(db, d);
    GuardedKeepsTxKeys(db, d);
    GuardedOpensCardPayments(db, d);
    assert CommitsNothing(db, after, o);
  }

  lemma StepKeys(s: System, a: Action) returns (o: Outcome)
    ensures Step(s, a) == s || (Step(s, a).log == s.log + [o] && KeyStep(s.db, Step(s, a).db, o))
  {
    o := Parked;
    match a {
      case Call(r) =>
        ServeKeys(s.db, r);
        o := Serve(s.db, r).1;
      case CallDirect(d) =>
        GuardedKeys(s.db, d);
        o := Guarded(s.db, d).1;
      case Begin(r) =>
        if Check(s.db, r).Reply? {
          o := Check(s.db, r).outcome;
        }
        assert CommitsNothing(s.db, s.db, o);
      case Finish(k, aborts) =>
        if k < |s.inflight| {
          if aborts {
            o := Rejected(Aborted);
            assert CommitsNothing(s.db, s.db, o);
          } else {
            LandKeys(s.db, s.inflight[k]);
            o := Land(s.db, s.inflight[k]).1;
          }
        }
    }
  }

  lemma KeysStayDistinct(db: Db, after: Db)
    requires KeysDistinct(db.txs) && KeepsKeys(db, after) && OpensUnderNewKey(db, after)
    ensures KeysDistinct(after.txs)
  {
    forall t, u | 0 <= t < u < |after.txs| && after.txs[t].key.Some? ensures after.txs[t].key != after.txs[u].key {
      assert after.txs[t].key == db.txs[t].key;
    }
  }

  lemma KeysFollow(db: Db, log: seq<Outcome>, after: Db, o: Outcome)
    requires KeysOk(db, log) && KeyStep(db, after, o)
    ensures KeysOk(after, log + [o])
  {
    KeysStayDistinct(db, after);
    forall k: Key ensures KeyOk(after, log + [o], k) {
      assert KeyOk(db, log, k);
      SumAppend(log, o, CommitsUnder(k));
    }
    forall t | 0 <= t < |after.txs| ensures TxKeyOk(after, t) {
      if t < |db.txs| {
        assert TxKeyOk(db, t);
      }
    }
  }

  lemma {:induction false} KeysAlwaysOk(actions: seq<Action>)
    ensures KeysOk(Run(START, actions).db, Run(START, actions).log)
  {
    if |actions| > 0 {
      var front, last := actions[..|actions| - 1], actions[|actions| - 1];
      KeysAlwaysOk(front);
      var s := Run(START, front);
      var o := StepKeys(s, last);
      if Step(s, last) != s {
        KeysFollow(s.db, s.log, Step(s, last).db, o);
      }
    }
  }

  /**
   Main result, for every run and every interleaving, stale transactions included: no two transactions carry
   one key, the bank never committed twice under it, and the stored response names the transaction; the key of a
   card payment is never also that of a commit.
   */
  lemma AtMostOncePerKey(actions: seq<Action>, k: Key)
    ensures var s := Run(START, actions);
            && SumBy(s.log, CommitsUnder(k)) <= 1
            && (forall t, u | 0 <= t < |s.db.txs| && 0 <= u < |s.db.txs| ::
                  s.db.txs[t].key == Some(k) && s.db.txs[u].key == Some(k) ==> t == u)
            && (forall t | 0 <= t < |s.db.txs| && s.db.txs[t].key == Some(k) ::
                  if s.db.txs[t].kind == CardPayment then SumBy(s.log, CommitsUnder(k)) == 0
                  else k in s.db.keys && s.db.keys[k].response == Some(Response(t, Some(k))))
  {
    KeysAlwaysOk(actions);
    var s := Run(START, actions);
    assert KeyOk(s.db, s.log, k);
    forall t | 0 <= t < |s.db.txs| && s.db.txs[t].key == Some(k)
      ensures if s.db.txs[t].kind == CardPayment then SumBy(s.log, CommitsUnder(k)) == 0
              else k in s.db.keys && s.db.keys[k].response == Some(Response(t, Some(k)))
    {
      assert TxKeyOk(s.db, t);
      if Reserved(s.db, k) {
        var named := s.db.keys[k].response.value.tx;
        assert named == t;
      }
    }
  }

  lemma {:induction false} StoredKeysStay(before: seq<Action>, later: seq<Action>, k: Key)
    requires k in Run(START, before).db.keys
    ensures k in Run(START, before + later).db.keys
    ensures Run(START, before + later).db.keys[k] == Run(START, before).db.keys[k]
  {
    if |later| == 0 {
      assert before + later == before;
    } else {
      var n := |later| - 1;
      StoredKeysStay(before, later[..n], k);
      assert (before + later)[..|before + later| - 1] == before + later[..n];
      var o := StepKeys(Run(START, before + later[..n]), later[n]);
    }
  }

  predicate Keyed(r: MoneyRequest) {
    r.DepositReq? || r.WithdrawReq? || r.FundReq? || r.DrainReq?
  }

  lemma KnownKeyAnswers(db: Db, r: MoneyRequest)
    requires Keyed(r) && r.key in db.keys && db.keys[r.key].response.Some?
    ensures Check(db, r).Reply?
    ensures Serve(db, r).0 == db
    ensures Serve(db, r).1 == Replayed(db.keys[r.key].response.value) || Serve(db, r).1.Rejected?
  {
  }

  lemma KnownKeyAborts(db: Db, f: Flight)
    requires KeyedFlight(f) && f.key in db.keys
    ensures Land(db, f) == (db, Rejected(Aborted))
  {
  }

  /**
   Main result: once a key is stored, then after any further run a request that repeats it is answered with the
   very response stored at the commit or is rejected, it moves nothing, and a request that was already past its
   checks aborts.
   */
  lemma ReplayMovesNothing(before: seq<Action>, later: seq<Action>, r: MoneyRequest, f: Flight)
    requires Keyed(r) && KeyedFlight(f) && f.key == r.key
    requires r.key in Run(START, before).db.keys
    ensures var stored := Run(START, before).db.keys[r.key].response;
            var db := Run(START, before + later).db;
            && stored.Some?
            && Serve(db, r).0 == db
            && (Serve(db, r).1 == Replayed(stored.value) || Serve(db, r).1.Rejected?)
            && !Check(db, r).Go?
            && Land(db, f) == (db, Rejected(Aborted))
  {
    KeysAlwaysOk(before);
    assert KeyOk(Run(START, before).db, Run(START, before).log, r.key);
    StoredKeysStay(before, later, r.key);
    KnownKeyAnswers(Run(START, before + later).db, r);
    KnownKeyAborts(Run(START, before + later).db, f);
  }

  // ---- a repeated deposit

  /** No step changes the owner or the currency of a wallet. */
  ghost predicate OwnersStay(db: Db, after: Db) {
    && |db.wallets| <= |after.wallets|
    && forall w | 0 <= w < |db.wallets| ::
         after.wallets[w].owner == db.wallets[w].owner && after.wallets[w].currency == db.wallets[w].currency
  }

  lemma StepKeepsOwners(s: System, a: Action)
    ensures OwnersStay(s.db, Step(s, a).db)
  {
    match a
    case Call(r) => ServeKeepsIdentities(s.db, r);
    case CallDirect(d) =>
    case Begin(r) =>
    case Finish(k, aborts) =>
      if k < |s.inflight| {
        LandKeepsIdentities(s.db, s.inflight[k]);
      }
  }

  lemma {:induction false} OwnersAlwaysStay(s: System, actions: seq<Action>)
    ensures OwnersStay(s.db, Run(s, actions).db)
  {
    if |actions| > 0 {
      OwnersAlwaysStay(s, actions[..|actions| - 1]);
      StepKeepsOwners(Run(s, actions[..|actions| - 1]), actions[|actions| - 1]);
    }
  }

  lemma OpenedDepositStoresKey(db: Db, r: MoneyRequest)
    requires r.DepositReq? && Serve(db, r).1.DepositOpened?
    ensures var (after, o) := Serve(db, r);
            && r.key in after.keys
            && after.keys[r.key].response == Some(o.response)
            && after.keys[r.key].user == r.user
            && after.keys[r.key].hash == WalletHash(r.user, r.wallet, r.amount, r.currency)
            && r.wallet < |after.wallets| && after.wallets[r.wallet].owner == r.user
            && after.wallets[r.wallet].currency == r.currency && r.amount > 0
  {
  }

  lemma KnownDepositReplays(db: Db, r: MoneyRequest, response: Response)
    requires r.DepositReq? && r.amount > 0
    requires r.wallet < |db.wallets| && db.wallets[r.wallet].owner == r.user && db.wallets[r.wallet].currency == r.currency
    requires r.key in db.keys && db.keys[r.key].response == Some(response) && db.keys[r.key].user == r.user
    requires db.keys[r.key].hash == WalletHash(r.user, r.wallet, r.amount, r.currency)
    ensures Serve(db, r) == (db, Replayed(response))
  {
  }

  /** Main result: a deposit request repeated after any further run is answered with its first response and does nothing. */
  lemma RepeatedDepositReplays(before: seq<Action>, r: MoneyRequest, later: seq<Action>)
    requires r.DepositReq? && Serve(Run(START, before).db, r).1.DepositOpened?
    ensures var db := Run(START, before + [Call(r)] + later).db;
            Serve(db, r) == (db, Replayed(Serve(Run(START, before).db, r).1.response))
  {
    var made := before + [Call(r)];
    assert made[..|before|] == before;
    OpenedDepositStoresKey(Run(START, before).db, r);
    StoredKeysStay(made, later, r.key);
    RunContinues(START, made, later);
    OwnersAlwaysStay(Run(START, made), later);
    KnownDepositReplays(Run(START, made + later).db, r, Serve(Run(START, before).db, r).1.response);
  }
}
