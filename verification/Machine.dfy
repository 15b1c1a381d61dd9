/**
 The bank as a step machine: requests served whole, and requests whose checks and transactions interleave
 in any order. The log collects what every call and every landed transaction reported.
 */
module Machine {
  import opened Schema
  import opened Endpoints
  import opened Direct

  datatype System = System(db: Db, inflight: seq<Flight>, log: seq<Outcome>)

  const START := System(EMPTY_DB, [], [])

  datatype Action =
    | Call(r: MoneyRequest)
    | CallDirect(d: DirectRequest)
    | Begin(r: MoneyRequest)
    /** The transaction of the k-th flight commits, or the database aborts it. */
    | Finish(k: nat, aborts: bool)

  function Step(s: System, a: Action): System {
    match a
    case Call(r) =>
      var (db, o) := Serve(s.db, r);
      s.(db := db, log := s.log + [o])
    case CallDirect(d) =>
      var (db, o) := Guarded(s.db, d);
      s.(db := db, log := s.log + [o])
    case Begin(r) =>
      (match Check(s.db, r)
       case Reply(o) => s.(log := s.log + [o])
       case Go(f) => s.(inflight := s.inflight + [f], log := s.log + [Parked]))
    case Finish(k, aborts) =>
      if k >= |s.inflight| then s
      else if aborts then s.(inflight := s.inflight[k := Landed], log := s.log + [Rejected(Aborted)])
      else
        var (db, o) := Land(s.db, s.inflight[k]);
        System(db, s.inflight[k := Rest(s.inflight[k], o)], s.log + [o])
  }

  function Run(s: System, actions: seq<Action>): System {
    if |actions| == 0 then s else Step(Run(s, actions[..|actions| - 1]), actions[|actions| - 1])
  }

  /**
   The rows a flight carries still are the rows of the table, in the columns its transaction writes back.
   A deposit and a transfer carry no row, so nothing can make them stale.
   */
  predicate Fresh(db: Db, f: Flight) {
    match f
    case WithdrawFlight(_, w, _, _, _, _, row) => w < |db.wallets| ==> row.available == db.wallets[w].available
    case SettleFlight(t, _) => t < |db.txs| ==> db.txs[t].status == Pending
    case FundFlight(_, v, w, _, _, _, _, row, vault) => FreshRows(db, w, v, row, vault)
    case DrainFlight(_, v, w, _, _, _, row, vault) => FreshRows(db, w, v, row, vault)
    case _ => true
  }

  predicate FreshRows(db: Db, w: WalletId, v: VaultId, row: Wallet, vault: Vault) {
    && (w < |db.wallets| ==> row.balance == db.wallets[w].balance && row.available == db.wallets[w].available)
    && (v < |db.vaults| ==> vault.amount == db.vaults[v].amount)
  }

  /** The next action lands no flight that has become stale. */
  predicate Undisturbed(s: System, a: Action) {
    a.Finish? && !a.aborts && a.k < |s.inflight| ==> Fresh(s.db, s.inflight[a.k])
  }

  /** No action of the run lands a stale flight. */
  predicate UndisturbedRun(s: System, actions: seq<Action>) {
    |actions| == 0
    || (var front := actions[..|actions| - 1];
        UndisturbedRun(s, front) && Undisturbed(Run(s, front), actions[|actions| - 1]))
  }
}
