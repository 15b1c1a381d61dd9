/** Specification of the savings rules: the deposits they ask for, and the loop that makes them. */
module SavingsRules {
  import opened Schema
  import opened Sums
  import opened Endpoints
  import opened Machine
  import opened Effects
  import opened Books
  import opened Lifecycle

  datatype RuleKind = RoundUp | FixedAmount | Percentage | Scheduled

  datatype Rule = Rule(kind: RuleKind, user: UserId, vault: VaultId, amount: Option<int>, percentage: Option<real>)

  /** The whole currency units that cover an amount, rounded up. */
  function Ceiling(amount: int): int {
    if amount % UNITS_PER_WHOLE == 0 then amount
    else (amount / UNITS_PER_WHOLE + 1) * UNITS_PER_WHOLE
  }

  function Share(amount: int, percentage: real): real {
    amount as real * percentage / 100.0
  }

  /** A percentage rule yields a whole number of money units. */
  predicate WholeShare(rule: Rule, amount: int) {
    rule.kind == Percentage && rule.percentage.Some? ==>
      Share(amount, rule.percentage.value).Floor as real == Share(amount, rule.percentage.value)
  }

  /** What a rule saves when its owner spends the given amount, if anything. */
  function Saving(rule: Rule, spent: int): (saving: Option<int>)
  {
    match rule.kind
    case RoundUp => if Ceiling(spent) - spent > 0 then Some(Ceiling(spent) - spent) else None
    case FixedAmount => rule.amount
    case Percentage =>
      if rule.percentage.None? || rule.percentage.value == 0.0 || Share(spent, rule.percentage.value) <= 0.0 then None
      else Some(Share(spent, rule.percentage.value).Floor)
    case Scheduled => None
  }

  function SourceOf(kind: RuleKind): Source {
    match kind
    case RoundUp => RoundUpRule
    case FixedAmount => FixedRule
    case Percentage => PercentageRule
    case Scheduled => ScheduledRule
  }

  /** The vault deposit a rule makes for a transaction of its owner. */
  function TransactionDeposit(rule: Rule, sender: UserId, spent: int, key: Key, now: int): Option<MoneyRequest> {
    match Saving(rule, spent)
    case None => None
    case Some(amount) => Some(FundReq(sender, rule.vault, amount, key, SourceOf(rule.kind), now))
  }

  /** The vault deposit a scheduled rule makes. */
  function ScheduledDeposit(rule: Rule, key: Key, now: int): Option<MoneyRequest> {
    if rule.amount.None? then None
    else Some(FundReq(rule.user, rule.vault, rule.amount.value, key, ScheduledRule, now))
  }

  datatype Loop = Loop(db: Db, log: seq<Outcome>, stopped: bool)

  /**
   Deposits made one after the other. A rejected deposit ends the loop: the handler that should swallow the
   error writes an audit record with an action the schema does not have, and that write raises.
   */
  function MakeDeposits(db: Db, deposits: seq<Option<MoneyRequest>>): Loop {
    if |deposits| == 0 then Loop(db, [], false)
    else
      var loop, last := MakeDeposits(db, deposits[..|deposits| - 1]), deposits[|deposits| - 1];
      if loop.stopped || last.None? then loop
      else
        var (after, o) := Serve(loop.db, last.value);
        Loop(after, loop.log + [o], o.Rejected?)
  }

  function Contributed(c: Contribution): int { c.amount }

  predicate Whole(amount: int) {
    amount % UNITS_PER_WHOLE == 0
  }

  /** A round-up saving is the least that takes the spending to a whole unit; there is none if it is whole already. */
  lemma RoundUpIsLeast(rule: Rule, spent: int)
    requires rule.kind == RoundUp
    ensures Saving(rule, spent).None? <==> Whole(spent)
    ensures Saving(rule, spent).Some? ==>
              var saving := Saving(rule, spent).value;
              && 0 < saving < UNITS_PER_WHOLE
              && Whole(spent + saving)
              && forall total | spent <= total < spent + saving :: !Whole(total)
  {
    if !Whole(spent) {
      var below := spent / UNITS_PER_WHOLE;
      forall total | spent <= total < Ceiling(spent) ensures !Whole(total) {
        assert below * UNITS_PER_WHOLE < total < (below + 1) * UNITS_PER_WHOLE;
        assert total % UNITS_PER_WHOLE == total - below * UNITS_PER_WHOLE;
      }
    }
  }

  /** A percentage rule saves exactly its share of a positive amount, and nothing of a share that is not positive. */
  lemma PercentageIsExact(rule: Rule, spent: int)
    requires rule.kind == Percentage && rule.percentage.Some? && WholeShare(rule, spent)
    ensures Saving(rule, spent).Some? <==> spent as real * rule.percentage.value > 0.0
    ensures Saving(rule, spent).Some? ==>
              Saving(rule, spent).value as real * 100.0 == spent as real * rule.percentage.value
  {
    assert Share(spent, rule.percentage.value) * 100.0 == spent as real * rule.percentage.value;
  }

  /** A rule asks for its saving on its own vault, on behalf of the sender, or of its owner when it is scheduled. */
  lemma RulesAskForSavings(rule: Rule, sender: UserId, spent: int, key: Key, now: int)
    ensures var d := TransactionDeposit(rule, sender, spent, key, now);
            && (d.Some? <==> Saving(rule, spent).Some?)
            && (d.Some? ==>
                  && d.value.FundReq? && d.value.user == sender && d.value.vault == rule.vault && d.value.key == key
                  && d.value.amount == Saving(rule, spent).value && d.value.now == now
                  && (rule.kind == RoundUp ==> d.value.source == RoundUpRule)
                  && (rule.kind == FixedAmount ==> d.value.source == FixedRule)
                  && (rule.kind == Percentage ==> d.value.source == PercentageRule))
            && (rule.kind == FixedAmount ==> Saving(rule, spent) == rule.amount)
            && (rule.kind == Scheduled ==> d.None?)
    ensures var d := ScheduledDeposit(rule, key, now);
            && (d.Some? <==> rule.amount.Some?)
            && (d.Some? ==>
                  && d.value.FundReq? && d.value.user == rule.user && d.value.vault == rule.vault
                  && Some(d.value.amount) == rule.amount && d.value.key == key && d.value.source == ScheduledRule)
  {
  }

  // ---- the loop

  ghost predicate OnlyDeposits(deposits: seq<Option<MoneyRequest>>) {
    forall i | 0 <= i < |deposits| && deposits[i].Some? :: deposits[i].value.FundReq?
  }

  /** A vault deposit that is made appends one contribution record of its amount. */
  lemma DepositContributes(db: Db, r: MoneyRequest)
    requires r.FundReq?
    ensures var (after, o) := Serve(db, r);
            if o.VaultFunded? then
              && o.amount == r.amount
              && |after.contributions| == |db.contributions| + 1
              && after.contributions[..|db.contributions|] == db.contributions
              && after.contributions[|db.contributions|].amount == r.amount
            else after == db && (o.Rejected? || o.Replayed?)
  {
  }

  /** One vault deposit is made in full, with its contribution record, or changes nothing at all. */
  lemma DepositAllOrNothing(db: Db, r: MoneyRequest)
    requires r.FundReq?
    ensures var (after, o) := Serve(db, r);
            if o.VaultFunded? then
              && SumBy(after.wallets, Balance) == SumBy(db.wallets, Balance) - r.amount
              && SumBy(after.vaults, Saved) == SumBy(db.vaults, Saved) + r.amount
              && SumBy(after.contributions, Contributed) == SumBy(db.contributions, Contributed) + r.amount
              && |after.contributions| == |db.contributions| + 1
            else after == db && (o.Rejected? || o.Replayed?)
  {
    var (after, o) := Serve(db, r);
    ServeEffect(db, r);
    DepositContributes(db, r);
    if o.VaultFunded? {
      assert after.contributions == db.contributions + [after.contributions[|db.contributions|]];
      SumAppend(db.contributions, after.contributions[|db.contributions|], Contributed);
    }
  }

  /**
   Main result, for any list of rules: the loop moves money between wallets and vaults without creating or
   losing any, and what the vaults gain is the sum of the contribution records it creates.
   */
  lemma {:induction false} RulesConserve(db: Db, deposits: seq<Option<MoneyRequest>>)
    requires OnlyDeposits(deposits)
    ensures var after := MakeDeposits(db, deposits).db;
            && SumBy(after.wallets, Balance) + SumBy(after.vaults, Saved)
               == SumBy(db.wallets, Balance) + SumBy(db.vaults, Saved)
            && SumBy(after.vaults, Saved) - SumBy(db.vaults, Saved)
               == SumBy(after.contributions, Contributed) - SumBy(db.contributions, Contributed)
  {
    if |deposits| > 0 {
      var front, last := deposits[..|deposits| - 1], deposits[|deposits| - 1];
      RulesConserve(db, front);
      var loop := MakeDeposits(db, front);
      if !loop.stopped && last.Some? {
        DepositAllOrNothing(loop.db, last.value);
      }
    }
  }

  /** The requests the loop has made, as actions of the bank. */
  function Made(db: Db, deposits: seq<Option<MoneyRequest>>): seq<Action> {
    if |deposits| == 0 then []
    else
      var front, last := deposits[..|deposits| - 1], deposits[|deposits| - 1];
      if MakeDeposits(db, front).stopped || last.None? then Made(db, front)
      else Made(db, front) + [Call(last.value)]
  }

  lemma OneActionMore(s: System, made: seq<Action>, a: Action)
    ensures Run(s, made + [a]) == Step(Run(s, made), a)
    ensures UndisturbedRun(s, made) && !a.Finish? ==> UndisturbedRun(s, made + [a])
  {
    assert (made + [a])[..|made|] == made;
  }

  /**
   The loop is a run of ordinary vault deposits, so whatever holds in every reachable state also holds after
   it; and that run lands no stale flight.
   */
  lemma {:induction false} RulesAreARun(s: System, deposits: seq<Option<MoneyRequest>>)
    ensures var loop, made := MakeDeposits(s.db, deposits), Made(s.db, deposits);
            Run(s, made) == s.(db := loop.db, log := s.log + loop.log) && UndisturbedRun(s, made)
  {
    if |deposits| > 0 {
      var front, last := deposits[..|deposits| - 1], deposits[|deposits| - 1];
      RulesAreARun(s, front);
      var loop, made := MakeDeposits(s.db, front), Made(s.db, front);
      if !loop.stopped && last.Some? {
        OneActionMore(s, made, Call(last.value));
        var o := Serve(loop.db, last.value).1;
        assert s.log + (loop.log + [o]) == (s.log + loop.log) + [o];
      }
    } else {
      assert s.log + [] == s.log;
    }
  }

  lemma {:induction false} UndisturbedContinues(s: System, first: seq<Action>, second: seq<Action>)
    requires UndisturbedRun(s, first) && UndisturbedRun(Run(s, first), second)
    ensures UndisturbedRun(s, first + second)
  {
    if |second| == 0 {
      assert first + second == first;
    } else {
      var n := |second| - 1;
      UndisturbedContinues(s, first, second[..n]);
      RunContinues(s, first, second[..n]);
      assert (first + second)[..|first + second| - 1] == first + second[..n];
    }
  }

  /** Main result: wherever the bank has got to, applying any list of rules leaves all its books in order. */
  lemma RulesKeepBooks(actions: seq<Action>, deposits: seq<Option<MoneyRequest>>)
    requires UndisturbedRun(START, actions)
    ensures var s := Run(START, actions);
            var loop := MakeDeposits(s.db, deposits);
            BooksAgree(loop.db, s.log + loop.log)
  {
    var s := Run(START, actions);
    var made := Made(s.db, deposits);
    RulesAreARun(s, deposits);
    RunContinues(START, actions, made);
    UndisturbedContinues(START, actions, made);
    BooksHold(actions + made);
  }

  /** The loop stops at a rejected deposit and nowhere else, and a rejected deposit has changed nothing. */
  lemma {:induction false} StopsAtFirstRejection(db: Db, deposits: seq<Option<MoneyRequest>>)
    requires OnlyDeposits(deposits)
    ensures var loop := MakeDeposits(db, deposits);
            && (loop.stopped <==> exists i :: 0 <= i < |loop.log| && loop.log[i].Rejected?)
            && (forall i | 0 <= i < |loop.log| - 1 :: !loop.log[i].Rejected?)
  {
    if |deposits| > 0 {
      var front, last := deposits[..|deposits| - 1], deposits[|deposits| - 1];
      StopsAtFirstRejection(db, front);
      var loop := MakeDeposits(db, front);
      var all := MakeDeposits(db, deposits);
      if !loop.stopped && last.Some? {
        assert all.log[|loop.log|] == Serve(loop.db, last.value).1;
      }
    }
  }

  /** A loop that has stopped makes no further deposit. */
  lemma {:induction false} StoppedStays(db: Db, deposits: seq<Option<MoneyRequest>>, n: nat)
    requires n <= |deposits| && MakeDeposits(db, deposits[..n]).stopped
    ensures MakeDeposits(db, deposits) == MakeDeposits(db, deposits[..n])
  {
    if n == |deposits| {
      assert deposits[..n] == deposits;
    } else {
      assert deposits[..|deposits| - 1][..n] == deposits[..n];
      StoppedStays(db, deposits[..|deposits| - 1], n);
    }
  }
}
