/** The monthly snapshot: a fold over transactions, its declarative meaning, and how snapshots add up. */
module Analytics {
  import opened Schema
  import opened Sums

  /** One of the kinds that count as spending. */
  predicate IsExpense(kind: TxKind) {
    kind in {Withdrawal, MerchantPayment, QrPayment, CardPayment, SubscriptionCharge, Fee, P2PTransfer, ScheduledTransfer}
  }

  predicate IsIncome(kind: TxKind) {
    kind in {Deposit, Refund, P2PTransfer}
  }

  // ---- the columns a snapshot of one user sums

  /** What a transaction brings a user. */
  function Receipt(user: UserId, tx: Txn): int {
    if tx.receiver == Some(user) && IsIncome(tx.kind) then tx.net else 0
  }

  /** What a user spends with a transaction. */
  function Payment(user: UserId, tx: Txn): int {
    if tx.sender == Some(user) && IsExpense(tx.kind) then tx.amount else 0
  }

  function IncomeOf(user: UserId): Txn -> int {
    (tx: Txn) => Receipt(user, tx)
  }

  function SavedBy(user: UserId): Txn -> int {
    (tx: Txn) => if tx.sender == Some(user) && tx.kind == VaultContribution then tx.amount else 0
  }

  function ExpenseOf(user: UserId): Txn -> int {
    (tx: Txn) => Payment(user, tx)
  }

  /** The category of a transaction: its own if it has one, else what the resolver makes of it. */
  function CategoryOf(resolve: Txn -> Category, tx: Txn): Category {
    if tx.category.Some? then tx.category.value else resolve(tx)
  }

  function SpentOn(user: UserId, resolve: Txn -> Category, c: Category): Txn -> int {
    (tx: Txn) => if CategoryOf(resolve, tx) == c then Payment(user, tx) else 0
  }

  // ---- the rows of a snapshot

  predicate InPeriod(tx: Txn, start: int, end: int) {
    tx.status == Completed && start <= tx.createdAt < end
  }

  predicate Concerns(tx: Txn, user: UserId) {
    tx.sender == Some(user) || tx.receiver == Some(user)
  }

  /** The completed transactions of a period. */
  function Within(txs: seq<Txn>, start: int, end: int): seq<Txn> {
    if |txs| == 0 then []
    else
      Within(txs[..|txs| - 1], start, end)
      + if InPeriod(txs[|txs| - 1], start, end) then [txs[|txs| - 1]] else []
  }

  /** The rows a user's snapshot reads: those of the period the user sends or receives. */
  function Select(txs: seq<Txn>, user: UserId, start: int, end: int): seq<Txn> {
    if |txs| == 0 then []
    else
      var last := txs[|txs| - 1];
      Select(txs[..|txs| - 1], user, start, end)
      + if InPeriod(last, start, end) && Concerns(last, user) then [last] else []
  }

  /** A category map in the order its entries were inserted. */
  datatype Spending = Spending(order: seq<Category>, amounts: map<Category, int>)

  predicate Distinct<T(==)>(s: seq<T>) {
    forall i, j | 0 <= i < j < |s| :: s[i] != s[j]
  }

  ghost predicate WellFormed(s: Spending) {
    Distinct(s.order) && forall c :: c in s.order <==> c in s.amounts
  }

  function AmountIn(amounts: map<Category, int>): Category -> int {
    (c: Category) => if c in amounts then amounts[c] else 0
  }

  datatype Snapshot = Snapshot(income: int, expenses: int, saved: int, netCashFlow: int, savingsRate: real, count: nat,
                               spending: Spending, top: Option<Category>)

  /** The top category has the largest amount of all; there is none exactly when no amount is positive. */
  ghost predicate IsTop(spending: Spending, top: Option<Category>) {
    && (top.None? <==> forall c | c in spending.amounts :: spending.amounts[c] <= 0)
    && (top.Some? ==>
          && top.value in spending.amounts
          && spending.amounts[top.value] > 0
          && forall c | c in spending.amounts :: spending.amounts[c] <= spending.amounts[top.value])
  }

  /** How many hundredths of a positive whole a part is. */
  function Percent(part: int, whole: int): real {
    if whole > 0 then part as real / whole as real * 100.0 else 0.0
  }

  /** What a snapshot says about the rows it was computed from. */
  ghost predicate Describes(s: Snapshot, rows: seq<Txn>, user: UserId, resolve: Txn -> Category) {
    && s.income == SumBy(rows, IncomeOf(user))
    && s.expenses == SumBy(rows, ExpenseOf(user))
    && s.saved == SumBy(rows, SavedBy(user))
    && s.netCashFlow == s.income - s.expenses
    && s.count == |rows|
    && s.savingsRate == Percent(s.saved, s.income)
    && WellFormed(s.spending)
    && (forall c :: AmountIn(s.spending.amounts)(c) == SumBy(rows, SpentOn(user, resolve, c)))
    && SumBy(s.spending.order, AmountIn(s.spending.amounts)) == s.expenses
    && IsTop(s.spending, s.top)
  }

  // ---- the fold

  function Spend(s: Spending, c: Category, amount: int): Spending {
    if c in s.amounts then s.(amounts := s.amounts[c := s.amounts[c] + amount])
    else Spending(s.order + [c], s.amounts[c := amount])
  }

  /** Spending in one category keeps the map well formed and raises its sum by the amount. */
  lemma SpendAdds(s: Spending, c: Category, amount: int)
    requires WellFormed(s)
    ensures WellFormed(Spend(s, c, amount))
    ensures forall d :: AmountIn(Spend(s, c, amount).amounts)(d) == AmountIn(s.amounts)(d) + if d == c then amount else 0
    ensures SumBy(Spend(s, c, amount).order, AmountIn(Spend(s, c, amount).amounts))
            == SumBy(s.order, AmountIn(s.amounts)) + amount
  {
    SpendKeepsForm(s, c, amount);
    SpendMovesOne(s, c, amount);
    if c in s.amounts {
      SpendKnown(s, c, amount);
    } else {
      SpendNew(s, c, amount);
    }
  }

  lemma SpendKeepsForm(s: Spending, c: Category, amount: int)
    requires WellFormed(s)
    ensures WellFormed(Spend(s, c, amount))
  {
    var t := Spend(s, c, amount);
    if c !in s.amounts {
      assert c !in s.order;
    }
    forall d ensures d in t.order <==> d in t.amounts {
      assert d in s.order <==> d in s.amounts;
    }
  }

  lemma SpendMovesOne(s: Spending, c: Category, amount: int)
    ensures forall d :: AmountIn(Spend(s, c, amount).amounts)(d) == AmountIn(s.amounts)(d) + if d == c then amount else 0
  {
  }

  lemma SpendKnown(s: Spending, c: Category, amount: int)
    requires WellFormed(s) && c in s.amounts
    ensures SumBy(s.order, AmountIn(Spend(s, c, amount).amounts)) == SumBy(s.order, AmountIn(s.amounts)) + amount
  {
    var before, after := AmountIn(s.amounts), AmountIn(Spend(s, c, amount).amounts);
    SpendMovesOne(s, c, amount);
    assert c in s.order;
    var i :| 0 <= i < |s.order| && s.order[i] == c;
    forall j | 0 <= j < |s.order| && j != i ensures after(s.order[j]) == before(s.order[j]) {
      assert s.order[j] != c;
    }
    OneEntryMoves(s.order, i, before, after, amount);
  }

  lemma SpendNew(s: Spending, c: Category, amount: int)
    requires WellFormed(s) && c !in s.amounts
    ensures SumBy(s.order + [c], AmountIn(Spend(s, c, amount).amounts)) == SumBy(s.order, AmountIn(s.amounts)) + amount
  {
    var before, after := AmountIn(s.amounts), AmountIn(Spend(s, c, amount).amounts);
    SpendMovesOne(s, c, amount);
    forall j | 0 <= j < |s.order| ensures after(s.order[j]) == before(s.order[j]) {
      assert s.order[j] in s.amounts;
    }
    SumSame(s.order, before, after);
    SumAppend(s.order, c, after);
  }

  lemma {:induction false} OneEntryMoves<T>(s: seq<T>, i: nat, f: T -> int, g: T -> int, amount: int)
    requires i < |s| && g(s[i]) == f(s[i]) + amount
    requires forall j | 0 <= j < |s| && j != i :: g(s[j]) == f(s[j])
    ensures SumBy(s, g) == SumBy(s, f) + amount
  {
    var n := |s| - 1;
    if i < n {
      OneEntryMoves(s[..n], i, f, g, amount);
    } else {
      SumSame(s[..n], f, g);
    }
  }

  method FindTop(spending: Spending) returns (top: Option<Category>)
    requires WellFormed(spending)
    ensures IsTop(spending, top)
  {
    top := None;
    var topAmount := 0;
    for i := 0 to |spending.order|
      invariant topAmount >= 0
      invariant top.None? ==> topAmount == 0
      invariant top.Some? ==> top.value in spending.amounts && topAmount == spending.amounts[top.value] > 0
      invariant forall j | 0 <= j < i :: spending.order[j] in spending.amounts && spending.amounts[spending.order[j]] <= topAmount
    {
      var c := spending.order[i];
      if spending.amounts[c] > topAmount {
        topAmount := spending.amounts[c];
        top := Some(c);
      }
    }
    forall c | c in spending.amounts ensures spending.amounts[c] <= topAmount {
      var j :| 0 <= j < |spending.order| && spending.order[j] == c;
    }
  }

  method SavingsRate(saved: int, income: int) returns (rate: real)
    ensures rate == Percent(saved, income)
    ensures income > 0 ==> rate * income as real == 100.0 * saved as real
  {
    rate := 0.0;
    if income > 0 {
      rate := saved as real / income as real * 100.0;
    }
  }

  /** One pass over the rows with running totals and a category map, then the search for the top category. */
  method ComputeSnapshot(rows: seq<Txn>, user: UserId, resolve: Txn -> Category) returns (s: Snapshot)
    ensures Describes(s, rows, user, resolve)
  {
    var income, expenses, saved, count := 0, 0, 0, 0;
    var spending := Spending([], map[]);
    for i := 0 to |rows|
      invariant count == i
      invariant income == SumBy(rows[..i], IncomeOf(user))
      invariant expenses == SumBy(rows[..i], ExpenseOf(user))
      invariant saved == SumBy(rows[..i], SavedBy(user))
      invariant WellFormed(spending)
      invariant forall c :: AmountIn(spending.amounts)(c) == SumBy(rows[..i], SpentOn(user, resolve, c))
      invariant SumBy(spending.order, AmountIn(spending.amounts)) == expenses
    {
      var tx := rows[i];
      RowAdds(rows, i, user, resolve);
      count := count + 1;
      if tx.receiver == Some(user) && (tx.kind == Deposit || tx.kind == Refund || tx.kind == P2PTransfer) {
        income := income + tx.net;
      }
      if tx.sender == Some(user) && tx.kind == VaultContribution {
        saved := saved + tx.amount;
      }
      if tx.sender == Some(user) && IsExpense(tx.kind) && tx.kind != VaultContribution {
        expenses := expenses + tx.amount;
        var category := if tx.category.Some? then tx.category.value else resolve(tx);
        SpendAdds(spending, category, tx.amount);
        spending := Spend(spending, category, tx.amount);
      }
    }
    assert rows[..|rows|] == rows;
    var top := FindTop(spending);
    var rate := SavingsRate(saved, income);
    s := Snapshot(income, expenses, saved, income - expenses, rate, count, spending, top);
  }

  lemma RowAdds(rows: seq<Txn>, i: nat, user: UserId, resolve: Txn -> Category)
    requires i < |rows|
    ensures SumBy(rows[..i + 1], IncomeOf(user)) == SumBy(rows[..i], IncomeOf(user)) + IncomeOf(user)(rows[i])
    ensures SumBy(rows[..i + 1], ExpenseOf(user)) == SumBy(rows[..i], ExpenseOf(user)) + ExpenseOf(user)(rows[i])
    ensures SumBy(rows[..i + 1], SavedBy(user)) == SumBy(rows[..i], SavedBy(user)) + SavedBy(user)(rows[i])
    ensures forall c :: SumBy(rows[..i + 1], SpentOn(user, resolve, c))
                 == SumBy(rows[..i], SpentOn(user, resolve, c)) + SpentOn(user, resolve, c)(rows[i])
  {
    assert rows[..i + 1] == rows[..i] + [rows[i]];
    SumAppend(rows[..i], rows[i], IncomeOf(user));
    SumAppend(rows[..i], rows[i], ExpenseOf(user));
    SumAppend(rows[..i], rows[i], SavedBy(user));
    forall c ensures SumBy(rows[..i + 1], SpentOn(user, resolve, c))
          == SumBy(rows[..i], SpentOn(user, resolve, c)) + SpentOn(user, resolve, c)(rows[i])
    {
      SumAppend(rows[..i], rows[i], SpentOn(user, resolve, c));
    }
  }

  /** The table of snapshots, one row for a user and a period. */
  class SnapshotTable {
    var rows: map<(UserId, int, int), Snapshot>

    constructor ()
      ensures rows == map[]
    {
      rows := map[];
    }

    /** Computes the snapshot of a period and stores it, replacing the row of that period if there is one. */
    method ComputeAndUpsertSnapshot(txs: seq<Txn>, user: UserId, start: int, end: int, resolve: Txn -> Category)
      returns (s: Snapshot)
      modifies this
      ensures Describes(s, Select(txs, user, start, end), user, resolve)
      ensures rows == old(rows)[(user, start, end) := s]
    {
      s := ComputeSnapshot(Select(txs, user, start, end), user, resolve);
      rows := rows[(user, start, end) := s];
    }
  }

  // ---- order and periods

  /** Two snapshots of the same rows in different orders agree on every total and on the top amount. */
  lemma OrderDoesNotMatter(a: Snapshot, b: Snapshot, rows: seq<Txn>, others: seq<Txn>, user: UserId, resolve: Txn -> Category)
    requires Describes(a, rows, user, resolve) && Describes(b, others, user, resolve)
    requires multiset(rows) == multiset(others)
    ensures a.income == b.income && a.expenses == b.expenses && a.saved == b.saved && a.netCashFlow == b.netCashFlow
    ensures a.count == b.count && a.savingsRate == b.savingsRate
    ensures forall c :: AmountIn(a.spending.amounts)(c) == AmountIn(b.spending.amounts)(c)
    ensures a.top.Some? <==> b.top.Some?
    ensures a.top.Some? ==> a.spending.amounts[a.top.value] == b.spending.amounts[b.top.value]
  {
    SumPermutation(rows, others, IncomeOf(user));
    SumPermutation(rows, others, ExpenseOf(user));
    SumPermutation(rows, others, SavedBy(user));
    assert |rows| == |multiset(rows)| == |multiset(others)| == |others|;
    forall c ensures AmountIn(a.spending.amounts)(c) == AmountIn(b.spending.amounts)(c) {
      SumPermutation(rows, others, SpentOn(user, resolve, c));
    }
    if a.top.Some? {
      assert AmountIn(a.spending.amounts)(a.top.value) == AmountIn(b.spending.amounts)(a.top.value);
    }
    if b.top.Some? {
      assert AmountIn(a.spending.amounts)(b.top.value) == AmountIn(b.spending.amounts)(b.top.value);
    }
  }

  /** A fee falls on the sender: what is received is the net amount and what is spent the whole. */
  lemma FeesFallOnSender(user: UserId, tx: Txn, other: int)
    ensures Receipt(user, tx.(amount := other)) == Receipt(user, tx)
    ensures Payment(user, tx.(net := other)) == Payment(user, tx)
    ensures tx.kind == Refund && tx.receiver == Some(user) ==> Receipt(user, tx) == tx.net
    ensures tx.kind in {MerchantPayment, QrPayment, SubscriptionCharge, Fee, ScheduledTransfer} && tx.sender == Some(user) ==>
              Payment(user, tx) == tx.amount
    ensures tx.kind in {VaultContribution, VaultWithdrawal, Reversal} ==> Receipt(user, tx) == Payment(user, tx) == 0
  {
  }

  /** A category the row has itself wins: the resolver matters only for rows that have none. */
  lemma OwnCategoryWins(a: Snapshot, b: Snapshot, rows: seq<Txn>, user: UserId, resolve: Txn -> Category,
                        other: Txn -> Category)
    requires Describes(a, rows, user, resolve) && Describes(b, rows, user, other)
    requires forall i | 0 <= i < |rows| && rows[i].category.None? :: resolve(rows[i]) == other(rows[i])
    ensures forall c :: AmountIn(a.spending.amounts)(c) == AmountIn(b.spending.amounts)(c)
    ensures forall i, c | 0 <= i < |rows| && rows[i].category == Some(c) ::
      SpentOn(user, resolve, c)(rows[i]) == Payment(user, rows[i])
  {
    forall c ensures AmountIn(a.spending.amounts)(c) == AmountIn(b.spending.amounts)(c) {
      SumSame(rows, SpentOn(user, resolve, c), SpentOn(user, other, c));
    }
  }

  /** Any column summed over two adjacent half-open periods gives the sum over their union. */
  lemma {:induction false} PeriodsAddUp(txs: seq<Txn>, user: UserId, start: int, middle: int, end: int, f: Txn -> int)
    requires start <= middle <= end
    ensures SumBy(Select(txs, user, start, end), f)
            == SumBy(Select(txs, user, start, middle), f) + SumBy(Select(txs, user, middle, end), f)
  {
    if |txs| > 0 {
      var front, last := txs[..|txs| - 1], txs[|txs| - 1];
      PeriodsAddUp(front, user, start, middle, end, f);
      SelectLast(txs, user, start, end, f);
      SelectLast(txs, user, start, middle, f);
      SelectLast(txs, user, middle, end, f);
    }
  }

  function One(tx: Txn): int { 1 }

  lemma {:induction false} OnesCount(rows: seq<Txn>)
    ensures SumBy(rows, One) == |rows|
  {
    if |rows| > 0 {
      OnesCount(rows[..|rows| - 1]);
    }
  }

  lemma SelectLast(txs: seq<Txn>, user: UserId, start: int, end: int, f: Txn -> int)
    requires |txs| > 0
    ensures var last := txs[|txs| - 1];
            SumBy(Select(txs, user, start, end), f)
            == SumBy(Select(txs[..|txs| - 1], user, start, end), f)
               + if InPeriod(last, start, end) && Concerns(last, user) then f(last) else 0
  {
    var last := txs[|txs| - 1];
    var front := Select(txs[..|txs| - 1], user, start, end);
    if InPeriod(last, start, end) && Concerns(last, user) {
      SumAppend(front, last, f);
    } else {
      assert front + [] == front;
    }
  }

  /** Main result: the snapshots of two adjacent periods add up to the snapshot of the whole. */
  lemma SnapshotsAddUp(first: Snapshot, second: Snapshot, whole: Snapshot, txs: seq<Txn>, user: UserId,
                       start: int, middle: int, end: int, resolve: Txn -> Category)
    requires start <= middle <= end
    requires Describes(first, Select(txs, user, start, middle), user, resolve)
    requires Describes(second, Select(txs, user, middle, end), user, resolve)
    requires Describes(whole, Select(txs, user, start, end), user, resolve)
    ensures whole.income == first.income + second.income
    ensures whole.expenses == first.expenses + second.expenses
    ensures whole.saved == first.saved + second.saved
    ensures whole.netCashFlow == first.netCashFlow + second.netCashFlow
    ensures whole.count == first.count + second.count
    ensures forall c :: AmountIn(whole.spending.amounts)(c)
                 == AmountIn(first.spending.amounts)(c) + AmountIn(second.spending.amounts)(c)
  {
    PeriodsAddUp(txs, user, start, middle, end, IncomeOf(user));
    PeriodsAddUp(txs, user, start, middle, end, ExpenseOf(user));
    PeriodsAddUp(txs, user, start, middle, end, SavedBy(user));
    PeriodsAddUp(txs, user, start, middle, end, One);
    OnesCount(Select(txs, user, start, middle));
    OnesCount(Select(txs, user, middle, end));
    OnesCount(Select(txs, user, start, end));
    forall c ensures AmountIn(whole.spending.amounts)(c)
          == AmountIn(first.spending.amounts)(c) + AmountIn(second.spending.amounts)(c)
    {
      PeriodsAddUp(txs, user, start, middle, end, SpentOn(user, resolve, c));
    }
  }
}
