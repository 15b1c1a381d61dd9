/** The bounds of the current and the last month on the civil calendar, in milliseconds, at a fixed clock offset. */
module Months {
  import opened Schema
  import opened Analytics

  const DAY_MS := 24 * 60 * 60 * 1000

  predicate Leap(year: int) {
    year % 4 == 0 && (year % 100 != 0 || year % 400 == 0)
  }

  /** Days in a month of a year; months count from zero. */
  function DaysOf(year: int, month: int): (days: int)
    ensures days > 0
  {
    if month == 1 then (if Leap(year) then 29 else 28)
    else if month in {3, 5, 8, 10} then 30
    else 31
  }

  /** Days in the n-th month after January 1970. */
  function DaysIn(n: int): (days: int)
    ensures days > 0
  {
    DaysOf(1970 + n / 12, n % 12)
  }

  /** The day on which the n-th month after January 1970 begins; day zero is that of the epoch. */
  function FirstDay(n: int): int
    decreases if n < 0 then -n else n
  {
    if n == 0 then 0
    else if n > 0 then FirstDay(n - 1) + DaysIn(n - 1)
    else FirstDay(n + 1) - DaysIn(n)
  }

  function MonthStart(n: int): int {
    FirstDay(n) * DAY_MS
  }

  lemma NextMonth(n: int)
    ensures FirstDay(n + 1) == FirstDay(n) + DaysIn(n)
    ensures MonthStart(n) + DAY_MS <= MonthStart(n + 1)
  {
  }

  lemma {:induction false} MonthsAscend(m: int, n: int)
    requires m <= n
    ensures FirstDay(m) <= FirstDay(n)
    decreases n - m
  {
    if m < n {
      NextMonth(n - 1);
      MonthsAscend(m, n - 1);
    }
  }

  predicate Contains(n: int, now: int) {
    MonthStart(n) <= now < MonthStart(n + 1)
  }

  /** The month of an instant not before month n, found by going forward. */
  function MonthFrom(n: int, now: int): (m: int)
    requires MonthStart(n) <= now
    ensures Contains(m, now)
    decreases now - MonthStart(n)
  {
    NextMonth(n);
    if now < MonthStart(n + 1) then n else MonthFrom(n + 1, now)
  }

  /** The month of an instant since 1970. */
  function MonthOf(now: nat): (m: int)
    ensures Contains(m, now)
  {
    MonthFrom(0, now)
  }

  /** Every instant lies in one month only. */
  lemma OnlyOneMonth(n: int, now: nat)
    requires Contains(n, now)
    ensures n == MonthOf(now)
  {
    if n < MonthOf(now) {
      MonthsAscend(n + 1, MonthOf(now));
    } else if n > MonthOf(now) {
      MonthsAscend(MonthOf(now) + 1, n);
    }
  }

  function CurrentMonthBounds(now: nat): (int, int) {
    (MonthStart(MonthOf(now)), MonthStart(MonthOf(now) + 1))
  }

  function LastMonthBounds(now: nat): (int, int) {
    (MonthStart(MonthOf(now) - 1), MonthStart(MonthOf(now)))
  }

  lemma MonthOfYear(year: int, month: int)
    requires 0 <= month < 12
    ensures var n := 12 * (year - 1970) + month;
            DaysIn(n) == DaysOf(year, month) && FirstDay(n + 1) == FirstDay(n) + DaysOf(year, month)
  {
    var n := 12 * (year - 1970) + month;
    assert n / 12 == year - 1970 && n % 12 == month;
    NextMonth(n);
  }

  /** The days of the first months of a year. */
  function DaysBefore(year: int, month: nat): int {
    if month == 0 then 0 else DaysBefore(year, month - 1) + DaysOf(year, month - 1)
  }

  lemma {:induction false} MonthsOfYear(year: int, month: nat)
    requires month <= 12
    ensures FirstDay(12 * (year - 1970) + month) == FirstDay(12 * (year - 1970)) + DaysBefore(year, month)
  {
    if month > 0 {
      MonthsOfYear(year, month - 1);
      MonthOfYear(year, month - 1);
    }
  }

  /** Twelve months from a January are a year of 365 days, or 366 in a leap year. */
  lemma YearLength(year: int)
    ensures FirstDay(12 * (year - 1970) + 12) == FirstDay(12 * (year - 1970)) + if Leap(year) then 366 else 365
  {
    MonthsOfYear(year, 12);
    assert DaysBefore(year, 2) == DaysBefore(year, 0) + 31 + DaysOf(year, 1);
    assert DaysBefore(year, 4) == DaysBefore(year, 2) + 31 + 30;
    assert DaysBefore(year, 6) == DaysBefore(year, 4) + 31 + 30;
    assert DaysBefore(year, 8) == DaysBefore(year, 6) + 31 + 31;
    assert DaysBefore(year, 10) == DaysBefore(year, 8) + 30 + 31;
    assert DaysBefore(year, 12) == DaysBefore(year, 10) + 30 + 31;
  }

  /**
   Main result: the last month ends where the current one begins and the clock stands inside the current one, so
   the snapshots of both months add up to the snapshot of the two together.
   */
  lemma LastAndCurrentAddUp(now: nat, last: Snapshot, current: Snapshot, both: Snapshot, txs: seq<Txn>, user: UserId,
                            resolve: Txn -> Category)
    requires var (start, end) := LastMonthBounds(now); Describes(last, Select(txs, user, start, end), user, resolve)
    requires var (start, end) := CurrentMonthBounds(now); Describes(current, Select(txs, user, start, end), user, resolve)
    requires Describes(both, Select(txs, user, LastMonthBounds(now).0, CurrentMonthBounds(now).1), user, resolve)
    ensures LastMonthBounds(now).0 < LastMonthBounds(now).1 == CurrentMonthBounds(now).0 <= now < CurrentMonthBounds(now).1
    ensures both.income == last.income + current.income && both.expenses == last.expenses + current.expenses
    ensures both.saved == last.saved + current.saved && both.netCashFlow == last.netCashFlow + current.netCashFlow
    ensures both.count == last.count + current.count
  {
    NextMonth(MonthOf(now) - 1);
    SnapshotsAddUp(last, current, both, txs, user, LastMonthBounds(now).0, LastMonthBounds(now).1,
                   CurrentMonthBounds(now).1, resolve);
  }
}
