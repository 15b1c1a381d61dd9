/** Wrong wallet PINs: the attempt counter, the lock, and how many comparisons they let through in any time. */
module PinThrottle {
  import opened Schema
  import opened Endpoints

  const MAX_ATTEMPTS := 5
  const LOCK_MS := 15 * 60 * 1000

  datatype PinRow = PinRow(attempts: nat, lockedUntil: Option<int>)

  datatype PinEvent =
    /** verifyPin, and the PIN check of a transfer. */
    | Verify(now: int, right: bool)
    /** The commit of a transfer, which clears the counter. */
    | TransferCommitted(now: int)
    | Change(now: int, right: bool)
    /** The PIN check of a withdrawal, which does not look at the lock. */
    | Withdraw(now: int, right: bool)

  const CLEARED := PinRow(0, None)

  predicate IsLocked(row: PinRow, now: int) {
    row.lockedUntil.Some? && row.lockedUntil.value > now
  }

  function AfterFailure(row: PinRow, now: int): PinRow {
    PinRow(row.attempts + 1, if row.attempts + 1 >= MAX_ATTEMPTS then Some(now + LOCK_MS) else None)
  }

  function After(row: PinRow, e: PinEvent): PinRow {
    match e
    case Verify(now, right) => if IsLocked(row, now) || right then row else AfterFailure(row, now)
    case TransferCommitted(_) => CLEARED
    case Change(now, right) => if IsLocked(row, now) then row else if right then CLEARED else AfterFailure(row, now)
    case Withdraw(now, right) => if right then row else AfterFailure(row, now)
  }

  function RunOf(row: PinRow, events: seq<PinEvent>): PinRow {
    if |events| == 0 then row else After(RunOf(row, events[..|events| - 1]), events[|events| - 1])
  }

  /** The event compares a wrong PIN under the protection of the lock. */
  predicate WrongComparison(row: PinRow, e: PinEvent) {
    (e.Verify? || e.Change?) && !e.right && !IsLocked(row, e.now)
  }

  function WrongComparisons(row: PinRow, events: seq<PinEvent>): nat {
    if |events| == 0 then 0
    else
      var front, last := events[..|events| - 1], events[|events| - 1];
      WrongComparisons(row, front) + if WrongComparison(RunOf(row, front), last) then 1 else 0
  }

  /** The event clears the counter. */
  predicate Clears(row: PinRow, e: PinEvent) {
    e.TransferCommitted? || (e.Change? && e.right && !IsLocked(row, e.now))
  }

  predicate NeverCleared(row: PinRow, events: seq<PinEvent>) {
    |events| == 0
    || (var front, last := events[..|events| - 1], events[|events| - 1];
        NeverCleared(row, front) && !Clears(RunOf(row, front), last))
  }

  predicate InOrder(events: seq<PinEvent>) {
    forall i, j | 0 <= i < j < |events| :: events[i].now <= events[j].now
  }

  /**
   After n >= 5 wrong comparisons since time start, the lock reaches at least n - 4 lock periods past start, and
   the n-th comparison came no earlier than n - 5 periods after it.
   */
  lemma {:induction false} LockKeepsUp(row: PinRow, events: seq<PinEvent>)
    requires |events| > 0 && InOrder(events) && NeverCleared(row, events)
    ensures var n, end, start := WrongComparisons(row, events), RunOf(row, events), events[0].now;
            && n <= end.attempts
            && (n >= MAX_ATTEMPTS ==>
                  && end.lockedUntil.Some?
                  && end.lockedUntil.value >= start + (n - MAX_ATTEMPTS + 1) * LOCK_MS
                  && events[|events| - 1].now >= start + (n - MAX_ATTEMPTS) * LOCK_MS)
  {
    var front := events[..|events| - 1];
    if |front| == 0 {
      assert RunOf(row, front) == row && WrongComparisons(row, front) == 0;
    } else {
      LockKeepsUp(row, front);
      assert front[0] == events[0] && front[|front| - 1] == events[|events| - 2];
    }
  }

  /**
   Main result: in any stretch of time in which the counter is not cleared, at most five wrong PINs are compared
   plus one for every full lock period the stretch lasts, whatever withdrawals do in between.
   */
  lemma ThrottleBound(row: PinRow, events: seq<PinEvent>)
    requires |events| > 0 && InOrder(events) && NeverCleared(row, events)
    ensures WrongComparisons(row, events) <= MAX_ATTEMPTS + (events[|events| - 1].now - events[0].now) / LOCK_MS
  {
    LockKeepsUp(row, events);
    var n, lasted := WrongComparisons(row, events), events[|events| - 1].now - events[0].now;
    assert lasted >= 0;
    if n > MAX_ATTEMPTS {
      assert lasted >= (n - MAX_ATTEMPTS) * LOCK_MS;
      assert lasted / LOCK_MS >= n - MAX_ATTEMPTS;
    }
  }

  // ---- the check of a withdrawal is outside that bound

  function WrongWithdrawals(events: seq<PinEvent>): nat {
    if |events| == 0 then 0
    else
      var last := events[|events| - 1];
      WrongWithdrawals(events[..|events| - 1]) + if last.Withdraw? && !last.right then 1 else 0
  }

  /** The event compares a wrong PIN, under the protection of the lock or not. */
  predicate ComparesWrong(row: PinRow, e: PinEvent) {
    WrongComparison(row, e) || (e.Withdraw? && !e.right)
  }

  /** All comparisons with a wrong PIN, those of withdrawals included. */
  function ComparedWrong(row: PinRow, events: seq<PinEvent>): nat {
    if |events| == 0 then 0
    else
      var front, last := events[..|events| - 1], events[|events| - 1];
      ComparedWrong(row, front) + if ComparesWrong(RunOf(row, front), last) then 1 else 0
  }

  lemma {:induction false} ComparisonsSplit(row: PinRow, events: seq<PinEvent>)
    ensures ComparedWrong(row, events) == WrongComparisons(row, events) + WrongWithdrawals(events)
  {
    if |events| > 0 {
      ComparisonsSplit(row, events[..|events| - 1]);
    }
  }

  /**
   Main result over every kind of event: in a stretch in which the counter is not cleared, the wrong PINs compared
   are at most five, plus one for every full lock period, plus one for every wrong withdrawal.
   */
  lemma AllComparisonsBound(row: PinRow, events: seq<PinEvent>)
    requires |events| > 0 && InOrder(events) && NeverCleared(row, events)
    ensures ComparedWrong(row, events)
            <= MAX_ATTEMPTS + (events[|events| - 1].now - events[0].now) / LOCK_MS + WrongWithdrawals(events)
  {
    ComparisonsSplit(row, events);
    ThrottleBound(row, events);
  }

  lemma {:induction false} ComparisonsContinue(row: PinRow, first: seq<PinEvent>, second: seq<PinEvent>)
    ensures RunOf(row, first + second) == RunOf(RunOf(row, first), second)
    ensures ComparedWrong(row, first + second) == ComparedWrong(row, first) + ComparedWrong(RunOf(row, first), second)
  {
    if |second| == 0 {
      assert first + second == first;
    } else {
      var n := |second| - 1;
      ComparisonsContinue(row, first, second[..n]);
      assert (first + second)[..|first + second| - 1] == first + second[..n];
    }
  }

  function WrongVerifies(now: int, n: nat): seq<PinEvent> { seq(n, i => Verify(now, false)) }

  function WrongWithdraws(now: int, n: nat): seq<PinEvent> { seq(n, i => Withdraw(now, false)) }

  /** The record of a user after five wrong PINs: locked for a lock period from now on. */
  predicate LockedOut(row: PinRow, now: int) {
    row.attempts >= MAX_ATTEMPTS && row.lockedUntil == Some(now + LOCK_MS)
  }

  lemma FiveWrongPinsLock(now: int)
    ensures LockedOut(RunOf(CLEARED, WrongVerifies(now, MAX_ATTEMPTS)), now)
    ensures ComparedWrong(CLEARED, WrongVerifies(now, MAX_ATTEMPTS)) == MAX_ATTEMPTS
  {
    WrongVerifiesCount(now, MAX_ATTEMPTS);
  }

  lemma {:induction false} WrongVerifiesCount(now: int, n: nat)
    requires n <= MAX_ATTEMPTS
    ensures RunOf(CLEARED, WrongVerifies(now, n))
            == PinRow(n, if n == MAX_ATTEMPTS then Some(now + LOCK_MS) else None)
    ensures ComparedWrong(CLEARED, WrongVerifies(now, n)) == n
  {
    if n > 0 {
      WrongVerifiesCount(now, n - 1);
      assert WrongVerifies(now, n)[..n - 1] == WrongVerifies(now, n - 1);
    }
  }

  lemma {:induction false} LockedOutCompares(row: PinRow, now: int, n: nat)
    requires LockedOut(row, now)
    ensures LockedOut(RunOf(row, WrongWithdraws(now, n)), now) && ComparedWrong(row, WrongWithdraws(now, n)) == n
    ensures RunOf(row, WrongVerifies(now, n)) == row && ComparedWrong(row, WrongVerifies(now, n)) == 0
  {
    if n > 0 {
      LockedOutCompares(row, now, n - 1);
      assert WrongWithdraws(now, n)[..n - 1] == WrongWithdraws(now, n - 1);
      assert WrongVerifies(now, n)[..n - 1] == WrongVerifies(now, n - 1);
    }
  }

  /**
   The bound needs its last term: at one instant, after five wrong PINs have locked the record, any number of
   further verifications compares nothing and any number of withdrawals compares as many wrong PINs.
   */
  lemma WithdrawalsAreNotThrottled(now: int, n: nat)
    ensures var five := WrongVerifies(now, MAX_ATTEMPTS);
            && IsLocked(RunOf(CLEARED, five), now)
            && ComparedWrong(CLEARED, five + WrongVerifies(now, n)) == MAX_ATTEMPTS
            && ComparedWrong(CLEARED, five + WrongWithdraws(now, n)) == MAX_ATTEMPTS + n
            && IsLocked(RunOf(CLEARED, five + WrongWithdraws(now, n)), now)
  {
    var five := WrongVerifies(now, MAX_ATTEMPTS);
    FiveWrongPinsLock(now);
    LockedOutCompares(RunOf(CLEARED, five), now, n);
    ComparisonsContinue(CLEARED, five, WrongVerifies(now, n));
    ComparisonsContinue(CLEARED, five, WrongWithdraws(now, n));
  }

  // ---- the record told from what its user was told

  /** An event and whether a PIN was compared; a committed transfer compares none. */
  datatype Told = Told(event: PinEvent, compared: bool)

  predicate Wrong(t: Told) {
    t.compared && !t.event.TransferCommitted? && !t.event.right
  }

  /** A committed transfer, or a change of the PIN with the right old one. */
  predicate Resets(t: Told) {
    t.event.TransferCommitted? || (t.event.Change? && t.compared && t.event.right)
  }

  /** The wrong PINs compared since the last reset. */
  function WrongSinceReset(told: seq<Told>): nat {
    if |told| == 0 then 0
    else
      var front, last := told[..|told| - 1], told[|told| - 1];
      if Resets(last) then 0 else if Wrong(last) then WrongSinceReset(front) + 1 else WrongSinceReset(front)
  }

  /** When the last wrong PIN was compared. */
  function LastWrong(told: seq<Told>): int {
    if |told| == 0 then 0
    else if Wrong(told[|told| - 1]) then told[|told| - 1].event.now
    else LastWrong(told[..|told| - 1])
  }

  /** Five or more wrong PINs since the last reset, the last of them less than fifteen minutes ago. */
  predicate HeldBack(told: seq<Told>, now: int) {
    WrongSinceReset(told) >= 5 && now < LastWrong(told) + 15 * 60 * 1000
  }

  /** The promised course of events: verifications and changes compare nothing while held back, withdrawals always do. */
  function Promised(events: seq<PinEvent>): seq<Told> {
    if |events| == 0 then []
    else
      var front, last := Promised(events[..|events| - 1]), events[|events| - 1];
      front + [Told(last, last.Withdraw? || ((last.Verify? || last.Change?) && !HeldBack(front, last.now)))]
  }

  /** Main result, for any run from a clear record: counter and lock are those of the wrong PINs since the last reset. */
  lemma {:induction false} RecordTellsHistory(events: seq<PinEvent>)
    ensures var told, row := Promised(events), RunOf(CLEARED, events);
            && row.attempts == WrongSinceReset(told)
            && row.lockedUntil == (if WrongSinceReset(told) >= 5 then Some(LastWrong(told) + 15 * 60 * 1000) else None)
  {
    if |events| > 0 {
      var front, last := events[..|events| - 1], events[|events| - 1];
      RecordTellsHistory(front);
      var told := Promised(events);
      assert told[..|told| - 1] == Promised(front);
    }
  }

  /** So a PIN is locked if and only if its user is held back by that history. */
  lemma LockedExactly(events: seq<PinEvent>, now: int)
    ensures IsLocked(RunOf(CLEARED, events), now) <==> HeldBack(Promised(events), now)
  {
    RecordTellsHistory(events);
  }

  /** The PIN record of one user, updated in place; right is the verdict of the hash comparison. */
  class WalletPin {
    var failedAttempts: nat
    var lockedUntil: Option<int>

    constructor ()
      ensures Row() == CLEARED
    {
      failedAttempts, lockedUntil := 0, None;
    }

    ghost function Row(): PinRow
      reads this
    {
      PinRow(failedAttempts, lockedUntil)
    }

    method HandleFailedAttempt(now: int)
      modifies this
      ensures Row() == AfterFailure(old(Row()), now)
    {
      var attempts := failedAttempts + 1;
      var lockUntil := if attempts >= 5 then Some(now + 15 * 60 * 1000) else None;
      failedAttempts, lockedUntil := attempts, lockUntil;
    }

    method VerifyUserPin(now: int, right: bool) returns (verdict: PinVerdict)
      modifies this
      ensures Row() == After(old(Row()), Verify(now, right))
      ensures verdict == (if IsLocked(old(Row()), now) then PinLocked else if right then PinRight else PinWrong)
    {
      if lockedUntil.Some? && lockedUntil.value > now { return PinLocked; }
      if !right {
        HandleFailedAttempt(now);
        return PinWrong;
      }
      return PinRight;
    }

    method ChangePin(now: int, right: bool) returns (verdict: PinVerdict)
      modifies this
      ensures Row() == After(old(Row()), Change(now, right))
      ensures verdict == (if IsLocked(old(Row()), now) then PinLocked else if right then PinRight else PinWrong)
    {
      if lockedUntil.Some? && lockedUntil.value > now { return PinLocked; }
      if !right {
        lockedUntil := if failedAttempts + 1 >= 5 then Some(now + 15 * 60 * 1000) else None;
        failedAttempts := failedAttempts + 1;
        return PinWrong;
      }
      failedAttempts, lockedUntil := 0, None;
      return PinRight;
    }

    method CheckForWithdrawal(now: int, right: bool) returns (verdict: PinVerdict)
      modifies this
      ensures Row() == After(old(Row()), Withdraw(now, right))
      ensures verdict == (if right then PinRight else PinWrong)
    {
      if !right {
        HandleFailedAttempt(now);
        return PinWrong;
      }
      return PinRight;
    }

    method ClearAfterTransfer(now: int)
      modifies this
      ensures Row() == After(old(Row()), TransferCommitted(now))
    {
      failedAttempts, lockedUntil := 0, None;
    }
  }
}
