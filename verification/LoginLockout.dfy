/** The sliding window that locks out an identifier after failed logins. */
module LoginLockout {
  import opened Sums

  const MAX_LOGIN_ATTEMPTS := 5
  const WINDOW_MS := 15 * 60 * 1000

  datatype Attempt = Attempt(identifier: string, success: bool, at: int)

  /** What the checks behind the lockout find; a refusal is not recorded. */
  datatype Verdict = WrongPassword | Refused | Accepted

  /** One login: the lockout is checked at one time, the attempt recorded at the same time or later. */
  datatype Login = Login(identifier: string, checked: int, recorded: int, verdict: Verdict)

  function FailureInWindow(identifier: string, from: int): Attempt -> int {
    (a: Attempt) => if a.identifier == identifier && !a.success && from <= a.at <= from + WINDOW_MS then 1 else 0
  }

  function FailureSince(identifier: string, from: int): Attempt -> int {
    (a: Attempt) => if a.identifier == identifier && !a.success && from <= a.at then 1 else 0
  }

  predicate LockedOut(log: seq<Attempt>, identifier: string, now: int) {
    SumBy(log, FailureSince(identifier, now - WINDOW_MS)) >= MAX_LOGIN_ATTEMPTS
  }

  function After(log: seq<Attempt>, l: Login): seq<Attempt> {
    if LockedOut(log, l.identifier, l.checked) || l.verdict == Refused then log
    else log + [Attempt(l.identifier, l.verdict == Accepted, l.recorded)]
  }

  function RunOf(logins: seq<Login>): seq<Attempt> {
    if |logins| == 0 then [] else After(RunOf(logins[..|logins| - 1]), logins[|logins| - 1])
  }

  /** No window of fifteen minutes, both ends included, holds more than five failures of the identifier. */
  ghost predicate Bounded(log: seq<Attempt>, identifier: string) {
    forall from: int :: SumBy(log, FailureInWindow(identifier, from)) <= MAX_LOGIN_ATTEMPTS
  }

  lemma LoginKeepsBound(log: seq<Attempt>, l: Login, identifier: string)
    requires Bounded(log, identifier) && l.checked <= l.recorded
    ensures Bounded(After(log, l), identifier)
  {
    if After(log, l) != log {
      var a := Attempt(l.identifier, l.verdict == Accepted, l.recorded);
      forall from: int
        ensures SumBy(After(log, l), FailureInWindow(identifier, from)) <= MAX_LOGIN_ATTEMPTS
      {
        var inWindow := FailureInWindow(identifier, from);
        SumAppend(log, a, inWindow);
        if inWindow(a) == 1 {
          SumAtMost(log, inWindow, FailureSince(identifier, l.checked - WINDOW_MS));
        }
      }
    }
  }

  /**
   Main result, for any run of logins served one at a time: every window of fifteen minutes holds at most five
   recorded failures per identifier. The clock need not even be monotone across logins.
   */
  lemma {:induction false} FailuresBounded(logins: seq<Login>, identifier: string)
    requires forall l | l in logins :: l.checked <= l.recorded
    ensures Bounded(RunOf(logins), identifier)
  {
    if |logins| > 0 {
      var front, last := logins[..|logins| - 1], logins[|logins| - 1];
      assert last in logins;
      FailuresBounded(front, identifier);
      LoginKeepsBound(RunOf(front), last, identifier);
    }
  }

  /**
   A failure recorded by a login whose lockout check lies in the past: on a log that meets the bound and holds
   nothing later, it keeps the bound exactly when fewer than five failures lie in the window that ends with it.
   */
  lemma StaleRecordExactly(log: seq<Attempt>, identifier: string, at: int)
    requires Bounded(log, identifier)
    requires forall a | a in log :: a.at <= at
    ensures Bounded(log + [Attempt(identifier, false, at)], identifier) <==> !LockedOut(log, identifier, at)
  {
    var a := Attempt(identifier, false, at);
    var ending := FailureInWindow(identifier, at - WINDOW_MS);
    var since := FailureSince(identifier, at - WINDOW_MS);
    assert SumBy(log, ending) == SumBy(log, since) by {
      forall i | 0 <= i < |log| ensures ending(log[i]) == since(log[i]) {
        assert log[i] in log;
      }
      SumAtMost(log, ending, since);
      SumAtMost(log, since, ending);
    }
    SumAppend(log, a, ending);
    if !LockedOut(log, identifier, at) {
      LoginKeepsBound(log, Login(identifier, at, at, WrongPassword), identifier);
    }
  }

  // ---- what the users see, told from the logins alone

  /** A login and whether its password was looked at. */
  datatype Served = Served(login: Login, answered: bool)

  /** 1 for a login of the identifier whose wrong password was looked at and recorded between two times. */
  function WrongBetween(identifier: string, from: int, to: int): Served -> int {
    (s: Served) =>
      if s.answered && s.login.verdict == WrongPassword && s.login.identifier == identifier && from <= s.login.recorded <= to
      then 1 else 0
  }

  /** Five wrong passwords of the identifier were looked at in the fifteen minutes before now. */
  predicate FiveWrongBefore(served: seq<Served>, identifier: string, now: int) {
    SumBy(served, WrongBetween(identifier, now - 15 * 60 * 1000, now)) >= 5
  }

  /** The promised answers: a login is refused exactly after five wrong passwords within fifteen minutes. */
  function Promised(logins: seq<Login>): seq<Served> {
    if |logins| == 0 then []
    else
      var front, last := Promised(logins[..|logins| - 1]), logins[|logins| - 1];
      front + [Served(last, !FiveWrongBefore(front, last.identifier, last.checked))]
  }

  function FailureBetween(identifier: string, from: int, to: int): Attempt -> int {
    (a: Attempt) => if a.identifier == identifier && !a.success && from <= a.at <= to then 1 else 0
  }

  /** Logins are served one after the other under a clock that never runs backwards. */
  predicate InOrder(logins: seq<Login>) {
    && (forall i | 0 <= i < |logins| :: logins[i].checked <= logins[i].recorded)
    && (forall i, j | 0 <= i < j < |logins| :: logins[i].recorded <= logins[j].checked)
  }

  /** Nothing in the table lies after now, so what lies since a time lies between that time and now. */
  lemma NothingLater(log: seq<Attempt>, identifier: string, from: int, now: int)
    requires forall i | 0 <= i < |log| :: log[i].at <= now
    ensures SumBy(log, FailureSince(identifier, from)) == SumBy(log, FailureBetween(identifier, from, now))
  {
    SumSame(log, FailureSince(identifier, from), FailureBetween(identifier, from, now));
  }

  lemma {:induction false} RecordedBefore(logins: seq<Login>, now: int)
    requires forall i | 0 <= i < |logins| :: logins[i].recorded <= now
    ensures forall i | 0 <= i < |RunOf(logins)| :: RunOf(logins)[i].at <= now
  {
    if |logins| > 0 {
      RecordedBefore(logins[..|logins| - 1], now);
    }
  }

  /**
   Main result: the failures the table holds for an identifier between any two times are exactly its wrong passwords
   that were promised to be looked at between them, no more and no less.
   */
  lemma {:induction false} FailuresAreWrongPasswords(logins: seq<Login>, identifier: string, from: int, to: int)
    requires InOrder(logins)
    ensures SumBy(RunOf(logins), FailureBetween(identifier, from, to))
            == SumBy(Promised(logins), WrongBetween(identifier, from, to))
    decreases |logins|, 0
  {
    if |logins| > 0 {
      var front, last := logins[..|logins| - 1], logins[|logins| - 1];
      FailuresAreWrongPasswords(front, identifier, from, to);
      RefusedExactly(front, last);
      var served := Served(last, !FiveWrongBefore(Promised(front), last.identifier, last.checked));
      SumAppend(Promised(front), served, WrongBetween(identifier, from, to));
      AfterRecords(RunOf(front), served, identifier, from, to);
    }
  }

  /** Serving a login records one failure if its wrong password was looked at, and none otherwise. */
  lemma AfterRecords(log: seq<Attempt>, served: Served, identifier: string, from: int, to: int)
    requires served.answered <==> !LockedOut(log, served.login.identifier, served.login.checked)
    ensures SumBy(After(log, served.login), FailureBetween(identifier, from, to))
            == SumBy(log, FailureBetween(identifier, from, to)) + WrongBetween(identifier, from, to)(served)
  {
    var l := served.login;
    if served.answered && l.verdict != Refused {
      SumAppend(log, Attempt(l.identifier, l.verdict == Accepted, l.recorded), FailureBetween(identifier, from, to));
    }
  }

  /**
   Main result, for any run: the next login is refused if and only if five wrong passwords of its identifier were
   looked at in the fifteen minutes before its check.
   */
  lemma {:induction false} RefusedExactly(logins: seq<Login>, next: Login)
    requires InOrder(logins) && forall i | 0 <= i < |logins| :: logins[i].recorded <= next.checked
    ensures LockedOut(RunOf(logins), next.identifier, next.checked)
            <==> FiveWrongBefore(Promised(logins), next.identifier, next.checked)
    decreases |logins|, 1
  {
    var now := next.checked;
    RecordedBefore(logins, now);
    NothingLater(RunOf(logins), next.identifier, now - WINDOW_MS, now);
    FailuresAreWrongPasswords(logins, next.identifier, now - WINDOW_MS, now);
  }

  /** The table of login attempts. */
  class LoginAttempts {
    var log: seq<Attempt>

    constructor ()
      ensures log == []
    {
      log := [];
    }

    /** The number of failures the lockout query counts. */
    method CountFailures(identifier: string, since: int) returns (count: nat)
      ensures count == SumBy(log, FailureSince(identifier, since))
    {
      count := 0;
      for i := 0 to |log|
        invariant count == SumBy(log[..i], FailureSince(identifier, since))
      {
        assert log[..i + 1] == log[..i] + [log[i]];
        SumAppend(log[..i], log[i], FailureSince(identifier, since));
        if log[i].identifier == identifier && !log[i].success && since <= log[i].at {
          count := count + 1;
        }
      }
      assert log[..|log|] == log;
    }

    method LogIn(identifier: string, checked: int, recorded: int, verdict: Verdict) returns (answered: bool)
      modifies this
      ensures log == After(old(log), Login(identifier, checked, recorded, verdict))
      ensures answered <==> !LockedOut(old(log), identifier, checked)
    {
      var count := CountFailures(identifier, checked - 15 * 60 * 1000);
      if count >= 5 { return false; }
      match verdict {
        case WrongPassword => log := log + [Attempt(identifier, false, recorded)];
        case Refused =>
        case Accepted => log := log + [Attempt(identifier, true, recorded)];
      }
      return true;
    }
  }
}
