/** One-time codes sent by e-mail: issuing, attempts, expiry and single use. */
module OneTimeCodes {
  import opened Schema
  import opened Sums

  const MAX_ATTEMPTS := 5
  const OTP_EXPIRY_MS := 10 * 60 * 1000
  const RESET_OTP_EXPIRY_MS := 30 * 60 * 1000

  datatype Purpose = EmailVerify | ResetPassword

  datatype Code = Code(target: string, purpose: Purpose, code: string, expiresAt: int, attempts: nat, used: bool)

  datatype Action =
    | Issue(target: string, purpose: Purpose, code: string, now: int)
    | Consume(target: string, purpose: Purpose, code: string, now: int)

  /** What an action answers; a comparison names the row it was made against. */
  datatype Answer = Issued | NoCode | CodeExpired | TooMany | Wrong(row: nat) | Accepted(row: nat)

  datatype Table = Table(codes: seq<Code>, answers: seq<Answer>)

  predicate Open(c: Code, target: string, purpose: Purpose) {
    c.target == target && c.purpose == purpose && !c.used
  }

  /** The newest unused code of a target for a purpose. */
  function Newest(codes: seq<Code>, target: string, purpose: Purpose): (i: Option<nat>)
    ensures i.Some? ==> i.value < |codes| && Open(codes[i.value], target, purpose)
    ensures i.None? ==> forall j | 0 <= j < |codes| :: !Open(codes[j], target, purpose)
  {
    if |codes| == 0 then None
    else
      var last := |codes| - 1;
      if Open(codes[last], target, purpose) then Some(last) else Newest(codes[..last], target, purpose)
  }

  function Retired(codes: seq<Code>, target: string, purpose: Purpose): (r: seq<Code>)
    ensures |r| == |codes|
  {
    seq(|codes|, i requires 0 <= i < |codes| =>
      if Open(codes[i], target, purpose) then codes[i].(used := true) else codes[i])
  }

  function Expiry(purpose: Purpose): int {
    if purpose == ResetPassword then RESET_OTP_EXPIRY_MS else OTP_EXPIRY_MS
  }

  function AfterIssue(codes: seq<Code>, target: string, purpose: Purpose, code: string, now: int): seq<Code> {
    Retired(codes, target, purpose) + [Code(target, purpose, code, now + Expiry(purpose), 0, false)]
  }

  function AfterConsume(codes: seq<Code>, target: string, purpose: Purpose, code: string, now: int): (seq<Code>, Answer) {
    match Newest(codes, target, purpose)
    case None => (codes, NoCode)
    case Some(i) =>
      var row := codes[i];
      if row.expiresAt < now then (codes, CodeExpired)
      else if row.attempts >= MAX_ATTEMPTS then (codes, TooMany)
      else
        var valid := row.code == code;
        (codes[i := row.(attempts := row.attempts + 1, used := valid)], if valid then Accepted(i) else Wrong(i))
  }

  function Step(t: Table, a: Action): Table {
    match a
    case Issue(target, purpose, code, now) =>
      Table(AfterIssue(t.codes, target, purpose, code, now), t.answers + [Issued])
    case Consume(target, purpose, code, now) =>
      var (codes, answer) := AfterConsume(t.codes, target, purpose, code, now);
      Table(codes, t.answers + [answer])
  }

  function Run(actions: seq<Action>): Table {
    if |actions| == 0 then Table([], []) else Step(Run(actions[..|actions| - 1]), actions[|actions| - 1])
  }

  // ---- counting comparisons

  function ComparedWith(i: nat): Answer -> int {
    (a: Answer) => if (a.Wrong? || a.Accepted?) && a.row == i then 1 else 0
  }

  function AcceptedFor(i: nat): Answer -> int {
    (a: Answer) => if a == Accepted(i) then 1 else 0
  }

  ghost predicate RowOk(t: Table, i: nat) {
    && SumBy(t.answers, ComparedWith(i)) == (if i < |t.codes| then t.codes[i].attempts else 0)
    && 0 <= SumBy(t.answers, AcceptedFor(i)) <= 1
    && (i < |t.codes| ==> t.codes[i].attempts <= MAX_ATTEMPTS)
    && (SumBy(t.answers, AcceptedFor(i)) == 1 ==> i < |t.codes| && t.codes[i].used)
  }

  /** An unused code is the last one issued to its target for its purpose. */
  ghost predicate OpenIsNewest(codes: seq<Code>) {
    forall i, j | 0 <= i < j < |codes| && codes[i].target == codes[j].target && codes[i].purpose == codes[j].purpose ::
      codes[i].used
  }

  lemma IssueOk(t: Table, target: string, purpose: Purpose, code: string, now: int)
    requires OpenIsNewest(t.codes) && forall i: nat :: RowOk(t, i)
    ensures var u := Step(t, Issue(target, purpose, code, now)); OpenIsNewest(u.codes) && forall i: nat :: RowOk(u, i)
  {
    var u := Step(t, Issue(target, purpose, code, now));
    forall i: nat ensures RowOk(u, i) {
      assert RowOk(t, i);
      SumAppend(t.answers, Issued, ComparedWith(i));
      SumAppend(t.answers, Issued, AcceptedFor(i));
    }
  }

  lemma ConsumeOk(t: Table, target: string, purpose: Purpose, code: string, now: int)
    requires OpenIsNewest(t.codes) && forall i: nat :: RowOk(t, i)
    ensures var u := Step(t, Consume(target, purpose, code, now)); OpenIsNewest(u.codes) && forall i: nat :: RowOk(u, i)
  {
    var u := Step(t, Consume(target, purpose, code, now));
    var answer := AfterConsume(t.codes, target, purpose, code, now).1;
    forall i: nat ensures RowOk(u, i) {
      assert RowOk(t, i);
      SumAppend(t.answers, answer, ComparedWith(i));
      SumAppend(t.answers, answer, AcceptedFor(i));
    }
  }

  lemma StepOk(t: Table, a: Action)
    requires OpenIsNewest(t.codes) && forall i: nat :: RowOk(t, i)
    ensures OpenIsNewest(Step(t, a).codes) && forall i: nat :: RowOk(Step(t, a), i)
  {
    match a
    case Issue(target, purpose, code, now) => IssueOk(t, target, purpose, code, now);
    case Consume(target, purpose, code, now) => ConsumeOk(t, target, purpose, code, now);
  }

  /** What acceptance needs of the row it accepts. */
  lemma AcceptedWasOpen(codes: seq<Code>, i: nat, target: string, purpose: Purpose, code: string, now: int)
    requires OpenIsNewest(codes) && AfterConsume(codes, target, purpose, code, now).1 == Accepted(i)
    ensures i < |codes| && codes[i].code == code && !codes[i].used
    ensures forall j | i < j < |codes| :: codes[j].target != target || codes[j].purpose != purpose
  {
  }

  lemma {:induction false} AlwaysOk(actions: seq<Action>)
    ensures OpenIsNewest(Run(actions).codes) && forall i: nat :: RowOk(Run(actions), i)
  {
    if |actions| > 0 {
      AlwaysOk(actions[..|actions| - 1]);
      StepOk(Run(actions[..|actions| - 1]), actions[|actions| - 1]);
    }
  }

  /**
   Main result, for any run: every code is compared at most five times and accepted at most once, and only the
   code issued last to a target for a purpose can still be accepted.
   */
  lemma CodesAreSingleUse(actions: seq<Action>, i: nat, target: string, purpose: Purpose, code: string, now: int)
    ensures var t := Run(actions);
            && SumBy(t.answers, ComparedWith(i)) <= MAX_ATTEMPTS
            && SumBy(t.answers, AcceptedFor(i)) <= 1
            && (AfterConsume(t.codes, target, purpose, code, now).1 == Accepted(i) ==>
                  && i < |t.codes| && t.codes[i].code == code
                  && SumBy(t.answers, AcceptedFor(i)) == 0
                  && forall j | i < j < |t.codes| :: t.codes[j].target != target || t.codes[j].purpose != purpose)
  {
    AlwaysOk(actions);
    var t := Run(actions);
    assert RowOk(t, i);
    if AfterConsume(t.codes, target, purpose, code, now).1 == Accepted(i) {
      AcceptedWasOpen(t.codes, i, target, purpose, code, now);
    }
  }

  // ---- acceptance told from what was issued and answered

  /** The codes sent out, in order. */
  function Issues(actions: seq<Action>): seq<Action> {
    if |actions| == 0 then []
    else
      var front, last := Issues(actions[..|actions| - 1]), actions[|actions| - 1];
      if last.Issue? then front + [last] else front
  }

  /** A later code was sent to the same target for the same purpose. */
  predicate Superseded(issues: seq<Action>, i: nat)
    requires i < |issues|
  {
    exists j | i < j < |issues| :: issues[j].target == issues[i].target && issues[j].purpose == issues[i].purpose
  }

  ghost predicate RowTells(t: Table, issues: seq<Action>, i: nat)
    requires i < |t.codes| && i < |issues|
  {
    var row, issue := t.codes[i], issues[i];
    && row.target == issue.target && row.purpose == issue.purpose && row.code == issue.code
    && row.expiresAt == issue.now + Expiry(issue.purpose)
    && (row.used <==> SumBy(t.answers, AcceptedFor(i)) == 1 || Superseded(issues, i))
  }

  ghost predicate TableTells(t: Table, issues: seq<Action>) {
    && |t.codes| == |issues|
    && forall i | 0 <= i < |issues| :: RowTells(t, issues, i)
  }

  lemma IssueTells(t: Table, issues: seq<Action>, a: Action)
    requires a.Issue? && TableTells(t, issues) && forall i: nat :: RowOk(t, i)
    ensures TableTells(Step(t, a), issues + [a])
  {
    var u, all := Step(t, a), issues + [a];
    forall i | 0 <= i < |all| ensures RowTells(u, all, i) {
      assert RowOk(t, i);
      SumAppend(t.answers, Issued, AcceptedFor(i));
      if i < |issues| {
        assert RowTells(t, issues, i);
        IssueSupersedes(issues, a, i);
      }
    }
  }

  lemma IssueSupersedes(issues: seq<Action>, a: Action, i: nat)
    requires i < |issues|
    ensures Superseded(issues + [a], i)
            <==> Superseded(issues, i)
                 || (a.target == issues[i].target && a.purpose == issues[i].purpose)
  {
    var all := issues + [a];
    if a.target == issues[i].target && a.purpose == issues[i].purpose {
      assert all[|issues|] == a;
    }
    if Superseded(issues, i) {
      var j :| i < j < |issues| && issues[j].target == issues[i].target && issues[j].purpose == issues[i].purpose;
      assert all[j] == issues[j];
    }
  }

  lemma ConsumeTells(t: Table, issues: seq<Action>, a: Action)
    requires a.Consume? && TableTells(t, issues) && forall i: nat :: RowOk(t, i)
    ensures TableTells(Step(t, a), issues)
  {
    var u := Step(t, a);
    var answer := AfterConsume(t.codes, a.target, a.purpose, a.code, a.now).1;
    forall i | 0 <= i < |issues| ensures RowTells(u, issues, i) {
      assert RowTells(t, issues, i) && RowOk(t, i);
      SumAppend(t.answers, answer, AcceptedFor(i));
    }
  }

  lemma {:induction false} AlwaysTells(actions: seq<Action>)
    ensures TableTells(Run(actions), Issues(actions))
  {
    if |actions| > 0 {
      var front, last := actions[..|actions| - 1], actions[|actions| - 1];
      AlwaysTells(front);
      AlwaysOk(front);
      if last.Issue? {
        IssueTells(Run(front), Issues(front), last);
      } else {
        ConsumeTells(Run(front), Issues(front), last);
      }
    }
  }

  /**
   Main result, for any run: a code is accepted for the i-th one sent if and only if that one went to this target for
   this purpose and reads the same, nothing was sent there for that purpose since, it is at most ten minutes old, or
   thirty for a password reset, it was compared fewer than five times, and it was never accepted before.
   */
  lemma AcceptedExactly(actions: seq<Action>, target: string, purpose: Purpose, code: string, now: int, i: nat)
    ensures var t, issues := Run(actions), Issues(actions);
            AfterConsume(t.codes, target, purpose, code, now).1 == Accepted(i)
            <==> && i < |issues|
                 && issues[i].target == target && issues[i].purpose == purpose && issues[i].code == code
                 && !Superseded(issues, i)
                 && now <= issues[i].now + (if purpose == ResetPassword then 30 else 10) * 60 * 1000
                 && SumBy(t.answers, ComparedWith(i)) < 5
                 && SumBy(t.answers, AcceptedFor(i)) == 0
  {
    AlwaysTells(actions);
    AlwaysOk(actions);
    var t, issues := Run(actions), Issues(actions);
    assert RowOk(t, i);
    if i < |issues| {
      assert RowTells(t, issues, i);
      if Open(t.codes[i], target, purpose) {
        OpenIsFound(t.codes, target, purpose, i);
      }
    }
  }

  lemma OpenIsFound(codes: seq<Code>, target: string, purpose: Purpose, i: nat)
    requires OpenIsNewest(codes) && i < |codes| && Open(codes[i], target, purpose)
    ensures Newest(codes, target, purpose) == Some(i)
  {
    var found := Newest(codes, target, purpose);
    assert found.Some?;
  }

  /** The table of codes, updated in place. */
  class CodeTable {
    var codes: seq<Code>

    constructor ()
      ensures codes == []
    {
      codes := [];
    }

    method DispatchEmailOtp(target: string, purpose: Purpose, otp: string, now: int)
      modifies this
      ensures codes == AfterIssue(old(codes), target, purpose, otp, now)
    {
      var i := 0;
      while i < |codes|
        invariant 0 <= i <= |codes| == |old(codes)|
        invariant codes[..i] == Retired(old(codes), target, purpose)[..i]
        invariant codes[i..] == old(codes)[i..]
      {
        assert codes[i] == old(codes)[i];
        if codes[i].target == target && codes[i].purpose == purpose && !codes[i].used {
          codes := codes[i := codes[i].(used := true)];
        }
        i := i + 1;
      }
      var expiry := if purpose == ResetPassword then 30 * 60 * 1000 else 10 * 60 * 1000;
      codes := codes + [Code(target, purpose, otp, now + expiry, 0, false)];
    }

    method ConsumeOtp(target: string, purpose: Purpose, otp: string, now: int) returns (answer: Answer)
      modifies this
      ensures (codes, answer) == AfterConsume(old(codes), target, purpose, otp, now)
    {
      var found := Newest(codes, target, purpose);
      if found.None? { return NoCode; }
      var i := found.value;
      var record := codes[i];
      if record.expiresAt < now { return CodeExpired; }
      if record.attempts >= 5 { return TooMany; }
      var valid := record.code == otp;
      codes := codes[i := codes[i].(attempts := codes[i].attempts + 1, used := valid)];
      return if valid then Accepted(i) else Wrong(i);
    }
  }
}
