/**
 Sessions: rotation of refresh tokens, logout, password reset, and which tokens are accepted. A refresh reads
 its session in one step and writes it in a later one, so a logout or a reset can fall in between. Refresh
 tokens stand for their hashes: the hash is taken to be injective.
 */
module Sessions {
  import opened Schema

  type Jti = nat
  type Token = nat

  const REFRESH_MS := 30 * 24 * 60 * 60 * 1000

  datatype SessionStatus = Active | Expired | Revoked

  datatype Session = Session(user: UserId, jti: Jti, token: Token, status: SessionStatus, expiresAt: int)

  /** A pair of tokens handed out for a session. */
  datatype Pair = Pair(session: nat, jti: Jti, token: Token)

  datatype Store = Store(sessions: seq<Session>, refreshing: seq<nat>, issued: seq<Pair>)

  const EMPTY := Store([], [], [])

  datatype Action =
    | LogIn(user: UserId, jti: Jti, token: Token, now: int)
    | RefreshRead(token: Token, now: int)
    | RefreshWrite(k: nat, jti: Jti, token: Token, now: int)
    | LogOut(jti: Jti, user: UserId)
    | ResetPassword(user: UserId)

  function FindToken(sessions: seq<Session>, token: Token): (i: Option<nat>)
    ensures i.Some? ==> i.value < |sessions| && sessions[i.value].token == token
    ensures i.None? ==> forall j | 0 <= j < |sessions| :: sessions[j].token != token
  {
    if |sessions| == 0 then None
    else
      var last := |sessions| - 1;
      var i := FindToken(sessions[..last], token);
      if i.Some? then i else if sessions[last].token == token then Some(last) else None
  }

  function FindJti(sessions: seq<Session>, jti: Jti): (i: Option<nat>)
    ensures i.Some? ==> i.value < |sessions| && sessions[i.value].jti == jti
    ensures i.None? ==> forall j | 0 <= j < |sessions| :: sessions[j].jti != jti
  {
    if |sessions| == 0 then None
    else
      var last := |sessions| - 1;
      var i := FindJti(sessions[..last], jti);
      if i.Some? then i else if sessions[last].jti == jti then Some(last) else None
  }

  datatype AuthUser = AuthUser(user: UserId, session: nat, jti: Jti)

  /** The access guard: whom an access token speaks for, if its session is active and not expired and so is its user. */
  function Validate(sessions: seq<Session>, jti: Jti, userActive: bool, now: int): Option<AuthUser> {
    match FindJti(sessions, jti)
    case None => None
    case Some(i) =>
      if sessions[i].status != Active || sessions[i].expiresAt < now || !userActive then None
      else Some(AuthUser(sessions[i].user, i, sessions[i].jti))
  }

  predicate AccessAccepted(sessions: seq<Session>, jti: Jti, userActive: bool, now: int) {
    Validate(sessions, jti, userActive, now).Some?
  }

  predicate RefreshAccepted(sessions: seq<Session>, token: Token, now: int) {
    var i := FindToken(sessions, token);
    i.Some? && sessions[i.value].status == Active && sessions[i.value].expiresAt >= now
  }

  predicate LoggedOutBy(s: Session, jti: Jti, user: UserId) {
    s.jti == jti && s.user == user
  }

  predicate ResetBy(s: Session, user: UserId) {
    s.user == user && s.status == Active
  }

  function RevokeLoggedOut(sessions: seq<Session>, jti: Jti, user: UserId): (r: seq<Session>)
    ensures |r| == |sessions|
  {
    seq(|sessions|, i requires 0 <= i < |sessions| =>
      if LoggedOutBy(sessions[i], jti, user) then sessions[i].(status := Revoked) else sessions[i])
  }

  function RevokeAll(sessions: seq<Session>, user: UserId): (r: seq<Session>)
    ensures |r| == |sessions|
  {
    seq(|sessions|, i requires 0 <= i < |sessions| =>
      if ResetBy(sessions[i], user) then sessions[i].(status := Revoked) else sessions[i])
  }

  function Rotated(s: Session, jti: Jti, token: Token, now: int): Session {
    s.(jti := jti, token := token, expiresAt := now + REFRESH_MS)
  }

  function Step(s: Store, a: Action): Store {
    match a
    case LogIn(user, jti, token, now) =>
      s.(sessions := s.sessions + [Session(user, jti, token, Active, now + REFRESH_MS)],
         issued := s.issued + [Pair(|s.sessions|, jti, token)])
    case RefreshRead(token, now) =>
      if RefreshAccepted(s.sessions, token, now)
      then s.(refreshing := s.refreshing + [FindToken(s.sessions, token).value]) else s
    case RefreshWrite(k, jti, token, now) =>
      if k >= |s.refreshing| || s.refreshing[k] >= |s.sessions| then s
      else
        var i := s.refreshing[k];
        s.(sessions := s.sessions[i := Rotated(s.sessions[i], jti, token, now)],
           issued := s.issued + [Pair(i, jti, token)])
    case LogOut(jti, user) => s.(sessions := RevokeLoggedOut(s.sessions, jti, user))
    case ResetPassword(user) => s.(sessions := RevokeAll(s.sessions, user))
  }

  function Run(s: Store, actions: seq<Action>): Store {
    if |actions| == 0 then s else Step(Run(s, actions[..|actions| - 1]), actions[|actions| - 1])
  }

  /** The random generators never repeat a jti or a token. */
  predicate FreshAction(s: Store, a: Action) {
    a.LogIn? || a.RefreshWrite? ==> forall p | p in s.issued :: p.jti != a.jti && p.token != a.token
  }

  predicate FreshRun(s: Store, actions: seq<Action>) {
    |actions| == 0
    || (var front := actions[..|actions| - 1];
        FreshRun(s, front) && FreshAction(Run(s, front), actions[|actions| - 1]))
  }

  // ---- the invariant: every row holds a pair issued for it, and issued pairs never share a token

  ghost predicate Sound(s: Store) {
    && (forall i | 0 <= i < |s.sessions| :: Pair(i, s.sessions[i].jti, s.sessions[i].token) in s.issued)
    && (forall p | p in s.issued :: p.session < |s.sessions|)
    && (forall p, q | p in s.issued && q in s.issued :: p.jti == q.jti || p.token == q.token ==> p == q)
    && (forall k | 0 <= k < |s.refreshing| :: s.refreshing[k] < |s.sessions|)
  }

  lemma StepSound(s: Store, a: Action)
    requires Sound(s) && FreshAction(s, a)
    ensures Sound(Step(s, a))
  {
    var t := Step(s, a);
    if a.LogIn? || a.RefreshWrite? {
      forall i | 0 <= i < |t.sessions| ensures Pair(i, t.sessions[i].jti, t.sessions[i].token) in t.issued {
        if t.issued != s.issued && i == t.issued[|s.issued|].session {
          assert Pair(i, t.sessions[i].jti, t.sessions[i].token) == t.issued[|s.issued|];
        } else {
          assert Pair(i, s.sessions[i].jti, s.sessions[i].token) in s.issued;
        }
      }
    }
  }

  lemma {:induction false} RunSound(s: Store, actions: seq<Action>)
    requires Sound(s) && FreshRun(s, actions)
    ensures Sound(Run(s, actions))
  {
    if |actions| > 0 {
      RunSound(s, actions[..|actions| - 1]);
      StepSound(Run(s, actions[..|actions| - 1]), actions[|actions| - 1]);
    }
  }

  /** The pair is the one its session holds now, and the session is active. */
  predicate Live(s: Store, p: Pair) {
    && p.session < |s.sessions|
    && s.sessions[p.session].jti == p.jti
    && s.sessions[p.session].token == p.token
    && s.sessions[p.session].status == Active
  }

  /** Neither token of the pair is accepted, at any time. */
  ghost predicate Dead(s: Store, p: Pair) {
    && (forall userActive: bool, now: int :: !AccessAccepted(s.sessions, p.jti, userActive, now))
    && (forall now: int :: !RefreshAccepted(s.sessions, p.token, now))
  }

  /** A token of an issued pair can only find the session the pair was issued for, and only while that holds it. */
  lemma IssuedTokensFindTheirSession(s: Store, p: Pair)
    requires Sound(s) && p in s.issued
    ensures FindJti(s.sessions, p.jti).Some? ==> FindJti(s.sessions, p.jti).value == p.session
    ensures FindToken(s.sessions, p.token).Some? ==> FindToken(s.sessions, p.token).value == p.session
    ensures (exists i :: 0 <= i < |s.sessions| && (s.sessions[i].jti == p.jti || s.sessions[i].token == p.token))
            ==> s.sessions[p.session].jti == p.jti && s.sessions[p.session].token == p.token
  {
    forall i | 0 <= i < |s.sessions| && (s.sessions[i].jti == p.jti || s.sessions[i].token == p.token)
      ensures i == p.session && s.sessions[i].jti == p.jti && s.sessions[i].token == p.token
    {
      var held := Pair(i, s.sessions[i].jti, s.sessions[i].token);
      assert held in s.issued;
    }
  }

  /** What is accepted of an issued pair is exactly a live pair before its expiry. */
  lemma AcceptedExactlyWhileLive(s: Store, p: Pair, userActive: bool, now: int)
    requires Sound(s) && p in s.issued
    ensures AccessAccepted(s.sessions, p.jti, userActive, now)
            <==> Live(s, p) && s.sessions[p.session].expiresAt >= now && userActive
    ensures RefreshAccepted(s.sessions, p.token, now) <==> Live(s, p) && s.sessions[p.session].expiresAt >= now
  {
    IssuedTokensFindTheirSession(s, p);
  }

  /** An accepted access token speaks for the user and the session it was issued for. */
  lemma AcceptedSpeaksForItsSession(s: Store, p: Pair, userActive: bool, now: int)
    requires Sound(s) && p in s.issued && AccessAccepted(s.sessions, p.jti, userActive, now)
    ensures Validate(s.sessions, p.jti, userActive, now)
            == Some(AuthUser(s.sessions[p.session].user, p.session, p.jti))
  {
    IssuedTokensFindTheirSession(s, p);
  }

  lemma NotLiveIsDead(s: Store, p: Pair)
    requires Sound(s) && p in s.issued && !Live(s, p)
    ensures Dead(s, p)
  {
    forall userActive: bool, now: int ensures !AccessAccepted(s.sessions, p.jti, userActive, now) {
      AcceptedExactlyWhileLive(s, p, userActive, now);
    }
    forall now: int ensures !RefreshAccepted(s.sessions, p.token, now) {
      AcceptedExactlyWhileLive(s, p, true, now);
    }
  }

  /** One of the two tokens of the pair is accepted. */
  predicate PairAccepted(s: Store, p: Pair, userActive: bool, now: int) {
    AccessAccepted(s.sessions, p.jti, userActive, now) || RefreshAccepted(s.sessions, p.token, now)
  }

  /**
   Main result: in every reachable state, whatever the clock and whichever of its two tokens is shown, at most one
   of all the pairs ever issued for a session is accepted.
   */
  lemma AtMostOneLivePair(actions: seq<Action>, p: Pair, q: Pair, pActive: bool, pNow: int, qActive: bool, qNow: int)
    requires FreshRun(EMPTY, actions)
    requires var s := Run(EMPTY, actions); p in s.issued && q in s.issued && p.session == q.session
    requires PairAccepted(Run(EMPTY, actions), p, pActive, pNow) && PairAccepted(Run(EMPTY, actions), q, qActive, qNow)
    ensures p == q
  {
    RunSound(EMPTY, actions);
    AcceptedExactlyWhileLive(Run(EMPTY, actions), p, pActive, pNow);
    AcceptedExactlyWhileLive(Run(EMPTY, actions), q, qActive, qNow);
  }

  // ---- what is over stays over

  /** The pair is not the one its session holds, or the session is not active. */
  lemma StepKeepsOver(s: Store, a: Action, p: Pair)
    requires Sound(s) && FreshAction(s, a) && p in s.issued && !Live(s, p)
    ensures p in Step(s, a).issued && !Live(Step(s, a), p)
  {
  }

  lemma {:induction false} OverStaysOver(s: Store, actions: seq<Action>, p: Pair)
    requires Sound(s) && FreshRun(s, actions) && p in s.issued && !Live(s, p)
    ensures var t := Run(s, actions); p in t.issued && !Live(t, p) && Dead(t, p)
  {
    if |actions| > 0 {
      var front := actions[..|actions| - 1];
      OverStaysOver(s, front, p);
      RunSound(s, front);
      StepKeepsOver(Run(s, front), actions[|actions| - 1], p);
    }
    RunSound(s, actions);
    NotLiveIsDead(Run(s, actions), p);
  }

  /** Main result: the pair a refresh replaces is rejected for ever. */
  lemma ReplacedPairsAreRejected(before: seq<Action>, k: nat, jti: Jti, token: Token, now: int, later: seq<Action>, p: Pair)
    requires FreshRun(EMPTY, before)
    requires var s := Run(EMPTY, before);
             && k < |s.refreshing| && p in s.issued && p.session == s.refreshing[k]
             && FreshAction(s, RefreshWrite(k, jti, token, now))
             && FreshRun(Step(s, RefreshWrite(k, jti, token, now)), later)
    ensures Dead(Run(Step(Run(EMPTY, before), RefreshWrite(k, jti, token, now)), later), p)
  {
    RunSound(EMPTY, before);
    var s := Run(EMPTY, before);
    var write := RefreshWrite(k, jti, token, now);
    StepSound(s, write);
    assert p in Step(s, write).issued && !Live(Step(s, write), p);
    OverStaysOver(Step(s, write), later, p);
  }

  /**
   Main result: a session that is not active never becomes active, even when the read of a refresh came before
   the logout and its write comes after it.
   */
  lemma {:induction false} RevokedForEver(s: Store, actions: seq<Action>, i: nat)
    requires i < |s.sessions| && s.sessions[i].status != Active
    ensures i < |Run(s, actions).sessions| && Run(s, actions).sessions[i].status != Active
  {
    if |actions| > 0 {
      RevokedForEver(s, actions[..|actions| - 1], i);
    }
  }

  /** Main result: after a password reset no token issued to the user before it is ever accepted again. */
  lemma ResetEndsAllTokens(before: seq<Action>, user: UserId, later: seq<Action>, p: Pair)
    requires FreshRun(EMPTY, before)
    requires var s := Run(EMPTY, before); p in s.issued && p.session < |s.sessions| && s.sessions[p.session].user == user
    requires FreshRun(Step(Run(EMPTY, before), ResetPassword(user)), later)
    ensures Dead(Run(Step(Run(EMPTY, before), ResetPassword(user)), later), p)
  {
    RunSound(EMPTY, before);
    var s := Run(EMPTY, before);
    StepSound(s, ResetPassword(user));
    assert !Live(Step(s, ResetPassword(user)), p);
    OverStaysOver(Step(s, ResetPassword(user)), later, p);
  }

  /**
   Logging out with an access token ends both tokens of its pair for ever, whether the session still holds the
   pair or a refresh has overtaken the logout.
   */
  lemma LogOutEndsThePair(before: seq<Action>, later: seq<Action>, p: Pair)
    requires FreshRun(EMPTY, before)
    requires var s := Run(EMPTY, before);
             && p in s.issued && p.session < |s.sessions|
             && FreshRun(Step(s, LogOut(p.jti, s.sessions[p.session].user)), later)
    ensures var s := Run(EMPTY, before);
            Dead(Run(Step(s, LogOut(p.jti, s.sessions[p.session].user)), later), p)
  {
    RunSound(EMPTY, before);
    var s := Run(EMPTY, before);
    var out := LogOut(p.jti, s.sessions[p.session].user);
    StepSound(s, out);
    OverStaysOver(Step(s, out), later, p);
  }

  // ---- what ends a session, and when a pair runs out

  /** The action logs session i out with the access token it holds, or resets the password of its user. */
  predicate Ends(s: Store, a: Action, i: nat)
    requires i < |s.sessions|
  {
    || (a.LogOut? && a.jti == s.sessions[i].jti && a.user == s.sessions[i].user)
    || (a.ResetPassword? && a.user == s.sessions[i].user)
  }

  predicate NeverEnded(s: Store, actions: seq<Action>, i: nat) {
    |actions| == 0
    || (var front := actions[..|actions| - 1];
        NeverEnded(s, front, i) && i < |Run(s, front).sessions| && !Ends(Run(s, front), actions[|actions| - 1], i))
  }

  /**
   Main result: an active session stays active through any run if and only if no logout with its own access token and
   no password reset of its own user is among the actions; those of others do not touch it.
   */
  lemma {:induction false} ActiveExactlyUntilEnded(s: Store, actions: seq<Action>, i: nat)
    requires i < |s.sessions| && s.sessions[i].status == Active
    ensures i < |Run(s, actions).sessions|
    ensures Run(s, actions).sessions[i].status == Active <==> NeverEnded(s, actions, i)
  {
    if |actions| > 0 {
      var front, last := actions[..|actions| - 1], actions[|actions| - 1];
      ActiveExactlyUntilEnded(s, front, i);
      EndsExactly(Run(s, front), last, i);
    }
  }

  lemma EndsExactly(s: Store, a: Action, i: nat)
    requires i < |s.sessions|
    ensures i < |Step(s, a).sessions|
    ensures Step(s, a).sessions[i].status == Active <==> s.sessions[i].status == Active && !Ends(s, a, i)
  {
  }

  lemma StepKeepsExpiry(s: Store, a: Action, p: Pair, until: int)
    requires Sound(s) && FreshAction(s, a) && p in s.issued
    requires Live(s, p) ==> s.sessions[p.session].expiresAt == until
    ensures Live(Step(s, a), p) ==> Step(s, a).sessions[p.session].expiresAt == until
  {
    if !Live(s, p) {
      StepKeepsOver(s, a, p);
    }
  }

  lemma {:induction false} RunKeepsExpiry(s: Store, actions: seq<Action>, p: Pair, until: int)
    requires Sound(s) && FreshRun(s, actions) && p in s.issued
    requires Live(s, p) ==> s.sessions[p.session].expiresAt == until
    ensures var t := Run(s, actions); p in t.issued && (Live(t, p) ==> t.sessions[p.session].expiresAt == until)
  {
    if |actions| > 0 {
      var front, last := actions[..|actions| - 1], actions[|actions| - 1];
      RunKeepsExpiry(s, front, p, until);
      RunSound(s, front);
      StepKeepsExpiry(Run(s, front), last, p, until);
    }
  }

  lemma {:induction false} UserStays(s: Store, actions: seq<Action>, i: nat)
    requires i < |s.sessions|
    ensures i < |Run(s, actions).sessions| && Run(s, actions).sessions[i].user == s.sessions[i].user
  {
    if |actions| > 0 {
      UserStays(s, actions[..|actions| - 1], i);
    }
  }

  /** Whoever logs in is who the pair speaks for, after any run for as long as it is accepted. */
  lemma SpeaksForWhoLoggedIn(before: seq<Action>, user: UserId, jti: Jti, token: Token, at: int, later: seq<Action>,
                             userActive: bool, now: int)
    requires FreshRun(EMPTY, before) && FreshAction(Run(EMPTY, before), LogIn(user, jti, token, at))
    requires FreshRun(Step(Run(EMPTY, before), LogIn(user, jti, token, at)), later)
    ensures var i := |Run(EMPTY, before).sessions|;
            var t := Run(Step(Run(EMPTY, before), LogIn(user, jti, token, at)), later);
            AccessAccepted(t.sessions, jti, userActive, now)
            ==> Validate(t.sessions, jti, userActive, now) == Some(AuthUser(user, i, jti))
  {
    RunSound(EMPTY, before);
    var s, a := Run(EMPTY, before), LogIn(user, jti, token, at);
    StepSound(s, a);
    var p := Pair(|s.sessions|, jti, token);
    assert p in Step(s, a).issued;
    RunSound(Step(s, a), later);
    UserStays(Step(s, a), later, |s.sessions|);
    RunKeepsExpiry(Step(s, a), later, p, at + REFRESH_MS);
    if AccessAccepted(Run(Step(s, a), later).sessions, jti, userActive, now) {
      AcceptedSpeaksForItsSession(Run(Step(s, a), later), p, userActive, now);
    }
  }

  /**
   Main result: a pair handed out by a login or a refresh is accepted, after any run, exactly as long as it is the live
   one of its session and thirty days have not passed since it was handed out.
   */
  lemma AcceptedThirtyDays(before: seq<Action>, a: Action, later: seq<Action>, p: Pair, userActive: bool, now: int)
    requires FreshRun(EMPTY, before) && FreshAction(Run(EMPTY, before), a) && (a.LogIn? || a.RefreshWrite?)
    requires Step(Run(EMPTY, before), a).issued == Run(EMPTY, before).issued + [p]
    requires FreshRun(Step(Run(EMPTY, before), a), later)
    ensures var t := Run(Step(Run(EMPTY, before), a), later);
            && (AccessAccepted(t.sessions, p.jti, userActive, now)
                <==> Live(t, p) && userActive && now <= a.now + 30 * 24 * 60 * 60 * 1000)
            && (RefreshAccepted(t.sessions, p.token, now) <==> Live(t, p) && now <= a.now + 30 * 24 * 60 * 60 * 1000)
  {
    RunSound(EMPTY, before);
    var s := Run(EMPTY, before);
    StepSound(s, a);
    var made := Step(s, a);
    assert p == made.issued[|s.issued|];
    RunKeepsExpiry(made, later, p, a.now + REFRESH_MS);
    RunSound(made, later);
    AcceptedExactlyWhileLive(Run(made, later), p, userActive, now);
  }

  // ---- the session table, updated in place

  class SessionTable {
    var sessions: seq<Session>

    constructor ()
      ensures sessions == []
    {
      sessions := [];
    }

    method CreateSession(user: UserId, jti: Jti, token: Token, now: int)
      modifies this
      ensures forall s: Store | s.sessions == old(sessions) :: sessions == Step(s, LogIn(user, jti, token, now)).sessions
    {
      sessions := sessions + [Session(user, jti, token, Active, now + 30 * 24 * 60 * 60 * 1000)];
    }

    /** A refresh whose read and write nothing separates. */
    method RefreshTokens(token: Token, jti: Jti, newToken: Token, now: int) returns (ok: bool)
      modifies this
      ensures ok == RefreshAccepted(old(sessions), token, now)
      ensures forall s: Store | s.sessions == old(sessions) ::
                var read := Step(s, RefreshRead(token, now));
                sessions == if ok then Step(read, RefreshWrite(|s.refreshing|, jti, newToken, now)).sessions else s.sessions
    {
      var found := FindToken(sessions, token);
      if found.None? { return false; }
      var session := sessions[found.value];
      if session.status != Active { return false; }
      if session.expiresAt < now { return false; }
      var expiresAt := now + 30 * 24 * 60 * 60 * 1000;
      sessions := sessions[found.value :=
        sessions[found.value].(jti := jti, token := newToken, expiresAt := expiresAt)];
      return true;
    }

    method Logout(jti: Jti, user: UserId)
      modifies this
      ensures sessions == RevokeLoggedOut(old(sessions), jti, user)
    {
      var i := 0;
      while i < |sessions|
        invariant 0 <= i <= |sessions| == |old(sessions)|
        invariant sessions[..i] == RevokeLoggedOut(old(sessions), jti, user)[..i]
        invariant sessions[i..] == old(sessions)[i..]
      {
        assert sessions[i] == old(sessions)[i];
        if sessions[i].jti == jti && sessions[i].user == user {
          sessions := sessions[i := sessions[i].(status := Revoked)];
        }
        i := i + 1;
      }
    }

    method RevokeForReset(user: UserId)
      modifies this
      ensures sessions == RevokeAll(old(sessions), user)
    {
      var i := 0;
      while i < |sessions|
        invariant 0 <= i <= |sessions| == |old(sessions)|
        invariant sessions[..i] == RevokeAll(old(sessions), user)[..i]
        invariant sessions[i..] == old(sessions)[i..]
      {
        assert sessions[i] == old(sessions)[i];
        if sessions[i].user == user && sessions[i].status == Active {
          sessions := sessions[i := sessions[i].(status := Revoked)];
        }
        i := i + 1;
      }
    }
  }
}
