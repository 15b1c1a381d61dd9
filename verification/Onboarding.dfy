/** The status of users and their documents in every reachable state, and exactly which onboarding requests succeed. */
module Onboarding {
  import opened Schema
  import opened Endpoints
  import opened Direct
  import opened Machine
  import opened KycGate

  /** The identity status a document stands for. */
  function KycOf(doc: Doc): KycStatus {
    if doc.verifiedAt.Some? then Verified else if doc.rejectedAt.Some? then Refused else InProgress
  }

  /** Activity and tier of a user follow from the e-mail check and the identity status. */
  predicate RankTells(u: User) {
    if u.emailVerified then u.status == UserActive && u.tier == (if u.kyc == Verified then Tier2 else Tier1)
    else u.status == UserPending && u.tier == Tier0 && u.kyc == NotStarted
  }

  /** The identity status of a user is that of the user's one document. */
  ghost predicate DocsTell(db: Db) {
    && (forall d | 0 <= d < |db.docs| ::
          && db.docs[d].user < |db.users| && db.users[db.docs[d].user].kyc == KycOf(db.docs[d])
          && !(db.docs[d].verifiedAt.Some? && db.docs[d].rejectedAt.Some?))
    && (forall c, d | 0 <= c < d < |db.docs| :: db.docs[c].user != db.docs[d].user)
    && (forall u | 0 <= u < |db.users| && db.users[u].kyc != NotStarted ::
          exists d :: 0 <= d < |db.docs| && db.docs[d].user == u)
  }

  ghost predicate StatusTells(db: Db) {
    (forall u | 0 <= u < |db.users| :: RankTells(db.users[u])) && DocsTell(db)
  }

  // ---- the steps

  lemma RegisterTells(db: Db, email: string, phone: string)
    requires StatusTells(db)
    ensures StatusTells(Register(db, email, phone).0)
  {
  }

  /** One user's row moves and the identity status does not. */
  lemma UserMovesTell(db: Db, after: Db, user: UserId)
    requires StatusTells(db) && user < |db.users| && after.docs == db.docs
    requires |after.users| == |db.users| && after.users == db.users[user := after.users[user]]
    requires after.users[user].kyc == db.users[user].kyc && RankTells(after.users[user])
    ensures StatusTells(after)
  {
    forall u | 0 <= u < |after.users| && after.users[u].kyc != NotStarted
      ensures exists d :: 0 <= d < |after.docs| && after.docs[d].user == u
    {
      assert db.users[u].kyc != NotStarted;
    }
  }

  /** The document of a user and the user's identity status move together. */
  lemma DocMovesTell(db: Db, after: Db, doc: DocId, row: Doc)
    requires StatusTells(db) && doc < |db.docs| && row.user == db.docs[doc].user
    requires after.docs == db.docs[doc := row] && |after.users| == |db.users|
    requires row.user < |db.users| && after.users == db.users[row.user := after.users[row.user]]
    requires after.users[row.user].kyc == KycOf(row) && RankTells(after.users[row.user])
    requires !(row.verifiedAt.Some? && row.rejectedAt.Some?)
    ensures StatusTells(after)
  {
    forall u | 0 <= u < |after.users| && after.users[u].kyc != NotStarted
      ensures exists d :: 0 <= d < |after.docs| && after.docs[d].user == u
    {
      if u == row.user {
        assert after.docs[doc].user == u;
      } else {
        assert db.users[u].kyc != NotStarted;
        var d :| 0 <= d < |db.docs| && db.docs[d].user == u;
        assert after.docs[d].user == u;
      }
    }
  }

  lemma SubmitTells(db: Db, user: UserId)
    requires StatusTells(db) && Live(db, user)
    ensures StatusTells(SubmitKyc(db, user).0)
  {
    var after := SubmitKyc(db, user).0;
    if after != db {
      var d := DocOf(db.docs, user);
      if d.Some? {
        DocMovesTell(db, after, d.value, after.docs[d.value]);
      } else {
        NewDocTells(db, after, user);
      }
    }
  }

  lemma NewDocTells(db: Db, after: Db, user: UserId)
    requires StatusTells(db) && user < |db.users| && forall d | 0 <= d < |db.docs| :: db.docs[d].user != user
    requires after.docs == db.docs + [Doc(user, None, None)]
    requires after.users == db.users[user := db.users[user].(kyc := InProgress)] && db.users[user].emailVerified
    ensures StatusTells(after)
  {
    assert db.users[user].kyc == NotStarted && RankTells(db.users[user]);
    forall u | 0 <= u < |after.users| && after.users[u].kyc != NotStarted
      ensures exists d :: 0 <= d < |after.docs| && after.docs[d].user == u
    {
      if u == user {
        assert after.docs[|db.docs|].user == u;
      } else {
        assert db.users[u].kyc != NotStarted;
        var d :| 0 <= d < |db.docs| && db.docs[d].user == u;
        assert after.docs[d].user == u;
      }
    }
  }

  lemma ReviewTells(db: Db, doc: DocId, now: int)
    requires StatusTells(db)
    ensures StatusTells(ApproveKyc(db, doc, now).0) && StatusTells(RejectKyc(db, doc, now).0)
  {
    if doc < |db.docs| && db.docs[doc].verifiedAt.None? && db.docs[doc].rejectedAt.None? {
      var user := db.docs[doc].user;
      assert RankTells(db.users[user]) && db.users[user].kyc == InProgress;
      var approved, rejected := ApproveKyc(db, doc, now).0, RejectKyc(db, doc, now).0;
      DocMovesTell(db, approved, doc, approved.docs[doc]);
      DocMovesTell(db, rejected, doc, rejected.docs[doc]);
    }
  }

  lemma VerifyTells(db: Db, user: UserId, codeAccepted: bool)
    requires StatusTells(db)
    ensures StatusTells(VerifyEmail(db, user, codeAccepted).0)
  {
    var after := VerifyEmail(db, user, codeAccepted).0;
    if after != db {
      assert RankTells(db.users[user]);
      UserMovesTell(db, after, user);
    }
  }

  lemma GuardedTells(db: Db, d: DirectRequest)
    requires StatusTells(db)
    ensures StatusTells(Guarded(db, d).0)
  {
    var after := Guarded(db, d).0;
    if after == db {
    } else if d.RegisterReq? {
      RegisterTells(db, d.email, d.phone);
    } else if d.VerifyEmailReq? {
      VerifyTells(db, d.user, d.codeAccepted);
    } else if d.SubmitKycReq? {
      SubmitTells(db, d.user);
    } else if d.ApproveKycReq? || d.RejectKycReq? {
      ReviewTells(db, d.doc, d.now);
    } else {
      assert after.users == db.users && after.docs == db.docs;
    }
  }

  lemma StepTells(s: System, a: Action)
    requires StatusTells(s.db)
    ensures StatusTells(Step(s, a).db)
  {
    if a.Call? {
      ServeKeepsIdentities(s.db, a.r);
    } else if a.CallDirect? {
      GuardedTells(s.db, a.d);
    } else if a.Finish? && a.k < |s.inflight| && !a.aborts {
      LandKeepsIdentities(s.db, s.inflight[a.k]);
    }
  }

  /**
   Main result: in every state of every run a user is active exactly with a verified e-mail, is of the second tier
   exactly with a verified identity, and the identity status is exactly what the user's one document says.
   */
  lemma {:induction false} StatusAlwaysTells(actions: seq<Action>)
    ensures StatusTells(Run(START, actions).db)
  {
    if |actions| > 0 {
      StatusAlwaysTells(actions[..|actions| - 1]);
      StepTells(Run(START, actions[..|actions| - 1]), actions[|actions| - 1]);
    }
  }

  // ---- the e-mail check

  /** The run has accepted a code sent to user u. */
  predicate CodeAccepted(actions: seq<Action>, u: UserId) {
    |actions| > 0
    && (var front, last := actions[..|actions| - 1], actions[|actions| - 1];
        CodeAccepted(front, u) || (last == CallDirect(VerifyEmailReq(u, true)) && u < |Run(START, front).db.users|))
  }

  lemma StepVerifiesExactly(s: System, a: Action, u: UserId)
    ensures var after := Step(s, a).db.users;
            |s.db.users| <= |after|
            && (u < |after| && after[u].emailVerified
                <==> u < |s.db.users| && (s.db.users[u].emailVerified || a == CallDirect(VerifyEmailReq(u, true))))
  {
    if a.Call? {
      ServeKeepsIdentities(s.db, a.r);
    } else if a.CallDirect? {
      DirectVerifiesExactly(s.db, a.d, u);
    } else if a.Finish? && a.k < |s.inflight| && !a.aborts {
      LandKeepsIdentities(s.db, s.inflight[a.k]);
    }
  }

  lemma DirectVerifiesExactly(db: Db, d: DirectRequest, u: UserId)
    ensures var after := Guarded(db, d).0.users;
            |db.users| <= |after|
            && (u < |after| && after[u].emailVerified
                <==> u < |db.users| && (db.users[u].emailVerified || d == VerifyEmailReq(u, true)))
  {
    if !d.RegisterReq? && !d.VerifyEmailReq? && !d.SubmitKycReq? && !d.ApproveKycReq? && !d.RejectKycReq? {
      assert Guarded(db, d).0.users == db.users;
    }
  }

  /** Main result: in every run exactly those users have a verified e-mail for whom a code was accepted. */
  lemma {:induction false} VerifiedByCodeExactly(actions: seq<Action>, u: UserId)
    ensures u < |Run(START, actions).db.users| && Run(START, actions).db.users[u].emailVerified <==> CodeAccepted(actions, u)
  {
    if |actions| > 0 {
      VerifiedByCodeExactly(actions[..|actions| - 1], u);
      StepVerifiesExactly(Run(START, actions[..|actions| - 1]), actions[|actions| - 1], u);
    }
  }

  // ---- which requests succeed

  /** The document exists and its user is waiting for a decision. */
  predicate Waits(db: Db, doc: DocId) {
    doc < |db.docs| && db.docs[doc].user < |db.users| && db.users[db.docs[doc].user].kyc == InProgress
  }

  /** An approval or a rejection succeeds exactly for a document whose user is waiting for a decision. */
  lemma ReviewedExactly(actions: seq<Action>, db: Db, doc: DocId, now: int)
    requires db == Run(START, actions).db
    ensures var (approved, o) := Guarded(db, ApproveKycReq(doc, now));
            && (o.Done? <==> Waits(db, doc))
            && (o.Done? ==>
                  && approved.docs == db.docs[doc := db.docs[doc].(verifiedAt := Some(now))]
                  && var u := db.docs[doc].user;
                     approved.users == db.users[u := db.users[u].(kyc := Verified, tier := Tier2)])
    ensures var (rejected, o) := Guarded(db, RejectKycReq(doc, now));
            && (o.Done? <==> Waits(db, doc))
            && (o.Done? ==>
                  && rejected.docs == db.docs[doc := db.docs[doc].(rejectedAt := Some(now))]
                  && var u := db.docs[doc].user;
                     rejected.users == db.users[u := db.users[u].(kyc := Refused)])
  {
    StatusAlwaysTells(actions);
  }

  /** The user may open a wallet in the currency and has none in it. */
  predicate MayOpen(db: Db, user: UserId, currency: Currency) {
    && user < |db.users| && db.users[user].emailVerified
    && (forall w | 0 <= w < |db.wallets| && db.wallets[w].owner == user :: db.wallets[w].currency != currency)
    && (currency == RWF || (db.users[user].kyc == Verified && currency in {USD, EUR, KES}))
  }

  lemma OpensExactly(db: Db, user: UserId, currency: Currency)
    requires user < |db.users| ==> RankTells(db.users[user])
    ensures Guarded(db, CreateWalletReq(user, currency)).1.Done? <==> MayOpen(db, user, currency)
  {
  }

  /**
   A user opens a wallet exactly when none is open in its currency and the currency is RWF, or USD, EUR or KES with a
   verified identity. No sequence of requests opens one in UGX or TZS: nothing grants the third tier.
   */
  lemma WalletOpenedExactly(actions: seq<Action>, db: Db, user: UserId, currency: Currency)
    requires db == Run(START, actions).db
    ensures Guarded(db, CreateWalletReq(user, currency)).1.Done? <==> MayOpen(db, user, currency)
  {
    StatusAlwaysTells(actions);
    OpensExactly(db, user, currency);
  }

  predicate MayBePrimary(db: Db, user: UserId, wallet: WalletId) {
    && user < |db.users| && db.users[user].emailVerified
    && wallet < |db.wallets| && db.wallets[wallet].owner == user
    && (db.wallets[wallet].primary || db.wallets[wallet].status == WalletActive)
  }

  lemma MarksExactly(db: Db, user: UserId, wallet: WalletId)
    requires user < |db.users| ==> RankTells(db.users[user])
    ensures Guarded(db, SetPrimaryReq(user, wallet)).1.Done? <==> MayBePrimary(db, user, wallet)
    ensures Live(db, user) ==> Guarded(db, SetPrimaryReq(user, wallet)) == SetPrimary(db, user, wallet)
  {
  }

  /** The owner of an active or already primary wallet, and nobody else, makes it the one primary wallet. */
  lemma PrimarySetExactly(actions: seq<Action>, db: Db, user: UserId, wallet: WalletId)
    requires db == Run(START, actions).db
    ensures var (after, o) := Guarded(db, SetPrimaryReq(user, wallet));
            && (o.Done? <==> MayBePrimary(db, user, wallet))
            && (o.Done? ==> IsThePrimary(after.wallets, user, wallet))
  {
    StatusAlwaysTells(actions);
    GateAlwaysHolds(actions);
    MarksExactly(db, user, wallet);
    if MayBePrimary(db, user, wallet) {
      assert RankTells(db.users[user]);
      SetPrimaryMarks(db, user, wallet);
    }
  }

  lemma SetPrimaryMarks(db: Db, user: UserId, wallet: WalletId)
    requires AtMostOnePrimary(db.wallets) && OneWalletPerCurrency(db.wallets)
    requires SetPrimary(db, user, wallet).1.Done?
    ensures IsThePrimary(SetPrimary(db, user, wallet).0.wallets, user, wallet)
  {
  }

  /** Exactly an active wallet is frozen and exactly a frozen one is unfrozen; no other wallet and no money moves. */
  lemma FrozenExactly(db: Db, wallet: WalletId)
    ensures FreezeWallet(db, wallet).1.Done? <==> wallet < |db.wallets| && db.wallets[wallet].status == WalletActive
    ensures UnfreezeWallet(db, wallet).1.Done? <==> wallet < |db.wallets| && db.wallets[wallet].status == WalletFrozen
    ensures forall after | after == FreezeWallet(db, wallet).0 || after == UnfreezeWallet(db, wallet).0 ::
      && |after.wallets| == |db.wallets| && after == db.(wallets := after.wallets)
      && forall w | 0 <= w < |db.wallets| ::
           after.wallets[w] == db.wallets[w].(status := after.wallets[w].status)
           && (w != wallet ==> after.wallets[w] == db.wallets[w])
  {
  }

  /** Freezing and unfreezing undo each other on an active wallet, and neither works twice. */
  lemma FreezeUnfreeze(db: Db, wallet: WalletId)
    requires wallet < |db.wallets| && db.wallets[wallet].status == WalletActive
    ensures var frozen := FreezeWallet(db, wallet).0;
            && FreezeWallet(db, wallet).1.Done? && frozen.wallets[wallet].status == WalletFrozen
            && UnfreezeWallet(frozen, wallet) == (db, Done)
            && FreezeWallet(frozen, wallet) == (frozen, Rejected(BadRequest))
            && UnfreezeWallet(db, wallet) == (db, Rejected(BadRequest))
  {
    var frozen := FreezeWallet(db, wallet).0;
    assert UnfreezeWallet(frozen, wallet).0.wallets == db.wallets;
  }

  /** The wallet that is opened is empty, active, unlocked and not primary, in its currency and its user's name. */
  lemma OpenedWalletIsReady(db: Db, user: UserId, currency: Currency)
    requires CreateWallet(db, user, currency).1.Done?
    ensures var after := CreateWallet(db, user, currency).0;
            && |after.wallets| == |db.wallets| + 1 && db.wallets <= after.wallets
            && var w := after.wallets[|db.wallets|];
               w.owner == user && w.currency == currency && w.balance == w.available == 0
               && w.status == WalletActive && !w.locked && !w.primary
  {
  }

  /** Somebody registers exactly with an address and a number nobody has, and nobody then registers with either again. */
  lemma RegisteredExactly(db: Db, email: string, phone: string, other: string)
    ensures var (after, o) := Register(db, email, phone);
            && (o.Done? <==> forall u | 0 <= u < |db.users| :: db.users[u].email != email && db.users[u].phone != phone)
            && (!o.Done? ==> after == db)
            && (o.Done? ==>
                  Register(after, email, other) == Register(after, other, phone) == (after, Rejected(Conflict)))
  {
    var (after, o) := Register(db, email, phone);
    if o.Done? {
      var u := after.users[|db.users|];
      assert u.email == email && u.phone == phone;
    }
  }

  lemma SubmitsExactly(db: Db, user: UserId)
    requires user < |db.users| ==> RankTells(db.users[user])
    ensures var (after, o) := Guarded(db, SubmitKycReq(user));
            && (o.Done? <==> user < |db.users| && db.users[user].emailVerified && db.users[user].kyc != Verified)
            && (o.Done? ==> after == StoreSubmission(db, user))
  {
  }

  /** A submission is taken exactly from an active user whose identity is not verified, who then waits for a decision. */
  lemma SubmittedExactly(actions: seq<Action>, db: Db, user: UserId)
    requires db == Run(START, actions).db
    ensures var (after, o) := Guarded(db, SubmitKycReq(user));
            && (o.Done? <==> user < |db.users| && db.users[user].emailVerified && db.users[user].kyc != Verified)
            && (o.Done? ==> after.users == db.users[user := db.users[user].(kyc := InProgress)]
                            && DocOf(after.docs, user).Some?)
  {
    StatusAlwaysTells(actions);
    SubmitsExactly(db, user);
    if Guarded(db, SubmitKycReq(user)).1.Done? {
      StoresDoc(db, user);
    }
  }

  lemma StoresDoc(db: Db, user: UserId)
    requires user < |db.users|
    ensures DocOf(StoreSubmission(db, user).docs, user).Some?
  {
    var after := StoreSubmission(db, user);
    var d := DocOf(db.docs, user);
    assert after.docs[if d.Some? then d.value else |db.docs|].user == user;
  }

  /** In every reachable state the guarded requests of a user without a verified e-mail are refused. */
  lemma GuardNeedsVerifiedEmail(actions: seq<Action>, db: Db, d: DirectRequest)
    requires db == Run(START, actions).db
    requires !d.AdminReverseReq? && !d.AdminFlagReq? && !d.FreezeWalletReq? && !d.UnfreezeWalletReq?
    requires !d.RegisterReq? && !d.VerifyEmailReq? && !d.ApproveKycReq? && !d.RejectKycReq?
    requires d.user >= |db.users| || !db.users[d.user].emailVerified
    ensures Guarded(db, d) == (db, Rejected(Unauthorized))
  {
    StatusAlwaysTells(actions);
    if d.user < |db.users| {
      assert RankTells(db.users[d.user]);
    }
    assert Caller(d) == Some(d.user);
  }
}
