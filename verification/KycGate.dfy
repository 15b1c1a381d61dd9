/** Identity verification, the currencies it opens, and the primary wallet, in every state of every run. */
module KycGate {
  import opened Schema
  import opened Endpoints
  import opened Direct
  import opened Machine

  /** Every wallet belongs to a user with a verified e-mail; a foreign currency takes a verified identity. */
  ghost predicate WalletsGated(db: Db) {
    forall w | 0 <= w < |db.wallets| ::
      var wallet := db.wallets[w];
      && wallet.owner < |db.users|
      && db.users[wallet.owner].emailVerified
      && (wallet.currency != RWF ==> db.users[wallet.owner].kyc == Verified)
  }

  ghost predicate UsersSound(db: Db) {
    forall u | 0 <= u < |db.users| ::
      && (db.users[u].tier == Tier2 || db.users[u].tier == Tier3 ==> db.users[u].kyc == Verified)
      && (db.users[u].status == UserActive ==> db.users[u].emailVerified)
      && (db.users[u].kyc == Verified ==> exists d :: 0 <= d < |db.docs| && db.docs[d].user == u)
  }

  /** A user has at most one document, and it is verified exactly when the user is. */
  ghost predicate DocsAgree(db: Db) {
    && (forall d | 0 <= d < |db.docs| ::
          && db.docs[d].user < |db.users|
          && (db.docs[d].verifiedAt.Some? <==> db.users[db.docs[d].user].kyc == Verified))
    && (forall c, d | 0 <= c < d < |db.docs| :: db.docs[c].user != db.docs[d].user)
  }

  ghost predicate OneWalletPerCurrency(wallets: seq<Wallet>) {
    forall v, w | 0 <= v < w < |wallets| :: wallets[v].owner == wallets[w].owner ==> wallets[v].currency != wallets[w].currency
  }

  ghost predicate AtMostOnePrimary(wallets: seq<Wallet>) {
    forall v, w | 0 <= v < w < |wallets| ::
      wallets[v].owner == wallets[w].owner ==> !(wallets[v].primary && wallets[w].primary)
  }

  ghost predicate HasPrimary(wallets: seq<Wallet>, u: UserId) {
    exists w :: 0 <= w < |wallets| && wallets[w].owner == u && wallets[w].primary
  }

  ghost predicate PrimariesSound(db: Db) {
    && OneWalletPerCurrency(db.wallets)
    && AtMostOnePrimary(db.wallets)
    && forall u | 0 <= u < |db.users| && db.users[u].emailVerified :: HasPrimary(db.wallets, u)
  }

  ghost predicate GateHolds(db: Db) {
    WalletsGated(db) && UsersSound(db) && DocsAgree(db) && PrimariesSound(db)
  }

  // ---- steps that move money or mark rows

  /** Users and documents stay, and so do owner, currency and primary mark of every wallet. */
  ghost predicate KeepsIdentities(db: Db, after: Db) {
    && after.users == db.users && after.docs == db.docs && |after.wallets| == |db.wallets|
    && (forall w | 0 <= w < |db.wallets| ::
          && after.wallets[w].owner == db.wallets[w].owner
          && after.wallets[w].currency == db.wallets[w].currency
          && after.wallets[w].primary == db.wallets[w].primary)
  }

  lemma IdentitiesKeepGate(db: Db, after: Db)
    requires GateHolds(db) && KeepsIdentities(db, after)
    ensures GateHolds(after)
  {
    forall u | 0 <= u < |after.users| && after.users[u].emailVerified ensures HasPrimary(after.wallets, u) {
      assert HasPrimary(db.wallets, u);
      var w :| 0 <= w < |db.wallets| && db.wallets[w].owner == u && db.wallets[w].primary;
      assert after.wallets[w].owner == u && after.wallets[w].primary;
    }
  }

  lemma LandKeepsIdentities(db: Db, f: Flight)
    ensures KeepsIdentities(db, Land(db, f).0)
  {
  }

  lemma ServeKeepsIdentities(db: Db, r: MoneyRequest)
    ensures KeepsIdentities(db, Serve(db, r).0)
  {
    if Check(db, r).Go? {
      LandKeepsIdentities(db, Check(db, r).flight);
    }
  }

  // ---- the onboarding steps

  lemma RegisterKeepsGate(db: Db, email: string, phone: string)
    requires GateHolds(db)
    ensures GateHolds(Register(db, email, phone).0)
  {
    var after := Register(db, email, phone).0;
    forall u | 0 <= u < |after.users| && after.users[u].emailVerified ensures HasPrimary(after.wallets, u) {
      assert HasPrimary(db.wallets, u);
    }
  }

  /** One more wallet for a user who may hold it and has none in its currency. */
  lemma NewWalletKeepsGate(db: Db, user: UserId, currency: Currency)
    requires WalletsGated(db) && OneWalletPerCurrency(db.wallets) && AtMostOnePrimary(db.wallets)
    requires user < |db.users| && db.users[user].emailVerified
    requires currency != RWF ==> db.users[user].kyc == Verified
    requires !Holds(db.wallets, user, currency)
    ensures var after := db.(wallets := db.wallets + [NewWallet(user, currency, !HoldsAny(db.wallets, user))]);
            WalletsGated(after) && OneWalletPerCurrency(after.wallets) && AtMostOnePrimary(after.wallets)
  {
  }

  lemma PrimaryStays(wallets: seq<Wallet>, wallet: Wallet, u: UserId)
    requires HasPrimary(wallets, u)
    ensures HasPrimary(wallets + [wallet], u)
  {
    var w :| 0 <= w < |wallets| && wallets[w].owner == u && wallets[w].primary;
    assert (wallets + [wallet])[w] == wallets[w];
  }

  lemma VerifyEmailKeepsGate(db: Db, user: UserId, codeAccepted: bool)
    requires GateHolds(db)
    ensures GateHolds(VerifyEmail(db, user, codeAccepted).0)
  {
    var after := VerifyEmail(db, user, codeAccepted).0;
    if after != db {
      assert !HoldsAny(db.wallets, user);
      var n := |db.wallets|;
      assert after.wallets == db.wallets + [NewWallet(user, RWF, true)];
      assert after.wallets[n].owner == user && after.wallets[n].primary;
      forall u | 0 <= u < |after.users| && after.users[u].emailVerified ensures HasPrimary(after.wallets, u) {
        if u != user {
          PrimaryStays(db.wallets, NewWallet(user, RWF, true), u);
        }
      }
      assert UsersSound(after);
    }
  }

  lemma CreateWalletKeepsGate(db: Db, user: UserId, currency: Currency)
    requires GateHolds(db) && Live(db, user)
    ensures GateHolds(CreateWallet(db, user, currency).0)
  {
    var after := CreateWallet(db, user, currency).0;
    if after != db {
      assert HasPrimary(db.wallets, user);
      assert HoldsAny(db.wallets, user);
      NewWalletKeepsGate(db, user, currency);
      forall u | 0 <= u < |after.users| && after.users[u].emailVerified ensures HasPrimary(after.wallets, u) {
        PrimaryStays(db.wallets, NewWallet(user, currency, false), u);
      }
    }
  }

  /** Moving the mark keeps owners and currencies, and leaves the user exactly one primary wallet. */
  lemma MovePrimaryKeeps(wallets: seq<Wallet>, user: UserId, wallet: WalletId)
    requires wallet < |wallets| && wallets[wallet].owner == user
    requires OneWalletPerCurrency(wallets) && AtMostOnePrimary(wallets)
    ensures var moved := MovePrimary(wallets, user, wallet);
            && OneWalletPerCurrency(moved)
            && AtMostOnePrimary(moved)
            && HasPrimary(moved, user)
            && forall u | u != user && HasPrimary(wallets, u) :: HasPrimary(moved, u)
  {
    var moved := MovePrimary(wallets, user, wallet);
    forall w | 0 <= w < |wallets|
      ensures moved[w].owner == wallets[w].owner && moved[w].currency == wallets[w].currency
      ensures moved[w].primary == if wallets[w].owner == user then w == wallet else wallets[w].primary
    {
    }
    assert moved[wallet].owner == user && moved[wallet].primary;
    forall u | u != user && HasPrimary(wallets, u) ensures HasPrimary(moved, u) {
      var w :| 0 <= w < |wallets| && wallets[w].owner == u && wallets[w].primary;
      assert moved[w].owner == u && moved[w].primary;
    }
  }

  lemma SetPrimaryKeepsGate(db: Db, user: UserId, wallet: WalletId)
    requires GateHolds(db)
    ensures GateHolds(SetPrimary(db, user, wallet).0)
  {
    var after := SetPrimary(db, user, wallet).0;
    if after != db {
      MovePrimaryKeeps(db.wallets, user, wallet);
      assert PrimariesSound(after);
      assert WalletsGated(after);
    }
  }

  /** Storing a submission for a user who is not verified. */
  lemma SubmissionKeepsGate(db: Db, user: UserId)
    requires GateHolds(db) && user < |db.users| && db.users[user].kyc != Verified
    ensures GateHolds(StoreSubmission(db, user))
  {
    var after := StoreSubmission(db, user);
    var d := DocOf(db.docs, user);
    forall u | 0 <= u < |after.users| && after.users[u].kyc == Verified
      ensures exists e :: 0 <= e < |after.docs| && after.docs[e].user == u
    {
      var e :| 0 <= e < |db.docs| && db.docs[e].user == u;
      assert after.docs[e].user == u;
    }
    forall u | 0 <= u < |after.users| && after.users[u].emailVerified ensures HasPrimary(after.wallets, u) {
      assert HasPrimary(db.wallets, u);
    }
  }

  /** A review writes one document that was open and the status of its user. */
  lemma ReviewKeepsGate(db: Db, after: Db, doc: DocId, row: Doc, user: User)
    requires GateHolds(db) && doc < |db.docs| && db.docs[doc].user < |db.users|
    requires db.docs[doc].verifiedAt.None? && row.user == db.docs[doc].user
    requires after == db.(docs := db.docs[doc := row], users := db.users[row.user := user])
    requires user.emailVerified == db.users[row.user].emailVerified && user.status == db.users[row.user].status
    requires row.verifiedAt.Some? <==> user.kyc == Verified
    requires user.tier == Tier2 || user.tier == Tier3 ==> user.kyc == Verified
    ensures GateHolds(after)
  {
    assert db.users[row.user].kyc != Verified;
    forall u | 0 <= u < |after.users| && after.users[u].kyc == Verified
      ensures exists e :: 0 <= e < |after.docs| && after.docs[e].user == u
    {
      if u == row.user {
        assert after.docs[doc].user == u;
      } else {
        var e :| 0 <= e < |db.docs| && db.docs[e].user == u;
        assert after.docs[e].user == u;
      }
    }
    forall u | 0 <= u < |after.users| && after.users[u].emailVerified ensures HasPrimary(after.wallets, u) {
      assert db.users[u].emailVerified;
    }
  }

  lemma ApprovalKeepsGate(db: Db, doc: DocId, now: int)
    requires GateHolds(db)
    ensures GateHolds(ApproveKyc(db, doc, now).0)
  {
    var after := ApproveKyc(db, doc, now).0;
    if after != db {
      ReviewKeepsGate(db, after, doc, after.docs[doc], after.users[db.docs[doc].user]);
    }
  }

  lemma RejectionKeepsGate(db: Db, doc: DocId, now: int)
    requires GateHolds(db)
    ensures GateHolds(RejectKyc(db, doc, now).0)
  {
    var after := RejectKyc(db, doc, now).0;
    if after != db {
      assert db.users[db.docs[doc].user].kyc != Verified;
      ReviewKeepsGate(db, after, doc, after.docs[doc], after.users[db.docs[doc].user]);
    }
  }

  lemma OthersKeepIdentities(db: Db, d: DirectRequest)
    requires !d.RegisterReq? && !d.VerifyEmailReq? && !d.CreateWalletReq? && !d.SetPrimaryReq?
    requires !d.SubmitKycReq? && !d.ApproveKycReq? && !d.RejectKycReq?
    ensures KeepsIdentities(db, Guarded(db, d).0)
  {
  }

  lemma GuardedKeepsGate(db: Db, d: DirectRequest)
    requires GateHolds(db)
    ensures GateHolds(Guarded(db, d).0)
  {
    var after := Guarded(db, d).0;
    if after == db {
    } else if d.RegisterReq? {
      RegisterKeepsGate(db, d.email, d.phone);
    } else if d.VerifyEmailReq? {
      VerifyEmailKeepsGate(db, d.user, d.codeAccepted);
    } else if d.CreateWalletReq? {
      CreateWalletKeepsGate(db, d.user, d.currency);
    } else if d.SetPrimaryReq? {
      SetPrimaryKeepsGate(db, d.user, d.wallet);
    } else if d.SubmitKycReq? {
      SubmissionKeepsGate(db, d.user);
    } else if d.ApproveKycReq? {
      ApprovalKeepsGate(db, d.doc, d.now);
    } else if d.RejectKycReq? {
      RejectionKeepsGate(db, d.doc, d.now);
    } else {
      OthersKeepIdentities(db, d);
      IdentitiesKeepGate(db, after);
    }
  }

  lemma StepKeepsGate(s: System, a: Action)
    requires GateHolds(s.db)
    ensures GateHolds(Step(s, a).db)
  {
    match a
    case Call(r) =>
      ServeKeepsIdentities(s.db, r);
      IdentitiesKeepGate(s.db, Serve(s.db, r).0);
    case CallDirect(d) =>
      GuardedKeepsGate(s.db, d);
    case Begin(r) =>
    case Finish(k, aborts) =>
      if k < |s.inflight| && !aborts {
        LandKeepsIdentities(s.db, s.inflight[k]);
        IdentitiesKeepGate(s.db, Land(s.db, s.inflight[k]).0);
      }
  }

  lemma {:induction false} GateAlwaysHolds(actions: seq<Action>)
    ensures GateHolds(Run(START, actions).db)
  {
    if |actions| > 0 {
      GateAlwaysHolds(actions[..|actions| - 1]);
      StepKeepsGate(Run(START, actions[..|actions| - 1]), actions[|actions| - 1]);
    }
  }

  /**
   Main result, for every run and every interleaving: a wallet in any currency but RWF belongs to a user whose
   identity is verified by the one document the user has.
   */
  lemma ForeignWalletsAreVerified(actions: seq<Action>, w: WalletId)
    requires w < |Run(START, actions).db.wallets| && Run(START, actions).db.wallets[w].currency != RWF
    ensures var db := Run(START, actions).db;
            var owner := db.wallets[w].owner;
            && owner < |db.users| && db.users[owner].kyc == Verified
            && exists d :: 0 <= d < |db.docs| && db.docs[d].user == owner && db.docs[d].verifiedAt.Some?
  {
    GateAlwaysHolds(actions);
    var db := Run(START, actions).db;
    var d :| 0 <= d < |db.docs| && db.docs[d].user == db.wallets[w].owner;
    assert db.docs[d].verifiedAt.Some?;
  }

  /** Wallet w is the one primary wallet of user u. */
  ghost predicate IsThePrimary(wallets: seq<Wallet>, u: UserId, w: WalletId) {
    && w < |wallets| && wallets[w].owner == u && wallets[w].primary
    && forall v | 0 <= v < |wallets| && wallets[v].owner == u && wallets[v].primary :: v == w
  }

  /** Main result: a user with a verified e-mail has exactly one primary wallet. */
  lemma ExactlyOnePrimary(actions: seq<Action>, u: UserId)
    requires u < |Run(START, actions).db.users| && Run(START, actions).db.users[u].emailVerified
    ensures exists w: WalletId :: IsThePrimary(Run(START, actions).db.wallets, u, w)
  {
    GateAlwaysHolds(actions);
    var wallets := Run(START, actions).db.wallets;
    assert HasPrimary(wallets, u);
    var w: WalletId :| w < |wallets| && wallets[w].owner == u && wallets[w].primary;
    assert AtMostOnePrimary(wallets);
    assert IsThePrimary(wallets, u, w);
  }

  /** Main result: no user ever holds two wallets in one currency. */
  lemma OneWalletPerCurrencyAlways(actions: seq<Action>, v: WalletId, w: WalletId)
    requires v < w < |Run(START, actions).db.wallets|
    ensures var wallets := Run(START, actions).db.wallets;
            wallets[v].owner == wallets[w].owner ==> wallets[v].currency != wallets[w].currency
  {
    GateAlwaysHolds(actions);
    assert OneWalletPerCurrency(Run(START, actions).db.wallets);
  }

  ghost predicate VerifiedStay(db: Db, after: Db) {
    && |db.users| <= |after.users|
    && forall u | 0 <= u < |db.users| && db.users[u].kyc == Verified :: after.users[u].kyc == Verified
  }

  lemma StepKeepsVerified(s: System, a: Action)
    requires GateHolds(s.db)
    ensures VerifiedStay(s.db, Step(s, a).db)
  {
    match a
    case Call(r) => ServeKeepsIdentities(s.db, r);
    case CallDirect(d) =>
    case Begin(r) =>
    case Finish(k, aborts) =>
      if k < |s.inflight| && !aborts {
        LandKeepsIdentities(s.db, s.inflight[k]);
      }
  }

  /** Main result: a verified identity stays verified in every continuation of every run. */
  lemma {:induction false} VerifiedForEver(before: seq<Action>, later: seq<Action>, u: UserId)
    requires u < |Run(START, before).db.users| && Run(START, before).db.users[u].kyc == Verified
    ensures u < |Run(START, before + later).db.users| && Run(START, before + later).db.users[u].kyc == Verified
  {
    if |later| == 0 {
      assert before + later == before;
    } else {
      var n := |later| - 1;
      VerifiedForEver(before, later[..n], u);
      assert (before + later)[..|before + later| - 1] == before + later[..n];
      GateAlwaysHolds(before + later[..n]);
      StepKeepsVerified(Run(START, before + later[..n]), later[n]);
    }
  }

  /**
   A submission writes its status after having checked it in an earlier state. It keeps verified identities
   verified exactly when the user is still not verified at the time of the write.
   */
  lemma StaleSubmissionExactly(db: Db, user: UserId)
    requires GateHolds(db) && user < |db.users|
    ensures VerifiedStay(db, StoreSubmission(db, user)) && GateHolds(StoreSubmission(db, user))
            <==> db.users[user].kyc != Verified
  {
    if db.users[user].kyc != Verified {
      SubmissionKeepsGate(db, user);
    } else {
      assert StoreSubmission(db, user).users[user].kyc == InProgress;
    }
  }

  /**
   A rejection also writes after having checked the document in an earlier state. It keeps the gate and verified
   identities exactly when the document is still not approved at the time of the write.
   */
  lemma StaleRejectionExactly(db: Db, doc: DocId, now: int)
    requires GateHolds(db) && doc < |db.docs|
    ensures VerifiedStay(db, StoreRejection(db, doc, now)) && GateHolds(StoreRejection(db, doc, now))
            <==> db.docs[doc].verifiedAt.None?
  {
    var after := StoreRejection(db, doc, now);
    var user := db.docs[doc].user;
    if db.docs[doc].verifiedAt.None? {
      assert db.users[user].kyc != Verified;
      ReviewKeepsGate(db, after, doc, after.docs[doc], after.users[user]);
    } else {
      assert db.users[user].kyc == Verified && after.users[user].kyc == Refused;
    }
  }

  /** A late approval is harmless: whatever has happened to the document since the check, the gate stays. */
  lemma StaleApprovalKeepsGate(db: Db, doc: DocId, now: int)
    requires GateHolds(db) && doc < |db.docs|
    ensures VerifiedStay(db, StoreApproval(db, doc, now)) && GateHolds(StoreApproval(db, doc, now))
  {
    var after := StoreApproval(db, doc, now);
    var user := db.docs[doc].user;
    if db.docs[doc].verifiedAt.None? {
      ReviewKeepsGate(db, after, doc, after.docs[doc], after.users[user]);
    } else {
      VerifiedAgain(db, after, doc, now);
    }
  }

  lemma VerifiedAgain(db: Db, after: Db, doc: DocId, now: int)
    requires GateHolds(db) && doc < |db.docs| && db.docs[doc].verifiedAt.Some?
    requires after == StoreApproval(db, doc, now)
    ensures GateHolds(after)
  {
    forall u | 0 <= u < |after.users| && after.users[u].kyc == Verified
      ensures exists d :: 0 <= d < |after.docs| && after.docs[d].user == u
    {
      var d :| 0 <= d < |db.docs| && db.docs[d].user == u;
      assert after.docs[d].user == u;
    }
    forall u | 0 <= u < |after.users| && after.users[u].emailVerified ensures HasPrimary(after.wallets, u) {
      assert db.users[u].emailVerified;
    }
  }

  /**
   An approval and a rejection of one open document, both checked before either writes: the identity ends refused
   with the tier of a verified one, which opens foreign currencies.
   */
  lemma ReviewsCheckedTogether(db: Db, doc: DocId, approvedAt: int, rejectedAt: int)
    requires GateHolds(db) && ApproveKyc(db, doc, approvedAt).1.Done? && RejectKyc(db, doc, rejectedAt).1.Done?
    ensures var after := StoreRejection(StoreApproval(db, doc, approvedAt), doc, rejectedAt);
            var user := after.users[db.docs[doc].user];
            user.kyc == Refused && user.tier == Tier2 && !GateHolds(after)
  {
    var user := db.docs[doc].user;
    var after := StoreRejection(StoreApproval(db, doc, approvedAt), doc, rejectedAt);
    assert after.users[user].tier == Tier2 && after.users[user].kyc != Verified;
  }

  // ---- e-mail addresses and phone numbers

  /** Users keep their contacts; a new one comes last, with an address and a number nobody has. */
  ghost predicate ContactsStay(users: seq<User>, after: seq<User>) {
    && |users| <= |after| <= |users| + 1
    && (forall u | 0 <= u < |users| :: after[u].email == users[u].email && after[u].phone == users[u].phone)
    && (|after| == |users| + 1 ==> !Registered(users, after[|users|].email, after[|users|].phone))
  }

  ghost predicate ContactsDistinct(users: seq<User>) {
    forall u, v | 0 <= u < v < |users| :: users[u].email != users[v].email && users[u].phone != users[v].phone
  }

  lemma StepKeepsContacts(s: System, a: Action)
    ensures ContactsStay(s.db.users, Step(s, a).db.users)
  {
    if a.Call? {
      ServeKeepsIdentities(s.db, a.r);
    } else if a.CallDirect? {
      GuardedKeepsContacts(s.db, a.d);
    } else if a.Finish? && a.k < |s.inflight| && !a.aborts {
      LandKeepsIdentities(s.db, s.inflight[a.k]);
    }
  }

  lemma GuardedKeepsContacts(db: Db, d: DirectRequest)
    ensures ContactsStay(db.users, Guarded(db, d).0.users)
  {
    if d.RegisterReq? {
      assert Guarded(db, d) == Register(db, d.email, d.phone);
    } else if d.VerifyEmailReq? || d.SubmitKycReq? || d.ApproveKycReq? || d.RejectKycReq? {
      OneUserRowMoves(db, d);
    } else {
      assert Guarded(db, d).0.users == db.users;
    }
  }

  lemma OneUserRowMoves(db: Db, d: DirectRequest)
    requires d.VerifyEmailReq? || d.SubmitKycReq? || d.ApproveKycReq? || d.RejectKycReq?
    ensures var after := Guarded(db, d).0.users;
            && |after| == |db.users|
            && forall u | 0 <= u < |after| :: after[u].email == db.users[u].email && after[u].phone == db.users[u].phone
  {
  }

  lemma NewContactsDiffer(users: seq<User>, after: seq<User>)
    requires ContactsDistinct(users) && ContactsStay(users, after)
    ensures ContactsDistinct(after)
  {
    forall u, v | 0 <= u < v < |after| ensures after[u].email != after[v].email && after[u].phone != after[v].phone {
      assert after[u].email == users[u].email && after[u].phone == users[u].phone;
    }
  }

  /** Main result: in every state of every run no two users share an e-mail address or a phone number. */
  lemma {:induction false} ContactsAlwaysDistinct(actions: seq<Action>)
    ensures ContactsDistinct(Run(START, actions).db.users)
  {
    if |actions| > 0 {
      var front, last := actions[..|actions| - 1], actions[|actions| - 1];
      ContactsAlwaysDistinct(front);
      var s := Run(START, front);
      StepKeepsContacts(s, last);
      NewContactsDiffer(s.db.users, Step(s, last).db.users);
    }
  }
}
