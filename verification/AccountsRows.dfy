// Table by table and row by row: what each step does, and over whole runs which refresh tokens
// still work.
module AccountsRows {
  import opened Accounts

  // ------------------------------------------------------------ which step does what

  predicate Approves(s: State, step: Step, u: Id) {
    && step.ResolveArco? && step.approved && step.request in s.arco
    && s.arco[step.request] == ArcoRequest(u, true, Waiting)
  }

  // The step cancels the account, or would if there were one.
  predicate Cancels(s: State, step: Step, u: Id) {
    step == Cancel(u) || Approves(s, step, u)
  }

  predicate AgesUp(s: State, step: Step, u: Id) {
    && step == AgeUp(u) && s.admitted[u] > 0
    && u in s.users && !s.users[u].deleted && s.users[u].attempts < 3
  }

  predicate Suspends(s: State, step: Step, u: Id) {
    && step.Suspend? && u in step.inactive
    && u in s.users && s.users[u].role.Player? && s.users[u].status.Active? && !s.users[u].deleted
  }

  // The step follows an open link.
  predicate FollowsLink(s: State, step: Step, h: Hash, u: Id) {
    step == VerifyConsent(h, false) && h in s.consentTokens && s.consentTokens[h] == ConsentToken(u, false)
  }

  predicate FollowsSome(s: State, step: Step) {
    && step.VerifyConsent? && step.hash in s.consentTokens
    && FollowsLink(s, step, step.hash, s.consentTokens[step.hash].user)
  }

  // ------------------------------------------------------------------- account rows

  // Every field of an account's row after a step.
  lemma AccountAfter(s: State, step: Step, u: Id)
    requires u in s.users
    ensures u in Next(s, step).users
    ensures var a, b := s.users[u], Next(s, step).users[u];
            var ends := Cancels(s, step, u) && !a.deleted;
            && (b.version == a.version + if step == BumpVersion(u) || Suspends(s, step, u) || ends then 1 else 0)
            && (b.deleted <==> a.deleted || ends)
            && (b.adult <==> a.adult || AgesUp(s, step, u))
            && (b.attempts == a.attempts + if AgesUp(s, step, u) then 1 else 0)
            && (b.role == if step == MakeAdmin(u) then Admin else a.role)
            && (b.status == if ends then Deleted
                            else if Suspends(s, step, u) then Suspended
                            else if AgesUp(s, step, u) then Active
                            else if Opens(s, step, u) then Active else a.status)
  {
    StepOnRow(s, step, u);
    hide Next;
    StatusAfter(s, step, u);
    FieldsAfter(s, step, u);
    hide *;
  }

  lemma StatusAfter(s: State, step: Step, u: Id)
    requires u in s.users
    ensures var a, b := s.users[u], RowAfter(s, step, u);
            var ends := Cancels(s, step, u) && !a.deleted;
            b.status == if ends then Deleted
                        else if Suspends(s, step, u) then Suspended
                        else if AgesUp(s, step, u) then Active
                        else if Opens(s, step, u) then Active else a.status
  {
  }

  lemma FieldsAfter(s: State, step: Step, u: Id)
    requires u in s.users
    ensures var a, b := s.users[u], RowAfter(s, step, u);
            var ends := Cancels(s, step, u) && !a.deleted;
            && (b.version == a.version + if step == BumpVersion(u) || Suspends(s, step, u) || ends then 1 else 0)
            && (b.deleted <==> a.deleted || ends)
            && (b.adult <==> a.adult || AgesUp(s, step, u))
            && (b.attempts == a.attempts + if AgesUp(s, step, u) then 1 else 0)
            && (b.role == if step == MakeAdmin(u) then Admin else a.role)
  {
  }

  predicate Opens(s: State, step: Step, u: Id) {
    && step.VerifyConsent? && FollowsLink(s, step, step.hash, u)
    && u in s.users && s.users[u].status.Pending? && !s.users[u].deleted
  }

  // The only new rows are registrations.
  lemma AccountsGrow(s: State, step: Step, u: Id)
    requires u !in s.users
    ensures u in Next(s, step).users <==> step.Register? && step.id == u
    ensures step.Register? && step.id == u ==>
              Next(s, step).users[u] == User(if step.adult then Active else Pending, 1, step.adult, Player, false, 0)
  {
    hide Revoked, RefreshRevoked, Kept, SuspendedUser, CancelledUser, ActivatedUser;
  }

  // -------------------------------------------------------------- consents and links

  // Every consent keeps its user; it is revoked by its user's cancellation or age-up, and a new
  // one comes from following an open link only.
  lemma ConsentAfter(s: State, step: Step, i: nat)
    ensures var t := Next(s, step);
            && (i < |s.consents| ==> i < |t.consents| && t.consents[i].user == s.consents[i].user)
            && (i < |s.consents| ==>
                  var u := s.consents[i].user;
                  t.consents[i].revoked <==> s.consents[i].revoked || Cancels(s, step, u) || AgesUp(s, step, u))
            && (|t.consents| == |s.consents| + if FollowsSome(s, step) then 1 else 0)
            && (i == |s.consents| && FollowsSome(s, step) ==>
                  t.consents[i] == Consent(s.consentTokens[step.hash].user, false))
  {
    StepOnConsents(s, step);
    hide Next;
    if i < |s.consents| {
      ConsentRow(s, step, i);
      hide ConsentsAfter, Cancels, AgesUp;
    }
  }

  lemma ConsentRow(s: State, step: Step, i: nat)
    requires i < |s.consents|
    ensures i < |ConsentsAfter(s, step)|
    ensures var u, c := s.consents[i].user, ConsentsAfter(s, step)[i];
            c.user == u && (c.revoked <==> s.consents[i].revoked || Cancels(s, step, u) || AgesUp(s, step, u))
  {
  }

  predicate AsksAgain(s: State, step: Step, u: Id) {
    step.StoreConsentToken? && step.id == u && u in s.users && step.hash !in s.consentTokens
  }

  // A link is there until its user asks for another before it was followed; following it marks
  // it, once and for all.
  lemma LinkAfter(s: State, step: Step, h: Hash)
    ensures var t := Next(s, step).consentTokens;
            && (h in s.consentTokens ==>
                  var k := s.consentTokens[h];
                  && (h in t <==> k.verified || !AsksAgain(s, step, k.user))
                  && (h in t ==> t[h].user == k.user && (t[h].verified <==> k.verified || FollowsLink(s, step, h, k.user))))
            && (h !in s.consentTokens ==>
                  && (h in t <==> step.StoreConsentToken? && step.hash == h && step.id in s.users)
                  && (h in t ==> t[h] == ConsentToken(step.id, false)))
  {
    hide Revoked, RefreshRevoked, SuspendedUser, CancelledUser, ActivatedUser, AllSuspended, Valid;
  }

  // ------------------------------------------------------- requests, reads and tokens

  // A request is decided once, by the first step that resolves it.
  lemma RequestAfter(s: State, step: Step, r: Id)
    ensures var t := Next(s, step).arco;
            && (r in s.arco ==>
                  var waits := s.arco[r].status == Waiting;
                  && r in t && t[r].user == s.arco[r].user && t[r].cancels == s.arco[r].cancels
                  && t[r].status == if waits && step == ResolveArco(r, true) then Resolved
                                    else if waits && step == ResolveArco(r, false) then Rejected
                                    else s.arco[r].status)
            && (r !in s.arco ==>
                  && (r in t <==> step.SubmitArco? && step.request == r)
                  && (r in t ==> t[r] == ArcoRequest(step.id, step.cancels, Waiting)))
  {
    hide Revoked, RefreshRevoked, Kept, SuspendedUser, CancelledUser, ActivatedUser, AllSuspended, Valid;
  }

  // Whose row a login or a refresh reads.
  predicate ReadsRow(s: State, step: Step, u: Id) {
    && u in s.users && s.users[u].status.Active? && !s.users[u].deleted
    && match step
       case ReadLogin(v, passwordOk) => v == u && passwordOk
       case ReadRefresh(h, expired) => h in s.refreshTokens && s.refreshTokens[h] == RefreshToken(u, false) && !expired
       case _ => false
  }

  // Rows are read by logins with the right password and by refreshes with an unrevoked, unexpired
  // token, of active accounts only; tokens are signed for rows that were read.
  lemma ReadsAfter(s: State, step: Step, c: Claim)
    ensures c in Next(s, step).seen <==>
            c in s.seen || (ReadsRow(s, step, c.user) && c.version == s.users[c.user].version)
    ensures c in Next(s, step).issued <==> c in s.issued || (step == Issue(c) && c in s.seen)
  {
    hide Revoked, RefreshRevoked, Kept, SuspendedUser, CancelledUser, ActivatedUser, AllSuspended, Valid;
  }

  // Age-up requests are let in with a token that is issued and valid, and each is used up once.
  lemma AdmittedAfter(s: State, step: Step, u: Id)
    ensures var before, after := s.admitted[u], Next(s, step).admitted[u];
            after == if step.AdmitAgeUp? && step.claim.user == u && step.claim in s.issued && Valid(s, step.claim) then before + 1
                     else if before > 0 && (step == DropAgeUp(u) || AgesUp(s, step, u)) then before - 1
                     else before
  {
    hide Next, Try, Valid;
    match step
    case AdmitAgeUp(c) => AdmittedOnAdmit(s, c, u);
    case DropAgeUp(v) => AdmittedOnDrop(s, v, u);
    case AgeUp(v) => AdmittedOnAgeUp(s, v, u);
    case _ => AdmittedOtherwise(s, step);
  }

  lemma AdmittedOnAdmit(s: State, c: Claim, u: Id)
    ensures Next(s, AdmitAgeUp(c)).admitted[u] ==
            s.admitted[u] + if c.user == u && c in s.issued && Valid(s, c) then 1 else 0
  {
    hide Valid;
  }

  lemma AdmittedOnDrop(s: State, v: Id, u: Id)
    ensures Next(s, DropAgeUp(v)).admitted[u] == if v == u && s.admitted[u] > 0 then s.admitted[u] - 1 else s.admitted[u]
  {
  }

  lemma AdmittedOnAgeUp(s: State, v: Id, u: Id)
    ensures Next(s, AgeUp(v)).admitted[u] == if AgesUp(s, AgeUp(v), u) then s.admitted[u] - 1 else s.admitted[u]
  {
    hide Revoked;
  }

  lemma AdmittedOtherwise(s: State, step: Step)
    requires !step.AdmitAgeUp? && !step.DropAgeUp? && !step.AgeUp?
    ensures Next(s, step).admitted == s.admitted
  {
    hide Revoked, RefreshRevoked, Kept, SuspendedUser, CancelledUser, ActivatedUser, AllSuspended, Valid;
  }

  // --------------------------------------------------------------------- refresh tokens

  // The step revokes the refresh token h of user u.
  predicate RevokesRefresh(s: State, step: Step, h: Hash, u: Id) {
    step == RevokeRefresh(h) || step == RevokeAllRefresh(u) || Cancels(s, step, u)
  }

  predicate Stores(s: State, step: Step, h: Hash, u: Id) {
    step == StoreRefresh(h, u) && h !in s.refreshTokens && u in s.users
  }

  // A refresh token keeps its user; it is revoked by name, with all of its user's, or by its
  // user's cancellation, and by nothing else.
  lemma RefreshAfter(s: State, step: Step, h: Hash)
    ensures var t := Next(s, step).refreshTokens;
            && (h in s.refreshTokens ==>
                  var k := s.refreshTokens[h];
                  h in t && t[h] == RefreshToken(k.user, k.revoked || RevokesRefresh(s, step, h, k.user)))
            && (h !in s.refreshTokens ==>
                  && (h in t <==> step.StoreRefresh? && Stores(s, step, h, step.id))
                  && (h in t ==> t[h] == RefreshToken(step.id, false)))
  {
    hide Revoked, Kept, SuspendedUser, CancelledUser, ActivatedUser, AllSuspended, RefreshRevoked;
    hide Next, Try;
    if step.RevokeAllRefresh? || step.Cancel? {
      RefreshOnRevoke(s, step.id, h);
    } else if step.ResolveArco? {
      RefreshOnResolve(s, step.request, step.approved, h);
    } else {
      RefreshOtherwise(s, step, h);
    }
  }

  lemma RefreshOnRevoke(s: State, u: Id, h: Hash)
    ensures Next(s, RevokeAllRefresh(u)).refreshTokens == Next(s, Cancel(u)).refreshTokens
    ensures var t := Next(s, Cancel(u)).refreshTokens;
            && (h in t <==> h in s.refreshTokens)
            && (h in t ==> t[h] == RefreshToken(s.refreshTokens[h].user, s.refreshTokens[h].revoked || s.refreshTokens[h].user == u))
  {
    RevokedOf(s.refreshTokens, u, h);
    hide Revoked, CancelledUser, RefreshRevoked;
  }

  lemma RefreshOnResolve(s: State, r: Id, approved: bool, h: Hash)
    ensures var t, step := Next(s, ResolveArco(r, approved)).refreshTokens, ResolveArco(r, approved);
            && (h in s.refreshTokens ==>
                  var k := s.refreshTokens[h];
                  h in t && t[h] == RefreshToken(k.user, k.revoked || Approves(s, step, k.user)))
            && (h !in s.refreshTokens ==> h !in t)
  {
    hide Revoked, CancelledUser, RefreshRevoked;
    if r in s.arco {
      RevokedOf(s.refreshTokens, s.arco[r].user, h);
    }
  }

  lemma RevokedOf(tokens: map<Hash, RefreshToken>, u: Id, h: Hash)
    ensures h in RefreshRevoked(tokens, u) <==> h in tokens
    ensures h in tokens ==> RefreshRevoked(tokens, u)[h] == RefreshToken(tokens[h].user, tokens[h].revoked || tokens[h].user == u)
  {
  }

  lemma RefreshOtherwise(s: State, step: Step, h: Hash)
    requires !step.RevokeAllRefresh? && !step.Cancel? && !step.ResolveArco?
    ensures var t := Next(s, step).refreshTokens;
            && (h in s.refreshTokens ==>
                  var k := s.refreshTokens[h];
                  h in t && t[h] == RefreshToken(k.user, k.revoked || step == RevokeRefresh(h)))
            && (h !in s.refreshTokens ==>
                  && (h in t <==> step.StoreRefresh? && Stores(s, step, h, step.id))
                  && (h in t ==> t[h] == RefreshToken(step.id, false)))
  {
    hide Revoked, Kept, SuspendedUser, CancelledUser, ActivatedUser, AllSuspended, RefreshRevoked, Valid;
  }

  // After a logout, a cancellation or an approved request for one every refresh token of the user
  // is revoked, and everybody else's are as they were.
  lemma AllOfOneUserRevoked(s: State, step: Step, u: Id, h: Hash)
    requires step == RevokeAllRefresh(u) || Cancels(s, step, u)
    requires h in s.refreshTokens
    ensures var t := Next(s, step).refreshTokens;
            && h in t && (s.refreshTokens[h].user == u ==> t[h] == RefreshToken(u, true))
            && (s.refreshTokens[h].user != u ==> t[h] == s.refreshTokens[h])
  {
    RefreshAfter(s, step, h);
    hide Next;
  }

  // A revoked refresh token stays revoked, and never again is a row read with it.
  lemma {:induction false} RevokedRefreshIsDead(s: State, steps: seq<Step>, h: Hash, expired: bool)
    requires h in s.refreshTokens && s.refreshTokens[h].revoked
    ensures var t := RunFrom(s, steps);
            && h in t.refreshTokens && t.refreshTokens[h] == s.refreshTokens[h]
            && Next(t, ReadRefresh(h, expired)) == t
  {
    hide Next, Try;
    if steps != [] {
      var n := |steps| - 1;
      RevokedRefreshIsDead(s, steps[..n], h, expired);
      RefreshAfter(RunFrom(s, steps[..n]), steps[n], h);
    }
    DeadRead(RunFrom(s, steps), h, expired);
  }

  lemma DeadRead(s: State, h: Hash, expired: bool)
    requires h in s.refreshTokens && s.refreshTokens[h].revoked
    ensures Next(s, ReadRefresh(h, expired)) == s
  {
  }

  // Step k stored the token for the user, and no later step has revoked it.
  ghost predicate StoredFor(s: State, steps: seq<Step>, h: Hash, u: Id, k: nat) {
    && k < |steps| && Stores(RunFrom(s, steps[..k]), steps[k], h, u)
    && forall j :: k < j < |steps| ==> !RevokesRefresh(RunFrom(s, steps[..j]), steps[j], h, u)
  }

  lemma StoredOneMore(s: State, steps: seq<Step>, h: Hash, u: Id, k: nat)
    requires steps != []
    ensures var n := |steps| - 1;
            StoredFor(s, steps, h, u, k) <==>
              if k == n then Stores(RunFrom(s, steps[..n]), steps[n], h, u)
              else StoredFor(s, steps[..n], h, u, k) && !RevokesRefresh(RunFrom(s, steps[..n]), steps[n], h, u)
  {
    hide Stores, RevokesRefresh, RunFrom;
    var n := |steps| - 1;
    assert forall j :: 0 <= j <= n ==> steps[..n][..j] == steps[..j];
    assert forall j :: 0 <= j < n ==> steps[..n][j] == steps[j];
  }

  // Over every run: a refresh token works for a user exactly when a step stored it for that user
  // and no later step has revoked it.
  lemma {:induction false} RefreshWorksIff(steps: seq<Step>, h: Hash, u: Id)
    ensures var s := RunFrom(EMPTY, steps);
            h in s.refreshTokens && s.refreshTokens[h] == RefreshToken(u, false) <==>
              exists k: nat :: StoredFor(EMPTY, steps, h, u, k)
  {
    hide Next, StoredFor, RevokesRefresh;
    if steps == [] {
      NothingStored(h, u);
    } else {
      var n := |steps| - 1;
      var prev := RunFrom(EMPTY, steps[..n]);
      RefreshWorksIff(steps[..n], h, u);
      RefreshAfter(prev, steps[n], h);
      StoredOneMore(EMPTY, steps, h, u, n);
      if k: nat :| StoredFor(EMPTY, steps, h, u, k) {
        StoredOneMore(EMPTY, steps, h, u, k);
      }
      if k: nat :| StoredFor(EMPTY, steps[..n], h, u, k) {
        StoredInside(EMPTY, steps[..n], h, u, k);
        StoredOneMore(EMPTY, steps, h, u, k);
      }
    }
  }

  lemma NothingStored(h: Hash, u: Id)
    ensures forall k: nat :: !StoredFor(EMPTY, [], h, u, k)
    ensures RunFrom(EMPTY, []) == EMPTY
  {
  }

  lemma StoredInside(s: State, steps: seq<Step>, h: Hash, u: Id, k: nat)
    requires StoredFor(s, steps, h, u, k)
    ensures k < |steps|
  {
  }

  // An administrator is never suspended for inactivity.
  lemma AdministratorsAreNotSuspended(s: State, u: Id, inactive: set<Id>)
    requires u in s.users
    ensures var t := Next(s, MakeAdmin(u)); u in t.users && Next(t, Suspend(inactive)).users[u] == t.users[u]
  {
    var t := Next(s, MakeAdmin(u));
    StepOnRow(s, MakeAdmin(u), u);
    StepOnRow(t, Suspend(inactive), u);
    hide Next;
  }
}
