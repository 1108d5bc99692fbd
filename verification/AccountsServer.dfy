// The account service over its tables, statement by statement. Every method is one step of
// `Accounts`, or the steps its contract names; a transaction that fails is rolled back.
module AccountsServer {
  import opened Wrappers
  import opened Accounts

  lemma AgeUpIs(s: State, u: Id)
    requires s.admitted[u] > 0
    ensures var fails := u !in s.users || s.users[u].deleted || s.users[u].attempts >= 3;
            && (fails ==> Try(s, Step.AgeUp(u)) == None)
            && (!fails ==>
                  var row := s.users[u].(adult := true, status := Active, attempts := s.users[u].attempts + 1);
                  var after := s.(admitted := s.admitted - multiset{u}, users := s.users[u := row],
                                  consents := Revoked(s.consents, u));
                  Try(s, Step.AgeUp(u)) == Some(after) && Next(s, Step.AgeUp(u)) == after)
    ensures Next(s, DropAgeUp(u)) == s.(admitted := s.admitted - multiset{u})
  {
  }

  lemma SuspendIs(s: State, inactive: set<Id>)
    ensures Next(s, Suspend(inactive)) == s.(users := AllSuspended(s.users, inactive))
  {
  }

  lemma SuspendedRows(users: map<Id, User>, inactive: set<Id>)
    ensures (map u | u in users ::
              if u in inactive && users[u].role == Player && users[u].status == Active && !users[u].deleted
              then users[u].(status := Suspended, version := users[u].version + 1)
              else users[u]) == AllSuspended(users, inactive)
  {
  }

  lemma LogoutIs(s: State, u: Id)
    ensures Next(Next(s, BumpVersion(u)), RevokeAllRefresh(u)) ==
            s.(users := if u in s.users then s.users[u := s.users[u].(version := s.users[u].version + 1)] else s.users,
               refreshTokens := RefreshRevoked(s.refreshTokens, u))
  {
    hide RefreshRevoked;
  }

  lemma SameUsersSameDoor(s: State, t: State, c: Claim)
    requires t.users == s.users
    ensures Valid(s, c) <==> Valid(t, c)
  {
  }

  lemma LogoutCutsOff(s: State, u: Id)
    requires Sound(s)
    ensures var t := Next(Next(s, BumpVersion(u)), RevokeAllRefresh(u));
            Sound(t) && t.issued == s.issued && forall c: Claim :: c in s.issued && c.user == u ==> !Valid(t, c)
  {
    StepKeepsSound(s, BumpVersion(u));
    StepKeepsSound(Next(s, BumpVersion(u)), RevokeAllRefresh(u));
    LogoutIs(s, u);
    hide MinorsConsented, UsersFine, Next, RefreshRevoked;
    assert forall c: Claim :: c in s.issued && c.user == u ==> u in s.users && c.version <= s.users[u].version;
    hide Sound;
  }

  lemma CancelIs(s: State, u: Id)
    ensures Next(s, Cancel(u)) == Cancelled(s, u)
  {
    hide Cancelled;
  }

  lemma ResolveIs(s: State, r: Id, approved: bool)
    ensures var waits := r in s.arco && s.arco[r].status == Waiting;
            Next(s, ResolveArco(r, approved)) ==
              if !waits then s
              else (if approved && s.arco[r].cancels then Cancelled(s, s.arco[r].user) else s)
                .(arco := s.arco[r := s.arco[r].(status := if approved then Resolved else Rejected)])
  {
    hide Cancelled;
  }

  lemma VerifyIs(s: State, h: Hash, expired: bool)
    ensures Next(s, VerifyConsent(h, expired)) ==
            if h !in s.consentTokens || s.consentTokens[h].verified || expired then s
            else
              var u := s.consentTokens[h].user;
              s.(consents := s.consents + [Consent(u, false)],
                 consentTokens := s.consentTokens[h := ConsentToken(u, true)],
                 users := if u in s.users then s.users[u := ActivatedUser(s.users[u])] else s.users)
  {
    hide ActivatedUser;
  }

  // Every refresh token of the user is revoked, and all others are as they were.
  predicate OnlyRevokedOf(before: map<Hash, RefreshToken>, after: map<Hash, RefreshToken>, u: Id) {
    && after.Keys == before.Keys
    && forall h :: h in before ==>
         after[h] == RefreshToken(before[h].user, before[h].revoked || before[h].user == u)
  }

  class AccountDatabase {
    var users: map<Id, User>
    var consents: seq<Consent>
    var consentTokens: map<Hash, ConsentToken>
    var refreshTokens: map<Hash, RefreshToken>
    var arco: map<Id, ArcoRequest>
    ghost var seen: set<Claim>
    ghost var issued: set<Claim>
    ghost var admitted: multiset<Id>

    ghost function Now(): State
      reads this
    {
      State(users, consents, consentTokens, refreshTokens, arco, seen, issued, admitted)
    }

    constructor ()
      ensures Now() == EMPTY && Sound(Now())
    {
      users, consents, consentTokens, refreshTokens, arco := map[], [], map[], map[], map[];
      seen, issued, admitted := {}, {}, multiset{};
      new;
      EmptyIsSound();
    }

    // ------------------------------------------------------------- registration, login

    method Register(u: Id, adult: bool) returns (ok: bool)
      requires Sound(Now())
      modifies this`users
      ensures Now() == Next(old(Now()), Step.Register(u, adult)) && Sound(Now())
      ensures ok <==> u !in old(users)
    {
      StepKeepsSound(Now(), Step.Register(u, adult));
      if u in users {
        return false;
      }
      var status := Active;
      if !adult {
        status := Pending;
      }
      users := users[u := User(status, 1, adult, Player, false, 0)];
      return true;
    }

    // The first half of a login: the row is read and its status and password are checked.
    method ReadForLogin(u: Id, passwordOk: bool) returns (claim: Option<Claim>)
      requires Sound(Now())
      modifies this`seen
      ensures Now() == Next(old(Now()), ReadLogin(u, passwordOk)) && Sound(Now())
      ensures claim.Some? <==> u in users && users[u].status.Active? && passwordOk
      ensures claim.Some? ==> claim == Some(Claim(u, users[u].version)) && claim.value in seen && Valid(Now(), claim.value)
    {
      hide MinorsConsented;
      StepKeepsSound(Now(), ReadLogin(u, passwordOk));
      if u !in users || users[u].deleted {
        return None;
      }
      if users[u].status == Suspended || users[u].status == Deleted || users[u].status == Pending {
        return None;
      }
      if !passwordOk {
        return None;
      }
      claim := Some(Claim(u, users[u].version));
      seen := seen + {claim.value};
    }

    method ReadForRefresh(h: Hash, expired: bool) returns (claim: Option<Claim>)
      requires Sound(Now())
      modifies this`seen
      ensures Now() == Next(old(Now()), ReadRefresh(h, expired)) && Sound(Now())
      ensures claim.Some? <==>
                && h in refreshTokens && !refreshTokens[h].revoked && !expired
                && refreshTokens[h].user in users
                && users[refreshTokens[h].user].status.Active? && !users[refreshTokens[h].user].deleted
      ensures claim.Some? ==>
                && claim == Some(Claim(refreshTokens[h].user, users[refreshTokens[h].user].version))
                && claim.value in seen && Valid(Now(), claim.value)
      ensures claim.None? ==> seen == old(seen)
    {
      hide MinorsConsented;
      StepKeepsSound(Now(), ReadRefresh(h, expired));
      if h !in refreshTokens || refreshTokens[h].revoked || expired {
        return None;
      }
      var u := refreshTokens[h].user;
      if u !in users || users[u].deleted {
        return None;
      }
      if users[u].status == Suspended || users[u].status == Deleted || users[u].status == Pending {
        return None;
      }
      claim := Some(Claim(u, users[u].version));
      seen := seen + {claim.value};
    }

    // The second half of a login or a refresh, however much later.
    method SignToken(claim: Claim)
      requires Sound(Now()) && claim in seen
      modifies this`issued
      ensures Now() == Next(old(Now()), Issue(claim)) && Sound(Now())
      ensures issued == old(issued) + {claim}
    {
      StepKeepsSound(Now(), Issue(claim));
      issued := issued + {claim};
    }

    method RevokeRefreshToken(h: Hash)
      requires Sound(Now())
      modifies this`refreshTokens
      ensures Now() == Next(old(Now()), RevokeRefresh(h)) && Sound(Now())
      ensures h in old(refreshTokens) ==>
                refreshTokens == old(refreshTokens)[h := RefreshToken(old(refreshTokens)[h].user, true)]
      ensures h !in old(refreshTokens) ==> refreshTokens == old(refreshTokens)
    {
      StepKeepsSound(Now(), RevokeRefresh(h));
      hide Sound;
      if h in refreshTokens {
        refreshTokens := refreshTokens[h := refreshTokens[h].(revoked := true)];
      }
    }

    // A hash that is taken is refused, as is a user without a row.
    method InsertRefreshToken(h: Hash, u: Id) returns (ok: bool)
      requires Sound(Now())
      modifies this`refreshTokens
      ensures Now() == Next(old(Now()), StoreRefresh(h, u)) && Sound(Now())
      ensures ok <==> h !in old(refreshTokens) && u in users
      ensures refreshTokens == if ok then old(refreshTokens)[h := RefreshToken(u, false)] else old(refreshTokens)
    {
      StepKeepsSound(Now(), StoreRefresh(h, u));
      hide Sound;
      if h in refreshTokens || u !in users {
        return false;
      }
      refreshTokens := refreshTokens[h := RefreshToken(u, false)];
      return true;
    }

    // A whole refresh when nothing comes between its statements: the token is used up, and a
    // valid access token and one new refresh token take its place.
    method Refresh(h: Hash, expired: bool, newHash: Hash) returns (claim: Option<Claim>)
      requires Sound(Now())
      modifies this`seen, this`issued, this`refreshTokens
      ensures Sound(Now())
      ensures var k := old(refreshTokens);
              var works := h in k && !k[h].revoked && !expired && k[h].user in users && users[k[h].user].status.Active? && !users[k[h].user].deleted;
              && (claim.Some? <==> works && newHash !in k)
              && (!works ==> Now() == old(Now()))
              && (works ==>
                    var used := k[h := RefreshToken(k[h].user, true)];
                    refreshTokens == if newHash in k then used else used[newHash := RefreshToken(k[h].user, false)])
              && (claim.Some? ==>
                    && claim == Some(Claim(k[h].user, users[k[h].user].version))
                    && claim.value in issued && Valid(Now(), claim.value))
    {
      hide Sound, Next, Valid;
      claim := ReadForRefresh(h, expired);
      if claim.None? {
        return None;
      }
      ghost var read := Now();
      RevokeRefreshToken(h);
      SignToken(claim.value);
      var ok := InsertRefreshToken(newHash, claim.value.user);
      if !ok {
        return None;
      }
      SameUsersSameDoor(read, Now(), claim.value);
    }

    // What every authenticated request passes: its token is genuine, so it was issued, and
    // its version is the stored one of an account that is not deleted.  An age-up request that
    // passes is waiting to be served.
    method Authenticate(claim: Claim, genuine: bool, asksAgeUp: bool) returns (ok: bool)
      requires Sound(Now()) && (genuine ==> claim in issued)
      modifies this`admitted
      ensures ok <==> genuine && Valid(old(Now()), claim)
      ensures Now() == if ok && asksAgeUp then Next(old(Now()), AdmitAgeUp(claim)) else old(Now())
      ensures Sound(Now())
      ensures ok ==> users[claim.user].status.Active? && (asksAgeUp ==> admitted[claim.user] > 0)
    {
      hide MinorsConsented, UsersFine;
      StepKeepsSound(Now(), AdmitAgeUp(claim));
      if !genuine {
        return false;
      }
      if claim.user !in users || users[claim.user].deleted {
        return false;
      }
      if users[claim.user].version != claim.version {
        return false;
      }
      if asksAgeUp {
        admitted := admitted + multiset{claim.user};
      }
      return true;
    }

    method RevokeRefreshTokensForUser(u: Id)
      modifies this`refreshTokens
      ensures refreshTokens == RefreshRevoked(old(refreshTokens), u)
      ensures OnlyRevokedOf(old(refreshTokens), refreshTokens, u)
    {
      refreshTokens := map h | h in refreshTokens ::
        if refreshTokens[h].user == u then refreshTokens[h].(revoked := true) else refreshTokens[h];
    }

    // Two statements outside a transaction.
    method Logout(u: Id)
      requires Sound(Now())
      modifies this`users, this`refreshTokens
      ensures Now() == Next(Next(old(Now()), BumpVersion(u)), RevokeAllRefresh(u)) && Sound(Now())
      ensures forall c: Claim :: c in issued && c.user == u ==> !Valid(Now(), c)
      ensures OnlyRevokedOf(old(refreshTokens), refreshTokens, u)
    {
      LogoutCutsOff(Now(), u);
      LogoutIs(Now(), u);
      hide *;
      if u in users {
        users := users[u := users[u].(version := users[u].version + 1)];
      }
      RevokeRefreshTokensForUser(u);
    }

    // --------------------------------------------------------------- consents, age-up

    method PseudonymizeTutorConsents(u: Id)
      modifies this`consents
      ensures consents == Revoked(old(consents), u)
    {
      var rows := consents;
      for i := 0 to |rows|
        invariant |rows| == |consents|
        invariant forall j :: 0 <= j < i ==> rows[j] == Revoked(consents, u)[j]
        invariant forall j :: i <= j < |rows| ==> rows[j] == consents[j]
      {
        if rows[i].user == u {
          rows := rows[i := rows[i].(revoked := true)];
        }
      }
      assert rows == Revoked(consents, u);
      consents := rows;
    }

    // The new number of attempts; None when there is no such account.
    method IncrementAgeUpAttempts(u: Id) returns (attempts: Option<nat>)
      modifies this`users
      ensures u in old(users) && !old(users)[u].deleted ==>
                && attempts == Some(old(users)[u].attempts + 1)
                && users == old(users)[u := old(users)[u].(attempts := attempts.value)]
      ensures u !in old(users) || old(users)[u].deleted ==> attempts == None && users == old(users)
    {
      if u !in users || users[u].deleted {
        return None;
      }
      users := users[u := users[u].(attempts := users[u].attempts + 1)];
      return Some(users[u].attempts);
    }

    // An admitted age-up.  A fourth attempt is refused, and its increment rolled back.
    method AgeUp(u: Id) returns (ok: bool)
      requires Sound(Now()) && admitted[u] > 0
      modifies this`users, this`consents, this`admitted
      ensures ok <==> u in old(users) && !old(users)[u].deleted && old(users)[u].attempts < 3
      ensures ok <==> Try(old(Now()), Step.AgeUp(u)).Some?
      ensures Now() == Next(old(Now()), if ok then Step.AgeUp(u) else DropAgeUp(u)) && Sound(Now())
    {
      hide Next, Try, Sound, Revoked;
      StepKeepsSound(Now(), Step.AgeUp(u));
      StepKeepsSound(Now(), DropAgeUp(u));
      AgeUpIs(Now(), u);
      admitted := admitted - multiset{u};
      var rollback := users;
      var attempts := IncrementAgeUpAttempts(u);
      if attempts.None? {
        return false;
      }
      if attempts.value > 3 {
        users := rollback;
        return false;
      }
      if u in users && !users[u].deleted {
        users := users[u := users[u].(adult := true, status := Active)];
      }
      PseudonymizeTutorConsents(u);
      return true;
    }

    method StoreTutorConsentToken(u: Id, h: Hash) returns (ok: bool)
      requires Sound(Now())
      modifies this`consentTokens
      ensures Now() == Next(old(Now()), StoreConsentToken(u, h)) && Sound(Now())
      ensures ok <==> u in users && h !in old(consentTokens)
    {
      StepKeepsSound(Now(), StoreConsentToken(u, h));
      hide Sound;
      if u !in users || h in consentTokens {
        return false;
      }
      var kept := map k | k in consentTokens && !(consentTokens[k].user == u && !consentTokens[k].verified) :: consentTokens[k];
      assert kept == Kept(consentTokens, u);
      consentTokens := kept[h := ConsentToken(u, false)];
      return true;
    }

    method ActivateTutorConsentUser(u: Id)
      modifies this`users
      ensures users == if u in old(users) then old(users)[u := ActivatedUser(old(users)[u])] else old(users)
    {
      if u in users && users[u].status == Pending && !users[u].deleted {
        users := users[u := users[u].(status := Active)];
      }
    }

    method ProcessTutorConsentVerification(h: Hash, expired: bool) returns (ok: bool)
      requires Sound(Now())
      modifies this`users, this`consents, this`consentTokens
      ensures Now() == Next(old(Now()), VerifyConsent(h, expired)) && Sound(Now())
      ensures ok <==> h in old(consentTokens) && !old(consentTokens)[h].verified && !expired
      ensures h in consentTokens && ok ==> consentTokens[h].verified
    {
      StepKeepsSound(Now(), VerifyConsent(h, expired));
      VerifyIs(Now(), h, expired);
      hide Sound, Next, ActivatedUser;
      if h !in consentTokens {
        return false;
      }
      var row := consentTokens[h];
      if row.verified || expired {
        return false;
      }
      consents := consents + [Consent(row.user, false)];
      consentTokens := consentTokens[h := row.(verified := true)];
      ActivateTutorConsentUser(row.user);
      return true;
    }

    // ------------------------------------------------------------ suspension, cancellation

    method SuspendInactivePlayers(inactive: set<Id>)
      requires Sound(Now())
      modifies this`users
      ensures Now() == Next(old(Now()), Suspend(inactive)) && Sound(Now())
    {
      StepKeepsSound(Now(), Suspend(inactive));
      SuspendIs(Now(), inactive);
      SuspendedRows(users, inactive);
      hide Sound, Next, AllSuspended;
      users := map u | u in users ::
        if u in inactive && users[u].role == Player && users[u].status == Active && !users[u].deleted
        then users[u].(status := Suspended, version := users[u].version + 1)
        else users[u];
    }

    method PseudonymizeUser(u: Id)
      modifies this`users
      ensures users == if u in old(users) then old(users)[u := CancelledUser(old(users)[u])] else old(users)
    {
      if u in users && !users[u].deleted {
        users := users[u := users[u].(status := Deleted, deleted := true, version := users[u].version + 1)];
      }
    }

    method CancelUser(u: Id)
      requires Sound(Now())
      modifies this`users, this`consents, this`refreshTokens
      ensures Now() == Next(old(Now()), Cancel(u)) && Sound(Now())
      ensures OnlyRevokedOf(old(refreshTokens), refreshTokens, u)
    {
      StepKeepsSound(Now(), Cancel(u));
      CancelIs(Now(), u);
      hide Sound, Next, Revoked, RefreshRevoked, CancelledUser, OnlyRevokedOf;
      PseudonymizeTutorConsents(u);
      PseudonymizeUser(u);
      RevokeRefreshTokensForUser(u);
    }

    // An administrator decides a waiting request once; an approved cancellation cancels.
    method ResolveArcoRequest(r: Id, approved: bool) returns (ok: bool)
      requires Sound(Now())
      modifies this`users, this`consents, this`refreshTokens, this`arco
      ensures Now() == Next(old(Now()), ResolveArco(r, approved)) && Sound(Now())
      ensures ok <==> r in old(arco) && old(arco)[r].status == Waiting
      ensures ok && approved && arco[r].cancels && arco[r].user in users ==> users[arco[r].user].status.Deleted?
    {
      StepKeepsSound(Now(), ResolveArco(r, approved));
      ResolveIs(Now(), r, approved);
      CancelIs(Now(), if r in arco then arco[r].user else 0);
      assert forall u :: u in users ==> UserFine(users[u]);
      hide Sound, Next, Revoked, RefreshRevoked;
      if r !in arco || arco[r].status != Waiting {
        return false;
      }
      var status := Rejected;
      if approved {
        status := Resolved;
      }
      if approved && arco[r].cancels {
        CancelUser(arco[r].user);
      }
      arco := arco[r := arco[r].(status := status)];
      return true;
    }
  }
}
