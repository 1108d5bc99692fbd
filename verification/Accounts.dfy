// The life of an account: registration, access tokens with versions, tutor consent, age-up,
// suspension and cancellation. Each step is one statement or one serializable transaction,
// so a login that reads a row now and signs a token later is two steps.
module Accounts {
  import opened Wrappers

  type Id = nat
  type Hash = nat

  datatype Status = Pending | Active | Suspended | Deleted
  datatype Role = Player | Admin

  datatype User = User(status: Status, version: nat, adult: bool, role: Role, deleted: bool, attempts: nat)
  datatype Consent = Consent(user: Id, revoked: bool)
  datatype ConsentToken = ConsentToken(user: Id, verified: bool)
  datatype RefreshToken = RefreshToken(user: Id, revoked: bool)
  datatype ArcoStatus = Waiting | Resolved | Rejected
  datatype ArcoRequest = ArcoRequest(user: Id, cancels: bool, status: ArcoStatus)

  // What an access token says: whose it is and the version its user had when it was read.
  datatype Claim = Claim(user: Id, version: nat)

  // `seen` are the rows that logins and refreshes have read, `issued` the tokens signed
  // from them, and `admitted` the age-up requests, by user, that have passed the version
  // check and not been served yet.
  datatype State = State(
    users: map<Id, User>,
    consents: seq<Consent>,
    consentTokens: map<Hash, ConsentToken>,
    refreshTokens: map<Hash, RefreshToken>,
    arco: map<Id, ArcoRequest>,
    seen: set<Claim>,
    issued: set<Claim>,
    admitted: multiset<Id>)

  const EMPTY := State(map[], [], map[], map[], map[], {}, {}, multiset{})

  const MAX_ATTEMPTS: nat := 3

  datatype Step =
    | Register(id: Id, adult: bool)
    | MakeAdmin(id: Id)
    | ReadLogin(id: Id, passwordOk: bool)
    | ReadRefresh(hash: Hash, expired: bool)
    | RevokeRefresh(hash: Hash)
    | Issue(claim: Claim)
    | AdmitAgeUp(claim: Claim)
    | DropAgeUp(id: Id)
    | StoreRefresh(hash: Hash, id: Id)
    | BumpVersion(id: Id)
    | RevokeAllRefresh(id: Id)
    | AgeUp(id: Id)
    | StoreConsentToken(id: Id, hash: Hash)
    | VerifyConsent(hash: Hash, expired: bool)
    | Suspend(inactive: set<Id>)
    | Cancel(id: Id)
    | SubmitArco(request: Id, id: Id, cancels: bool)
    | ResolveArco(request: Id, approved: bool)

  // ------------------------------------------------------------------- the steps

  function Revoked(consents: seq<Consent>, u: Id): (r: seq<Consent>)
    ensures |r| == |consents|
  {
    seq(|consents|, i requires 0 <= i < |consents| =>
      if consents[i].user == u then consents[i].(revoked := true) else consents[i])
  }

  function RefreshRevoked(tokens: map<Hash, RefreshToken>, u: Id): map<Hash, RefreshToken> {
    map h | h in tokens :: if tokens[h].user == u then tokens[h].(revoked := true) else tokens[h]
  }

  // A new link supersedes the user's links that nobody has followed.
  function Kept(tokens: map<Hash, ConsentToken>, u: Id): map<Hash, ConsentToken> {
    map k | k in tokens && (tokens[k].user != u || tokens[k].verified) :: tokens[k]
  }

  function SuspendedUser(u: User): User {
    if u.role.Player? && u.status.Active? && !u.deleted then u.(status := Suspended, version := u.version + 1) else u
  }

  function AllSuspended(users: map<Id, User>, inactive: set<Id>): map<Id, User> {
    map u | u in users :: if u in inactive then SuspendedUser(users[u]) else users[u]
  }

  function CancelledUser(u: User): User {
    if u.deleted then u else u.(status := Deleted, deleted := true, version := u.version + 1)
  }

  function ActivatedUser(u: User): User {
    if u.status.Pending? && !u.deleted then u.(status := Active) else u
  }

  function Cancelled(s: State, u: Id): State {
    s.(consents := Revoked(s.consents, u),
       users := if u in s.users then s.users[u := CancelledUser(s.users[u])] else s.users,
       refreshTokens := RefreshRevoked(s.refreshTokens, u))
  }

  // None stands for an error; its transaction is rolled back.  An age-up request is admitted
  // with an issued, valid token, and served or dropped at some later time.
  function Try(s: State, step: Step): Option<State> {
    match step
    case Register(u, adult) =>
      if u in s.users then None
      else Some(s.(users := s.users[u := User(if adult then Active else Pending, 1, adult, Player, false, 0)]))
    case MakeAdmin(u) =>
      if u !in s.users then None else Some(s.(users := s.users[u := s.users[u].(role := Admin)]))
    case ReadLogin(u, passwordOk) =>
      if u !in s.users || s.users[u].deleted || !s.users[u].status.Active? || !passwordOk then None
      else Some(s.(seen := s.seen + {Claim(u, s.users[u].version)}))
    case ReadRefresh(h, expired) =>
      if h !in s.refreshTokens || s.refreshTokens[h].revoked || expired then None
      else
        var u := s.refreshTokens[h].user;
        if u !in s.users || s.users[u].deleted || !s.users[u].status.Active? then None
        else Some(s.(seen := s.seen + {Claim(u, s.users[u].version)}))
    case RevokeRefresh(h) =>
      if h !in s.refreshTokens then None
      else Some(s.(refreshTokens := s.refreshTokens[h := s.refreshTokens[h].(revoked := true)]))
    case Issue(claim) =>
      if claim !in s.seen then None else Some(s.(issued := s.issued + {claim}))
    case AdmitAgeUp(claim) =>
      if claim !in s.issued || !Valid(s, claim) then None
      else Some(s.(admitted := s.admitted + multiset{claim.user}))
    case DropAgeUp(u) => Some(s.(admitted := s.admitted - multiset{u}))
    case StoreRefresh(h, u) =>
      if h in s.refreshTokens || u !in s.users then None
      else Some(s.(refreshTokens := s.refreshTokens[h := RefreshToken(u, false)]))
    case BumpVersion(u) =>
      if u !in s.users then None
      else Some(s.(users := s.users[u := s.users[u].(version := s.users[u].version + 1)]))
    case RevokeAllRefresh(u) => Some(s.(refreshTokens := RefreshRevoked(s.refreshTokens, u)))
    case AgeUp(u) =>
      if s.admitted[u] == 0 || u !in s.users || s.users[u].deleted || s.users[u].attempts + 1 > MAX_ATTEMPTS then None
      else Some(s.(
        admitted := s.admitted - multiset{u},
        users := s.users[u := s.users[u].(adult := true, status := Active, attempts := s.users[u].attempts + 1)],
        consents := Revoked(s.consents, u)))
    case StoreConsentToken(u, h) =>
      if u !in s.users || h in s.consentTokens then None
      else
        Some(s.(consentTokens := Kept(s.consentTokens, u)[h := ConsentToken(u, false)]))
    case VerifyConsent(h, expired) =>
      if h !in s.consentTokens || s.consentTokens[h].verified || expired then None
      else
        var u := s.consentTokens[h].user;
        Some(s.(consents := s.consents + [Consent(u, false)],
                consentTokens := s.consentTokens[h := ConsentToken(u, true)],
                users := if u in s.users then s.users[u := ActivatedUser(s.users[u])] else s.users))
    case Suspend(inactive) =>
      Some(s.(users := AllSuspended(s.users, inactive)))
    case Cancel(u) => Some(Cancelled(s, u))
    case SubmitArco(r, u, cancels) =>
      if r in s.arco then None else Some(s.(arco := s.arco[r := ArcoRequest(u, cancels, Waiting)]))
    case ResolveArco(r, approved) =>
      if r !in s.arco || s.arco[r].status != Waiting then None
      else
        var after := if approved && s.arco[r].cancels then Cancelled(s, s.arco[r].user) else s;
        Some(after.(arco := s.arco[r := s.arco[r].(status := if approved then Resolved else Rejected)]))
  }

  function Next(s: State, step: Step): State {
    var after := Try(s, step);
    if after.Some? then after.value else s
  }

  function RunFrom(s: State, steps: seq<Step>): State {
    if steps == [] then s else Next(RunFrom(s, steps[..|steps| - 1]), steps[|steps| - 1])
  }

  // ------------------------------------------------------------------ the door

  // What every authenticated request checks: the version of a row that is not deleted.
  predicate Valid(s: State, c: Claim) {
    c.user in s.users && !s.users[c.user].deleted && s.users[c.user].version == c.version
  }

  // ------------------------------------------------------------ what every step keeps

  predicate UserFine(u: User) {
    && (u.deleted <==> u.status.Deleted?)
    && u.attempts <= MAX_ATTEMPTS && (u.attempts > 0 ==> u.adult)
    && (u.status.Pending? ==> !u.adult)
  }

  predicate ClaimFine(u: User, version: nat) {
    && version <= u.version && !u.status.Pending?
    && (version == u.version && !u.deleted ==> u.status.Active?)
  }

  ghost predicate HasConsent(consents: seq<Consent>, u: Id) {
    exists i :: 0 <= i < |consents| && consents[i] == Consent(u, false)
  }

  predicate NeedsConsent(u: User) {
    !u.adult && (u.status.Active? || u.status.Suspended?)
  }

  function Verified(tokens: map<Hash, ConsentToken>): set<Hash> {
    set h | h in tokens && tokens[h].verified
  }

  ghost predicate UsersFine(s: State) {
    forall u :: u in s.users ==> UserFine(s.users[u])
  }

  ghost predicate HoldsToken(s: State, u: Id) {
    exists c :: c in s.issued && c.user == u
  }

  ghost predicate ClaimsFine(s: State) {
    && s.issued <= s.seen
    && (forall u :: s.admitted[u] > 0 ==> HoldsToken(s, u))
    && forall c :: c in s.seen ==> c.user in s.users && ClaimFine(s.users[c.user], c.version)
  }

  ghost predicate MinorsConsented(s: State) {
    forall u :: u in s.users && NeedsConsent(s.users[u]) ==> HasConsent(s.consents, u)
  }

  ghost predicate Sound(s: State) {
    && UsersFine(s) && ClaimsFine(s) && MinorsConsented(s)
    && |s.consents| == |Verified(s.consentTokens)|
  }

  // How one row may change: a version never falls, a deleted row stays deleted, no row goes
  // back to waiting for a tutor, and an active row keeps its version only while active.
  predicate Follows(a: User, b: User) {
    && a.version <= b.version && a.attempts <= b.attempts
    && (a.adult ==> b.adult)
    && (a.deleted ==> b.deleted && b.status == a.status)
    && (b.status.Pending? ==> a.status.Pending?)
    && (a.status.Active? && b.version == a.version && !b.deleted ==> b.status.Active?)
  }

  // What a step does to one row.
  function RowAfter(s: State, step: Step, u: Id): User
    requires u in s.users
  {
    var row := s.users[u];
    match step
    case MakeAdmin(v) => if v == u then row.(role := Admin) else row
    case BumpVersion(v) => if v == u then row.(version := row.version + 1) else row
    case AgeUp(v) =>
      if v == u && s.admitted[u] > 0 && !row.deleted && row.attempts < MAX_ATTEMPTS
      then row.(adult := true, status := Active, attempts := row.attempts + 1)
      else row
    case VerifyConsent(_, _) => if FollowsOwnLink(s, step, u) then ActivatedUser(row) else row
    case Suspend(inactive) => if u in inactive then SuspendedUser(row) else row
    case Cancel(v) => if v == u then CancelledUser(row) else row
    case ResolveArco(r, approved) =>
      if approved && r in s.arco && s.arco[r].status == Waiting && s.arco[r].cancels && s.arco[r].user == u
      then CancelledUser(row)
      else row
    case _ => row
  }

  predicate FollowsOwnLink(s: State, step: Step, u: Id) {
    && step.VerifyConsent? && !step.expired && step.hash in s.consentTokens
    && s.consentTokens[step.hash] == ConsentToken(u, false)
  }

  lemma StepOnRow(s: State, step: Step, u: Id)
    requires u in s.users
    ensures u in Next(s, step).users && Next(s, step).users[u] == RowAfter(s, step, u)
  {
    hide Next, RowAfter;
    match step
    case Suspend(inactive) => RowOnSuspend(s, inactive, u);
    case AgeUp(v) => RowOnAgeUp(s, v, u);
    case VerifyConsent(h, expired) => RowOnVerify(s, h, expired, u);
    case ResolveArco(r, approved) => RowOnResolve(s, r, approved, u);
    case _ => RowOnOthers(s, step, u);
  }

  predicate RowFollows(s: State, step: Step, u: Id)
    requires u in s.users
  {
    u in Next(s, step).users && Next(s, step).users[u] == RowAfter(s, step, u)
  }

  lemma RowOnSuspend(s: State, inactive: set<Id>, u: Id)
    requires u in s.users
    ensures RowFollows(s, Suspend(inactive), u)
  {
    SuspendedAt(s.users, inactive, u);
    hide AllSuspended, SuspendedUser;
  }

  lemma RowOnAgeUp(s: State, v: Id, u: Id)
    requires u in s.users
    ensures RowFollows(s, AgeUp(v), u)
  {
    hide Revoked;
  }

  lemma RowOnVerify(s: State, h: Hash, expired: bool, u: Id)
    requires u in s.users
    ensures RowFollows(s, VerifyConsent(h, expired), u)
  {
    hide ActivatedUser;
  }

  lemma RowOnResolve(s: State, r: Id, approved: bool, u: Id)
    requires u in s.users
    ensures RowFollows(s, ResolveArco(r, approved), u)
  {
    hide Revoked, RefreshRevoked, CancelledUser;
  }

  lemma RowOnOthers(s: State, step: Step, u: Id)
    requires u in s.users
    requires !step.Suspend? && !step.AgeUp? && !step.VerifyConsent? && !step.ResolveArco?
    ensures RowFollows(s, step, u)
  {
    hide Revoked, RefreshRevoked, Kept, CancelledUser, Valid;
  }

  lemma SuspendedAt(users: map<Id, User>, inactive: set<Id>, u: Id)
    requires u in users
    ensures u in AllSuspended(users, inactive)
    ensures AllSuspended(users, inactive)[u] == if u in inactive then SuspendedUser(users[u]) else users[u]
  {
  }

  // What a step does to the consents.
  function ConsentsAfter(s: State, step: Step): seq<Consent> {
    match step
    case AgeUp(u) =>
      if s.admitted[u] > 0 && u in s.users && !s.users[u].deleted && s.users[u].attempts < MAX_ATTEMPTS
      then Revoked(s.consents, u)
      else s.consents
    case VerifyConsent(h, expired) =>
      if h in s.consentTokens && !s.consentTokens[h].verified && !expired
      then s.consents + [Consent(s.consentTokens[h].user, false)]
      else s.consents
    case Cancel(u) => Revoked(s.consents, u)
    case ResolveArco(r, approved) =>
      if approved && r in s.arco && s.arco[r].status == Waiting && s.arco[r].cancels
      then Revoked(s.consents, s.arco[r].user)
      else s.consents
    case _ => s.consents
  }

  lemma StepOnConsents(s: State, step: Step)
    ensures Next(s, step).consents == ConsentsAfter(s, step)
  {
    hide Revoked, RefreshRevoked, Kept, SuspendedUser, CancelledUser, ActivatedUser;
  }

  // A new row is a registration's.
  lemma NewRow(s: State, step: Step, u: Id)
    requires u !in s.users && u in Next(s, step).users
    ensures var row := Next(s, step).users[u];
            !row.deleted && row.attempts == 0 && row.status == if row.adult then Active else Pending
    ensures step.Register?
  {
    hide Revoked, RefreshRevoked, Kept, SuspendedUser, CancelledUser, ActivatedUser;
  }

  lemma StepFollows(s: State, step: Step, u: Id)
    requires u in s.users && UserFine(s.users[u])
    ensures u in Next(s, step).users && Follows(s.users[u], Next(s, step).users[u])
    ensures UserFine(Next(s, step).users[u])
  {
    StepOnRow(s, step, u);
    hide Next;
  }

  lemma StepKeepsUsers(s: State, step: Step)
    requires UsersFine(s)
    ensures UsersFine(Next(s, step))
  {
    forall u | u in Next(s, step).users
      ensures UserFine(Next(s, step).users[u])
    {
      if u in s.users {
        StepFollows(s, step, u);
      } else {
        NewRow(s, step, u);
      }
      hide Next, UsersFine;
    }
  }

  lemma NewReads(s: State, step: Step, c: Claim)
    requires c in Next(s, step).seen
    ensures c in s.seen || (c.user in s.users && s.users[c.user].status.Active? && c.version == s.users[c.user].version)
    ensures c !in s.seen ==> Next(s, step).users == s.users
  {
  }

  lemma IssuedFromReads(s: State, step: Step)
    requires s.issued <= s.seen
    ensures Next(s, step).issued <= Next(s, step).seen
    ensures s.issued <= Next(s, step).issued
  {
  }

  lemma AdmittedHoldTokens(s: State, step: Step, u: Id)
    requires s.admitted[u] > 0 ==> HoldsToken(s, u)
    ensures Next(s, step).admitted[u] > 0 ==> HoldsToken(Next(s, step), u)
  {
    hide Revoked, RefreshRevoked, Kept, HoldsToken, SuspendedUser, CancelledUser, ActivatedUser;
    TokensStay(s, step, u);
    if step.AdmitAgeUp? && Try(s, step).Some? {
      TokenHeld(s, step.claim);
    }
  }

  lemma TokenHeld(s: State, c: Claim)
    requires c in s.issued
    ensures HoldsToken(s, c.user)
  {
  }

  lemma IssuedStays(s: State, step: Step)
    ensures s.issued <= Next(s, step).issued
  {
    hide Revoked, RefreshRevoked, Kept, SuspendedUser, CancelledUser, ActivatedUser;
  }

  lemma TokensStay(s: State, step: Step, u: Id)
    ensures HoldsToken(s, u) ==> HoldsToken(Next(s, step), u)
  {
    IssuedStays(s, step);
    hide Next;
  }

  lemma StepKeepsClaims(s: State, step: Step)
    requires UsersFine(s) && ClaimsFine(s)
    ensures ClaimsFine(Next(s, step))
  {
    IssuedFromReads(s, step);
    var t := Next(s, step);
    forall u | t.admitted[u] > 0
      ensures HoldsToken(t, u)
    {
      AdmittedHoldTokens(s, step, u);
    }
    forall c | c in t.seen
      ensures c.user in t.users && ClaimFine(t.users[c.user], c.version)
    {
      NewReads(s, step, c);
      StepFollows(s, step, c.user);
      hide Next;
    }
  }

  lemma RevokedKeepsOthers(consents: seq<Consent>, u: Id, v: Id)
    requires u != v && HasConsent(consents, v)
    ensures HasConsent(Revoked(consents, u), v)
  {
    var i :| 0 <= i < |consents| && consents[i] == Consent(v, false);
    assert Revoked(consents, u)[i] == Consent(v, false);
  }

  lemma AddedKeeps(consents: seq<Consent>, c: Consent, v: Id)
    ensures HasConsent(consents, v) || c == Consent(v, false) ==> HasConsent(consents + [c], v)
  {
    assert (consents + [c])[|consents|] == c;
    if HasConsent(consents, v) {
      var i :| 0 <= i < |consents| && consents[i] == Consent(v, false);
      assert (consents + [c])[i] == Consent(v, false);
    }
  }

  lemma StepKeepsConsent(s: State, step: Step, u: Id)
    requires UsersFine(s) && MinorsConsented(s)
    requires u in Next(s, step).users && NeedsConsent(Next(s, step).users[u])
    ensures HasConsent(Next(s, step).consents, u)
  {
    StepOnConsents(s, step);
    if u in s.users {
      StepOnRow(s, step, u);
      hide Next;
      assert UserFine(s.users[u]);
      ConsentSurvives(s, step, u);
    } else {
      NewRow(s, step, u);
      hide Next;
    }
  }

  lemma ConsentSurvives(s: State, step: Step, u: Id)
    requires u in s.users && UserFine(s.users[u]) && NeedsConsent(RowAfter(s, step, u))
    requires NeedsConsent(s.users[u]) ==> HasConsent(s.consents, u)
    ensures HasConsent(ConsentsAfter(s, step), u)
  {
    hide Revoked, HasConsent;
    match step
    case AgeUp(v) =>
      if v != u {
        RevokedKeepsOthers(s.consents, v, u);
      }
    case VerifyConsent(h, expired) =>
      if h in s.consentTokens {
        AddedKeeps(s.consents, Consent(s.consentTokens[h].user, false), u);
      }
    case Cancel(v) => RevokedKeepsOthers(s.consents, v, u);
    case ResolveArco(r, approved) =>
      if r in s.arco && s.arco[r].user != u {
        RevokedKeepsOthers(s.consents, s.arco[r].user, u);
      }
    case _ =>
  }

  lemma VerifiedGrows(tokens: map<Hash, ConsentToken>, h: Hash)
    requires h in tokens && !tokens[h].verified
    ensures |Verified(tokens[h := ConsentToken(tokens[h].user, true)])| == |Verified(tokens)| + 1
  {
    assert Verified(tokens[h := ConsentToken(tokens[h].user, true)]) == Verified(tokens) + {h};
  }

  lemma VerifiedStays(tokens: map<Hash, ConsentToken>, u: Id, h: Hash)
    requires h !in tokens
    ensures Verified(Kept(tokens, u)[h := ConsentToken(u, false)]) == Verified(tokens)
  {
  }

  lemma StepKeepsCount(s: State, step: Step)
    requires |s.consents| == |Verified(s.consentTokens)|
    ensures |Next(s, step).consents| == |Verified(Next(s, step).consentTokens)|
  {
    hide Revoked, RefreshRevoked, Kept, Verified, ActivatedUser, SuspendedUser, CancelledUser;
    match step
    case VerifyConsent(h, expired) =>
      if Try(s, step).Some? {
        VerifiedGrows(s.consentTokens, h);
      }
    case StoreConsentToken(u, h) =>
      if Try(s, step).Some? {
        VerifiedStays(s.consentTokens, u, h);
      }
    case _ =>
  }

  lemma StepKeepsSound(s: State, step: Step)
    requires Sound(s)
    ensures Sound(Next(s, step))
  {
    StepKeepsUsers(s, step);
    StepKeepsClaims(s, step);
    StepKeepsCount(s, step);
    forall u | u in Next(s, step).users && NeedsConsent(Next(s, step).users[u])
      ensures HasConsent(Next(s, step).consents, u)
    {
      StepKeepsConsent(s, step, u);
    }
    hide Next, UsersFine, ClaimsFine, HasConsent, Verified;
  }

  lemma {:induction false} RunKeepsSound(s: State, steps: seq<Step>)
    requires Sound(s)
    ensures Sound(RunFrom(s, steps))
  {
    if steps != [] {
      RunKeepsSound(s, steps[..|steps| - 1]);
      StepKeepsSound(RunFrom(s, steps[..|steps| - 1]), steps[|steps| - 1]);
    }
  }

  lemma FollowsIsTransitive(a: User, b: User, c: User)
    requires Follows(a, b) && Follows(b, c)
    ensures Follows(a, c)
  {
  }

  lemma {:induction false} RunFollows(s: State, steps: seq<Step>, u: Id)
    requires Sound(s) && u in s.users
    ensures u in RunFrom(s, steps).users && Follows(s.users[u], RunFrom(s, steps).users[u])
  {
    if steps != [] {
      var n := |steps| - 1;
      RunFollows(s, steps[..n], u);
      RunKeepsSound(s, steps[..n]);
      StepFollows(RunFrom(s, steps[..n]), steps[n], u);
      hide Next, Follows;
      FollowsIsTransitive(s.users[u], RunFrom(s, steps[..n]).users[u], RunFrom(s, steps).users[u]);
    }
  }

  // ------------------------------------------------------------------ main results

  lemma EmptyIsSound()
    ensures Sound(EMPTY)
  {
  }

  // Over every interleaving: an issued token that passes the door belongs to an active
  // account, an active or suspended minor has an unrevoked consent, every consent was given
  // through a link of its own, and nobody ages up more than three times.
  lemma EveryRunIsSafe(steps: seq<Step>, c: Claim, u: Id)
    ensures var s := RunFrom(EMPTY, steps);
            && (c in s.issued && Valid(s, c) ==> s.users[c.user].status.Active?)
            && (u in s.users && NeedsConsent(s.users[u]) ==> HasConsent(s.consents, u))
            && |s.consents| == |Verified(s.consentTokens)|
            && (u in s.users ==> s.users[u].attempts <= MAX_ATTEMPTS)
  {
    EmptyIsSound();
    RunKeepsSound(EMPTY, steps);
  }

  // An issued token that has once stopped being valid never opens the door again.
  lemma RevokedForEver(s: State, steps: seq<Step>, c: Claim)
    requires Sound(s) && c in s.issued && !Valid(s, c)
    ensures !Valid(RunFrom(s, steps), c)
  {
    RunFollows(s, steps, c.user);
  }

  lemma DeletedIsAbsorbing(s: State, steps: seq<Step>, u: Id)
    requires Sound(s) && u in s.users && s.users[u].deleted
    ensures u in RunFrom(s, steps).users && RunFrom(s, steps).users[u].status.Deleted?
    ensures forall c: Claim :: c.user == u ==> !Valid(RunFrom(s, steps), c)
  {
    RunFollows(s, steps, u);
  }

  // Exactly the steps that cut off every token issued before: a logout, a suspension of an
  // active player, and a cancellation.
  predicate CutsOff(s: State, step: Step, u: Id)
    requires u in s.users
  {
    match step
    case BumpVersion(v) => v == u
    case Suspend(inactive) => u in inactive && SuspendedUser(s.users[u]) != s.users[u]
    case Cancel(v) => v == u
    case ResolveArco(r, approved) =>
      approved && r in s.arco && s.arco[r].status == Waiting && s.arco[r].cancels && s.arco[r].user == u
    case _ => false
  }

  lemma CutOffIff(s: State, step: Step, c: Claim)
    requires Sound(s) && c in s.issued && Valid(s, c)
    ensures !Valid(Next(s, step), c) <==> CutsOff(s, step, c.user)
  {
    StepOnRow(s, step, c.user);
    assert ClaimFine(s.users[c.user], c.version);
    hide Next, Sound;
  }

  // ---------------------------------------------------------- how accounts open again

  // An account that waits for a tutor has no token, so no age-up of its was admitted.
  lemma WaitingAreNotAdmitted(s: State, u: Id)
    requires Sound(s) && u in s.users && s.users[u].status.Pending?
    ensures !HoldsToken(s, u) && s.admitted[u] == 0
  {
    assert forall c :: c in s.issued && c.user == u ==> ClaimFine(s.users[u], c.version);
    assert !HoldsToken(s, u);
  }

  // In every run an account that waits for a tutor becomes active exactly by an unused,
  // unexpired link of its own.
  lemma PendingOpensIff(steps: seq<Step>, step: Step, u: Id)
    ensures var s := RunFrom(EMPTY, steps);
            u in s.users && s.users[u].status.Pending? ==>
              (Next(s, step).users[u].status.Active? <==> FollowsOwnLink(s, step, u))
  {
    var s := RunFrom(EMPTY, steps);
    EmptyIsSound();
    RunKeepsSound(EMPTY, steps);
    hide RunFrom;
    if u in s.users && s.users[u].status.Pending? {
      WaitingAreNotAdmitted(s, u);
      assert UserFine(s.users[u]);
      OneStepFromPending(s, step, u);
    }
  }

  lemma OneStepFromPending(s: State, step: Step, u: Id)
    requires u in s.users && UserFine(s.users[u]) && s.users[u].status.Pending? && s.admitted[u] == 0
    ensures u in Next(s, step).users
    ensures Next(s, step).users[u].status.Active? <==> FollowsOwnLink(s, step, u)
  {
    StepOnRow(s, step, u);
    hide Next;
  }

  // While an account is suspended no token of its is valid, so no age-up of its is admitted,
  // and each step either keeps it suspended, deletes it, or is an age-up that was admitted
  // before.
  lemma OneStepFromSuspended(s: State, step: Step, u: Id)
    requires Sound(s) && u in s.users && s.users[u].status.Suspended?
    ensures forall c: Claim :: c.user == u && c in s.issued ==> !Valid(s, c)
    ensures u in Next(s, step).users && Next(s, step).admitted[u] <= s.admitted[u]
    ensures Next(s, step).users[u].status.Active? <==>
            step == AgeUp(u) && s.admitted[u] > 0 && s.users[u].attempts < MAX_ATTEMPTS
    ensures Next(s, step).users[u].status in {Suspended, Active, Deleted}
    ensures Next(s, step).users[u].status.Suspended? ==> Next(s, step).users[u].attempts == s.users[u].attempts
  {
    NoValidToken(s, u);
    NoneAdmitted(s, step, u);
    StepOnRow(s, step, u);
    assert UserFine(s.users[u]);
    hide Next, Sound, Valid;
  }

  lemma NoneAdmitted(s: State, step: Step, u: Id)
    requires forall c: Claim :: c.user == u && c in s.issued ==> !Valid(s, c)
    ensures Next(s, step).admitted[u] <= s.admitted[u]
  {
    hide Revoked, RefreshRevoked, Kept, SuspendedUser, CancelledUser, ActivatedUser, Valid;
  }

  lemma NoValidToken(s: State, u: Id)
    requires Sound(s) && u in s.users && s.users[u].status.Suspended?
    ensures forall c: Claim :: c.user == u && c in s.issued ==> !Valid(s, c)
  {
  }

  // A suspended account with no admitted age-up outstanding, or with its attempts used up, is never
  // active again: its suspension can end only in deletion.
  lemma {:induction false} SuspensionEndsInDeletion(s: State, steps: seq<Step>, u: Id)
    requires Sound(s) && u in s.users && s.users[u].status.Suspended?
    requires s.admitted[u] == 0 || s.users[u].attempts == MAX_ATTEMPTS
    ensures var t := RunFrom(s, steps);
            && u in t.users && t.users[u].status in {Suspended, Deleted}
            && (t.users[u].status.Suspended? ==> t.admitted[u] == 0 || t.users[u].attempts == MAX_ATTEMPTS)
  {
    if steps != [] {
      var n := |steps| - 1;
      SuspensionEndsInDeletion(s, steps[..n], u);
      RunKeepsSound(s, steps[..n]);
      var t := RunFrom(s, steps[..n]);
      assert UserFine(t.users[u]);
      if t.users[u].status.Suspended? {
        OneStepFromSuspended(t, steps[n], u);
      } else {
        StepFollows(t, steps[n], u);
      }
      hide Next, Sound;
    }
  }

  ghost predicate CanBeActive(s: State, u: Id) {
    exists steps: seq<Step> :: ActiveAfter(s, steps, u)
  }

  predicate ActiveAfter(s: State, steps: seq<Step>, u: Id) {
    var t := RunFrom(s, steps); u in t.users && t.users[u].status.Active?
  }

  // So a suspension can be lifted exactly when an age-up with attempts left was admitted
  // before it began and has not been served yet.
  lemma SuspensionLiftedIff(s: State, u: Id)
    requires Sound(s) && u in s.users && s.users[u].status.Suspended?
    ensures CanBeActive(s, u) <==> s.admitted[u] > 0 && s.users[u].attempts < MAX_ATTEMPTS
  {
    assert UserFine(s.users[u]);
    if s.admitted[u] > 0 && s.users[u].attempts < MAX_ATTEMPTS {
      OneStepFromSuspended(s, AgeUp(u), u);
      RunOfOne(s, AgeUp(u));
      assert ActiveAfter(s, [AgeUp(u)], u);
    } else {
      forall steps: seq<Step>
        ensures !ActiveAfter(s, steps, u)
      {
        SuspensionEndsInDeletion(s, steps, u);
      }
    }
  }

  lemma RunOfOne(s: State, step: Step)
    ensures RunFrom(s, [step]) == Next(s, step)
  {
    hide Next;
    assert [step][..0] == [];
    assert RunFrom(s, []) == s;
  }

  // Such a run: an age-up passes the door, the account is suspended, the age-up is served.
  lemma LiftedSuspensionExample()
    ensures var steps := [Register(1, true), ReadLogin(1, true), Issue(Claim(1, 1)), AdmitAgeUp(Claim(1, 1)), Suspend({1})];
            var s := RunFrom(EMPTY, steps);
            1 in s.users && s.users[1].status.Suspended? && CanBeActive(s, 1)
  {
    var s := TokenOfOne();
    var v := AdmittedAndSuspended(s);
    var steps := [Register(1, true), ReadLogin(1, true), Issue(Claim(1, 1))];
    RunOneMore(EMPTY, steps, AdmitAgeUp(Claim(1, 1)));
    RunOneMore(EMPTY, steps + [AdmitAgeUp(Claim(1, 1))], Suspend({1}));
    assert steps + [AdmitAgeUp(Claim(1, 1))] + [Suspend({1})] ==
      [Register(1, true), ReadLogin(1, true), Issue(Claim(1, 1)), AdmitAgeUp(Claim(1, 1)), Suspend({1})];
    EmptyIsSound();
    RunKeepsSound(EMPTY, steps + [AdmitAgeUp(Claim(1, 1))] + [Suspend({1})]);
    hide Next, RunFrom, Sound, CanBeActive;
    SuspensionLiftedIff(v, 1);
  }

  lemma AdmittedAndSuspended(s: State) returns (v: State)
    requires s.users == map[1 := User(Active, 1, true, Player, false, 0)]
    requires s.issued == {Claim(1, 1)} && s.admitted == multiset{}
    ensures v == Next(Next(s, AdmitAgeUp(Claim(1, 1))), Suspend({1}))
    ensures 1 in v.users && v.users[1].status.Suspended? && v.users[1].attempts == 0 && v.admitted[1] == 1
  {
    var t := Next(s, AdmitAgeUp(Claim(1, 1)));
    assert t.admitted[1] == 1 && t.users == s.users;
    StepOnRow(t, Suspend({1}), 1);
    v := Next(t, Suspend({1}));
  }

  lemma TokenOfOne() returns (s: State)
    ensures s == RunFrom(EMPTY, [Register(1, true), ReadLogin(1, true), Issue(Claim(1, 1))])
    ensures s.users == map[1 := User(Active, 1, true, Player, false, 0)]
    ensures s.issued == {Claim(1, 1)} && s.admitted == multiset{}
  {
    RunOfThree(Register(1, true), ReadLogin(1, true), Issue(Claim(1, 1)));
    hide RunFrom;
    var s1 := Next(EMPTY, Register(1, true));
    assert s1.users == map[1 := User(Active, 1, true, Player, false, 0)];
    var s2 := Next(s1, ReadLogin(1, true));
    assert s2.seen == {Claim(1, 1)} && s2.users == s1.users;
    s := Next(s2, Issue(Claim(1, 1)));
  }

  // Age-up asks for an access token, and no account that waits for a tutor ever had one: the
  // change from waiting to active that it is written for cannot be asked for.
  lemma TokenHoldersNeverWait(steps: seq<Step>, c: Claim)
    ensures var s := RunFrom(EMPTY, steps);
            c in s.issued ==> c.user in s.users && !s.users[c.user].status.Pending?
  {
    EmptyIsSound();
    RunKeepsSound(EMPTY, steps);
  }

  // ------------------------------------------------------- consents of deleted accounts

  ghost predicate DeletedAreRevoked(s: State) {
    forall i :: 0 <= i < |s.consents| && s.consents[i].user in s.users && s.users[s.consents[i].user].deleted ==>
      s.consents[i].revoked
  }

  // Cancelling revokes the account's consents but leaves its open consent links, and a link
  // that is followed later leaves a consent that nothing has revoked.
  predicate LateConsent(s: State, step: Step) {
    && step.VerifyConsent? && Try(s, step).Some?
    && s.consentTokens[step.hash].user in s.users && s.users[s.consentTokens[step.hash].user].deleted
  }

  lemma DeletedAreRevokedIff(s: State, step: Step)
    requires Sound(s) && DeletedAreRevoked(s)
    ensures DeletedAreRevoked(Next(s, step)) <==> !LateConsent(s, step)
  {
    var t := Next(s, step);
    if LateConsent(s, step) {
      assert t.consents[|s.consents|] == Consent(s.consentTokens[step.hash].user, false);
    } else {
      forall i | 0 <= i < |t.consents| && t.consents[i].user in t.users && t.users[t.consents[i].user].deleted
        ensures t.consents[i].revoked
      {
        OldConsentStays(s, step, i);
      }
    }
  }

  lemma OldConsentStays(s: State, step: Step, i: nat)
    requires Sound(s) && DeletedAreRevoked(s) && !LateConsent(s, step)
    requires i < |Next(s, step).consents|
    ensures var t := Next(s, step);
            t.consents[i].user in t.users && t.users[t.consents[i].user].deleted ==> t.consents[i].revoked
  {
    StepOnConsents(s, step);
    var u := Next(s, step).consents[i].user;
    if u in s.users {
      StepOnRow(s, step, u);
      assert UserFine(s.users[u]);
    } else if u in Next(s, step).users {
      NewRow(s, step, u);
    }
    VerifyingMeans(s, step);
    hide Next, Try, Sound;
    if i < |s.consents| {
      OldConsent(s, step, i);
      hide ConsentsAfter, RowAfter;
    } else {
      assert step.VerifyConsent?;
    }
  }

  // A consent that was there before keeps its user, and is revoked with its account.
  lemma OldConsent(s: State, step: Step, i: nat)
    requires i < |s.consents|
    ensures i < |ConsentsAfter(s, step)|
    ensures var u, after := s.consents[i].user, ConsentsAfter(s, step)[i];
            && after.user == u && (s.consents[i].revoked ==> after.revoked)
            && (u in s.users && !s.users[u].deleted && UserFine(s.users[u]) && RowAfter(s, step, u).deleted ==> after.revoked)
  {
  }

  lemma VerifyingMeans(s: State, step: Step)
    ensures step.VerifyConsent? ==>
              (Try(s, step).Some? <==>
                 step.hash in s.consentTokens && !s.consentTokens[step.hash].verified && !step.expired)
  {
    hide Revoked, RefreshRevoked, Kept;
  }

  // Every link that is open when its account is cancelled stays open.
  lemma CancelLeavesLinks(s: State, u: Id, h: Hash)
    requires u in s.users && UserFine(s.users[u])
    requires h in s.consentTokens && s.consentTokens[h] == ConsentToken(u, false)
    ensures LateConsent(Next(s, Cancel(u)), VerifyConsent(h, false))
  {
    hide RefreshRevoked, Revoked;
  }

  lemma LateConsentExample() returns (s: State)
    ensures s == RunFrom(EMPTY, [Register(1, false), StoreConsentToken(1, 7), Cancel(1)])
    ensures LateConsent(s, VerifyConsent(7, false))
  {
    var s1 := Next(EMPTY, Register(1, false));
    assert s1.users == map[1 := User(Pending, 1, false, Player, false, 0)];
    var s2 := Next(s1, StoreConsentToken(1, 7));
    assert s2.consentTokens[7] == ConsentToken(1, false) && s2.users == s1.users;
    RunOfThree(Register(1, false), StoreConsentToken(1, 7), Cancel(1));
    CancelLeavesLinks(s2, 1, 7);
    s := Next(s2, Cancel(1));
    hide Next, LateConsent;
  }

  lemma RunOfThree(a: Step, b: Step, c: Step)
    ensures RunFrom(EMPTY, [a, b, c]) == Next(Next(Next(EMPTY, a), b), c)
  {
    hide Next;
    assert [a, b, c][..2] == [a, b] && [a, b][..1] == [a] && [a][..0] == [];
    assert RunFrom(EMPTY, []) == EMPTY;
    assert RunFrom(EMPTY, [a]) == Next(EMPTY, a);
    assert RunFrom(EMPTY, [a, b]) == Next(Next(EMPTY, a), b);
  }

  lemma RunOneMore(s: State, steps: seq<Step>, step: Step)
    ensures RunFrom(s, steps + [step]) == Next(RunFrom(s, steps), step)
  {
    hide Next;
    assert (steps + [step])[..|steps|] == steps;
  }
}
