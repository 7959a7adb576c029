/** What each request does, as a function of the state (src/auth/service.py,
    src/users/services/system_admin.py, src/users/services/shared.py, src/core/dependencies.py).
    The classes in Services perform the same requests step by step. */
module Operations {
  import opened Prelude
  import opened Accounts

  const MAX_FAILED_ATTEMPTS := 5
  const LOCKOUT_SECONDS := 15 * 60
  const PROFILE_TTL := 900

  // ----- Lookups and commits -----

  predicate HasUsername(accounts: map<UserId, Account>, id: UserId, username: Option<string>) {
    id in accounts && accounts[id].profile.username == username
  }

  ghost predicate UniqueUsernames(accounts: map<UserId, Account>) {
    forall i, j, name | HasUsername(accounts, i, name) && HasUsername(accounts, j, name) :: i == j
  }

  ghost function FindByUsername(accounts: map<UserId, Account>, username: string): (found: Option<UserId>)
    ensures found.Some? ==> HasUsername(accounts, found.value, Some(username))
    ensures found.None? ==> forall id :: !HasUsername(accounts, id, Some(username))
  {
    if exists id :: HasUsername(accounts, id, Some(username)) then
      var id :| HasUsername(accounts, id, Some(username));
      Some(id)
    else None
  }

  predicate UsernameTaken(accounts: map<UserId, Account>, self: Option<UserId>, username: Option<string>) {
    exists id | id in accounts :: self != Some(id) && accounts[id].profile.username == username
  }

  // Whether the flush of this row raises IntegrityError.
  predicate CommitFails(accounts: map<UserId, Account>, self: Option<UserId>, profile: Profile, env: Env) {
    !profile.NotNull() || UsernameTaken(accounts, self, profile.username) || env.integrityError
  }

  // get_user_by_id with excluded_roles = {SYSTEM_ADMIN}
  predicate VisibleToAdmin(s: State, id: UserId) {
    id in s.accounts && s.accounts[id].role != SystemAdmin
  }

  // ----- Tokens -----

  function InvalidateAllTokens(s: State, id: UserId, env: Env): State {
    if id !in s.accounts then s else
    var a := s.accounts[id];
    s.Saved(id, a.(session := a.session.Revoked())).(cache := CacheDelete(s.cache, {TokenVersion(id)}, env.deleteOk))
  }

  // A session with a new refresh pair, whose family and token are the next two draws.
  function Rotated(cfg: Settings, id: UserId, now: Time, draws: nat, session: Session): Session {
    var expires := now + cfg.refreshDays * 86400;
    session.(refreshHash := Some(Sha256(Jwt(RefreshToken(id, draws + 1, expires)))), refreshFamily := Some(draws),
             refreshExpires := Some(expires))
  }

  // The common end of login and refresh: a new family, a new pair, and the same version.
  function IssueTokens(cfg: Settings, s: State, id: UserId, a: Account): Result {
    var family := s.draws;
    var access := AccessToken(id, a.role, a.session.version, s.now + cfg.accessMinutes * 60);
    var refresh := RefreshToken(id, s.draws + 1, s.now + cfg.refreshDays * 86400);
    Result(s.Saved(id, a.(session := Rotated(cfg, id, s.now, s.draws, a.session)))
           .(draws := s.draws + 2,
             accessIssued := s.accessIssued + {access}, refreshIssued := s.refreshIssued + {refresh}),
           LoggedIn(access, refresh, family))
  }

  // ----- src/auth/service.py -----

  predicate Locked(a: Account, now: Time) {
    a.lockout.lockedUntil.Some? && now < a.lockout.lockedUntil.value
  }

  function Failure(lockout: Lockout, now: Time): Lockout {
    Lockout(lockout.failed + 1,
            if lockout.failed + 1 >= MAX_FAILED_ATTEMPTS then Some(now + LOCKOUT_SECONDS) else lockout.lockedUntil)
  }

  ghost function Login(cfg: Settings, s: State, username: Option<string>, password: Option<string>): Result {
    if username.None? || password.None? then Result(s, Failed(EmptyCredentials)) else
    var found := FindByUsername(s.accounts, username.value);
    if found.None? then Result(s, Failed(InvalidCredentials)) else
    LoginTo(cfg, s, found.value, password.value)
  }

  // Whether a login attempt gets as far as comparing the password.
  predicate PasswordIsEvaluated(a: Account, now: Time) {
    !Locked(a, now) && a.passwordHash.Some? && a.status != PendingActivation
  }

  function LoginTo(cfg: Settings, s: State, id: UserId, password: string): Result
    requires id in s.accounts
  {
    var a := s.accounts[id];
    if Locked(a, s.now) then Result(s, Failed(AccountLocked))
    else if a.passwordHash.None? || a.status == PendingActivation then Result(s, Failed(InvalidCredentials))
    else if !VerifyPassword(password, a.passwordHash) then
      Result(s.Saved(id, a.(lockout := Failure(a.lockout, s.now))), Failed(InvalidCredentials))
    else if a.status != Active then Result(s, Failed(AccountInactive))
    else IssueTokens(cfg, s, id, a.(lockout := NO_FAILURES))
  }

  function Logout(s: State, id: UserId, env: Env): Result {
    Result(InvalidateAllTokens(s, id, env), Succeeded)
  }

  ghost function ActivateAccount(s: State, username: string, invite: nat, password: string): Result {
    var found := FindByUsername(s.accounts, username);
    if found.None? then Result(s, Failed(InvalidInviteToken)) else
    var id := found.value;
    var a := s.accounts[id];
    if a.activation.inviteHash.None? then Result(s, Failed(InvalidInviteToken))
    else if a.activation.inviteExpires.None? || s.now > a.activation.inviteExpires.value then
      Result(s, Failed(ExpiredInviteToken))
    else if Sha256(Raw(invite)) != a.activation.inviteHash.value then Result(s, Failed(InvalidInviteToken))
    else
      Result(s.Saved(id, a.(passwordHash := Some(Bcrypt(password)), isActive := true, status := Active,
                            activation := Activation(None, None))),
             Succeeded)
  }

  // A pair that refresh_token would accept now.
  predicate Acceptable(s: State, token: RefreshToken, family: nat) {
    token in s.refreshIssued && s.now < token.expires && token.sub in s.accounts
    && var session := s.accounts[token.sub].session;
       session.refreshHash == Some(Sha256(Jwt(token))) && session.refreshFamily == Some(family)
       && session.refreshExpires.Some? && s.now <= session.refreshExpires.value
  }

  function Refresh(cfg: Settings, s: State, presented: Option<RefreshToken>, family: nat, env: Env): Result {
    if presented.None? || presented.value !in s.refreshIssued then Result(s, Failed(InvalidRefreshToken)) else
    var token := presented.value;
    if s.now >= token.expires then Result(s, Failed(ExpiredRefreshToken)) else
    var id := token.sub;
    if id !in s.accounts || s.accounts[id].session.refreshHash.None?
       || s.accounts[id].session.refreshFamily.None? || s.accounts[id].session.refreshExpires.None? then
      Result(s, Failed(InvalidRefreshToken))
    else
    var a := s.accounts[id];
    if s.now > a.session.refreshExpires.value then Result(s, Failed(ExpiredRefreshToken))
    else if family != a.session.refreshFamily.value || Sha256(Jwt(token)) != a.session.refreshHash.value then
      Result(InvalidateAllTokens(s, id, env), Failed(InvalidRefreshToken))
    else IssueTokens(cfg, s, id, a)
  }

  ghost function ForgotPassword(cfg: Settings, s: State, username: string): Result {
    var found := FindByUsername(s.accounts, username);
    if found.None? then Result(s.(draws := s.draws + 1), Succeeded) else
    var a := s.accounts[found.value];
    Result(s.Saved(found.value, a.(session := ResetRequested(cfg, s, a.session))).(draws := s.draws + 1), Succeeded)
  }

  function ResetRequested(cfg: Settings, s: State, session: Session): Session {
    session.(resetHash := Some(Sha256(Raw(s.draws))), resetExpires := Some(s.now + cfg.resetMinutes * 60))
  }

  ghost function ResetPassword(s: State, username: string, token: nat, password: string, env: Env): Result {
    var found := FindByUsername(s.accounts, username);
    if found.None? then Result(s, Failed(InvalidCredentials)) else
    var id := found.value;
    var a := s.accounts[id];
    if a.session.resetExpires.None? || s.now > a.session.resetExpires.value then
      Result(s, Failed(ExpiredResetToken))
    else if a.session.resetHash.None? then Result(s, Failed(NullDereference))
    else if Sha256(Raw(token)) != a.session.resetHash.value then Result(s, Failed(InvalidResetToken))
    else
      Result(s.Saved(id, a.(passwordHash := Some(Bcrypt(password)), lockout := NO_FAILURES,
                            session := a.session.Revoked().(resetHash := None, resetExpires := None)))
             .(cache := CacheDelete(s.cache, {TokenVersion(id)}, env.deleteOk)),
             Succeeded)
  }

  // ----- src/users/services/system_admin.py -----

  function Invited(cfg: Settings, s: State): Activation {
    Activation(Some(Sha256(Raw(s.draws))), Some(s.now + cfg.inviteHours * 3600))
  }

  function RegisterUser(cfg: Settings, s: State, student: bool, requested: Profile, env: Env): Result {
    var profile := if student then requested else requested.(dateOfBirth := None, address := None);
    if env.limitReached then Result(s, Failed(ContactLimitReached))
    else if CommitFails(s.accounts, None, profile, env) then Result(s.(draws := s.draws + 1), Failed(IntegrityError))
    else
      var a := Account(if student then Student else Teacher, PendingActivation, false, None, profile,
                       NEW_SESSION, Invited(cfg, s), NO_FAILURES);
      Result(s.Saved(s.nextId, a).(nextId := s.nextId + 1, draws := s.draws + 1,
                                   outbox := s.outbox + [Mail(Invite, profile.email, Some(s.draws), s.nextId)]),
             Succeeded)
  }

  // The columns of the two admin update payloads.
  function UpdateFields(studentShaped: bool): set<Field> {
    {Firstname, Lastname, Middlename, PhoneNumber} + if studentShaped then {DateOfBirth, Address} else {}
  }

  function UpdateUser(s: State, target: UserId, studentShaped: bool, request: Changes, env: Env): Result {
    if !VisibleToAdmin(s, target) then Result(s, Failed(UserNotFound)) else
    var a := s.accounts[target];
    var phone := Given(request, PhoneNumber);
    var profile := a.profile.Merged(request);
    if (a.role == Student) != studentShaped then Result(s, Failed(UserTypeMismatch))
    else if a.role == Student && phone.Some? && phone != a.profile.phoneNumber && env.limitReached then
      Result(s, Failed(ContactLimitReached))
    else if profile == a.profile then Result(s, Failed(NoChangesDetected))
    else if CommitFails(s.accounts, Some(target), profile, env) then Result(s, Failed(IntegrityError))
    else
      Result(s.Saved(target, a.(profile := profile))
             .(cache := CacheDelete(s.cache, DetailKeys(target), env.deleteOk)),
             Succeeded)
  }

  const CREDENTIAL_FIELDS: set<Field> := {Username, Email}

  function UpdateUserCredentials(cfg: Settings, s: State, target: UserId, request: Changes, env: Env): Result {
    if !VisibleToAdmin(s, target) then Result(s, Failed(UserNotFound)) else
    var a := s.accounts[target];
    var email := Given(request, Email);
    var emailChanging := email.Some? && email != a.profile.email;
    var reissue := emailChanging && a.status == PendingActivation;
    var profile := a.profile.Merged(request);
    var draws := if reissue then s.draws + 1 else s.draws;
    if a.role == Student && emailChanging && env.limitReached then Result(s, Failed(ContactLimitReached))
    else if profile == a.profile then Result(s, Failed(NoChangesDetected))
    else if CommitFails(s.accounts, Some(target), profile, env) then
      Result(s.(draws := draws), Failed(IntegrityError))
    else
      var a' := a.(profile := profile, session := a.session.Revoked().WithoutEmailChange(),
                   activation := if reissue then Invited(cfg, s) else a.activation);
      var mail := if reissue then Mail(Invite, profile.email, Some(s.draws), target)
                  else Mail(AdminCredentialsOverride, a.profile.email, None, target);
      Result(s.Saved(target, a')
             .(outbox := s.outbox + [mail], draws := draws,
               cache := CacheDelete(s.cache, {TokenVersion(target)} + DetailKeys(target), env.deleteOk)),
             Succeeded)
  }

  function DeactivateUser(s: State, target: UserId, env: Env): Result {
    if !VisibleToAdmin(s, target) then Result(s, Failed(UserNotFound)) else
    var a := s.accounts[target];
    if !a.isActive then Result(s, Failed(UserAlreadyInactive)) else
    Result(s.Saved(target, a.(isActive := false, status := Deactivated, session := a.session.Revoked()))
           .(cache := CacheDelete(s.cache, {TokenVersion(target)} + DetailKeys(target), env.deleteOk)),
           Succeeded)
  }

  function ActivateUser(s: State, target: UserId, env: Env): Result {
    if !VisibleToAdmin(s, target) then Result(s, Failed(UserNotFound)) else
    var a := s.accounts[target];
    if a.isActive then Result(s, Failed(UserAlreadyActive)) else
    Result(s.Saved(target, a.(isActive := true, status := Active, lockout := NO_FAILURES))
           .(cache := CacheDelete(s.cache, {AdminDetail(target)}, env.deleteOk)),
           Succeeded)
  }

  function CreateResetPasswordRequest(cfg: Settings, s: State, target: UserId): Result {
    if !VisibleToAdmin(s, target) then Result(s, Failed(UserNotFound)) else
    var a := s.accounts[target];
    Result(s.Saved(target, a.(session := ResetRequested(cfg, s, a.session)))
           .(draws := s.draws + 1,
             outbox := s.outbox + [Mail(PasswordResetAdmin, a.profile.email, Some(s.draws), target)]),
           Succeeded)
  }

  function ResendActivationInvite(cfg: Settings, s: State, target: UserId): Result {
    if !VisibleToAdmin(s, target) then Result(s, Failed(UserNotFound)) else
    var a := s.accounts[target];
    if a.status != PendingActivation then Result(s, Failed(UserNotPendingActivation)) else
    Result(s.Saved(target, a.(activation := Invited(cfg, s)))
           .(draws := s.draws + 1, outbox := s.outbox + [Mail(Invite, a.profile.email, Some(s.draws), target)]),
           Succeeded)
  }

  // get_teacher_by_id and get_student_by_id, of the administrator's service and of the director's: each
  // service has one cache key for both.
  function GetUserDetail(s: State, target: UserId, staff: bool, asStudent: bool, env: Env): Result {
    var key := if staff then StaffDetail(target) else AdminDetail(target);
    var cached := CacheGet(s.cache, s.now, key, env.getOk);
    if cached.Some? && cached.value.DetailView? then Result(s, SawDetail(cached.value.detail)) else
    if target !in s.accounts || s.accounts[target].role != (if asStudent then Student else Teacher) then
      Result(s, Failed(UserNotFound))
    else
      var detail := DetailOf(s.accounts[target], staff);
      Result(s.(cache := CacheSet(s.cache, s.now, key, DetailView(detail), PROFILE_TTL, env.setOk)), SawDetail(detail))
  }

  // ----- src/users/services/shared.py -----

  predicate Renaming(a: Account, username: Option<string>) {
    username.Some? && username != a.profile.username
  }

  predicate EmailRequested(a: Account, email: Option<string>) {
    email.Some? && email != a.profile.email
  }

  function SelfUpdated(
    cfg: Settings, now: Time, a: Account, username: Option<string>, email: Option<string>, code: string): Account
  {
    var renamed :=
      if Renaming(a, username)
      then a.(profile := a.profile.(username := username), session := a.session.(version := a.session.version + 1))
      else a;
    if EmailRequested(a, email)
    then renamed.(session := renamed.session.(pendingEmail := email, codeHash := Some(Sha256(Code(code))),
                                              codeExpires := Some(now + cfg.codeMinutes * 60)))
    else renamed
  }

  // The cached views are dropped, and then the cached version if the username has changed.
  function AfterSelfUpdate(cache: Cache, id: UserId, renaming: bool, env: Env): Cache {
    var dropped := CacheDelete(cache, DetailKeys(id), env.deleteOk);
    if renaming then CacheDelete(dropped, {TokenVersion(id)}, env.deleteAgainOk) else dropped
  }

  function UpdateMeCredentials(
    cfg: Settings, s: State, id: UserId, username: Option<string>, email: Option<string>, code: string, env: Env)
    : Result
  {
    if id !in s.accounts then Result(s, Failed(UserNotFound)) else
    var a := s.accounts[id];
    if !Renaming(a, username) && !EmailRequested(a, email) then Result(s, Failed(NoChangesDetected))
    else if EmailRequested(a, email) && a.session.pendingEmail == email
            && a.session.codeExpires.Some? && a.session.codeExpires.value > s.now then
      Result(s, Failed(DuplicateEmailChangeRequest))
    else
      var a' := SelfUpdated(cfg, s.now, a, username, email, code);
      if CommitFails(s.accounts, Some(id), a'.profile, env) then Result(s, Failed(IntegrityError)) else
      Result(s.Saved(id, a').(cache := AfterSelfUpdate(s.cache, id, Renaming(a, username), env)), Succeeded)
  }

  function ConfirmEmailChange(s: State, id: UserId, code: string, env: Env): Result {
    if id !in s.accounts then Result(s, Failed(UserNotFound)) else
    var a := s.accounts[id];
    if a.session.pendingEmail.None? || a.session.codeHash.None? then Result(s, Failed(NoPendingEmailChange))
    else if a.session.codeExpires.None? then Result(s, Failed(NullDereference))
    else if a.session.codeExpires.value < s.now then Result(s, Failed(EmailChangeCodeExpired))
    else if Sha256(Code(code)) != a.session.codeHash.value then Result(s, Failed(InvalidEmailChangeCode))
    else if a.role == Student && env.limitReached then Result(s, Failed(ContactLimitReached))
    else
      var profile := a.profile.(email := a.session.pendingEmail);
      if CommitFails(s.accounts, Some(id), profile, env) then Result(s, Failed(IntegrityError)) else
      Result(s.Saved(id, a.(profile := profile, session := a.session.Revoked().WithoutEmailChange()))
             .(cache := CacheDelete(s.cache, {TokenVersion(id)} + DetailKeys(id), env.deleteOk)),
             Succeeded)
  }

  function UpdateMePassword(s: State, id: UserId, current: string, password: string, env: Env): Result {
    if id !in s.accounts then Result(s, Failed(UserNotFound)) else
    var a := s.accounts[id];
    if !VerifyPassword(current, a.passwordHash) then Result(s, Failed(IncorrectPassword)) else
    Result(s.Saved(id, a.(passwordHash := Some(Bcrypt(password)), session := a.session.Revoked()))
           .(cache := CacheDelete(s.cache, {TokenVersion(id)}, env.deleteOk)),
           Succeeded)
  }

  // Both profile endpoints: one serves students, the other everyone else; they share a cache key.
  function GetMyProfile(s: State, id: UserId, asStudent: bool, env: Env): Result {
    var cached := CacheGet(s.cache, s.now, SelfDetail(id), env.getOk);
    if cached.Some? && cached.value.SelfView? then Result(s, SawProfile(cached.value.profile)) else
    if id !in s.accounts || (s.accounts[id].role == Student) != asStudent then Result(s, Failed(UserNotFound)) else
    var profile := s.accounts[id].profile;
    Result(s.(cache := CacheSet(s.cache, s.now, SelfDetail(id), SelfView(profile), PROFILE_TTL, env.setOk)),
           SawProfile(profile))
  }

  // ----- src/core/dependencies.py -----

  // A signature this system made, on a token that has not expired.
  predicate Genuine(s: State, presented: Option<AccessToken>) {
    presented.Some? && presented.value in s.accessIssued && s.now < presented.value.expires
  }

  function GetCurrentUser(s: State, presented: Option<AccessToken>, env: Env): Result {
    if !Genuine(s, presented) then Result(s, Failed(InvalidAccessToken)) else
    var token := presented.value;
    var cached := CacheGet(s.cache, s.now, TokenVersion(token.sub), env.getOk);
    if cached.Some? && cached.value.Version? then
      if cached.value.version != token.version then Result(s, Failed(InvalidAccessToken))
      else Result(s, ActingAs(token.sub, token.role))
    else CheckedInDatabase(s, token, env)
  }

  function CheckedInDatabase(s: State, token: AccessToken, env: Env): Result {
    if token.sub !in s.accounts then Result(s, Failed(InvalidAccessToken)) else
    var a := s.accounts[token.sub];
    if a.session.version != token.version then Result(s, Failed(InvalidAccessToken))
    else if !a.isActive then Result(s, Failed(AccountInactive))
    else
      Result(s.(cache := CacheSet(s.cache, s.now, TokenVersion(token.sub), Version(a.session.version), VERSION_TTL,
                                  env.setOk)),
             ActingAs(token.sub, token.role))
  }
}
