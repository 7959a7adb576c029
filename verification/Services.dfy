/** The services themselves, statement by statement, on ORM objects that are loaded from the tables,
    updated in place, and published by a commit (src/auth/service.py,
    src/users/services/system_admin.py, src/users/services/shared.py, src/core/dependencies.py,
    src/core/caching.py, src/utils/helpers.py, src/users/repositories/user.py). */
module Services {
  import opened Prelude
  import opened Accounts
  import opened Operations
  import opened AccountContacts
  import ContactLimit
  import LockKeys

  // ----- ORM objects -----

  class UserSession {
    var accessTokenVersion: nat
    var refreshTokenHash: Option<Digest>
    var refreshTokenFamily: Option<nat>
    var refreshTokenExpiresAt: Option<Time>
    var resetPasswordTokenHash: Option<Digest>
    var resetPasswordTokenExpiresAt: Option<Time>
    var pendingNewEmail: Option<string>
    var emailChangeCodeHash: Option<Digest>
    var emailChangeCodeExpiresAt: Option<Time>

    function View(): Session
      reads this
    {
      Session(accessTokenVersion, refreshTokenHash, refreshTokenFamily, refreshTokenExpiresAt,
              resetPasswordTokenHash, resetPasswordTokenExpiresAt,
              pendingNewEmail, emailChangeCodeHash, emailChangeCodeExpiresAt)
    }

    constructor Load(row: Session)
      ensures View() == row
    {
      accessTokenVersion := row.version;
      refreshTokenHash, refreshTokenFamily, refreshTokenExpiresAt :=
        row.refreshHash, row.refreshFamily, row.refreshExpires;
      resetPasswordTokenHash, resetPasswordTokenExpiresAt := row.resetHash, row.resetExpires;
      pendingNewEmail, emailChangeCodeHash, emailChangeCodeExpiresAt :=
        row.pendingEmail, row.codeHash, row.codeExpires;
    }

    // The four assignments that revoke the tokens of a user.
    method Revoke()
      modifies this
      ensures View() == old(View()).Revoked()
    {
      accessTokenVersion := accessTokenVersion + 1;
      refreshTokenHash := None;
      refreshTokenFamily := None;
      refreshTokenExpiresAt := None;
    }

    method StartRefresh(token: RefreshToken, family: nat)
      modifies this
      ensures View() == old(View()).(refreshHash := Some(Sha256(Jwt(token))), refreshFamily := Some(family),
                                     refreshExpires := Some(token.expires))
    {
      refreshTokenFamily := Some(family);
      refreshTokenHash := Some(Sha256(Jwt(token)));
      refreshTokenExpiresAt := Some(token.expires);
    }

    method RequestEmailChange(email: Option<string>, code: string, expiresAt: Time)
      modifies this
      ensures View() == old(View()).(pendingEmail := email, codeHash := Some(Sha256(Code(code))),
                                     codeExpires := Some(expiresAt))
    {
      pendingNewEmail := email;
      emailChangeCodeHash := Some(Sha256(Code(code)));
      emailChangeCodeExpiresAt := Some(expiresAt);
    }

    method ClearEmailChange()
      modifies this
      ensures View() == old(View()).WithoutEmailChange()
    {
      pendingNewEmail := None;
      emailChangeCodeHash := None;
      emailChangeCodeExpiresAt := None;
    }
  }

  class UserActivation {
    var inviteTokenHash: Option<Digest>
    var inviteTokenExpiresAt: Option<Time>

    function View(): Activation
      reads this
    {
      Activation(inviteTokenHash, inviteTokenExpiresAt)
    }

    constructor Load(row: Activation)
      ensures View() == row
    {
      inviteTokenHash, inviteTokenExpiresAt := row.inviteHash, row.inviteExpires;
    }
  }

  class UserLoginLockout {
    var failedLoginAttempts: nat
    var lockedUntil: Option<Time>

    function View(): Lockout
      reads this
    {
      Lockout(failedLoginAttempts, lockedUntil)
    }

    constructor Load(row: Lockout)
      ensures View() == row
    {
      failedLoginAttempts, lockedUntil := row.failed, row.lockedUntil;
    }

    method Reset()
      modifies this
      ensures View() == NO_FAILURES
    {
      failedLoginAttempts := 0;
      lockedUntil := None;
    }
  }

  class User {
    const id: UserId
    const role: Role
    var profile: Profile
    var status: Status
    var isActive: bool
    var passwordHash: Option<PasswordHash>
    const session: UserSession
    const activation: UserActivation
    const loginLockout: UserLoginLockout

    function View(): Account
      reads this, session, activation, loginLockout
    {
      Account(role, status, isActive, passwordHash, profile, session.View(), activation.View(), loginLockout.View())
    }

    constructor Load(id: UserId, row: Account)
      ensures this.id == id && View() == row
      ensures fresh(session) && fresh(activation) && fresh(loginLockout)
    {
      this.id := id;
      role, status, isActive := row.role, row.status, row.isActive;
      passwordHash, profile := row.passwordHash, row.profile;
      session := new UserSession.Load(row.session);
      activation := new UserActivation.Load(row.activation);
      loginLockout := new UserLoginLockout.Load(row.lockout);
    }
  }

  /** update_object: assign every requested attribute that differs, and report whether any did. */
  method UpdateObject(user: User, request: Changes) returns (changed: bool)
    modifies user`profile
    ensures user.profile == old(user.profile).Merged(request)
    ensures changed <==> user.profile != old(user.profile)
  {
    changed := false;
    var fields := request.Keys;
    while fields != {}
      invariant fields <= request.Keys
      invariant forall f | f in fields :: user.profile.Get(f) == old(user.profile).Get(f)
      invariant forall f | f !in fields :: user.profile.Get(f) == old(user.profile).Requested(request, f)
      invariant changed <==> user.profile != old(user.profile)
      decreases fields
    {
      var field :| field in fields;
      ghost var before := user.profile;
      if user.profile.Get(field) != request[field] {
        user.profile := user.profile.Set(field, request[field]);
        changed := true;
      }
      ProfileSet(before, field, request[field]);
      fields := fields - {field};
      assert user.profile.Get(field) != old(user.profile).Get(field) ==> user.profile != old(user.profile);
    }
    ProfilesAgree(user.profile, old(user.profile).Merged(request));
  }

  lemma ProfileSet(p: Profile, field: Field, value: Option<string>)
    ensures forall f :: p.Set(field, value).Get(f) == if f == field then value else p.Get(f)
  {
  }

  // What is said of the unique indexes on contacts is true of this version of the row.
  predicate Judged(accounts: map<UserId, Account>, self: Option<UserId>, student: bool, profile: Profile, env: Env) {
    env.integrityError == NonStudentContactTaken(accounts, self, student, profile.phoneNumber, profile.email)
  }

  // ----- The backend: database, outbox, Redis, random source and clock -----

  class Backend {
    const settings: Settings
    var now: Time
    var accounts: map<UserId, Account>
    var nextId: UserId
    var outbox: seq<Mail>
    var cache: Cache
    var draws: nat
    var accessIssued: set<AccessToken>
    var refreshIssued: set<RefreshToken>

    function View(): State
      reads this
    {
      State(now, accounts, nextId, outbox, cache, draws, accessIssued, refreshIssued)
    }

    ghost predicate Valid()
      reads this
    {
      UniqueUsernames(accounts) && nextId !in accounts
    }

    // The request has left the expected state and reported the expected outcome.
    twostate predicate Did(expected: Result, outcome: Outcome)
      reads this
    {
      View() == expected.state && outcome == expected.outcome
    }

    // --- Redis ---

    method GetCache(key: Key, env: Env) returns (value: Option<CacheValue>)
      ensures value == CacheGet(cache, now, key, env.getOk)
    {
      value := None;
      if env.getOk && key in cache && now < cache[key].expires {
        value := Some(cache[key].value);
      }
    }

    method SetCache(key: Key, value: CacheValue, ttl: nat, env: Env)
      modifies this`cache
      ensures cache == CacheSet(old(cache), now, key, value, ttl, env.setOk)
    {
      if env.setOk {
        cache := cache[key := Entry(value, now + ttl)];
      }
    }

    method DeleteCache(keys: set<Key>, env: Env)
      modifies this`cache
      ensures cache == CacheDelete(old(cache), keys, env.deleteOk)
    {
      if env.deleteOk {
        cache := cache - keys;
      }
    }

    // --- Database session ---

    method GetUserById(id: UserId) returns (user: User?)
      ensures user == null <==> id !in accounts
      ensures user != null ==>
                user.id == id && user.View() == accounts[id]
                && fresh(user) && fresh(user.session) && fresh(user.activation) && fresh(user.loginLockout)
    {
      user := null;
      if id in accounts {
        user := new User.Load(id, accounts[id]);
      }
    }

    method GetVisibleUser(id: UserId) returns (user: User?)
      ensures user == null <==> !VisibleToAdmin(View(), id)
      ensures user != null ==>
                user.id == id && user.View() == accounts[id]
                && fresh(user) && fresh(user.session) && fresh(user.activation) && fresh(user.loginLockout)
    {
      user := GetUserById(id);
      if user != null && user.role == SystemAdmin {
        user := null;
      }
    }

    method GetUserByUsername(username: string) returns (user: User?)
      requires Valid()
      ensures user == null <==> FindByUsername(accounts, username).None?
      ensures user != null ==>
                FindByUsername(accounts, username) == Some(user.id) && user.View() == accounts[user.id]
                && fresh(user) && fresh(user.session) && fresh(user.activation) && fresh(user.loginLockout)
    {
      user := null;
      var matches := set id | id in accounts && accounts[id].profile.username == Some(username);
      assert FindByUsername(accounts, username).Some? ==> FindByUsername(accounts, username).value in matches;
      if matches != {} {
        var id :| id in matches;
        assert HasUsername(accounts, id, Some(username));
        user := new User.Load(id, accounts[id]);
      }
    }

    method Commit(user: User)
      modifies this`accounts
      ensures accounts == old(accounts)[user.id := user.View()]
    {
      accounts := accounts[user.id := user.View()];
    }

    // count_users_with_contact
    method CountUsersWithContact(
      students: bool, phone: Option<string>, email: Option<string>, exclude: Option<UserId>) returns (count: nat)
      requires phone.Some? || email.Some?
      ensures count == if phone.Some?
                       then ContactLimit.CountUsersWithContact(ContactTable(accounts), students, LockKeys.Phone,
                                                               phone.value, exclude)
                       else ContactLimit.CountUsersWithContact(ContactTable(accounts), students, LockKeys.Email,
                                                               email.value, exclude)
    {
      var table := ContactTable(accounts);
      var matches := set id | id in table
                              && table[id].student == students
                              && (if phone.Some? then table[id].phone == phone.value
                                  else table[id].email == email.value)
                              && exclude != Some(id);
      if phone.Some? {
        assert matches == ContactLimit.Holders(table, students, LockKeys.Phone, phone.value, exclude);
      } else {
        assert matches == ContactLimit.Holders(table, students, LockKeys.Email, email.value, exclude);
      }
      count := |matches|;
    }

    // check_contact_limit: whether it raises.
    method CheckContactLimit(students: bool, phone: Option<string>, email: Option<string>, exclude: Option<UserId>)
      returns (reached: bool)
      ensures reached == LimitIsReached(accounts, students, phone, email, exclude)
    {
      var maxAllowed := ContactLimit.MaxAllowed(students);
      if phone.Some? {
        var phoneCount := CountUsersWithContact(students, phone, None, exclude);
        if phoneCount >= maxAllowed {
          return true;
        }
      }
      if email.Some? {
        var emailCount := CountUsersWithContact(students, None, email, exclude);
        if emailCount >= maxAllowed {
          return true;
        }
      }
      reached := false;
    }

    // The flush of this row meets a null, a username or a contact that the constraints refuse.
    method ViolatesConstraint(self: Option<UserId>, student: bool, profile: Profile, ghost judged: Env)
      returns (violated: bool)
      requires Judged(accounts, self, student, profile, judged)
      ensures violated == CommitFails(accounts, self, profile, judged)
    {
      violated := !profile.NotNull() || UsernameTaken(accounts, self, profile.username)
                  || NonStudentContactTaken(accounts, self, student, profile.phoneNumber, profile.email);
    }

    // Commit the row and the added outbox rows together, or roll back.
    method TryCommit(user: User, added: seq<Mail>, ghost judged: Env) returns (committed: bool)
      requires Judged(accounts, Some(user.id), user.role == Student, user.profile, judged)
      modifies this`accounts, this`outbox
      ensures committed <==> !CommitFails(old(accounts), Some(user.id), user.profile, judged)
      ensures committed ==> accounts == old(accounts)[user.id := user.View()] && outbox == old(outbox) + added
      ensures !committed ==> accounts == old(accounts) && outbox == old(outbox)
    {
      var violated := ViolatesConstraint(Some(user.id), user.role == Student, user.profile, judged);
      committed := !violated;
      if committed {
        accounts := accounts[user.id := user.View()];
        outbox := outbox + added;
      }
    }

    // Commit, and on success drop the given cache entries.
    method CommitAndDrop(user: User, added: seq<Mail>, keys: set<Key>, env: Env, ghost judged: Env)
      returns (outcome: Outcome)
      requires Judged(accounts, Some(user.id), user.role == Student, user.profile, judged)
      modifies this`accounts, this`outbox, this`cache
      ensures if CommitFails(old(accounts), Some(user.id), user.profile, judged)
              then View() == old(View()) && outcome == Failed(IntegrityError)
              else View() == old(View()).Saved(user.id, user.View())
                             .(outbox := old(outbox) + added, cache := CacheDelete(old(cache), keys, env.deleteOk))
                   && outcome == Succeeded
    {
      var committed := TryCommit(user, added, judged);
      if !committed {
        return Failed(IntegrityError);
      }
      DeleteCache(keys, env);
      outcome := Succeeded;
    }

    method Draw() returns (value: nat)
      modifies this`draws
      ensures value == old(draws) && draws == old(draws) + 1
    {
      value := draws;
      draws := draws + 1;
    }

    // --- src/auth/service.py ---

    method InvalidateAllTokens(id: UserId, env: Env)
      modifies this
      ensures View() == Operations.InvalidateAllTokens(old(View()), id, env)
    {
      var user := GetUserById(id);
      if user == null {
        return;
      }
      user.session.Revoke();
      Commit(user);
      DeleteCache({TokenVersion(id)}, env);
    }

    method IssueTokens(user: User) returns (outcome: Outcome)
      requires user.id in accounts
      modifies this, user.session
      ensures Did(Operations.IssueTokens(settings, old(View()), user.id, old(user.View())), outcome)
    {
      var newFamily := Draw();
      var accessToken := AccessToken(user.id, user.role, user.session.accessTokenVersion,
                                     now + settings.accessMinutes * 60);
      accessIssued := accessIssued + {accessToken};
      var jti := Draw();
      var refreshToken := RefreshToken(user.id, jti, now + settings.refreshDays * 86400);
      refreshIssued := refreshIssued + {refreshToken};
      user.session.StartRefresh(refreshToken, newFamily);
      assert user.View() == old(user.View()).(
                              session := Rotated(settings, user.id, now, old(draws), old(user.session.View())));
      Commit(user);
      outcome := LoggedIn(accessToken, refreshToken, newFamily);
    }

    method Login(username: Option<string>, password: Option<string>) returns (outcome: Outcome)
      requires Valid()
      modifies this
      ensures Did(Operations.Login(settings, old(View()), username, password), outcome)
    {
      if username.None? || password.None? {
        return Failed(EmptyCredentials);
      }
      var user := GetUserByUsername(username.value);
      if user == null {
        return Failed(InvalidCredentials);
      }
      if user.loginLockout.lockedUntil.Some? && now < user.loginLockout.lockedUntil.value {
        return Failed(AccountLocked);
      }
      if user.passwordHash.None? {
        return Failed(InvalidCredentials);
      }
      if user.status == PendingActivation {
        return Failed(InvalidCredentials);
      }
      if !VerifyPassword(password.value, user.passwordHash) {
        user.loginLockout.failedLoginAttempts := user.loginLockout.failedLoginAttempts + 1;
        if user.loginLockout.failedLoginAttempts >= MAX_FAILED_ATTEMPTS {
          user.loginLockout.lockedUntil := Some(now + LOCKOUT_SECONDS);
        }
        Commit(user);
        return Failed(InvalidCredentials);
      }
      if user.status != Active {
        return Failed(AccountInactive);
      }
      user.loginLockout.Reset();
      outcome := IssueTokens(user);
    }

    method Logout(id: UserId, env: Env) returns (outcome: Outcome)
      modifies this
      ensures Did(Operations.Logout(old(View()), id, env), outcome)
    {
      InvalidateAllTokens(id, env);
      outcome := Succeeded;
    }

    method ActivateAccount(username: string, invite: nat, newPassword: string) returns (outcome: Outcome)
      requires Valid()
      modifies this
      ensures Did(Operations.ActivateAccount(old(View()), username, invite, newPassword), outcome)
    {
      var user := GetUserByUsername(username);
      if user == null || user.activation.inviteTokenHash.None? {
        return Failed(InvalidInviteToken);
      }
      if user.activation.inviteTokenExpiresAt.None? || now > user.activation.inviteTokenExpiresAt.value {
        return Failed(ExpiredInviteToken);
      }
      if Sha256(Raw(invite)) != user.activation.inviteTokenHash.value {
        return Failed(InvalidInviteToken);
      }
      user.passwordHash := Some(Bcrypt(newPassword));
      user.isActive := true;
      user.status := Active;
      user.activation.inviteTokenHash := None;
      user.activation.inviteTokenExpiresAt := None;
      Commit(user);
      outcome := Succeeded;
    }

    method Refresh(presented: Option<RefreshToken>, family: nat, env: Env) returns (outcome: Outcome)
      modifies this
      ensures Did(Operations.Refresh(settings, old(View()), presented, family, env), outcome)
    {
      if presented.None? || presented.value !in refreshIssued {
        return Failed(InvalidRefreshToken);
      }
      if now >= presented.value.expires {
        return Failed(ExpiredRefreshToken);
      }
      var id := presented.value.sub;
      var user := GetUserById(id);
      if user == null
         || user.session.refreshTokenHash.None?
         || user.session.refreshTokenFamily.None?
         || user.session.refreshTokenExpiresAt.None?
      {
        return Failed(InvalidRefreshToken);
      }
      if now > user.session.refreshTokenExpiresAt.value {
        return Failed(ExpiredRefreshToken);
      }
      var familyValid := family == user.session.refreshTokenFamily.value;
      var hashValid := Sha256(Jwt(presented.value)) == user.session.refreshTokenHash.value;
      if !familyValid || !hashValid {
        InvalidateAllTokens(id, env);
        return Failed(InvalidRefreshToken);
      }
      outcome := IssueTokens(user);
    }

    method CreateForgotPasswordRequest(username: string) returns (outcome: Outcome)
      requires Valid()
      modifies this
      ensures Did(Operations.ForgotPassword(settings, old(View()), username), outcome)
    {
      var user := GetUserByUsername(username);
      var raw := Draw();
      if user != null {
        user.session.resetPasswordTokenHash := Some(Sha256(Raw(raw)));
        user.session.resetPasswordTokenExpiresAt := Some(now + settings.resetMinutes * 60);
        Commit(user);
      }
      outcome := Succeeded;
    }

    method ResetPassword(username: string, token: nat, newPassword: string, env: Env) returns (outcome: Outcome)
      requires Valid()
      modifies this
      ensures Did(Operations.ResetPassword(old(View()), username, token, newPassword, env), outcome)
    {
      var user := GetUserByUsername(username);
      if user == null {
        return Failed(InvalidCredentials);
      }
      if user.session.resetPasswordTokenExpiresAt.None? || now > user.session.resetPasswordTokenExpiresAt.value {
        return Failed(ExpiredResetToken);
      }
      if user.session.resetPasswordTokenHash.None? {
        return Failed(NullDereference);
      }
      if Sha256(Raw(token)) != user.session.resetPasswordTokenHash.value {
        return Failed(InvalidResetToken);
      }
      AssignReset(user, newPassword);
      Commit(user);
      DeleteCache({TokenVersion(user.id)}, env);
      outcome := Succeeded;
    }

    // The assignments of reset_password, before its commit.
    method AssignReset(user: User, newPassword: string)
      modifies user`passwordHash, user.session, user.loginLockout
      ensures user.View() == old(user.View()).(
                passwordHash := Some(Bcrypt(newPassword)), lockout := NO_FAILURES,
                session := old(user.session.View()).Revoked().(resetHash := None, resetExpires := None))
    {
      user.passwordHash := Some(Bcrypt(newPassword));
      user.session.resetPasswordTokenHash := None;
      user.session.resetPasswordTokenExpiresAt := None;
      user.session.Revoke();
      user.loginLockout.Reset();
    }

    // --- src/users/services/system_admin.py ---

    // A fresh invite token for the user, and the outbox row that carries it.
    method ReissueInvite(user: User) returns (mail: Mail)
      modifies this`draws, user.activation
      ensures user.activation.View() == Invited(settings, old(View())) && draws == old(draws) + 1
      ensures mail == Mail(Invite, user.profile.email, Some(old(draws)), user.id)
    {
      var raw := Draw();
      user.activation.inviteTokenHash := Some(Sha256(Raw(raw)));
      user.activation.inviteTokenExpiresAt := Some(now + settings.inviteHours * 3600);
      mail := Mail(Invite, user.profile.email, Some(raw), user.id);
    }

    method RegisterUser(student: bool, requested: Profile, env: Env) returns (outcome: Outcome)
      requires Valid()
      modifies this
      ensures Did(Operations.RegisterUser(settings, old(View()), student, requested,
                                          RegistrationEnv(old(accounts), student, requested, env)), outcome)
    {
      ghost var judged := RegistrationEnv(accounts, student, requested, env);
      var reached := CheckContactLimit(student, requested.phoneNumber, requested.email, None);
      if reached {
        return Failed(ContactLimitReached);
      }
      var raw := Draw();
      var profile := requested;
      if !student {
        profile := profile.(dateOfBirth := None, address := None);
      }
      var violated := ViolatesConstraint(None, student, profile, judged);
      if violated {
        return Failed(IntegrityError);
      }
      var activation := Activation(Some(Sha256(Raw(raw))), Some(now + settings.inviteHours * 3600));
      var role := if student then Student else Teacher;
      accounts := accounts[nextId := Account(role, PendingActivation, false, None, profile,
                                             NEW_SESSION, activation, NO_FAILURES)];
      outbox := outbox + [Mail(Invite, profile.email, Some(raw), nextId)];
      nextId := nextId + 1;
      outcome := Succeeded;
    }

    method UpdateUser(target: UserId, studentShaped: bool, request: Changes, env: Env) returns (outcome: Outcome)
      modifies this
      ensures Did(Operations.UpdateUser(old(View()), target, studentShaped, request,
                                        UpdateEnv(old(accounts), target, request, env)), outcome)
    {
      ghost var judged := UpdateEnv(accounts, target, request, env);
      var user := GetVisibleUser(target);
      if user == null {
        return Failed(UserNotFound);
      }
      if (user.role == Student) != studentShaped {
        return Failed(UserTypeMismatch);
      }
      var phone := Given(request, PhoneNumber);
      var phoneChanging := phone.Some? && phone != user.profile.phoneNumber;
      if user.role == Student && phoneChanging {
        var reached := CheckContactLimit(true, phone, None, Some(target));
        if reached {
          return Failed(ContactLimitReached);
        }
      }
      var changed := UpdateObject(user, request);
      if !changed {
        return Failed(NoChangesDetected);
      }
      outcome := CommitAndDrop(user, [], DetailKeys(target), env, judged);
    }

    method UpdateUserCredentials(target: UserId, request: Changes, env: Env) returns (outcome: Outcome)
      modifies this
      ensures Did(Operations.UpdateUserCredentials(settings, old(View()), target, request,
                                                   CredentialsEnv(old(accounts), target, request, env)), outcome)
    {
      ghost var judged := CredentialsEnv(accounts, target, request, env);
      var user := GetVisibleUser(target);
      if user == null {
        return Failed(UserNotFound);
      }
      var email := Given(request, Email);
      var emailChanging := email.Some? && email != user.profile.email;
      var reissue := emailChanging && user.status == PendingActivation;
      if user.role == Student && emailChanging {
        var reached := CheckContactLimit(true, None, email, Some(target));
        if reached {
          return Failed(ContactLimitReached);
        }
      }
      var oldEmail := user.profile.email;
      var changed := UpdateObject(user, request);
      if !changed {
        return Failed(NoChangesDetected);
      }
      outcome := CommitOverride(user, oldEmail, reissue, env, judged);
    }

    // The rest of update_user_credentials, once the requested columns are assigned.
    method CommitOverride(user: User, oldEmail: Option<string>, reissue: bool, env: Env, ghost judged: Env)
      returns (outcome: Outcome)
      requires Judged(accounts, Some(user.id), user.role == Student, user.profile, judged)
      modifies this, user.session, user.activation
      ensures var s := old(View()).(draws := if reissue then old(draws) + 1 else old(draws));
              var a := old(user.View()).(session := old(user.session.View()).Revoked().WithoutEmailChange(),
                                         activation := if reissue then Invited(settings, old(View()))
                                                       else old(user.activation.View()));
              var mail := if reissue then Mail(Invite, a.profile.email, Some(old(draws)), user.id)
                          else Mail(AdminCredentialsOverride, oldEmail, None, user.id);
              if CommitFails(s.accounts, Some(user.id), a.profile, judged)
              then View() == s && outcome == Failed(IntegrityError)
              else outcome == Succeeded
                   && View() == s.Saved(user.id, a)
                                .(outbox := s.outbox + [mail],
                                  cache := CacheDelete(s.cache, {TokenVersion(user.id)} + DetailKeys(user.id),
                                                       env.deleteOk))
    {
      var mail := OverrideSession(user, oldEmail, reissue);
      outcome := CommitAndDrop(user, [mail], {TokenVersion(user.id)} + DetailKeys(user.id), env, judged);
    }

    // The session, activation and outbox changes of update_user_credentials, before its commit.
    method OverrideSession(user: User, oldEmail: Option<string>, reissue: bool) returns (mail: Mail)
      modifies this`draws, user.session, user.activation
      ensures draws == if reissue then old(draws) + 1 else old(draws)
      ensures user.session.View() == old(user.session.View()).Revoked().WithoutEmailChange()
      ensures user.activation.View() == if reissue then Invited(settings, old(View())) else old(user.activation.View())
      ensures mail == if reissue then Mail(Invite, user.profile.email, Some(old(draws)), user.id)
                      else Mail(AdminCredentialsOverride, oldEmail, None, user.id)
    {
      user.session.Revoke();
      user.session.ClearEmailChange();
      if reissue {
        mail := ReissueInvite(user);
      } else {
        mail := Mail(AdminCredentialsOverride, oldEmail, None, user.id);
      }
    }

    method DeactivateUser(target: UserId, env: Env) returns (outcome: Outcome)
      modifies this
      ensures Did(Operations.DeactivateUser(old(View()), target, env), outcome)
    {
      var user := GetVisibleUser(target);
      if user == null {
        return Failed(UserNotFound);
      }
      if !user.isActive {
        return Failed(UserAlreadyInactive);
      }
      user.isActive := false;
      user.status := Deactivated;
      user.session.Revoke();
      Commit(user);
      DeleteCache({TokenVersion(target)} + DetailKeys(target), env);
      outcome := Succeeded;
    }

    method ActivateUser(target: UserId, env: Env) returns (outcome: Outcome)
      modifies this
      ensures Did(Operations.ActivateUser(old(View()), target, env), outcome)
    {
      var user := GetVisibleUser(target);
      if user == null {
        return Failed(UserNotFound);
      }
      if user.isActive {
        return Failed(UserAlreadyActive);
      }
      user.isActive := true;
      user.status := Active;
      user.loginLockout.Reset();
      Commit(user);
      DeleteCache({AdminDetail(target)}, env);
      outcome := Succeeded;
    }

    method CreateResetPasswordRequest(target: UserId) returns (outcome: Outcome)
      modifies this
      ensures Did(Operations.CreateResetPasswordRequest(settings, old(View()), target), outcome)
    {
      var user := GetVisibleUser(target);
      if user == null {
        return Failed(UserNotFound);
      }
      var raw := Draw();
      user.session.resetPasswordTokenHash := Some(Sha256(Raw(raw)));
      user.session.resetPasswordTokenExpiresAt := Some(now + settings.resetMinutes * 60);
      outbox := outbox + [Mail(PasswordResetAdmin, user.profile.email, Some(raw), target)];
      Commit(user);
      outcome := Succeeded;
    }

    method ResendActivationInvite(target: UserId) returns (outcome: Outcome)
      modifies this
      ensures Did(Operations.ResendActivationInvite(settings, old(View()), target), outcome)
    {
      var user := GetVisibleUser(target);
      if user == null {
        return Failed(UserNotFound);
      }
      if user.status != PendingActivation {
        return Failed(UserNotPendingActivation);
      }
      var mail := ReissueInvite(user);
      outbox := outbox + [mail];
      Commit(user);
      outcome := Succeeded;
    }

    method GetUserDetail(target: UserId, staff: bool, asStudent: bool, env: Env) returns (outcome: Outcome)
      modifies this
      ensures Did(Operations.GetUserDetail(old(View()), target, staff, asStudent, env), outcome)
    {
      var key := if staff then StaffDetail(target) else AdminDetail(target);
      var cached := GetCache(key, env);
      if cached.Some? && cached.value.DetailView? {
        return SawDetail(cached.value.detail);
      }
      var user := GetUserById(target);
      if user == null || user.role != (if asStudent then Student else Teacher) {
        return Failed(UserNotFound);
      }
      var detail := DetailOf(user.View(), staff);
      SetCache(key, DetailView(detail), PROFILE_TTL, env);
      outcome := SawDetail(detail);
    }

    // --- src/users/services/shared.py ---

    method UpdateMeCredentials(id: UserId, username: Option<string>, email: Option<string>, code: string, env: Env)
      returns (outcome: Outcome)
      modifies this
      ensures Did(Operations.UpdateMeCredentials(settings, old(View()), id, username, email, code,
                                                 SelfUpdateEnv(old(accounts), id, env)), outcome)
    {
      ghost var judged := SelfUpdateEnv(accounts, id, env);
      var user := GetUserById(id);
      if user == null {
        return Failed(UserNotFound);
      }
      var usernameChanging := username.Some? && username != user.profile.username;
      var emailRequested := email.Some? && email != user.profile.email;
      if !usernameChanging && !emailRequested {
        return Failed(NoChangesDetected);
      }
      var duplicate := RepeatsEmailRequest(user, email);
      if emailRequested && duplicate {
        return Failed(DuplicateEmailChangeRequest);
      }
      outcome := ApplySelfUpdate(user, username, email, code, usernameChanging, emailRequested, env, judged);
    }

    // The same address is pending, and its code is still good.
    method RepeatsEmailRequest(user: User, email: Option<string>) returns (duplicate: bool)
      ensures duplicate == (user.session.View().pendingEmail == email && user.session.View().codeExpires.Some?
                            && user.session.View().codeExpires.value > now)
    {
      var pendingStillActive :=
        user.session.emailChangeCodeExpiresAt.Some? && user.session.emailChangeCodeExpiresAt.value > now;
      duplicate := user.session.pendingNewEmail == email && pendingStillActive;
    }

    // The rest of update_me_credentials: the assignments, the commit, and one or two deletes.
    method ApplySelfUpdate(
      user: User, username: Option<string>, email: Option<string>, code: string,
      usernameChanging: bool, emailRequested: bool, env: Env, ghost judged: Env) returns (outcome: Outcome)
      requires usernameChanging == Renaming(user.View(), username)
      requires emailRequested == EmailRequested(user.View(), email)
      requires Judged(accounts, Some(user.id), user.role == Student, user.profile, judged)
      modifies this`accounts, this`outbox, this`cache, user, user.session
      ensures var a := SelfUpdated(settings, now, old(user.View()), username, email, code);
              if CommitFails(old(accounts), Some(user.id), a.profile, judged)
              then View() == old(View()) && outcome == Failed(IntegrityError)
              else outcome == Succeeded
                   && View() == old(View()).Saved(user.id, a)
                                .(cache := AfterSelfUpdate(old(cache), user.id, usernameChanging, env))
    {
      AssignSelfUpdate(user, username, email, code, usernameChanging, emailRequested);
      outcome := CommitAndDrop(user, [], DetailKeys(user.id), env, judged);
      if outcome == Succeeded && usernameChanging {
        DeleteCache({TokenVersion(user.id)}, env.(deleteOk := env.deleteAgainOk));
      }
    }

    // The assignments of update_me_credentials, before its commit.
    method AssignSelfUpdate(
      user: User, username: Option<string>, email: Option<string>, code: string,
      usernameChanging: bool, emailRequested: bool)
      requires usernameChanging == Renaming(user.View(), username)
      requires emailRequested == EmailRequested(user.View(), email)
      modifies user, user.session
      ensures user.View() == SelfUpdated(settings, now, old(user.View()), username, email, code)
      ensures user.profile.phoneNumber == old(user.profile.phoneNumber) && user.profile.email == old(user.profile.email)
    {
      if usernameChanging {
        user.profile := user.profile.(username := username);
        user.session.accessTokenVersion := user.session.accessTokenVersion + 1;
      }
      if emailRequested {
        user.session.RequestEmailChange(email, code, now + settings.codeMinutes * 60);
      }
    }

    method ConfirmEmailChange(id: UserId, code: string, env: Env) returns (outcome: Outcome)
      modifies this
      ensures Did(Operations.ConfirmEmailChange(old(View()), id, code, ConfirmationEnv(old(accounts), id, env)),
                  outcome)
    {
      ghost var judged := ConfirmationEnv(accounts, id, env);
      var user := GetUserById(id);
      if user == null {
        return Failed(UserNotFound);
      }
      if user.session.pendingNewEmail.None? || user.session.emailChangeCodeHash.None? {
        return Failed(NoPendingEmailChange);
      }
      if user.session.emailChangeCodeExpiresAt.None? {
        return Failed(NullDereference);
      }
      if user.session.emailChangeCodeExpiresAt.value < now {
        return Failed(EmailChangeCodeExpired);
      }
      if Sha256(Code(code)) != user.session.emailChangeCodeHash.value {
        return Failed(InvalidEmailChangeCode);
      }
      if user.role == Student {
        var reached := CheckContactLimit(true, None, user.session.pendingNewEmail, Some(id));
        if reached {
          return Failed(ContactLimitReached);
        }
      }
      MoveEmailIn(user);
      outcome := CommitAndDrop(user, [], {TokenVersion(id)} + DetailKeys(id), env, judged);
    }

    // The assignments of confirm_email_change, before its commit.
    method MoveEmailIn(user: User)
      modifies user, user.session
      ensures user.View() == old(user.View()).(
                profile := old(user.profile).(email := old(user.session.pendingNewEmail)),
                session := old(user.session.View()).Revoked().WithoutEmailChange())
    {
      user.profile := user.profile.(email := user.session.pendingNewEmail);
      user.session.ClearEmailChange();
      user.session.Revoke();
    }

    method UpdateMePassword(id: UserId, current: string, newPassword: string, env: Env) returns (outcome: Outcome)
      modifies this
      ensures Did(Operations.UpdateMePassword(old(View()), id, current, newPassword, env), outcome)
    {
      var user := GetUserById(id);
      if user == null {
        return Failed(UserNotFound);
      }
      if !VerifyPassword(current, user.passwordHash) {
        return Failed(IncorrectPassword);
      }
      user.passwordHash := Some(Bcrypt(newPassword));
      user.session.Revoke();
      Commit(user);
      DeleteCache({TokenVersion(id)}, env);
      outcome := Succeeded;
    }

    method GetMyProfile(id: UserId, asStudent: bool, env: Env) returns (outcome: Outcome)
      modifies this
      ensures Did(Operations.GetMyProfile(old(View()), id, asStudent, env), outcome)
    {
      var cached := GetCache(SelfDetail(id), env);
      if cached.Some? && cached.value.SelfView? {
        return SawProfile(cached.value.profile);
      }
      var user := GetUserById(id);
      if user == null || (user.role == Student) != asStudent {
        return Failed(UserNotFound);
      }
      SetCache(SelfDetail(id), SelfView(user.profile), PROFILE_TTL, env);
      outcome := SawProfile(user.profile);
    }

    // --- src/core/dependencies.py ---

    method GetCurrentUser(presented: Option<AccessToken>, env: Env) returns (outcome: Outcome)
      modifies this
      ensures Did(Operations.GetCurrentUser(old(View()), presented, env), outcome)
    {
      if presented.None? || presented.value !in accessIssued || now >= presented.value.expires {
        return Failed(InvalidAccessToken);
      }
      var token := presented.value;
      var cached := GetCache(TokenVersion(token.sub), env);
      if cached.Some? && cached.value.Version? {
        if cached.value.version != token.version {
          return Failed(InvalidAccessToken);
        }
        return ActingAs(token.sub, token.role);
      }
      var user := GetUserById(token.sub);
      if user == null {
        return Failed(InvalidAccessToken);
      }
      if user.session.accessTokenVersion != token.version {
        return Failed(InvalidAccessToken);
      }
      if !user.isActive {
        return Failed(AccountInactive);
      }
      SetCache(TokenVersion(token.sub), Version(user.session.accessTokenVersion), VERSION_TTL, env);
      outcome := ActingAs(token.sub, token.role);
    }
  }
}
