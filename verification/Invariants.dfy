/** What every request keeps true of the accounts, the tokens and the outbox, and how one step may
    change them. */
module Invariants {
  import opened Prelude
  import opened Accounts
  import opened Operations
  import opened Requests

  // ----- One account -----

  // Columns that are written together are null together.
  predicate JointlyNull(session: Session, activation: Activation) {
    session.refreshHash.Some? == session.refreshFamily.Some? == session.refreshExpires.Some?
    && session.resetHash.Some? == session.resetExpires.Some?
    && session.pendingEmail.Some? == session.codeHash.Some? == session.codeExpires.Some?
    && activation.inviteHash.Some? == activation.inviteExpires.Some?
  }

  predicate AccountInv(a: Account) {
    && JointlyNull(a.session, a.activation)
    && (a.isActive <==> a.status == Active)
    && (a.status == Active || a.status == Deactivated || a.status == PendingActivation)
    && (a.session.refreshHash.Some? ==> a.status == Active)
    && (a.lockout.failed >= MAX_FAILED_ATTEMPTS <==> a.lockout.lockedUntil.Some?)
    && (a.status == PendingActivation ==> a.activation.inviteHash.Some?)
    && a.profile.NotNull()
  }

  // ----- The whole state -----

  // An issued access token is never newer than its account; at the account's version it belongs to an
  // active user.
  predicate AccessTokenInv(s: State, token: AccessToken) {
    token.sub in s.accounts
    && var a := s.accounts[token.sub];
       a.role == token.role && token.version <= a.session.version && a.status != PendingActivation
       && (token.version == a.session.version ==> a.isActive)
  }

  predicate RefreshTokenInv(s: State, token: RefreshToken) {
    token.sub in s.accounts && token.jti < s.draws
  }

  // The stored digest is that of a token issued to this user, and the stored family was drawn before.
  predicate StoredRefreshInv(s: State, id: UserId)
    requires id in s.accounts
  {
    var session := s.accounts[id].session;
    (session.refreshHash.Some? ==>
       var secret := session.refreshHash.value.of;
       secret.Jwt? && secret.token in s.refreshIssued && secret.token.sub == id)
    && (session.refreshFamily.Some? ==> session.refreshFamily.value < s.draws)
  }

  predicate IsInviteFor(mail: Mail, id: UserId, a: Account) {
    mail.kind == Invite && mail.user == id && mail.recipient == a.profile.email
    && mail.token.Some? && a.activation.inviteHash == Some(Sha256(Raw(mail.token.value)))
  }

  predicate InviteQueued(s: State, id: UserId)
    requires id in s.accounts
  {
    s.accounts[id].status == PendingActivation ==>
      exists mail | mail in s.outbox :: IsInviteFor(mail, id, s.accounts[id])
  }

  ghost predicate Inv(s: State) {
    && UniqueUsernames(s.accounts)
    && (forall id | id in s.accounts :: id < s.nextId && AccountInv(s.accounts[id]))
    && (forall id | id in s.accounts :: StoredRefreshInv(s, id))
    && (forall id | id in s.accounts :: InviteQueued(s, id))
    && (forall token | token in s.accessIssued :: AccessTokenInv(s, token))
    && (forall token | token in s.refreshIssued :: RefreshTokenInv(s, token))
  }

  // ----- How one request may change one account -----

  // The refresh state stays, is cleared, or becomes that of a token drawn now.
  predicate RefreshMoves(s: State, s': State, id: UserId)
    requires id in s.accounts && id in s'.accounts
  {
    var hash := s.accounts[id].session.refreshHash;
    var hash' := s'.accounts[id].session.refreshHash;
    if s'.refreshIssued == s.refreshIssued then hash' == hash || hash' == None
    else
      hash'.Some? && hash'.value.of.Jwt?
      && var token := hash'.value.of.token;
         token.sub == id && s.draws <= token.jti < s'.draws && s'.refreshIssued == s.refreshIssued + {token}
  }

  // The family stays, is cleared, or is drawn now.
  predicate FamilyMoves(s: State, s': State, id: UserId)
    requires id in s.accounts && id in s'.accounts
  {
    var family' := s'.accounts[id].session.refreshFamily;
    family' == s.accounts[id].session.refreshFamily || family' == None || family'.value < s'.draws
  }

  // The reset digest stays, is cleared, or becomes that of a token drawn now.
  predicate ResetMoves(s: State, s': State, id: UserId)
    requires id in s.accounts && id in s'.accounts
  {
    var hash' := s'.accounts[id].session.resetHash;
    hash' == s.accounts[id].session.resetHash || hash' == None || hash' == Some(Sha256(Raw(s.draws)))
  }

  predicate AccessMoves(s: State, s': State, id: UserId)
    requires id in s'.accounts
  {
    s'.accessIssued == s.accessIssued
    || (s'.accounts[id].isActive
        && exists token | token in s'.accessIssued ::
             s'.accessIssued == s.accessIssued + {token}
             && token.sub == id && token.role == s'.accounts[id].role
             && token.version == s'.accounts[id].session.version)
  }

  /** The change every request makes, if it changes an account at all: it is to one account, and keeps
      to these rules. */
  ghost predicate ChangesOne(s: State, s': State, id: UserId) {
    && id in s.accounts && id in s'.accounts
    && s'.accounts == s.accounts[id := s'.accounts[id]]
    && s'.now == s.now && s'.nextId == s.nextId && s.draws <= s'.draws && s.outbox <= s'.outbox
    && RefreshMoves(s, s', id) && FamilyMoves(s, s', id) && AccessMoves(s, s', id) && ResetMoves(s, s', id)
    && var a := s.accounts[id];
       var a' := s'.accounts[id];
       && AccountInv(a')
       && a'.role == a.role
       && a.session.version <= a'.session.version
       && (a'.session.version == a.session.version && a.isActive ==> a'.isActive)
       && (a'.status == PendingActivation ==> a.status == PendingActivation)
       && (a.status == PendingActivation ==> a'.status == PendingActivation || a'.status == Active)
       && (a'.activation.inviteHash.Some? ==>
             a'.activation == a.activation || a.status == PendingActivation)
       && (a'.profile.username != a.profile.username ==>
             !UsernameTaken(s.accounts, Some(id), a'.profile.username))
       && (a'.status == PendingActivation ==>
             (a'.profile.email == a.profile.email && a'.activation == a.activation)
             || exists mail | mail in s'.outbox :: IsInviteFor(mail, id, a'))
  }

  lemma OutboxKeepsMail(s: State, s': State)
    requires s.outbox <= s'.outbox
    ensures forall mail | mail in s.outbox :: mail in s'.outbox
  {
    assert forall i | 0 <= i < |s.outbox| :: s'.outbox[i] == s.outbox[i];
  }

  lemma ChangesOneKeepsInv(s: State, s': State, id: UserId)
    requires Inv(s) && ChangesOne(s, s', id)
    ensures Inv(s')
  {
    ChangesOneKeepsTokens(s, s', id);
    OutboxKeepsMail(s, s');
    forall other | other in s'.accounts ensures InviteQueued(s', other) {
      assert InviteQueued(s, other);
    }
    UsernamesStayUnique(s, s', id);
  }

  lemma ChangesOneKeepsTokens(s: State, s': State, id: UserId)
    requires Inv(s) && ChangesOne(s, s', id)
    ensures forall token | token in s'.accessIssued :: AccessTokenInv(s', token)
    ensures forall token | token in s'.refreshIssued :: RefreshTokenInv(s', token)
    ensures forall other | other in s'.accounts :: StoredRefreshInv(s', other)
  {
    forall token | token in s'.accessIssued ensures AccessTokenInv(s', token) {
      assert token in s.accessIssued ==> AccessTokenInv(s, token);
    }
    forall token | token in s'.refreshIssued ensures RefreshTokenInv(s', token) {
      assert token in s.refreshIssued ==> RefreshTokenInv(s, token);
    }
    forall other | other in s'.accounts ensures StoredRefreshInv(s', other) {
      assert StoredRefreshInv(s, other);
    }
  }

  lemma UsernamesStayUnique(s: State, s': State, id: UserId)
    requires UniqueUsernames(s.accounts) && ChangesOne(s, s', id)
    ensures UniqueUsernames(s'.accounts)
  {
    forall i, j, name | HasUsername(s'.accounts, i, name) && HasUsername(s'.accounts, j, name) ensures i == j {
      assert HasUsername(s.accounts, i, s.accounts[i].profile.username);
      assert HasUsername(s.accounts, j, s.accounts[j].profile.username);
    }
  }

  // ----- How a step may change the state -----

  // Only caches and the clock have moved.
  predicate SameTables(s: State, s': State) {
    s'.accounts == s.accounts && s'.nextId == s.nextId && s'.outbox == s.outbox && s.draws <= s'.draws
    && s.now <= s'.now && s'.accessIssued == s.accessIssued && s'.refreshIssued == s.refreshIssued
  }

  predicate AddsOne(s: State, s': State) {
    && s.nextId !in s.accounts
    && s.nextId in s'.accounts
    && s'.accounts == s.accounts[s.nextId := s'.accounts[s.nextId]]
    && s'.now == s.now && s'.nextId == s.nextId + 1 && s.draws <= s'.draws && s.outbox <= s'.outbox
    && s'.accessIssued == s.accessIssued && s'.refreshIssued == s.refreshIssued
    && var a := s'.accounts[s.nextId];
       && AccountInv(a) && a.session == NEW_SESSION && a.lockout == NO_FAILURES
       && !UsernameTaken(s.accounts, None, a.profile.username)
       && exists mail | mail in s'.outbox :: IsInviteFor(mail, s.nextId, a)
  }

  lemma SameTablesKeepsInv(s: State, s': State)
    requires Inv(s) && SameTables(s, s')
    ensures Inv(s')
  {
    forall id | id in s'.accounts ensures StoredRefreshInv(s', id) && InviteQueued(s', id) {
      assert StoredRefreshInv(s, id) && InviteQueued(s, id);
    }
    forall token | token in s'.accessIssued ensures AccessTokenInv(s', token) {
      assert AccessTokenInv(s, token);
    }
    forall token | token in s'.refreshIssued ensures RefreshTokenInv(s', token) {
      assert RefreshTokenInv(s, token);
    }
  }

  lemma AddsOneKeepsInv(s: State, s': State)
    requires Inv(s) && AddsOne(s, s')
    ensures Inv(s')
  {
    forall token | token in s'.accessIssued ensures AccessTokenInv(s', token) {
      assert AccessTokenInv(s, token);
    }
    forall token | token in s'.refreshIssued ensures RefreshTokenInv(s', token) {
      assert RefreshTokenInv(s, token);
    }
    OutboxKeepsMail(s, s');
    forall other | other in s'.accounts ensures StoredRefreshInv(s', other) && InviteQueued(s', other) {
      assert other in s.accounts ==> StoredRefreshInv(s, other) && InviteQueued(s, other);
    }
    forall i, j, name | HasUsername(s'.accounts, i, name) && HasUsername(s'.accounts, j, name) ensures i == j {
      if i in s.accounts && j in s.accounts {
        assert HasUsername(s.accounts, i, name) && HasUsername(s.accounts, j, name);
      }
    }
  }

  ghost predicate Moves(s: State, s': State) {
    SameTables(s, s') || AddsOne(s, s') || exists id: UserId {:trigger ChangesOne(s, s', id)} :: ChangesOne(s, s', id)
  }

  lemma MovesKeepsInv(s: State, s': State)
    requires Inv(s) && Moves(s, s')
    ensures Inv(s')
  {
    if SameTables(s, s') {
      SameTablesKeepsInv(s, s');
    } else if AddsOne(s, s') {
      AddsOneKeepsInv(s, s');
    } else {
      var id: UserId :| ChangesOne(s, s', id);
      ChangesOneKeepsInv(s, s', id);
    }
  }

  // ----- Each request is such a move -----

  lemma InvalidationMoves(s: State, id: UserId, env: Env)
    requires Inv(s)
    ensures Moves(s, InvalidateAllTokens(s, id, env))
  {
    var s' := InvalidateAllTokens(s, id, env);
    assert id in s.accounts ==> ChangesOne(s, s', id);
  }

  lemma IssuingMoves(cfg: Settings, s: State, id: UserId, a: Account)
    requires Inv(s) && id in s.accounts && s.accounts[id].status == Active
    requires a == s.accounts[id].(lockout := a.lockout) && AccountInv(a)
    ensures ChangesOne(s, IssueTokens(cfg, s, id, a).state, id)
  {
    var r := IssueTokens(cfg, s, id, a);
    assert r.outcome.access in r.state.accessIssued;
    assert forall token | token in s.refreshIssued :: RefreshTokenInv(s, token);
  }

  lemma LoginMoves(cfg: Settings, s: State, username: Option<string>, password: Option<string>)
    requires Inv(s)
    ensures Moves(s, Operations.Login(cfg, s, username, password).state)
  {
    if username.Some? && password.Some? && FindByUsername(s.accounts, username.value).Some? {
      var id := FindByUsername(s.accounts, username.value).value;
      var a := s.accounts[id];
      var r := LoginTo(cfg, s, id, password.value);
      if r.outcome.LoggedIn? {
        IssuingMoves(cfg, s, id, a.(lockout := NO_FAILURES));
      } else {
        assert SameTables(s, r.state) || ChangesOne(s, r.state, id);
      }
    }
  }

  lemma RefreshRequestMoves(cfg: Settings, s: State, presented: Option<RefreshToken>, family: nat, env: Env)
    requires Inv(s)
    ensures Moves(s, Operations.Refresh(cfg, s, presented, family, env).state)
  {
    var r := Operations.Refresh(cfg, s, presented, family, env);
    if r.outcome.LoggedIn? {
      IssuingMoves(cfg, s, presented.value.sub, s.accounts[presented.value.sub]);
    } else if r.state != s {
      InvalidationMoves(s, presented.value.sub, env);
    }
  }

  lemma ActivationMoves(s: State, username: string, invite: nat, password: string)
    requires Inv(s)
    ensures Moves(s, Operations.ActivateAccount(s, username, invite, password).state)
  {
    var s' := Operations.ActivateAccount(s, username, invite, password).state;
    var found := FindByUsername(s.accounts, username);
    assert SameTables(s, s') || (found.Some? && ChangesOne(s, s', found.value));
  }

  lemma ForgottenPasswordMoves(cfg: Settings, s: State, username: string)
    requires Inv(s)
    ensures Moves(s, Operations.ForgotPassword(cfg, s, username).state)
  {
    var s' := Operations.ForgotPassword(cfg, s, username).state;
    var found := FindByUsername(s.accounts, username);
    assert SameTables(s, s') || (found.Some? && ChangesOne(s, s', found.value));
  }

  lemma PasswordResetMoves(s: State, username: string, token: nat, password: string, env: Env)
    requires Inv(s)
    ensures Moves(s, Operations.ResetPassword(s, username, token, password, env).state)
  {
    var s' := Operations.ResetPassword(s, username, token, password, env).state;
    var found := FindByUsername(s.accounts, username);
    assert SameTables(s, s') || (found.Some? && ChangesOne(s, s', found.value));
  }

  lemma RegistrationMoves(cfg: Settings, s: State, student: bool, profile: Profile, env: Env)
    requires Inv(s)
    ensures Moves(s, Operations.RegisterUser(cfg, s, student, profile, env).state)
  {
    var s' := Operations.RegisterUser(cfg, s, student, profile, env).state;
    if !SameTables(s, s') {
      assert s'.outbox[|s.outbox|] in s'.outbox && IsInviteFor(s'.outbox[|s.outbox|], s.nextId, s'.accounts[s.nextId]);
      assert AddsOne(s, s');
    }
  }

  lemma CredentialUpdateMoves(cfg: Settings, s: State, target: UserId, request: Changes, env: Env)
    requires Inv(s)
    ensures Moves(s, Operations.UpdateUserCredentials(cfg, s, target, request, env).state)
  {
    var r := Operations.UpdateUserCredentials(cfg, s, target, request, env);
    if r.outcome == Succeeded {
      OverrideWrites(cfg, s, target, request, env);
      OverrideKeepsAccountInv(s.accounts[target], r.state.accounts[target]);
      if r.state.accounts[target].status == PendingActivation {
        OverrideQueuesInvite(cfg, s, target, request, env);
      }
      OverriddenChangesOne(s, r.state, target);
    } else {
      assert SameTables(s, r.state);
    }
  }

  lemma OverriddenChangesOne(s: State, s': State, target: UserId)
    requires target in s.accounts && target in s'.accounts && s'.accounts == s.accounts[target := s'.accounts[target]]
    requires s'.now == s.now && s'.nextId == s.nextId && s.draws <= s'.draws && s.outbox <= s'.outbox
    requires s'.accessIssued == s.accessIssued && s'.refreshIssued == s.refreshIssued
    requires var a, a' := s.accounts[target], s'.accounts[target];
             AccountInv(a) && AccountInv(a') && Overridden(a, a')
             && !UsernameTaken(s.accounts, Some(target), a'.profile.username)
             && (a'.activation == a.activation || a.status == PendingActivation)
             && (a'.status == PendingActivation ==>
                   (a'.profile.email == a.profile.email && a'.activation == a.activation)
                   || exists mail | mail in s'.outbox :: IsInviteFor(mail, target, a'))
    ensures ChangesOne(s, s', target)
  {
  }

  // What is left of the account but for its profile and its activation.
  predicate Overridden(a: Account, a': Account) {
    a' == a.(profile := a'.profile, session := a.session.Revoked().WithoutEmailChange(), activation := a'.activation)
  }

  lemma OverrideWrites(cfg: Settings, s: State, target: UserId, request: Changes, env: Env)
    requires Operations.UpdateUserCredentials(cfg, s, target, request, env).outcome == Succeeded
    ensures var s' := Operations.UpdateUserCredentials(cfg, s, target, request, env).state;
            target in s.accounts && target in s'.accounts
            && s'.accounts == s.accounts[target := s'.accounts[target]]
            && s'.now == s.now && s'.nextId == s.nextId && s.draws <= s'.draws && s.outbox <= s'.outbox
            && s'.accessIssued == s.accessIssued && s'.refreshIssued == s.refreshIssued
            && Overridden(s.accounts[target], s'.accounts[target])
            && s'.accounts[target].profile.NotNull()
            && !UsernameTaken(s.accounts, Some(target), s'.accounts[target].profile.username)
            && (s'.accounts[target].activation == s.accounts[target].activation
                || (s.accounts[target].status == PendingActivation
                    && s'.accounts[target].activation == Invited(cfg, s)))
  {
  }

  lemma OverrideKeepsAccountInv(a: Account, a': Account)
    requires AccountInv(a) && Overridden(a, a') && a'.profile.NotNull()
    requires a'.activation == a.activation || (a'.activation.inviteHash.Some? && a'.activation.inviteExpires.Some?)
    ensures AccountInv(a')
  {
  }

  lemma OverrideQueuesInvite(cfg: Settings, s: State, target: UserId, request: Changes, env: Env)
    requires Operations.UpdateUserCredentials(cfg, s, target, request, env).outcome == Succeeded
    requires target in s.accounts && s.accounts[target].status == PendingActivation
    ensures var s' := Operations.UpdateUserCredentials(cfg, s, target, request, env).state;
            target in s'.accounts
            && var a, a' := s.accounts[target], s'.accounts[target];
               (a'.profile.email == a.profile.email && a'.activation == a.activation)
               || exists mail | mail in s'.outbox :: IsInviteFor(mail, target, a')
  {
    var s' := Operations.UpdateUserCredentials(cfg, s, target, request, env).state;
    assert s'.outbox[|s.outbox|] in s'.outbox;
  }

  lemma UserUpdateMoves(s: State, target: UserId, studentShaped: bool, request: Changes, env: Env)
    requires Inv(s) && request.Keys <= UpdateFields(studentShaped)
    ensures Moves(s, Operations.UpdateUser(s, target, studentShaped, request, env).state)
  {
    var s' := Operations.UpdateUser(s, target, studentShaped, request, env).state;
    if s' != s {
      var a, a' := s.accounts[target], s'.accounts[target];
      assert a' == a.(profile := a'.profile);
      assert a'.profile.username == a.profile.username && a'.profile.email == a.profile.email;
      assert ChangesOne(s, s', target);
    }
  }

  lemma DeactivationMoves(s: State, target: UserId, env: Env)
    requires Inv(s)
    ensures Moves(s, Operations.DeactivateUser(s, target, env).state)
  {
    var s' := Operations.DeactivateUser(s, target, env).state;
    assert SameTables(s, s') || ChangesOne(s, s', target);
  }

  lemma ReactivationMoves(s: State, target: UserId, env: Env)
    requires Inv(s)
    ensures Moves(s, Operations.ActivateUser(s, target, env).state)
  {
    var s' := Operations.ActivateUser(s, target, env).state;
    assert SameTables(s, s') || ChangesOne(s, s', target);
  }

  lemma AdminResetMoves(cfg: Settings, s: State, target: UserId)
    requires Inv(s)
    ensures Moves(s, Operations.CreateResetPasswordRequest(cfg, s, target).state)
  {
    var s' := Operations.CreateResetPasswordRequest(cfg, s, target).state;
    assert SameTables(s, s') || ChangesOne(s, s', target);
  }

  lemma ResendMoves(cfg: Settings, s: State, target: UserId)
    requires Inv(s)
    ensures Moves(s, Operations.ResendActivationInvite(cfg, s, target).state)
  {
    var s' := Operations.ResendActivationInvite(cfg, s, target).state;
    if s' != s {
      assert s'.outbox[|s.outbox|] in s'.outbox && IsInviteFor(s'.outbox[|s.outbox|], target, s'.accounts[target]);
      assert ChangesOne(s, s', target);
    }
  }

  lemma SelfUpdateKeeps(
    cfg: Settings, now: Time, a: Account, username: Option<string>, email: Option<string>, code: string)
    requires AccountInv(a)
    ensures var a' := SelfUpdated(cfg, now, a, username, email, code);
            AccountInv(a') && a' == a.(profile := a'.profile, session := a'.session)
            && a'.profile == a.profile.(username := a'.profile.username)
            && a'.session.refreshHash == a.session.refreshHash && a.session.version <= a'.session.version
  {
  }

  lemma SelfUpdateMoves(
    cfg: Settings, s: State, id: UserId, username: Option<string>, email: Option<string>, code: string, env: Env)
    requires Inv(s) && id in s.accounts && s.accounts[id].status != PendingActivation
    ensures Moves(s, Operations.UpdateMeCredentials(cfg, s, id, username, email, code, env).state)
  {
    var s' := Operations.UpdateMeCredentials(cfg, s, id, username, email, code, env).state;
    SelfUpdateKeeps(cfg, s.now, s.accounts[id], username, email, code);
    assert SameTables(s, s') || ChangesOne(s, s', id);
  }

  lemma ConfirmationMoves(s: State, id: UserId, code: string, env: Env)
    requires Inv(s) && id in s.accounts && s.accounts[id].status != PendingActivation
    ensures Moves(s, Operations.ConfirmEmailChange(s, id, code, env).state)
  {
    var s' := Operations.ConfirmEmailChange(s, id, code, env).state;
    assert SameTables(s, s') || ChangesOne(s, s', id);
  }

  lemma PasswordChangeMoves(s: State, id: UserId, current: string, password: string, env: Env)
    requires Inv(s) && id in s.accounts
    ensures Moves(s, Operations.UpdateMePassword(s, id, current, password, env).state)
  {
    var s' := Operations.UpdateMePassword(s, id, current, password, env).state;
    assert SameTables(s, s') || ChangesOne(s, s', id);
  }

  lemma ProfileReadMoves(s: State, id: UserId, asStudent: bool, env: Env)
    ensures SameTables(s, Operations.GetMyProfile(s, id, asStudent, env).state)
  {
  }

  /** Requests of a signed-in user: the account is not pending, because it holds an access token. */
  lemma UserRequestMoves(cfg: Settings, s: State, id: UserId, role: Role, op: Op, env: Env)
    requires Inv(s) && NeedsUser(op) && id in s.accounts && s.accounts[id].status != PendingActivation
    ensures Moves(s, AsUser(cfg, s, id, role, op, env).state)
  {
    if op.Logout? {
      InvalidationMoves(s, id, env);
    } else if op.UpdateMeCredentials? {
      SelfUpdateMoves(cfg, s, id, op.username, op.email, op.code, env);
    } else if op.ConfirmEmailChange? {
      ConfirmationMoves(s, id, op.code, env);
    } else if op.UpdateMePassword? {
      PasswordChangeMoves(s, id, op.current, op.newPassword, env);
    } else if op.GetMyProfile? {
      ProfileReadMoves(s, id, op.asStudent, env);
    }
  }

  lemma AuthenticationOnlyCaches(s: State, presented: Option<AccessToken>, env: Env)
    requires Inv(s)
    ensures var r := GetCurrentUser(s, presented, env);
            SameTables(s, r.state) && r.state == s.(cache := r.state.cache)
            && (!r.outcome.Failed? ==>
                  r.outcome.ActingAs? && r.outcome.id in s.accounts
                  && s.accounts[r.outcome.id].status != PendingActivation)
  {
    assert Genuine(s, presented) ==> AccessTokenInv(s, presented.value);
  }

  lemma AuthenticationKeepsAccounts(s: State, presented: Option<AccessToken>, env: Env)
    ensures var r := GetCurrentUser(s, presented, env);
            r.state.accounts == s.accounts
            && (r.outcome.Failed?
                || (presented.Some? && r.outcome == ActingAs(presented.value.sub, presented.value.role)))
  {
  }

  lemma SameTablesThenMoves(s: State, s1: State, s2: State)
    requires s1 == s.(cache := s1.cache) && Moves(s1, s2)
    ensures Moves(s, s2)
  {
    if exists id: UserId {:trigger ChangesOne(s1, s2, id)} :: ChangesOne(s1, s2, id) {
      var id: UserId :| ChangesOne(s1, s2, id);
      assert ChangesOne(s, s2, id);
    }
  }

  lemma AnonymousMoves(cfg: Settings, s: State, op: Op, env: Env)
    requires Inv(s) && !NeedsUser(op) && SchemaAccepts(op)
    ensures Moves(s, Anonymous(cfg, s, op, env).state)
  {
    match op
    case Login(username, password) => LoginMoves(cfg, s, username, password);
    case Refresh(presented, family) => RefreshRequestMoves(cfg, s, presented, family, env);
    case RegisterUser(student, profile) => RegistrationMoves(cfg, s, student, profile, env);
    case UpdateUserCredentials(target, request) => CredentialUpdateMoves(cfg, s, target, request, env);
    case Tick(_) =>
    case Evict(_) =>
    case GetUserDetail(_, _, _) =>
    case UpdateUser(target, studentShaped, request) => UserUpdateMoves(s, target, studentShaped, request, env);
    case DeactivateUser(target) => DeactivationMoves(s, target, env);
    case ActivateUser(target) => ReactivationMoves(s, target, env);
    case CreateResetPasswordRequest(target) => AdminResetMoves(cfg, s, target);
    case ResendActivationInvite(target) => ResendMoves(cfg, s, target);
    case ActivateAccount(name, invite, newPassword) => ActivationMoves(s, name, invite, newPassword);
    case ForgotPassword(name) => ForgottenPasswordMoves(cfg, s, name);
    case ResetPassword(name, reset, newPassword) => PasswordResetMoves(s, name, reset, newPassword, env);
  }

  lemma UserStepMoves(cfg: Settings, s: State, op: Op, env: Env)
    requires Inv(s) && NeedsUser(op)
    ensures Moves(s, Step(cfg, s, op, env).state)
  {
    AuthenticationOnlyCaches(s, op.token, env);
    var auth := GetCurrentUser(s, op.token, env);
    if !auth.outcome.Failed? {
      SameTablesKeepsInv(s, auth.state);
      UserRequestMoves(cfg, auth.state, auth.outcome.id, auth.outcome.role, op, env);
      SameTablesThenMoves(s, auth.state, AsUser(cfg, auth.state, auth.outcome.id, auth.outcome.role, op, env).state);
    }
  }

  lemma StepMoves(cfg: Settings, s: State, op: Op, env: Env)
    requires Inv(s)
    ensures Moves(s, Step(cfg, s, op, env).state)
  {
    if !SchemaAccepts(op) {
    } else if NeedsUser(op) {
      UserStepMoves(cfg, s, op, env);
    } else {
      AnonymousMoves(cfg, s, op, env);
    }
  }

  lemma StepKeepsInv(cfg: Settings, s: State, op: Op, env: Env)
    requires Inv(s)
    ensures Inv(Step(cfg, s, op, env).state)
  {
    StepMoves(cfg, s, op, env);
    MovesKeepsInv(s, Step(cfg, s, op, env).state);
  }

  lemma {:induction false} RunKeepsInv(cfg: Settings, s: State, events: seq<Event>)
    requires Inv(s)
    ensures Inv(Run(cfg, s, events))
    decreases |events|
  {
    if events == [] {
    } else {
      StepKeepsInv(cfg, s, events[0].op, events[0].env);
      RunKeepsInv(cfg, Step(cfg, s, events[0].op, events[0].env).state, events[1..]);
    }
  }
}
