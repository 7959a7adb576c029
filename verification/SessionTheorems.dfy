/** Refresh tokens, revocation and the account lifecycle over whole serial runs. */
module SessionTheorems {
  import opened Prelude
  import opened Accounts
  import opened Operations
  import opened Requests
  import opened Invariants

  // ----- What only ever moves one way -----

  // Issued, and no longer the token whose digest is stored.
  predicate Superseded(s: State, token: RefreshToken) {
    token in s.refreshIssued && token.sub in s.accounts
    && s.accounts[token.sub].session.refreshHash != Some(Sha256(Jwt(token)))
  }

  // No invite can be redeemed, and none will be issued.
  predicate PastInvitation(a: Account) {
    a.status != PendingActivation && a.activation.inviteHash.None?
  }

  // Drawn already, and not the reset token that is stored.
  predicate SpentReset(s: State, id: UserId, token: nat) {
    token < s.draws && id in s.accounts && s.accounts[id].session.resetHash != Some(Sha256(Raw(token)))
  }

  predicate AccountEvolves(a: Account, a': Account) {
    a'.role == a.role && a.session.version <= a'.session.version
    && (a'.status == PendingActivation ==> a.status == PendingActivation)
    && (PastInvitation(a) ==> PastInvitation(a'))
  }

  ghost predicate Evolves(s: State, s': State) {
    s.now <= s'.now && s.draws <= s'.draws && s.accessIssued <= s'.accessIssued && s.refreshIssued <= s'.refreshIssued
    && (forall id | id in s.accounts :: id in s'.accounts && AccountEvolves(s.accounts[id], s'.accounts[id]))
    && (forall token | token in s.refreshIssued && Superseded(s, token) :: Superseded(s', token))
    && (forall id, token | SpentReset(s, id, token) :: SpentReset(s', id, token))
  }

  lemma ChangesOneEvolves(s: State, s': State, id: UserId)
    requires Inv(s) && ChangesOne(s, s', id)
    ensures Evolves(s, s')
  {
    forall token | token in s.refreshIssued && Superseded(s, token) ensures Superseded(s', token) {
      assert RefreshTokenInv(s, token);
    }
  }

  lemma StepEvolves(cfg: Settings, s: State, op: Op, env: Env)
    requires Inv(s)
    ensures Evolves(s, Step(cfg, s, op, env).state)
  {
    StepMoves(cfg, s, op, env);
    MovesEvolve(s, Step(cfg, s, op, env).state);
  }

  lemma MovesEvolve(s: State, s': State)
    requires Inv(s) && Moves(s, s')
    ensures Evolves(s, s')
  {
    if !SameTables(s, s') && !AddsOne(s, s') {
      var id: UserId :| ChangesOne(s, s', id);
      ChangesOneEvolves(s, s', id);
    }
  }

  lemma EvolvesTransitively(s: State, s1: State, s2: State)
    requires Evolves(s, s1) && Evolves(s1, s2)
    ensures Evolves(s, s2)
  {
  }

  lemma {:induction false} RunEvolves(cfg: Settings, s: State, events: seq<Event>)
    requires Inv(s)
    ensures Evolves(s, Run(cfg, s, events))
    decreases |events|
  {
    if events == [] {
    } else {
      var s1 := Step(cfg, s, events[0].op, events[0].env).state;
      StepEvolves(cfg, s, events[0].op, events[0].env);
      StepKeepsInv(cfg, s, events[0].op, events[0].env);
      RunEvolves(cfg, s1, events[1..]);
      EvolvesTransitively(s, s1, Run(cfg, s1, events[1..]));
    }
  }

  // ----- Refresh tokens -----

  /** refresh_token issues new tokens exactly for an acceptable pair, and only to an active user,
      although it never looks at the status. */
  lemma RefreshServesAcceptablePairs(
    cfg: Settings, s0: State, events: seq<Event>, token: RefreshToken, family: nat, env: Env)
    requires Init(s0)
    ensures var s := Run(cfg, s0, events);
            var outcome := Operations.Refresh(cfg, s, Some(token), family, env).outcome;
            (outcome.LoggedIn? <==> Acceptable(s, token, family))
            && (outcome.LoggedIn? ==> s.accounts[token.sub].status == Active && s.accounts[token.sub].isActive)
  {
    RunKeepsInv(cfg, s0, events);
  }

  /** A user has at most one acceptable pair. */
  lemma OneAcceptablePair(s: State, token: RefreshToken, family: nat, token': RefreshToken, family': nat)
    requires Acceptable(s, token, family) && Acceptable(s, token', family') && token.sub == token'.sub
    ensures token == token' && family == family'
  {
  }

  lemma ExchangeSupersedes(cfg: Settings, s: State, token: RefreshToken, family: nat, env: Env)
    requires Inv(s) && Operations.Refresh(cfg, s, Some(token), family, env).outcome.LoggedIn?
    ensures var s' := Operations.Refresh(cfg, s, Some(token), family, env).state;
            Inv(s') && Superseded(s', token)
  {
    assert RefreshTokenInv(s, token);
    RefreshRequestMoves(cfg, s, Some(token), family, env);
    MovesKeepsInv(s, Operations.Refresh(cfg, s, Some(token), family, env).state);
  }

  lemma SupersededIsRefused(cfg: Settings, s: State, token: RefreshToken, family: nat, env: Env)
    requires Superseded(s, token) || NoRefreshState(s, token.sub)
    ensures !Operations.Refresh(cfg, s, Some(token), family, env).outcome.LoggedIn?
  {
  }

  /** A pair that has been exchanged is never accepted again, whatever happens later. */
  lemma RefreshPairWorksOnce(
    cfg: Settings, s0: State, before: seq<Event>, token: RefreshToken, family: nat, env: Env,
    later: seq<Event>, family': nat, env': Env)
    requires Init(s0)
    requires Operations.Refresh(cfg, Run(cfg, s0, before), Some(token), family, env).outcome.LoggedIn?
    ensures var s := Operations.Refresh(cfg, Run(cfg, s0, before), Some(token), family, env).state;
            !Operations.Refresh(cfg, Run(cfg, s, later), Some(token), family', env').outcome.LoggedIn?
  {
    var s := Run(cfg, s0, before);
    RunKeepsInv(cfg, s0, before);
    ExchangeSupersedes(cfg, s, token, family, env);
    var s1 := Operations.Refresh(cfg, s, Some(token), family, env).state;
    RunEvolves(cfg, s1, later);
    SupersededIsRefused(cfg, Run(cfg, s1, later), token, family', env');
  }

  /** Presenting a superseded, unexpired pair while the session is live ends the session: the request
      fails, the access version moves on, and no pair of that user is acceptable any more, the newest
      one included. */
  lemma ReuseEndsTheSession(
    cfg: Settings, s0: State, events: seq<Event>, token: RefreshToken, family: nat, env: Env)
    requires Init(s0)
    requires var s := Run(cfg, s0, events);
             Superseded(s, token) && s.now < token.expires
             && s.accounts[token.sub].session.refreshExpires.Some?
             && s.now <= s.accounts[token.sub].session.refreshExpires.value
    ensures var s := Run(cfg, s0, events);
            var r := Operations.Refresh(cfg, s, Some(token), family, env);
            r.outcome == Failed(InvalidRefreshToken)
            && r.state.accounts[token.sub].session.version == s.accounts[token.sub].session.version + 1
            && forall token': RefreshToken, family': nat ::
                 token'.sub == token.sub ==> !Acceptable(r.state, token', family')
  {
    RunKeepsInv(cfg, s0, events);
    ReuseRevokes(cfg, Run(cfg, s0, events), token, family, env);
  }

  lemma ReuseRevokes(cfg: Settings, s: State, token: RefreshToken, family: nat, env: Env)
    requires Inv(s) && Superseded(s, token) && s.now < token.expires
    requires s.accounts[token.sub].session.refreshExpires.Some?
             && s.now <= s.accounts[token.sub].session.refreshExpires.value
    ensures Operations.Refresh(cfg, s, Some(token), family, env)
         == Result(InvalidateAllTokens(s, token.sub, env), Failed(InvalidRefreshToken))
  {
    assert AccountInv(s.accounts[token.sub]);
  }

  // ----- Reset tokens -----

  lemma ResetSpendsToken(s: State, id: UserId, name: string, token: nat, password: string, env: Env)
    requires Inv(s) && token < s.draws && FindByUsername(s.accounts, name) == Some(id)
    requires Operations.ResetPassword(s, name, token, password, env).outcome == Succeeded
    ensures var s' := Operations.ResetPassword(s, name, token, password, env).state;
            Inv(s') && SpentReset(s', id, token)
  {
    PasswordResetMoves(s, name, token, password, env);
    MovesKeepsInv(s, Operations.ResetPassword(s, name, token, password, env).state);
  }

  lemma SpentResetIsRefused(s: State, id: UserId, name: string, token: nat, password: string, env: Env)
    requires SpentReset(s, id, token) && FindByUsername(s.accounts, name) == Some(id)
    ensures Operations.ResetPassword(s, name, token, password, env).outcome.Failed?
  {
  }

  /** A password-reset token works once, and a newer request replaces it for good. */
  lemma ResetTokenWorksOnce(
    cfg: Settings, s0: State, before: seq<Event>, id: UserId, name: string, token: nat, password: string, env: Env,
    later: seq<Event>, name': string, password': string, env': Env)
    requires Init(s0) && token < Run(cfg, s0, before).draws
    requires var s := Run(cfg, s0, before);
             FindByUsername(s.accounts, name) == Some(id)
             && Operations.ResetPassword(s, name, token, password, env).outcome == Succeeded
    ensures var s := Operations.ResetPassword(Run(cfg, s0, before), name, token, password, env).state;
            var s' := Run(cfg, s, later);
            FindByUsername(s'.accounts, name') == Some(id) ==>
              Operations.ResetPassword(s', name', token, password', env').outcome.Failed?
  {
    var s := Run(cfg, s0, before);
    RunKeepsInv(cfg, s0, before);
    ResetSpendsToken(s, id, name, token, password, env);
    var s1 := Operations.ResetPassword(s, name, token, password, env).state;
    RunEvolves(cfg, s1, later);
    var s' := Run(cfg, s1, later);
    if FindByUsername(s'.accounts, name') == Some(id) {
      SpentResetIsRefused(s', id, name', token, password', env');
    }
  }

  /** The token that an administrator's reset request queues for the user sets a new password until it
      expires. */
  lemma QueuedResetWorks(
    cfg: Settings, s0: State, events: seq<Event>, id: UserId, wait: nat, name: string, password: string, env: Env)
    returns (mail: Mail)
    requires Init(s0) && wait <= cfg.resetMinutes * 60
    requires Operations.CreateResetPasswordRequest(cfg, Run(cfg, s0, events), id).outcome == Succeeded
    requires FindByUsername(Run(cfg, s0, events).accounts, name) == Some(id)
    ensures var s := Run(cfg, s0, events);
            var r := Operations.CreateResetPasswordRequest(cfg, s, id);
            var later := r.state.(now := s.now + wait);
            mail in r.state.outbox && mail.recipient == s.accounts[id].profile.email && mail.token.Some?
            && (FindByUsername(later.accounts, name) == Some(id) ==>
                  var r' := Operations.ResetPassword(later, name, mail.token.value, password, env);
                  r'.outcome == Succeeded && r'.state.accounts[id].passwordHash == Some(Bcrypt(password)))
  {
    var s := Run(cfg, s0, events);
    var r := Operations.CreateResetPasswordRequest(cfg, s, id);
    mail := r.state.outbox[|s.outbox|];
  }

  // ----- E-mail change -----

  // Confirming now, with this code and no other, gives the user exactly this address.
  predicate AwaitsConfirmation(
    s: State, id: UserId, profile: Profile, email: string, code: string, attempt: string, env: Env)
  {
    var r := Operations.ConfirmEmailChange(s, id, attempt, env);
    if attempt == code
    then r.outcome == Succeeded && id in r.state.accounts
         && r.state.accounts[id].profile == profile.(email := Some(email))
    else r == Result(s, Failed(InvalidEmailChangeCode))
  }

  /** A requested e-mail change is confirmed, while its code lasts, by that code and no other, and gives
      the user exactly the requested address. */
  lemma EmailChangeRoundTrip(
    cfg: Settings, s0: State, events: seq<Event>, s: State, id: UserId, email: string, code: string, env: Env,
    wait: nat, attempt: string, env': Env)
    requires Init(s0) && s == Run(cfg, s0, events)
    requires wait <= cfg.codeMinutes * 60 && !env'.limitReached && !env'.integrityError
    requires Operations.UpdateMeCredentials(cfg, s, id, None, Some(email), code, env).outcome == Succeeded
    ensures var requested := Operations.UpdateMeCredentials(cfg, s, id, None, Some(email), code, env).state;
            id in s.accounts
            && AwaitsConfirmation(requested.(now := s.now + wait), id, s.accounts[id].profile, email, code, attempt,
                                  env')
  {
    RunKeepsInv(cfg, s0, events);
    RequestThenConfirm(cfg, s, id, email, code, env, wait, attempt, env');
  }

  lemma RequestThenConfirm(
    cfg: Settings, s: State, id: UserId, email: string, code: string, env: Env, wait: nat, attempt: string, env': Env)
    requires Inv(s) && wait <= cfg.codeMinutes * 60 && !env'.limitReached && !env'.integrityError
    requires Operations.UpdateMeCredentials(cfg, s, id, None, Some(email), code, env).outcome == Succeeded
    ensures var requested := Operations.UpdateMeCredentials(cfg, s, id, None, Some(email), code, env).state;
            id in s.accounts
            && AwaitsConfirmation(requested.(now := s.now + wait), id, s.accounts[id].profile, email, code, attempt,
                                  env')
  {
    var requested := Operations.UpdateMeCredentials(cfg, s, id, None, Some(email), code, env).state;
    RequestStoresCode(cfg, s, id, email, code, env);
    OwnUsernameIsFree(s, id);
    SameNamesTaken(s, requested, id);
    ConfirmationDecides(requested.(now := s.now + wait), id, email, code, attempt, env');
  }

  lemma SameNamesTaken(s: State, s': State, id: UserId)
    requires id in s.accounts && id in s'.accounts && s'.accounts == s.accounts[id := s'.accounts[id]]
    ensures forall name :: UsernameTaken(s'.accounts, Some(id), name) == UsernameTaken(s.accounts, Some(id), name)
  {
  }

  lemma OwnUsernameIsFree(s: State, id: UserId)
    requires Inv(s) && id in s.accounts
    ensures !UsernameTaken(s.accounts, Some(id), s.accounts[id].profile.username)
  {
    forall other | other in s.accounts && s.accounts[other].profile.username == s.accounts[id].profile.username
      ensures other == id
    {
      assert HasUsername(s.accounts, other, s.accounts[id].profile.username)
          && HasUsername(s.accounts, id, s.accounts[id].profile.username);
    }
  }

  lemma RequestStoresCode(cfg: Settings, s: State, id: UserId, email: string, code: string, env: Env)
    requires Operations.UpdateMeCredentials(cfg, s, id, None, Some(email), code, env).outcome == Succeeded
    ensures var s' := Operations.UpdateMeCredentials(cfg, s, id, None, Some(email), code, env).state;
            id in s.accounts
            && s'.accounts == s.accounts[id := s.accounts[id].(session := s'.accounts[id].session)]
            && var session := s'.accounts[id].session;
               session.pendingEmail == Some(email) && session.codeHash == Some(Sha256(Code(code)))
               && session.codeExpires == Some(s.now + cfg.codeMinutes * 60)
  {
  }

  lemma ConfirmationDecides(s: State, id: UserId, email: string, code: string, attempt: string, env: Env)
    requires id in s.accounts && s.accounts[id].profile.NotNull() && !env.limitReached && !env.integrityError
    requires !UsernameTaken(s.accounts, Some(id), s.accounts[id].profile.username)
    requires var session := s.accounts[id].session;
             session.pendingEmail == Some(email) && session.codeHash == Some(Sha256(Code(code)))
             && session.codeExpires.Some? && s.now <= session.codeExpires.value
    ensures AwaitsConfirmation(s, id, s.accounts[id].profile, email, code, attempt, env)
  {
  }

  // ----- Passwords -----

  // The requests that set a password, and for whom.
  ghost predicate SetsPassword(s: State, op: Op, id: UserId, password: string) {
    (op.ResetPassword? && op.newPassword == password && FindByUsername(s.accounts, op.name) == Some(id))
    || (op.ActivateAccount? && op.newPassword == password && FindByUsername(s.accounts, op.name) == Some(id))
    || (op.UpdateMePassword? && op.newPassword == password && op.token.Some? && op.token.value.sub == id)
  }

  lemma PasswordIsStored(cfg: Settings, s: State, op: Op, env: Env, id: UserId, password: string)
    requires SetsPassword(s, op, id, password) && Step(cfg, s, op, env).outcome == Succeeded
    ensures var s' := Step(cfg, s, op, env).state;
            id in s'.accounts && s'.accounts[id].passwordHash == Some(Bcrypt(password))
            && (op.ActivateAccount? ==> s'.accounts[id].status == Active)
            && (op.ResetPassword? ==> s'.accounts[id].lockout == NO_FAILURES)
  {
  }

  /** After a request that sets a password has succeeded, an active user who is not locked out logs in
      with exactly that password. */
  lemma NewPasswordLogsIn(
    cfg: Settings, s0: State, events: seq<Event>, op: Op, env: Env, id: UserId, password: string,
    name: string, attempt: string)
    requires Init(s0) && SetsPassword(Run(cfg, s0, events), op, id, password)
    requires Step(cfg, Run(cfg, s0, events), op, env).outcome == Succeeded
    requires var s := Step(cfg, Run(cfg, s0, events), op, env).state;
             FindByUsername(s.accounts, name) == Some(id)
             && s.accounts[id].status == Active && !Locked(s.accounts[id], s.now)
    ensures var s := Step(cfg, Run(cfg, s0, events), op, env).state;
            Operations.Login(cfg, s, Some(name), Some(attempt)).outcome.LoggedIn? <==> attempt == password
  {
    PasswordIsStored(cfg, Run(cfg, s0, events), op, env, id, password);
  }

  // ----- Revocation -----

  // The requests that are to end every session of a user.
  ghost predicate Revokes(s: State, op: Op, id: UserId) {
    (op.ResetPassword? && FindByUsername(s.accounts, op.name) == Some(id))
    || ((op.UpdateUserCredentials? || op.DeactivateUser?) && op.target == id)
    || ((op.Logout? || op.ConfirmEmailChange? || op.UpdateMePassword?) && op.token.Some? && op.token.value.sub == id)
  }

  // Its version moved by one and its refresh state is gone.
  predicate RevokedOnce(s: State, s': State, id: UserId) {
    id in s.accounts && id in s'.accounts && s'.accounts[id].session.refreshHash.None?
    && s'.accounts[id].session.version == s.accounts[id].session.version + 1
  }

  lemma AdminRevokes(cfg: Settings, s: State, op: Op, env: Env)
    requires (op.UpdateUserCredentials? || op.DeactivateUser?) && Step(cfg, s, op, env).outcome == Succeeded
    ensures RevokedOnce(s, Step(cfg, s, op, env).state, op.target)
  {
  }

  lemma UserRevokes(cfg: Settings, s: State, id: UserId, role: Role, op: Op, env: Env)
    requires (op.Logout? || op.ConfirmEmailChange? || op.UpdateMePassword?) && id in s.accounts
    requires AsUser(cfg, s, id, role, op, env).outcome == Succeeded
    ensures RevokedOnce(s, AsUser(cfg, s, id, role, op, env).state, id)
  {
  }

  lemma ResetRevokes(s: State, id: UserId, name: string, token: nat, password: string, env: Env)
    requires FindByUsername(s.accounts, name) == Some(id)
    requires Operations.ResetPassword(s, name, token, password, env).outcome == Succeeded
    ensures RevokedOnce(s, Operations.ResetPassword(s, name, token, password, env).state, id)
  {
  }

  /** Logout, password reset and change, e-mail change, an admin's change of credentials and
      deactivation each move the access version by one and clear the refresh state. */
  lemma SensitiveRequestRevokes(cfg: Settings, s: State, op: Op, env: Env, id: UserId)
    requires id in s.accounts && Revokes(s, op, id) && Step(cfg, s, op, env).outcome == Succeeded
    ensures RevokedOnce(s, Step(cfg, s, op, env).state, id)
  {
    if op.ResetPassword? {
      ResetRevokes(s, id, op.name, op.reset, op.newPassword, env);
    } else if op.UpdateUserCredentials? || op.DeactivateUser? {
      AdminRevokes(cfg, s, op, env);
    } else {
      AuthenticationKeepsAccounts(s, op.token, env);
      UserRevokes(cfg, GetCurrentUser(s, op.token, env).state, id, op.token.value.role, op, env);
    }
  }

  predicate LogsIn(outcome: Outcome, op: Op, id: UserId) {
    op.Login? && outcome.LoggedIn? && outcome.access.sub == id
  }

  ghost predicate NeverLogsIn(cfg: Settings, s: State, events: seq<Event>, id: UserId)
    decreases |events|
  {
    events == []
    || var r := Step(cfg, s, events[0].op, events[0].env);
       !LogsIn(r.outcome, events[0].op, id) && NeverLogsIn(cfg, r.state, events[1..], id)
  }

  predicate NoRefreshState(s: State, id: UserId) {
    id in s.accounts && s.accounts[id].session.refreshHash.None?
  }

  lemma OnlyLoginAndRefreshIssue(cfg: Settings, s: State, op: Op, env: Env)
    requires !op.Login? && !op.Refresh?
    ensures Step(cfg, s, op, env).state.refreshIssued == s.refreshIssued
  {
    if NeedsUser(op) {
      var auth := GetCurrentUser(s, op.token, env);
      if !auth.outcome.Failed? {
        UserIsIssuedNothing(cfg, auth.state, auth.outcome.id, auth.outcome.role, op, env);
      }
    } else {
      OthersAreIssuedNothing(cfg, s, op, env);
    }
  }

  lemma UserIsIssuedNothing(cfg: Settings, s: State, id: UserId, role: Role, op: Op, env: Env)
    requires NeedsUser(op)
    ensures AsUser(cfg, s, id, role, op, env).state.refreshIssued == s.refreshIssued
  {
  }

  lemma OthersAreIssuedNothing(cfg: Settings, s: State, op: Op, env: Env)
    requires !op.Login? && !op.Refresh? && !NeedsUser(op)
    ensures Anonymous(cfg, s, op, env).state.refreshIssued == s.refreshIssued
  {
  }

  // A refresh digest stays or goes, unless this very user logs in or refreshes.
  predicate OnlyOwnerIsIssued(s: State, r: Result, op: Op, id: UserId) {
    id in s.accounts && id in r.state.accounts
    && var hash, hash' := s.accounts[id].session.refreshHash, r.state.accounts[id].session.refreshHash;
       hash' == hash || hash'.None? || LogsIn(r.outcome, op, id) || (op.Refresh? && hash.Some?)
  }

  lemma LoginIssuesToOwner(cfg: Settings, s: State, op: Op, id: UserId)
    requires id in s.accounts && op.Login?
    ensures OnlyOwnerIsIssued(s, Operations.Login(cfg, s, op.username, op.password), op, id)
  {
  }

  lemma RefreshIssuesToOwner(cfg: Settings, s: State, op: Op, env: Env, id: UserId)
    requires id in s.accounts && op.Refresh?
    ensures OnlyOwnerIsIssued(s, Operations.Refresh(cfg, s, op.presented, op.family, env), op, id)
  {
  }

  lemma StepKeepsRefreshAway(cfg: Settings, s: State, op: Op, env: Env, id: UserId)
    requires Inv(s) && NoRefreshState(s, id) && !LogsIn(Step(cfg, s, op, env).outcome, op, id)
    ensures NoRefreshState(Step(cfg, s, op, env).state, id)
  {
    if op.Login? {
      LoginIssuesToOwner(cfg, s, op, id);
    } else if op.Refresh? {
      RefreshIssuesToOwner(cfg, s, op, env, id);
    } else {
      OnlyLoginAndRefreshIssue(cfg, s, op, env);
      StepMoves(cfg, s, op, env);
      NothingIssuedKeepsAway(s, Step(cfg, s, op, env).state, id);
    }
  }

  lemma NothingIssuedKeepsAway(s: State, s': State, id: UserId)
    requires NoRefreshState(s, id) && Moves(s, s') && s'.refreshIssued == s.refreshIssued
    ensures NoRefreshState(s', id)
  {
    if !SameTables(s, s') && !AddsOne(s, s') {
      var other: UserId :| ChangesOne(s, s', other);
    }
  }

  lemma {:induction false} RefreshStaysAway(cfg: Settings, s: State, events: seq<Event>, id: UserId)
    requires Inv(s) && NoRefreshState(s, id) && NeverLogsIn(cfg, s, events, id)
    ensures NoRefreshState(Run(cfg, s, events), id)
    decreases |events|
  {
    if events == [] {
    } else {
      StepKeepsRefreshAway(cfg, s, events[0].op, events[0].env, id);
      StepKeepsInv(cfg, s, events[0].op, events[0].env);
      RefreshStaysAway(cfg, Step(cfg, s, events[0].op, events[0].env).state, events[1..], id);
    }
  }

  // Step moved the access version of this account.
  predicate Bumps(s: State, s': State, id: UserId) {
    id in s.accounts && id in s'.accounts && s'.accounts[id].session.version != s.accounts[id].session.version
  }

  // The requests without a signed-in user that can move an access version.
  predicate MayBump(op: Op) {
    op.Refresh? || op.ResetPassword? || op.UpdateUserCredentials? || op.DeactivateUser?
  }

  lemma QuietKeepsVersions(cfg: Settings, s: State, op: Op, env: Env, id: UserId)
    requires s.nextId !in s.accounts && !NeedsUser(op) && !MayBump(op)
    ensures !Bumps(s, Anonymous(cfg, s, op, env).state, id)
  {
  }

  lemma AnonymousBumpClears(cfg: Settings, s: State, op: Op, env: Env, id: UserId)
    requires !NeedsUser(op) && MayBump(op) && Bumps(s, Anonymous(cfg, s, op, env).state, id)
    ensures NoRefreshState(Anonymous(cfg, s, op, env).state, id)
  {
  }

  lemma UserBumpClears(cfg: Settings, s: State, self: UserId, role: Role, op: Op, env: Env, id: UserId)
    requires NeedsUser(op) && !op.UpdateMeCredentials? && Bumps(s, AsUser(cfg, s, self, role, op, env).state, id)
    ensures NoRefreshState(AsUser(cfg, s, self, role, op, env).state, id)
  {
  }

  lemma UserStepBumpClears(cfg: Settings, s: State, op: Op, env: Env, id: UserId)
    requires NeedsUser(op) && !op.UpdateMeCredentials? && Bumps(s, Step(cfg, s, op, env).state, id)
    ensures NoRefreshState(Step(cfg, s, op, env).state, id)
  {
    AuthenticationKeepsAccounts(s, op.token, env);
    var auth := GetCurrentUser(s, op.token, env);
    UserBumpClears(cfg, auth.state, auth.outcome.id, auth.outcome.role, op, env, id);
  }

  /** Every request that moves an access version, except the self-service change of a username, clears
      the refresh state too. */
  lemma BumpClearsRefresh(cfg: Settings, s: State, op: Op, env: Env, id: UserId)
    requires Inv(s) && Bumps(s, Step(cfg, s, op, env).state, id) && !op.UpdateMeCredentials?
    ensures NoRefreshState(Step(cfg, s, op, env).state, id)
  {
    if NeedsUser(op) {
      UserStepBumpClears(cfg, s, op, env, id);
    } else if MayBump(op) {
      AnonymousBumpClears(cfg, s, op, env, id);
    } else {
      QuietKeepsVersions(cfg, s, op, env, id);
    }
  }

  /** After such a request no refresh token of the user works until the user logs in again. */
  lemma RevocationLastsUntilLogin(
    cfg: Settings, s0: State, before: seq<Event>, op: Op, env: Env, id: UserId,
    later: seq<Event>, token: RefreshToken, family: nat, env': Env)
    requires Init(s0) && token.sub == id
    requires var s := Run(cfg, s0, before);
             Bumps(s, Step(cfg, s, op, env).state, id) && !op.UpdateMeCredentials?
             && NeverLogsIn(cfg, Step(cfg, s, op, env).state, later, id)
    ensures var s' := Run(cfg, Step(cfg, Run(cfg, s0, before), op, env).state, later);
            !Operations.Refresh(cfg, s', Some(token), family, env').outcome.LoggedIn?
  {
    var s := Run(cfg, s0, before);
    RunKeepsInv(cfg, s0, before);
    StepKeepsInv(cfg, s, op, env);
    BumpClearsRefresh(cfg, s, op, env, id);
    var s1 := Step(cfg, s, op, env).state;
    RefreshStaysAway(cfg, s1, later, id);
    SupersededIsRefused(cfg, Run(cfg, s1, later), token, family, env');
  }

  // ----- Account lifecycle -----

  /** In every reachable state is_active mirrors the status, which is one of three of the six declared
      values. */
  lemma ActiveFlagMirrorsStatus(cfg: Settings, s0: State, events: seq<Event>, id: UserId)
    requires Init(s0) && id in Run(cfg, s0, events).accounts
    ensures var a := Run(cfg, s0, events).accounts[id];
            (a.isActive <==> a.status == Active)
            && (a.status == Active || a.status == Deactivated || a.status == PendingActivation)
  {
    RunKeepsInv(cfg, s0, events);
  }

  /** One request takes a pending account to ACTIVE or leaves it pending; no request makes an account
      pending again. */
  lemma PendingLeadsToActive(cfg: Settings, s: State, op: Op, env: Env, id: UserId)
    requires Inv(s) && id in s.accounts
    ensures var s' := Step(cfg, s, op, env).state;
            id in s'.accounts
            && (s.accounts[id].status == PendingActivation ==>
                  s'.accounts[id].status == PendingActivation || s'.accounts[id].status == Active)
            && (s.accounts[id].status != PendingActivation ==> s'.accounts[id].status != PendingActivation)
  {
    StepMoves(cfg, s, op, env);
    MovesKeepLifecycle(s, Step(cfg, s, op, env).state, id);
  }

  lemma MovesKeepLifecycle(s: State, s': State, id: UserId)
    requires Moves(s, s') && id in s.accounts
    ensures id in s'.accounts
    ensures s.accounts[id].status == PendingActivation ==>
              s'.accounts[id].status == PendingActivation || s'.accounts[id].status == Active
    ensures s.accounts[id].status != PendingActivation ==> s'.accounts[id].status != PendingActivation
  {
    if !SameTables(s, s') && !AddsOne(s, s') {
      var other: UserId :| ChangesOne(s, s', other);
    }
  }

  /** activate_account succeeds at most once for each user. */
  lemma ActivatesOnce(
    cfg: Settings, s0: State, before: seq<Event>, id: UserId, name: string, invite: nat, password: string,
    later: seq<Event>, name': string, invite': nat, password': string)
    requires Init(s0)
    requires var s := Run(cfg, s0, before);
             FindByUsername(s.accounts, name) == Some(id)
             && Operations.ActivateAccount(s, name, invite, password).outcome == Succeeded
    ensures var s := Operations.ActivateAccount(Run(cfg, s0, before), name, invite, password).state;
            var s' := Run(cfg, s, later);
            FindByUsername(s'.accounts, name') == Some(id) ==>
              Operations.ActivateAccount(s', name', invite', password').outcome == Failed(InvalidInviteToken)
  {
    RunKeepsInv(cfg, s0, before);
    var s := Run(cfg, s0, before);
    ActivationEndsInvitation(s, id, name, invite, password);
    var s1 := Operations.ActivateAccount(s, name, invite, password).state;
    RunEvolves(cfg, s1, later);
    assert AccountEvolves(s1.accounts[id], Run(cfg, s1, later).accounts[id]);
    NoInviteNoActivation(Run(cfg, s1, later), id, name', invite', password');
  }

  lemma ActivationEndsInvitation(s: State, id: UserId, name: string, invite: nat, password: string)
    requires Inv(s) && FindByUsername(s.accounts, name) == Some(id)
    requires Operations.ActivateAccount(s, name, invite, password).outcome == Succeeded
    ensures var s' := Operations.ActivateAccount(s, name, invite, password).state;
            Inv(s') && id in s'.accounts && PastInvitation(s'.accounts[id])
  {
    ActivationMoves(s, name, invite, password);
    MovesKeepsInv(s, Operations.ActivateAccount(s, name, invite, password).state);
  }

  lemma NoInviteNoActivation(s: State, id: UserId, name: string, invite: nat, password: string)
    requires id in s.accounts && PastInvitation(s.accounts[id])
    ensures FindByUsername(s.accounts, name) == Some(id) ==>
              Operations.ActivateAccount(s, name, invite, password).outcome == Failed(InvalidInviteToken)
  {
  }

  /** The transactional outbox: a pending user has a queued invite to the current address, and its
      token activates the account until it expires. */
  lemma QueuedInviteActivates(cfg: Settings, s0: State, events: seq<Event>, id: UserId, password: string)
    returns (mail: Mail)
    requires Init(s0) && id in Run(cfg, s0, events).accounts
    requires Run(cfg, s0, events).accounts[id].status == PendingActivation
    ensures var s := Run(cfg, s0, events);
            var a := s.accounts[id];
            a.profile.username.Some?
            && mail in s.outbox && mail.kind == Invite && mail.recipient == a.profile.email && mail.token.Some?
            && a.activation.inviteExpires.Some?
            && (s.now <= a.activation.inviteExpires.value ==>
                  var r := Operations.ActivateAccount(s, a.profile.username.value, mail.token.value, password);
                  r.outcome == Succeeded && r.state.accounts[id].status == Active)
  {
    RunKeepsInv(cfg, s0, events);
    var s := Run(cfg, s0, events);
    assert InviteQueued(s, id);
    mail :| mail in s.outbox && IsInviteFor(mail, id, s.accounts[id]);
    assert HasUsername(s.accounts, id, s.accounts[id].profile.username);
  }

  // ----- Nulls -----

  /** Token columns are null together in every reachable state, so no request ever compares or hashes a
      null. */
  lemma NoNullIsMet(cfg: Settings, s0: State, events: seq<Event>, op: Op, env: Env)
    requires Init(s0)
    ensures Step(cfg, Run(cfg, s0, events), op, env).outcome != Failed(NullDereference)
  {
    RunKeepsInv(cfg, s0, events);
    NoNullInStep(cfg, Run(cfg, s0, events), op, env);
  }

  lemma NoNullInConfirmation(s: State, id: UserId, code: string, env: Env)
    requires Inv(s)
    ensures Operations.ConfirmEmailChange(s, id, code, env).outcome != Failed(NullDereference)
  {
    assert id in s.accounts ==> AccountInv(s.accounts[id]);
  }

  lemma NoNullElsewhere(cfg: Settings, s: State, id: UserId, role: Role, op: Op, env: Env)
    requires NeedsUser(op) && !op.ConfirmEmailChange?
    ensures AsUser(cfg, s, id, role, op, env).outcome != Failed(NullDereference)
  {
  }

  lemma NoNullInReset(s: State, name: string, token: nat, password: string, env: Env)
    requires Inv(s)
    ensures Operations.ResetPassword(s, name, token, password, env).outcome != Failed(NullDereference)
  {
    var found := FindByUsername(s.accounts, name);
    assert found.Some? ==> AccountInv(s.accounts[found.value]);
  }

  lemma NoNullInStep(cfg: Settings, s: State, op: Op, env: Env)
    requires Inv(s)
    ensures Step(cfg, s, op, env).outcome != Failed(NullDereference)
  {
    if NeedsUser(op) {
      AuthenticationOnlyCaches(s, op.token, env);
      var auth := GetCurrentUser(s, op.token, env);
      if !auth.outcome.Failed? {
        SameTablesKeepsInv(s, auth.state);
        if op.ConfirmEmailChange? {
          NoNullInConfirmation(auth.state, auth.outcome.id, op.code, env);
        } else {
          NoNullElsewhere(cfg, auth.state, auth.outcome.id, auth.outcome.role, op, env);
        }
      }
    } else if op.ResetPassword? {
      NoNullInReset(s, op.name, op.reset, op.newPassword, env);
    } else {
      NoNullForOthers(cfg, s, op, env);
    }
  }

  lemma NoNullForOthers(cfg: Settings, s: State, op: Op, env: Env)
    requires !NeedsUser(op) && !op.ResetPassword?
    ensures Anonymous(cfg, s, op, env).outcome != Failed(NullDereference)
  {
  }
}
