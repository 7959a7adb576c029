/** Exactly when login, activation, password reset and password change succeed in a reachable state, and
    what the tokens they hand out are good for and how long (src/auth/service.py,
    src/users/services/shared.py, src/core/security.py). */
module AccessTheorems {
  import opened Prelude
  import opened Accounts
  import opened Operations
  import opened Requests
  import opened Invariants
  import opened SessionTheorems
  import opened CacheTheorems

  // Usernames are unique, so the account with a name is the one that is found by it.
  lemma FoundByName(s: State, id: UserId, name: string)
    requires UniqueUsernames(s.accounts) && HasUsername(s.accounts, id, Some(name))
    ensures FindByUsername(s.accounts, name) == Some(id)
  {
  }

  predicate Refused(s: State, r: Result) {
    r.outcome.Failed? && r.state == s
  }

  // ----- Login -----

  // The account is active and not locked now.
  predicate MayLogIn(s: State, id: UserId) {
    id in s.accounts
    && var a := s.accounts[id];
       a.status == Active && (a.lockout.lockedUntil.Some? ==> a.lockout.lockedUntil.value <= s.now)
  }

  // And it has exactly this password.
  predicate LetsIn(s: State, id: UserId, password: string) {
    MayLogIn(s, id) && s.accounts[id].passwordHash == Some(Bcrypt(password))
  }

  lemma LoginInState(cfg: Settings, s: State, id: UserId, name: string, password: string)
    requires UniqueUsernames(s.accounts) && HasUsername(s.accounts, id, Some(name))
    ensures var r := Operations.Login(cfg, s, Some(name), Some(password));
            (r.outcome.LoggedIn? <==> LetsIn(s, id, password))
            && (r.outcome.LoggedIn? ==>
                  r.outcome.access.sub == id && r.outcome.access.role == s.accounts[id].role
                  && OnlyPairStored(s, r.state, id) && OnlyPairReplaced(s.accounts[id], r.state.accounts[id])
                  && r.state.accounts[id].lockout.failed == 0 && r.state.accounts[id].lockout.lockedUntil.None?)
  {
    FoundByName(s, id, name);
  }

  // One account is written, and random values and tokens are used up.
  predicate OnlyPairStored(s: State, s': State, id: UserId) {
    id in s.accounts && id in s'.accounts
    && s' == s.(accounts := s.accounts[id := s'.accounts[id]], draws := s'.draws,
                accessIssued := s'.accessIssued, refreshIssued := s'.refreshIssued)
  }

  // Nothing of the account differs but the refresh state and the lockout.
  predicate OnlyPairReplaced(a: Account, a': Account) {
    a' == a.(lockout := a'.lockout,
             session := a.session.(refreshHash := a'.session.refreshHash, refreshFamily := a'.session.refreshFamily,
                                   refreshExpires := a'.session.refreshExpires))
  }

  // The session of the account has ended, and nothing else of it differs.
  predicate OnlyRevoked(a: Account, a': Account) {
    a' == a.(session := a.session.(version := a.session.version + 1, refreshHash := None, refreshFamily := None,
                                   refreshExpires := None))
  }

  /** In every reachable state a login succeeds if and only if the name is that of an active account that is
      not locked and has exactly that password. */
  lemma LoginSucceedsIff(
    cfg: Settings, s0: State, events: seq<Event>, s: State, username: Option<string>, password: Option<string>)
    requires Init(s0) && s == Run(cfg, s0, events)
    ensures Operations.Login(cfg, s, username, password).outcome.LoggedIn?
       <==> username.Some? && password.Some?
            && exists id :: HasUsername(s.accounts, id, username) && LetsIn(s, id, password.value)
  {
    RunKeepsInv(cfg, s0, events);
    if username.Some? && password.Some? {
      forall id | HasUsername(s.accounts, id, username)
        ensures Operations.Login(cfg, s, username, password).outcome.LoggedIn? <==> LetsIn(s, id, password.value)
      {
        LoginInState(cfg, s, id, username.value, password.value);
      }
    }
  }

  // What a refused login is told about a known name.
  function LoginRefusal(a: Account, now: Time, password: string): Error {
    if a.lockout.lockedUntil.Some? && now < a.lockout.lockedUntil.value then AccountLocked
    else if a.status == PendingActivation || a.passwordHash != Some(Bcrypt(password)) then InvalidCredentials
    else AccountInactive
  }

  /** A refused login is answered alike for an unknown name, a pending account and a wrong password; only who
      knows the password learns that the account is inactive. */
  lemma RefusedLoginsAreAnswered(cfg: Settings, s: State, id: UserId, name: string, password: string)
    requires UniqueUsernames(s.accounts)
    ensures (forall other :: !HasUsername(s.accounts, other, Some(name))) ==>
              Operations.Login(cfg, s, Some(name), Some(password)) == Result(s, Failed(InvalidCredentials))
    ensures HasUsername(s.accounts, id, Some(name)) && !LetsIn(s, id, password) ==>
              Operations.Login(cfg, s, Some(name), Some(password)).outcome
              == Failed(LoginRefusal(s.accounts[id], s.now, password))
    ensures Operations.Login(cfg, s, None, Some(password)) == Result(s, Failed(EmptyCredentials))
    ensures Operations.Login(cfg, s, Some(name), None) == Result(s, Failed(EmptyCredentials))
  {
    if HasUsername(s.accounts, id, Some(name)) {
      FoundByName(s, id, name);
    }
  }

  // The same account, but for its lockout.
  predicate SameButLockout(a: Account, a': Account) {
    a' == a.(lockout := a'.lockout)
  }

  /** A login that fails changes nothing but the lockout of the account it names. */
  lemma FailedLoginOnlyCounts(cfg: Settings, s: State, id: UserId, name: string, password: string)
    requires Inv(s) && HasUsername(s.accounts, id, Some(name))
    requires !Operations.Login(cfg, s, Some(name), Some(password)).outcome.LoggedIn?
    ensures var r := Operations.Login(cfg, s, Some(name), Some(password));
            id in r.state.accounts && SameButLockout(s.accounts[id], r.state.accounts[id])
            && r.state == s.(accounts := s.accounts[id := r.state.accounts[id]])
  {
    FoundByName(s, id, name);
  }

  /** A wrong password never locks before the fifth failure, and from the fifth on it locks for exactly
      fifteen minutes: only then does the right password log in again. */
  lemma LockLastsFifteenMinutes(
    cfg: Settings, s: State, id: UserId, name: string, wrong: string, right: string, wait: nat)
    requires Inv(s) && HasUsername(s.accounts, id, Some(name)) && LetsIn(s, id, right) && wrong != right
    ensures var s' := Operations.Login(cfg, s, Some(name), Some(wrong)).state;
            Operations.Login(cfg, s'.(now := s.now + wait), Some(name), Some(right)).outcome.LoggedIn?
            <==> s.accounts[id].lockout.failed < 4 || wait >= 15 * 60
  {
    FoundByName(s, id, name);
    assert AccountInv(s.accounts[id]);
    var s' := Operations.Login(cfg, s, Some(name), Some(wrong)).state.(now := s.now + wait);
    LoginMoves(cfg, s, Some(name), Some(wrong));
    MovesKeepsInv(s, Operations.Login(cfg, s, Some(name), Some(wrong)).state);
    LoginInState(cfg, s', id, name, right);
  }

  // ----- Refresh and logout -----

  // The session of the token's user has refresh state that has not expired.
  predicate SessionIsLive(s: State, id: UserId) {
    id in s.accounts
    && var session := s.accounts[id].session;
       session.refreshHash.Some? && session.refreshExpires.Some? && s.now <= session.refreshExpires.value
  }

  // What a refused refresh is told: that something has expired, or that it is not valid.
  function RefreshRefusal(s: State, token: RefreshToken): Error {
    if token !in s.refreshIssued then InvalidRefreshToken
    else if token.expires <= s.now then ExpiredRefreshToken
    else if token.sub in s.accounts && s.accounts[token.sub].session.refreshExpires.Some?
            && s.accounts[token.sub].session.refreshExpires.value < s.now then ExpiredRefreshToken
    else InvalidRefreshToken
  }

  /** A refresh that is refused changes something if and only if a genuine, unexpired token meets a live
      session, of which it or its family is not the stored one; and then it revokes that session. */
  lemma RefusedRefreshRevokesIff(
    cfg: Settings, s0: State, events: seq<Event>, s: State, token: RefreshToken, family: nat, env: Env)
    requires Init(s0) && s == Run(cfg, s0, events) && !Acceptable(s, token, family)
    ensures var r := Operations.Refresh(cfg, s, Some(token), family, env);
            r.outcome == Failed(RefreshRefusal(s, token))
            && (if token in s.refreshIssued && s.now < token.expires && SessionIsLive(s, token.sub)
                then token.sub in r.state.accounts
                     && OnlyRevoked(s.accounts[token.sub], r.state.accounts[token.sub])
                     && r.state == s.(accounts := s.accounts[token.sub := r.state.accounts[token.sub]],
                                      cache := r.state.cache)
                else r.state == s)
  {
    RunKeepsInv(cfg, s0, events);
    assert token.sub in s.accounts ==> AccountInv(s.accounts[token.sub]);
  }

  /** A refresh that is served replaces the pair and nothing else. */
  lemma RefreshOnlyRotates(cfg: Settings, s: State, token: RefreshToken, family: nat, env: Env)
    requires Acceptable(s, token, family)
    ensures var r := Operations.Refresh(cfg, s, Some(token), family, env);
            r.outcome.LoggedIn? && r.outcome.access.sub == token.sub
            && r.outcome.access.role == s.accounts[token.sub].role
            && OnlyPairStored(s, r.state, token.sub)
            && OnlyPairReplaced(s.accounts[token.sub], r.state.accounts[token.sub])
            && r.state.accounts[token.sub].lockout == s.accounts[token.sub].lockout
  {
  }

  lemma MissingRefreshTokenIsRefused(cfg: Settings, s: State, family: nat, env: Env)
    ensures Operations.Refresh(cfg, s, None, family, env) == Result(s, Failed(InvalidRefreshToken))
  {
  }

  /** A logout always succeeds, and revokes the session of an existing user, and nothing else. */
  lemma LogoutRevokes(s: State, id: UserId, env: Env)
    ensures var r := Operations.Logout(s, id, env);
            r.outcome == Succeeded
            && if id in s.accounts
               then id in r.state.accounts && OnlyRevoked(s.accounts[id], r.state.accounts[id])
                    && r.state == s.(accounts := s.accounts[id := r.state.accounts[id]], cache := r.state.cache)
               else r.state == s
  {
  }

  // A pair of tokens as it has just been handed out: issued, and stored with their lifetimes.
  predicate HandedOut(cfg: Settings, s: State, access: AccessToken, refresh: RefreshToken, family: nat) {
    access in s.accessIssued && access.sub in s.accounts && refresh.sub == access.sub
    && access.version == s.accounts[access.sub].session.version
    && access.expires == s.now + cfg.accessMinutes * 60
    && refresh in s.refreshIssued && refresh.expires == s.now + cfg.refreshDays * 86400
    && var session := s.accounts[refresh.sub].session;
       session.refreshHash == Some(Sha256(Jwt(refresh))) && session.refreshFamily == Some(family)
       && session.refreshExpires == Some(refresh.expires)
  }

  /** The access token of a login or refresh is accepted for exactly its minutes, and the refresh pair for
      exactly its days, while nothing else happens. */
  lemma IssuedTokensLast(
    cfg: Settings, s0: State, events: seq<Event>, s: State, op: Op, env: Env, wait: nat, env': Env)
    requires Init(s0) && DeletesSucceed(events) && s == Run(cfg, s0, events) && env.DeletesOk()
    requires (op.Login? || op.Refresh?) && Step(cfg, s, op, env).outcome.LoggedIn?
    ensures var r := Step(cfg, s, op, env);
            TokensLast(cfg, r.state, r.outcome.access, r.outcome.refresh, r.outcome.family, wait, env')
  {
    RunKeepsInv(cfg, s0, events);
    RunKeepsCoherence(cfg, s0, events);
    StepKeepsInv(cfg, s, op, env);
    StepKeepsCoherence(cfg, s, op, env);
    IssuedPairIsStored(cfg, s, op, env);
    var r := Step(cfg, s, op, env);
    HandedOutLasts(cfg, r.state, r.outcome.access, r.outcome.refresh, r.outcome.family, wait, env');
  }

  predicate TokensLast(
    cfg: Settings, s: State, access: AccessToken, refresh: RefreshToken, family: nat, wait: nat, env: Env)
  {
    var later := s.(now := s.now + wait);
    (!GetCurrentUser(later, Some(access), env).outcome.Failed? <==> wait < cfg.accessMinutes * 60)
    && (Acceptable(later, refresh, family) <==> wait < cfg.refreshDays * 24 * 60 * 60)
  }

  lemma HandedOutLasts(
    cfg: Settings, s: State, access: AccessToken, refresh: RefreshToken, family: nat, wait: nat, env: Env)
    requires Inv(s) && Coherent(s) && HandedOut(cfg, s, access, refresh, family)
    ensures TokensLast(cfg, s, access, refresh, family, wait, env)
  {
    WaitingKeeps(s, wait);
    AuthenticationInState(s.(now := s.now + wait), Some(access), env);
  }

  lemma WaitingKeeps(s: State, wait: nat)
    requires Inv(s) && Coherent(s)
    ensures Inv(s.(now := s.now + wait)) && Coherent(s.(now := s.now + wait))
  {
    var later := s.(now := s.now + wait);
    SameTablesKeepsInv(s, later);
    forall key | key in later.cache ensures EntryCoherent(later, key) {
      assert EntryCoherent(s, key);
    }
  }

  lemma IssuedPairIsStored(cfg: Settings, s: State, op: Op, env: Env)
    requires (op.Login? || op.Refresh?) && Step(cfg, s, op, env).outcome.LoggedIn?
    ensures var r := Step(cfg, s, op, env);
            HandedOut(cfg, r.state, r.outcome.access, r.outcome.refresh, r.outcome.family)
  {
  }

  // ----- Activation -----

  // The stored invite is this one, and has not expired.
  predicate InviteIsGood(s: State, id: UserId, invite: nat) {
    id in s.accounts
    && var activation := s.accounts[id].activation;
       activation.inviteHash == Some(Sha256(Raw(invite)))
       && activation.inviteExpires.Some? && s.now <= activation.inviteExpires.value
  }

  // What a refused activation is told.
  function InviteRefusal(a: Account, now: Time): Error {
    if a.activation.inviteHash.Some? && a.activation.inviteExpires.Some? && a.activation.inviteExpires.value < now
    then ExpiredInviteToken else InvalidInviteToken
  }

  // The account as its owner makes it: active, with this password, and the invite used up.
  predicate ActivatedWith(a: Account, a': Account, password: string) {
    a'.status == Active && a'.isActive && a'.passwordHash == Some(Bcrypt(password))
    && a'.activation.inviteHash.None? && a'.activation.inviteExpires.None?
    && a'.role == a.role && a'.profile == a.profile && a'.session == a.session && a'.lockout == a.lockout
  }

  lemma ActivationInState(s: State, id: UserId, name: string, invite: nat, password: string)
    requires Inv(s) && HasUsername(s.accounts, id, Some(name))
    ensures var r := Operations.ActivateAccount(s, name, invite, password);
            if InviteIsGood(s, id, invite)
            then r.outcome == Succeeded && id in r.state.accounts
                 && ActivatedWith(s.accounts[id], r.state.accounts[id], password)
                 && r.state == s.(accounts := s.accounts[id := r.state.accounts[id]])
            else r == Result(s, Failed(InviteRefusal(s.accounts[id], s.now)))
  {
    FoundByName(s, id, name);
    assert AccountInv(s.accounts[id]);
  }

  /** In every reachable state an activation succeeds if and only if the account with the name has an invite
      that is the presented one and has not expired; it then has the chosen password, and any other attempt
      changes nothing. */
  lemma ActivationSucceedsIff(
    cfg: Settings, s0: State, events: seq<Event>, s: State, name: string, invite: nat, password: string)
    requires Init(s0) && s == Run(cfg, s0, events)
    ensures var r := Operations.ActivateAccount(s, name, invite, password);
            (r.outcome == Succeeded
             <==> exists id :: HasUsername(s.accounts, id, Some(name)) && InviteIsGood(s, id, invite))
            && (r.outcome != Succeeded ==> Refused(s, r))
            && ((forall id :: !HasUsername(s.accounts, id, Some(name))) ==> r.outcome == Failed(InvalidInviteToken))
  {
    RunKeepsInv(cfg, s0, events);
    forall id | HasUsername(s.accounts, id, Some(name))
      ensures var r := Operations.ActivateAccount(s, name, invite, password);
              if InviteIsGood(s, id, invite) then r.outcome == Succeeded else Refused(s, r)
    {
      ActivationInState(s, id, name, invite, password);
    }
  }

  /** At most one token ever activates a user in a run: the invites that would work in one state agree, and
      once one has worked no token does in any continuation. */
  lemma OneInviteActivates(
    cfg: Settings, s0: State, before: seq<Event>, s: State, id: UserId, name: string, invite: nat, password: string,
    other: nat, later: seq<Event>, name': string, password': string)
    requires Init(s0) && s == Run(cfg, s0, before) && HasUsername(s.accounts, id, Some(name))
    requires Operations.ActivateAccount(s, name, invite, password).outcome == Succeeded
    ensures other != invite ==> Refused(s, Operations.ActivateAccount(s, name, other, password'))
    ensures var s' := Run(cfg, Operations.ActivateAccount(s, name, invite, password).state, later);
            HasUsername(s'.accounts, id, Some(name')) ==>
              Refused(s', Operations.ActivateAccount(s', name', other, password'))
  {
    RunKeepsInv(cfg, s0, before);
    FoundByName(s, id, name);
    ActivationInState(s, id, name, other, password');
    ActivationInState(s, id, name, invite, password);
    ActivationEndsInvitation(s, id, name, invite, password);
    var s1 := Operations.ActivateAccount(s, name, invite, password).state;
    RunEvolves(cfg, s1, later);
    RunKeepsInv(cfg, s1, later);
    var s' := Run(cfg, s1, later);
    assert AccountEvolves(s1.accounts[id], s'.accounts[id]);
    if HasUsername(s'.accounts, id, Some(name')) {
      ActivationInState(s', id, name', other, password');
    }
  }

  // ----- Password reset -----

  // The stored reset token is this one, and has not expired.
  predicate ResetIsGood(s: State, id: UserId, token: nat) {
    id in s.accounts
    && var session := s.accounts[id].session;
       session.resetHash == Some(Sha256(Raw(token)))
       && session.resetExpires.Some? && s.now <= session.resetExpires.value
  }

  // What a refused reset is told.
  function ResetRefusal(a: Account, now: Time): Error {
    if a.session.resetExpires.None? || a.session.resetExpires.value < now then ExpiredResetToken
    else InvalidResetToken
  }

  // The account with a new password, its sessions ended, its reset token used up and its failures forgiven.
  predicate ResetTo(a: Account, a': Account, password: string) {
    a'.passwordHash == Some(Bcrypt(password))
    && a'.session == a.session.(version := a.session.version + 1, refreshHash := None, refreshFamily := None,
                                refreshExpires := None, resetHash := None, resetExpires := None)
    && a'.lockout.failed == 0 && a'.lockout.lockedUntil.None?
    && a'.role == a.role && a'.status == a.status && a'.profile == a.profile && a'.activation == a.activation
  }

  lemma ResetInState(s: State, id: UserId, name: string, token: nat, password: string, env: Env)
    requires Inv(s) && HasUsername(s.accounts, id, Some(name))
    ensures var r := Operations.ResetPassword(s, name, token, password, env);
            if ResetIsGood(s, id, token)
            then r.outcome == Succeeded && id in r.state.accounts
                 && ResetTo(s.accounts[id], r.state.accounts[id], password)
                 && r.state == s.(accounts := s.accounts[id := r.state.accounts[id]], cache := r.state.cache)
            else r == Result(s, Failed(ResetRefusal(s.accounts[id], s.now)))
  {
    FoundByName(s, id, name);
    assert AccountInv(s.accounts[id]);
  }

  /** In every reachable state a password reset succeeds if and only if the account with the name has a reset
      token that is the presented one and has not expired; any other attempt changes nothing. */
  lemma ResetSucceedsIff(
    cfg: Settings, s0: State, events: seq<Event>, s: State, name: string, token: nat, password: string, env: Env)
    requires Init(s0) && s == Run(cfg, s0, events)
    ensures var r := Operations.ResetPassword(s, name, token, password, env);
            (r.outcome == Succeeded
             <==> exists id :: HasUsername(s.accounts, id, Some(name)) && ResetIsGood(s, id, token))
            && (r.outcome != Succeeded ==> Refused(s, r))
            && ((forall id :: !HasUsername(s.accounts, id, Some(name))) ==> r.outcome == Failed(InvalidCredentials))
  {
    RunKeepsInv(cfg, s0, events);
    forall id | HasUsername(s.accounts, id, Some(name))
      ensures var r := Operations.ResetPassword(s, name, token, password, env);
              if ResetIsGood(s, id, token) then r.outcome == Succeeded else Refused(s, r)
    {
      ResetInState(s, id, name, token, password, env);
    }
  }

  // Both requests for a reset token.
  ghost function ResetRequested(cfg: Settings, s: State, id: UserId, name: string, byAdmin: bool): Result {
    if byAdmin then Operations.CreateResetPasswordRequest(cfg, s, id) else Operations.ForgotPassword(cfg, s, name)
  }

  // The request succeeds, and after a while a token resets the password just in case it is the one drawn for
  // the request and its minutes are not over.
  ghost predicate RequestedResetWorks(
    cfg: Settings, s: State, id: UserId, name: string, byAdmin: bool, wait: nat, token: nat, password: string, env: Env)
  {
    var r := ResetRequested(cfg, s, id, name, byAdmin);
    r.outcome == Succeeded
    && (Operations.ResetPassword(r.state.(now := s.now + wait), name, token, password, env).outcome == Succeeded
        <==> token == s.draws && wait <= cfg.resetMinutes * 60)
  }

  /** Request, then reset: after either kind of request exactly the token just drawn resets the password, for
      exactly its minutes. */
  lemma RequestedResetWorksIff(
    cfg: Settings, s0: State, events: seq<Event>, s: State, id: UserId, name: string, byAdmin: bool, wait: nat,
    token: nat, password: string, env: Env)
    requires Init(s0) && s == Run(cfg, s0, events) && HasUsername(s.accounts, id, Some(name))
    requires byAdmin ==> s.accounts[id].role != SystemAdmin
    ensures RequestedResetWorks(cfg, s, id, name, byAdmin, wait, token, password, env)
  {
    RunKeepsInv(cfg, s0, events);
    RequestedResetInState(cfg, s, id, name, byAdmin, wait, token, password, env);
  }

  lemma RequestedResetInState(
    cfg: Settings, s: State, id: UserId, name: string, byAdmin: bool, wait: nat, token: nat, password: string, env: Env)
    requires Inv(s) && HasUsername(s.accounts, id, Some(name)) && (byAdmin ==> s.accounts[id].role != SystemAdmin)
    ensures RequestedResetWorks(cfg, s, id, name, byAdmin, wait, token, password, env)
  {
    RequestStoresToken(cfg, s, id, name, byAdmin);
    var s' := ResetRequested(cfg, s, id, name, byAdmin).state;
    StoredResetWorksIff(s', id, name, s.draws, cfg.resetMinutes, wait, token, password, env);
  }

  // The account's reset token is this one, for this many minutes from now.
  predicate ResetIsStored(s: State, id: UserId, token: nat, minutes: nat) {
    id in s.accounts && s.accounts[id].session.resetHash == Some(Sha256(Raw(token)))
    && s.accounts[id].session.resetExpires == Some(s.now + minutes * 60)
  }

  lemma RequestStoresToken(cfg: Settings, s: State, id: UserId, name: string, byAdmin: bool)
    requires Inv(s) && HasUsername(s.accounts, id, Some(name)) && (byAdmin ==> s.accounts[id].role != SystemAdmin)
    ensures var r := ResetRequested(cfg, s, id, name, byAdmin);
            r.outcome == Succeeded && Inv(r.state) && r.state.now == s.now
            && HasUsername(r.state.accounts, id, Some(name)) && ResetIsStored(r.state, id, s.draws, cfg.resetMinutes)
  {
    FoundByName(s, id, name);
    if byAdmin {
      AdminResetMoves(cfg, s, id);
    } else {
      ForgottenPasswordMoves(cfg, s, name);
    }
    MovesKeepsInv(s, ResetRequested(cfg, s, id, name, byAdmin).state);
  }

  lemma StoredResetWorksIff(
    s: State, id: UserId, name: string, stored: nat, minutes: nat, wait: nat, token: nat, password: string, env: Env)
    requires Inv(s) && HasUsername(s.accounts, id, Some(name)) && ResetIsStored(s, id, stored, minutes)
    ensures Operations.ResetPassword(s.(now := s.now + wait), name, token, password, env).outcome == Succeeded
       <==> token == stored && wait <= minutes * 60
  {
    SameTablesKeepsInv(s, s.(now := s.now + wait));
    ResetInState(s.(now := s.now + wait), id, name, token, password, env);
  }

  /** A forgotten password is answered alike for every name; the account with the name, if there is one, gets a
      reset token for its minutes, and nothing else changes. */
  lemma ForgottenPasswordStores(cfg: Settings, s: State, id: UserId, name: string)
    requires UniqueUsernames(s.accounts)
    ensures var r := Operations.ForgotPassword(cfg, s, name);
            r.outcome == Succeeded
            && ((forall other :: !HasUsername(s.accounts, other, Some(name))) ==> r.state == s.(draws := r.state.draws))
            && (HasUsername(s.accounts, id, Some(name)) ==>
                  id in r.state.accounts && ResetIsStored(r.state, id, s.draws, cfg.resetMinutes)
                  && r.state == s.(draws := r.state.draws, accounts := s.accounts[id := r.state.accounts[id]])
                  && r.state.accounts[id]
                     == s.accounts[id].(session := s.accounts[id].session.(
                                          resetHash := r.state.accounts[id].session.resetHash,
                                          resetExpires := r.state.accounts[id].session.resetExpires)))
  {
    if HasUsername(s.accounts, id, Some(name)) {
      FoundByName(s, id, name);
    }
  }

  // ----- Password change -----

  // The account with a new password and its sessions ended.
  predicate PasswordChanged(a: Account, a': Account, password: string) {
    a' == a.(passwordHash := Some(Bcrypt(password)),
             session := a.session.(version := a.session.version + 1, refreshHash := None, refreshFamily := None,
                                   refreshExpires := None))
  }

  /** A user changes the password if and only if the current password is the stored one; any other attempt is
      answered with IncorrectPassword and changes nothing. */
  lemma PasswordChangeIff(s: State, id: UserId, current: string, password: string, env: Env)
    requires id in s.accounts
    ensures var r := Operations.UpdateMePassword(s, id, current, password, env);
            if s.accounts[id].passwordHash == Some(Bcrypt(current))
            then r.outcome == Succeeded && id in r.state.accounts
                 && PasswordChanged(s.accounts[id], r.state.accounts[id], password)
                 && r.state == s.(accounts := s.accounts[id := r.state.accounts[id]], cache := r.state.cache)
            else r == Result(s, Failed(IncorrectPassword))
  {
  }

  /** Once a request has set a password, exactly that password changes it, and then exactly the new one logs
      an active user in who is not locked out. */
  lemma SetPasswordChangesIt(
    cfg: Settings, s0: State, events: seq<Event>, s: State, op: Op, env: Env, id: UserId, password: string,
    current: string, next: string, name: string, attempt: string)
    requires Init(s0) && s == Run(cfg, s0, events) && SetsPassword(s, op, id, password)
    requires Step(cfg, s, op, env).outcome == Succeeded
    ensures var s1 := Step(cfg, s, op, env).state;
            var r := Operations.UpdateMePassword(s1, id, current, next, env);
            (r.outcome == Succeeded <==> current == password)
            && (r.outcome == Succeeded && HasUsername(r.state.accounts, id, Some(name)) && MayLogIn(r.state, id) ==>
                  (Operations.Login(cfg, r.state, Some(name), Some(attempt)).outcome.LoggedIn? <==> attempt == next))
  {
    RunKeepsInv(cfg, s0, events);
    StepKeepsInv(cfg, s, op, env);
    PasswordIsStored(cfg, s, op, env, id, password);
    var s1 := Step(cfg, s, op, env).state;
    ChangedPasswordLogsIn(cfg, s1, id, current, next, env, name, attempt);
  }

  lemma ChangedPasswordLogsIn(
    cfg: Settings, s: State, id: UserId, current: string, next: string, env: Env, name: string, attempt: string)
    requires Inv(s) && id in s.accounts
    ensures var r := Operations.UpdateMePassword(s, id, current, next, env);
            (r.outcome == Succeeded <==> s.accounts[id].passwordHash == Some(Bcrypt(current)))
            && (r.outcome == Succeeded && HasUsername(r.state.accounts, id, Some(name)) && MayLogIn(r.state, id) ==>
                  (Operations.Login(cfg, r.state, Some(name), Some(attempt)).outcome.LoggedIn? <==> attempt == next))
  {
    var r := Operations.UpdateMePassword(s, id, current, next, env);
    PasswordChangeIff(s, id, current, next, env);
    PasswordChangeMoves(s, id, current, next, env);
    MovesKeepsInv(s, r.state);
    if HasUsername(r.state.accounts, id, Some(name)) {
      LoginInState(cfg, r.state, id, name, attempt);
    }
  }
}
