/** The two caches in serial runs whose cache deletes succeed: authentication through the cache is the
    same as through the database, and a cached profile is the stored one. */
module CacheTheorems {
  import opened Prelude
  import opened Accounts
  import opened Operations
  import opened Requests
  import opened Invariants
  import opened SessionTheorems

  // The detail is that of the account, or shows an account that has become active as it was before.
  predicate ShownAs(detail: Detail, a: Account, staff: bool) {
    var current := DetailOf(a, staff);
    detail == current
    || (a.status == Active && detail.status != Active
        && detail == current.(status := detail.status, isActive := detail.isActive))
  }

  predicate DetailCoherent(value: CacheValue, a: Account, staff: bool) {
    value.DetailView? && ShownAs(value.detail, a, staff)
  }

  // A cached entry, alive or not, shows what the tables hold.
  predicate EntryCoherent(s: State, key: Key) {
    key in s.cache ==>
      key.id in s.accounts
      && match key
         case TokenVersion(id) => s.cache[key].value == Version(s.accounts[id].session.version)
         case SelfDetail(id) => s.cache[key].value == SelfView(s.accounts[id].profile)
         case AdminDetail(id) => DetailCoherent(s.cache[key].value, s.accounts[id], false)
         case StaffDetail(id) => DetailCoherent(s.cache[key].value, s.accounts[id], true)
  }

  ghost predicate Coherent(s: State) {
    forall key | key in s.cache :: EntryCoherent(s, key)
  }

  // The keys whose entries a change of this account would make stale.
  function StaleKeys(id: UserId, a: Account, a': Account): set<Key> {
    (if a'.session.version != a.session.version then {TokenVersion(id)} else {})
    + (if a'.profile != a.profile then DetailKeys(id) else {})
    + (if a'.status != a.status && a'.status != Active then {AdminDetail(id), StaffDetail(id)} else {})
  }

  /** One account changes and the stale keys are dropped: nothing else is needed. */
  predicate DropsStale(s: State, s': State, id: UserId) {
    id in s.accounts && id in s'.accounts
    && s'.accounts == s.accounts[id := s'.accounts[id]]
    && s'.accounts[id].role == s.accounts[id].role
    && (s'.accounts[id].status == s.accounts[id].status ==> s'.accounts[id].isActive == s.accounts[id].isActive)
    && s'.cache.Keys <= s.cache.Keys - StaleKeys(id, s.accounts[id], s'.accounts[id])
    && forall key | key in s'.cache :: s'.cache[key] == s.cache[key]
  }

  ghost predicate CacheFollows(s: State, s': State) {
    (s'.accounts == s.accounts && s'.cache.Keys <= s.cache.Keys
     && forall key | key in s'.cache :: s'.cache[key] == s.cache[key])
    || (s.nextId !in s.accounts && s.nextId in s'.accounts
        && s'.accounts == s.accounts[s.nextId := s'.accounts[s.nextId]] && s'.cache == s.cache)
    || exists id: UserId {:trigger DropsStale(s, s', id)} :: DropsStale(s, s', id)
  }

  lemma FollowingIsCoherent(s: State, s': State)
    requires Coherent(s) && CacheFollows(s, s')
    ensures Coherent(s')
  {
    forall key | key in s'.cache ensures EntryCoherent(s', key) {
      assert EntryCoherent(s, key);
    }
  }

  // ----- Every request drops what it makes stale -----

  lemma InvalidationDropsStale(s: State, id: UserId, env: Env)
    requires env.DeletesOk()
    ensures CacheFollows(s, InvalidateAllTokens(s, id, env))
  {
    assert id in s.accounts ==> DropsStale(s, InvalidateAllTokens(s, id, env), id);
  }

  lemma LoginDropsStale(cfg: Settings, s: State, username: Option<string>, password: Option<string>)
    ensures CacheFollows(s, Operations.Login(cfg, s, username, password).state)
  {
    var s' := Operations.Login(cfg, s, username, password).state;
    if username.Some? && FindByUsername(s.accounts, username.value).Some? {
      assert DropsStale(s, s', FindByUsername(s.accounts, username.value).value);
    }
  }

  lemma RefreshDropsStale(cfg: Settings, s: State, presented: Option<RefreshToken>, family: nat, env: Env)
    requires env.DeletesOk()
    ensures CacheFollows(s, Operations.Refresh(cfg, s, presented, family, env).state)
  {
    var s' := Operations.Refresh(cfg, s, presented, family, env).state;
    if s' != s {
      assert DropsStale(s, s', presented.value.sub);
    }
  }

  lemma ActivationDropsStale(s: State, name: string, invite: nat, password: string)
    requires Inv(s)
    ensures CacheFollows(s, Operations.ActivateAccount(s, name, invite, password).state)
  {
    var s' := Operations.ActivateAccount(s, name, invite, password).state;
    if FindByUsername(s.accounts, name).Some? {
      var id := FindByUsername(s.accounts, name).value;
      assert AccountInv(s.accounts[id]);
      assert DropsStale(s, s', id);
    }
  }

  lemma ForgottenPasswordDropsStale(cfg: Settings, s: State, name: string)
    ensures CacheFollows(s, Operations.ForgotPassword(cfg, s, name).state)
  {
    var s' := Operations.ForgotPassword(cfg, s, name).state;
    if FindByUsername(s.accounts, name).Some? {
      assert DropsStale(s, s', FindByUsername(s.accounts, name).value);
    }
  }

  lemma PasswordResetDropsStale(s: State, name: string, token: nat, password: string, env: Env)
    requires env.DeletesOk()
    ensures CacheFollows(s, Operations.ResetPassword(s, name, token, password, env).state)
  {
    var s' := Operations.ResetPassword(s, name, token, password, env).state;
    if FindByUsername(s.accounts, name).Some? {
      assert DropsStale(s, s', FindByUsername(s.accounts, name).value);
    }
  }

  lemma AdminUpdateDropsStale(s: State, target: UserId, studentShaped: bool, request: Changes, env: Env)
    requires env.DeletesOk()
    ensures CacheFollows(s, Operations.UpdateUser(s, target, studentShaped, request, env).state)
  {
    var s' := Operations.UpdateUser(s, target, studentShaped, request, env).state;
    assert target in s.accounts ==> DropsStale(s, s', target);
  }

  lemma CredentialUpdateDropsStale(cfg: Settings, s: State, target: UserId, request: Changes, env: Env)
    requires env.DeletesOk()
    ensures CacheFollows(s, Operations.UpdateUserCredentials(cfg, s, target, request, env).state)
  {
    var s' := Operations.UpdateUserCredentials(cfg, s, target, request, env).state;
    assert target in s.accounts ==> DropsStale(s, s', target);
  }

  lemma DeactivationDropsStale(s: State, target: UserId, env: Env)
    requires Inv(s) && env.DeletesOk()
    ensures CacheFollows(s, Operations.DeactivateUser(s, target, env).state)
  {
    assert target in s.accounts ==> AccountInv(s.accounts[target]);
    assert target in s.accounts ==> DropsStale(s, Operations.DeactivateUser(s, target, env).state, target);
  }

  lemma ReactivationDropsStale(s: State, target: UserId, env: Env)
    requires Inv(s) && env.DeletesOk()
    ensures CacheFollows(s, Operations.ActivateUser(s, target, env).state)
  {
    assert target in s.accounts ==> AccountInv(s.accounts[target]);
    assert target in s.accounts ==> DropsStale(s, Operations.ActivateUser(s, target, env).state, target);
  }

  lemma AdminResetDropsStale(cfg: Settings, s: State, target: UserId)
    ensures CacheFollows(s, Operations.CreateResetPasswordRequest(cfg, s, target).state)
  {
    var s' := Operations.CreateResetPasswordRequest(cfg, s, target).state;
    assert target in s.accounts ==> DropsStale(s, s', target);
  }

  lemma ResendDropsStale(cfg: Settings, s: State, target: UserId)
    ensures CacheFollows(s, Operations.ResendActivationInvite(cfg, s, target).state)
  {
    var s' := Operations.ResendActivationInvite(cfg, s, target).state;
    assert target in s.accounts ==> DropsStale(s, s', target);
  }

  lemma SelfUpdateDropsStale(
    cfg: Settings, s: State, id: UserId, username: Option<string>, email: Option<string>, code: string, env: Env)
    requires env.DeletesOk()
    ensures CacheFollows(s, Operations.UpdateMeCredentials(cfg, s, id, username, email, code, env).state)
  {
    var s' := Operations.UpdateMeCredentials(cfg, s, id, username, email, code, env).state;
    assert id in s.accounts ==> DropsStale(s, s', id);
  }

  lemma ConfirmationDropsStale(s: State, id: UserId, code: string, env: Env)
    requires env.DeletesOk()
    ensures CacheFollows(s, Operations.ConfirmEmailChange(s, id, code, env).state)
  {
    var s' := Operations.ConfirmEmailChange(s, id, code, env).state;
    assert id in s.accounts ==> DropsStale(s, s', id);
  }

  lemma PasswordChangeDropsStale(s: State, id: UserId, current: string, password: string, env: Env)
    requires env.DeletesOk()
    ensures CacheFollows(s, Operations.UpdateMePassword(s, id, current, password, env).state)
  {
    var s' := Operations.UpdateMePassword(s, id, current, password, env).state;
    assert id in s.accounts ==> DropsStale(s, s', id);
  }

  // ----- Steps and runs -----

  lemma AnonymousFollows(cfg: Settings, s: State, op: Op, env: Env)
    requires Inv(s) && env.DeletesOk() && !NeedsUser(op) && !op.GetUserDetail?
    ensures CacheFollows(s, Anonymous(cfg, s, op, env).state)
  {
    match op {
      case Login(username, password) => LoginDropsStale(cfg, s, username, password);
      case Refresh(presented, family) => RefreshDropsStale(cfg, s, presented, family, env);
      case UpdateUser(target, studentShaped, request) => AdminUpdateDropsStale(s, target, studentShaped, request, env);
      case UpdateUserCredentials(target, request) => CredentialUpdateDropsStale(cfg, s, target, request, env);
      case RegisterUser(_, _) =>
      case Tick(_) =>
      case Evict(_) =>
      case ActivateAccount(name, invite, newPassword) => ActivationDropsStale(s, name, invite, newPassword);
      case ForgotPassword(name) => ForgottenPasswordDropsStale(cfg, s, name);
      case ResetPassword(name, reset, newPassword) => PasswordResetDropsStale(s, name, reset, newPassword, env);
      case DeactivateUser(target) => DeactivationDropsStale(s, target, env);
      case ActivateUser(target) => ReactivationDropsStale(s, target, env);
      case CreateResetPasswordRequest(target) => AdminResetDropsStale(cfg, s, target);
      case ResendActivationInvite(target) => ResendDropsStale(cfg, s, target);
    }
  }

  lemma UserFollows(cfg: Settings, s: State, id: UserId, role: Role, op: Op, env: Env)
    requires env.DeletesOk() && NeedsUser(op) && !op.GetMyProfile?
    ensures CacheFollows(s, AsUser(cfg, s, id, role, op, env).state)
  {
    if op.Logout? {
      InvalidationDropsStale(s, id, env);
    } else if op.UpdateMeCredentials? {
      SelfUpdateDropsStale(cfg, s, id, op.username, op.email, op.code, env);
    } else if op.ConfirmEmailChange? {
      ConfirmationDropsStale(s, id, op.code, env);
    } else if op.UpdateMePassword? {
      PasswordChangeDropsStale(s, id, op.current, op.newPassword, env);
    }
  }

  // Filling the cache from the tables keeps it coherent.
  lemma ReadsKeepCoherence(s: State, presented: Option<AccessToken>, id: UserId, asStudent: bool, env: Env)
    requires Coherent(s)
    ensures Coherent(GetCurrentUser(s, presented, env).state)
    ensures Coherent(Operations.GetMyProfile(s, id, asStudent, env).state)
  {
    var s1 := GetCurrentUser(s, presented, env).state;
    forall key | key in s1.cache ensures EntryCoherent(s1, key) {
      assert EntryCoherent(s, key);
    }
    var s2 := Operations.GetMyProfile(s, id, asStudent, env).state;
    forall key | key in s2.cache ensures EntryCoherent(s2, key) {
      assert EntryCoherent(s, key);
    }
  }

  lemma DetailReadKeepsCoherence(s: State, target: UserId, staff: bool, asStudent: bool, env: Env)
    requires Coherent(s)
    ensures Coherent(Operations.GetUserDetail(s, target, staff, asStudent, env).state)
  {
    var s' := Operations.GetUserDetail(s, target, staff, asStudent, env).state;
    forall key | key in s'.cache ensures EntryCoherent(s', key) {
      assert EntryCoherent(s, key);
    }
  }

  lemma AnonymousKeepsCoherence(cfg: Settings, s: State, op: Op, env: Env)
    requires Inv(s) && Coherent(s) && env.DeletesOk() && !NeedsUser(op)
    ensures Coherent(Anonymous(cfg, s, op, env).state)
  {
    if op.GetUserDetail? {
      DetailReadKeepsCoherence(s, op.target, op.staff, op.asStudent, env);
    } else {
      AnonymousFollows(cfg, s, op, env);
      FollowingIsCoherent(s, Anonymous(cfg, s, op, env).state);
    }
  }

  lemma UserKeepsCoherence(cfg: Settings, s: State, id: UserId, role: Role, op: Op, env: Env)
    requires Coherent(s) && env.DeletesOk() && NeedsUser(op)
    ensures Coherent(AsUser(cfg, s, id, role, op, env).state)
  {
    if op.GetMyProfile? {
      ReadsKeepCoherence(s, None, id, op.asStudent, env);
    } else {
      UserFollows(cfg, s, id, role, op, env);
      FollowingIsCoherent(s, AsUser(cfg, s, id, role, op, env).state);
    }
  }

  lemma StepKeepsCoherence(cfg: Settings, s: State, op: Op, env: Env)
    requires Inv(s) && Coherent(s) && env.DeletesOk()
    ensures Coherent(Step(cfg, s, op, env).state)
  {
    if NeedsUser(op) {
      ReadsKeepCoherence(s, op.token, 0, false, env);
      AuthenticationOnlyCaches(s, op.token, env);
      var auth := GetCurrentUser(s, op.token, env);
      if !auth.outcome.Failed? {
        UserKeepsCoherence(cfg, auth.state, auth.outcome.id, auth.outcome.role, op, env);
      }
    } else if SchemaAccepts(op) {
      AnonymousKeepsCoherence(cfg, s, op, env);
    }
  }

  lemma {:induction false} RunKeepsCoherence(cfg: Settings, s: State, events: seq<Event>)
    requires Inv(s) && Coherent(s) && DeletesSucceed(events)
    ensures Coherent(Run(cfg, s, events))
    decreases |events|
  {
    if events == [] {
    } else {
      StepKeepsCoherence(cfg, s, events[0].op, events[0].env);
      StepKeepsInv(cfg, s, events[0].op, events[0].env);
      RunKeepsCoherence(cfg, Step(cfg, s, events[0].op, events[0].env).state, events[1..]);
    }
  }

  // ----- The store -----

  /** What is set is read back until its time is over, and what is deleted is not; a call that does not get
      through reads nothing and changes nothing. */
  lemma CacheRoundTrip(cache: Cache, now: Time, wait: nat, key: Key, value: CacheValue, ttl: nat, keys: set<Key>)
    ensures CacheGet(CacheSet(cache, now, key, value, ttl, true), now + wait, key, true)
         == if wait < ttl then Some(value) else None
    ensures forall other | other != key ::
              CacheGet(CacheSet(cache, now, key, value, ttl, true), now, other, true)
              == CacheGet(cache, now, other, true)
    ensures CacheGet(CacheDelete(cache, keys, true), now, key, true)
         == if key in keys then None else CacheGet(cache, now, key, true)
    ensures CacheGet(cache, now, key, false) == None
    ensures CacheSet(cache, now, key, value, ttl, false) == cache && CacheDelete(cache, keys, false) == cache
  {
  }

  // ----- Authentication -----

  // A genuine token whose version is the stored one.
  predicate Current(s: State, presented: Option<AccessToken>) {
    Genuine(s, presented) && presented.value.sub in s.accounts
    && s.accounts[presented.value.sub].session.version == presented.value.version
  }

  lemma AuthenticationInState(s: State, presented: Option<AccessToken>, env: Env)
    requires Inv(s) && Coherent(s)
    ensures GetCurrentUser(s, presented, env).outcome ==
              if Current(s, presented)
              then ActingAs(presented.value.sub, s.accounts[presented.value.sub].role)
              else Failed(InvalidAccessToken)
    ensures Current(s, presented) ==> s.accounts[presented.value.sub].isActive
  {
    if Genuine(s, presented) {
      assert AccessTokenInv(s, presented.value);
      assert EntryCoherent(s, TokenVersion(presented.value.sub));
    }
  }

  /** get_current_user answers the same from the cache as from the database.  It accepts exactly the
      genuine tokens whose version is the stored one, and whoever it lets in is an active user acting in
      the stored role, although the cached path looks at neither. */
  lemma CachedAuthenticationIsExact(
    cfg: Settings, s0: State, events: seq<Event>, presented: Option<AccessToken>, env: Env)
    requires Init(s0) && DeletesSucceed(events)
    ensures var s := Run(cfg, s0, events);
            var outcome := GetCurrentUser(s, presented, env).outcome;
            outcome == GetCurrentUser(s.(cache := map[]), presented, env).outcome
            && if Current(s, presented)
               then outcome == ActingAs(presented.value.sub, s.accounts[presented.value.sub].role)
                    && s.accounts[presented.value.sub].isActive
               else outcome == Failed(InvalidAccessToken)
  {
    RunKeepsInv(cfg, s0, events);
    RunKeepsCoherence(cfg, s0, events);
    var s := Run(cfg, s0, events);
    var uncached := s.(cache := map[]);
    AuthenticationInState(s, presented, env);
    SameTablesKeepsInv(s, uncached);
    AuthenticationInState(uncached, presented, env);
  }

  // A token older than its account's version stays rejected.
  lemma OldTokenIsRejected(cfg: Settings, s: State, token: AccessToken, later: seq<Event>, env: Env)
    requires Inv(s) && Coherent(s) && DeletesSucceed(later)
    requires token.sub in s.accounts && token.version < s.accounts[token.sub].session.version
    ensures GetCurrentUser(Run(cfg, s, later), Some(token), env).outcome == Failed(InvalidAccessToken)
  {
    RunEvolves(cfg, s, later);
    RunKeepsInv(cfg, s, later);
    RunKeepsCoherence(cfg, s, later);
    AuthenticationInState(Run(cfg, s, later), Some(token), env);
  }

  /** Once the access version of its user has moved, an issued access token is rejected for good. */
  lemma RevokedForGood(
    cfg: Settings, s0: State, before: seq<Event>, token: AccessToken, between: seq<Event>, later: seq<Event>, env: Env)
    requires Init(s0) && DeletesSucceed(before) && DeletesSucceed(between) && DeletesSucceed(later)
    requires token in Run(cfg, s0, before).accessIssued
    requires Bumps(Run(cfg, s0, before), Run(cfg, Run(cfg, s0, before), between), token.sub)
    ensures var s := Run(cfg, Run(cfg, Run(cfg, s0, before), between), later);
            GetCurrentUser(s, Some(token), env).outcome == Failed(InvalidAccessToken)
  {
    RunKeepsInv(cfg, s0, before);
    RunKeepsCoherence(cfg, s0, before);
    BumpMakesOld(cfg, Run(cfg, s0, before), token, between);
    OldTokenIsRejected(cfg, Run(cfg, Run(cfg, s0, before), between), token, later, env);
  }

  lemma BumpMakesOld(cfg: Settings, s: State, token: AccessToken, events: seq<Event>)
    requires Inv(s) && Coherent(s) && DeletesSucceed(events)
    requires token in s.accessIssued && Bumps(s, Run(cfg, s, events), token.sub)
    ensures var s' := Run(cfg, s, events);
            Inv(s') && Coherent(s') && token.sub in s'.accounts
            && token.version < s'.accounts[token.sub].session.version
  {
    assert AccessTokenInv(s, token);
    RunEvolves(cfg, s, events);
    RunKeepsInv(cfg, s, events);
    RunKeepsCoherence(cfg, s, events);
  }

  /** In particular a successful request that is to end the sessions of a user ends them at once and for
      good: every access token issued before it is rejected. */
  lemma EarlierTokensAreRejected(
    cfg: Settings, s0: State, before: seq<Event>, op: Op, env: Env, token: AccessToken, later: seq<Event>, env': Env)
    requires Init(s0) && DeletesSucceed(before) && env.DeletesOk() && DeletesSucceed(later)
    requires var s := Run(cfg, s0, before);
             token in s.accessIssued && Revokes(s, op, token.sub) && Step(cfg, s, op, env).outcome == Succeeded
    ensures var s := Run(cfg, Step(cfg, Run(cfg, s0, before), op, env).state, later);
            GetCurrentUser(s, Some(token), env').outcome == Failed(InvalidAccessToken)
  {
    RunKeepsInv(cfg, s0, before);
    RunKeepsCoherence(cfg, s0, before);
    RevocationRejects(cfg, Run(cfg, s0, before), op, env, token, later, env');
  }

  lemma RevocationRejects(
    cfg: Settings, s: State, op: Op, env: Env, token: AccessToken, later: seq<Event>, env': Env)
    requires Inv(s) && Coherent(s) && env.DeletesOk() && DeletesSucceed(later)
    requires token in s.accessIssued && Revokes(s, op, token.sub) && Step(cfg, s, op, env).outcome == Succeeded
    ensures GetCurrentUser(Run(cfg, Step(cfg, s, op, env).state, later), Some(token), env').outcome
         == Failed(InvalidAccessToken)
  {
    assert AccessTokenInv(s, token);
    SensitiveRequestRevokes(cfg, s, op, env, token.sub);
    StepKeepsInv(cfg, s, op, env);
    StepKeepsCoherence(cfg, s, op, env);
    OldTokenIsRejected(cfg, Step(cfg, s, op, env).state, token, later, env');
  }

  lemma RunOfOne(cfg: Settings, s: State, op: Op, env: Env)
    ensures Run(cfg, s, [Event(op, env)]) == Step(cfg, s, op, env).state
  {
    assert [Event(op, env)][1..] == [];
  }

  /** What login and refresh hand out works: the access token is accepted, in the stored role, and the
      refresh pair is acceptable. */
  lemma IssuedTokensWork(
    cfg: Settings, s0: State, events: seq<Event>, s: State, op: Op, env: Env, env': Env)
    requires Init(s0) && DeletesSucceed(events) && s == Run(cfg, s0, events)
    requires env.DeletesOk() && cfg.accessMinutes > 0 && cfg.refreshDays > 0
    requires (op.Login? || op.Refresh?) && Step(cfg, s, op, env).outcome.LoggedIn?
    ensures var r := Step(cfg, s, op, env);
            var id := r.outcome.access.sub;
            id in r.state.accounts
            && GetCurrentUser(r.state, Some(r.outcome.access), env').outcome == ActingAs(id, r.state.accounts[id].role)
            && r.outcome.refresh.sub == id && Acceptable(r.state, r.outcome.refresh, r.outcome.family)
  {
    RunKeepsInv(cfg, s0, events);
    RunKeepsCoherence(cfg, s0, events);
    StepKeepsInv(cfg, s, op, env);
    StepKeepsCoherence(cfg, s, op, env);
    IssuedInStep(cfg, s, op, env);
    AuthenticationInState(Step(cfg, s, op, env).state, Some(Step(cfg, s, op, env).outcome.access), env');
  }

  lemma IssuedInStep(cfg: Settings, s: State, op: Op, env: Env)
    requires cfg.accessMinutes > 0 && cfg.refreshDays > 0
    requires (op.Login? || op.Refresh?) && Step(cfg, s, op, env).outcome.LoggedIn?
    ensures var r := Step(cfg, s, op, env);
            Current(r.state, Some(r.outcome.access)) && r.outcome.refresh.sub == r.outcome.access.sub
            && Acceptable(r.state, r.outcome.refresh, r.outcome.family)
  {
  }

  // ----- The self profile -----

  /** A profile that /users/me returns, cached or not, is the stored one. */
  lemma ProfileIsCurrent(cfg: Settings, s0: State, events: seq<Event>, id: UserId, asStudent: bool, env: Env)
    requires Init(s0) && DeletesSucceed(events)
    ensures var s := Run(cfg, s0, events);
            var outcome := Operations.GetMyProfile(s, id, asStudent, env).outcome;
            outcome.SawProfile? ==> id in s.accounts && outcome.profile == s.accounts[id].profile
  {
    RunKeepsCoherence(cfg, s0, events);
    assert EntryCoherent(Run(cfg, s0, events), SelfDetail(id));
  }
}
