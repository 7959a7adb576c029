/** The cached views of users that administrators and directors see: what they show in serial runs whose
    cache deletes succeed, and exactly which requests leave them stale
    (src/users/services/system_admin.py, src/users/services/director.py, src/auth/service.py). */
module DetailTheorems {
  import opened Prelude
  import opened Accounts
  import opened Operations
  import opened Requests
  import opened Invariants
  import opened CacheTheorems

  /** A user as an administrator or a director sees one, cached or not, is the stored one, or an account that
      has become active shown with its status before: no one is shown as active who is not. */
  lemma DetailIsCurrentOrActivated(
    cfg: Settings, s0: State, events: seq<Event>, target: UserId, staff: bool, asStudent: bool, env: Env)
    requires Init(s0) && DeletesSucceed(events)
    ensures var s := Run(cfg, s0, events);
            var outcome := Operations.GetUserDetail(s, target, staff, asStudent, env).outcome;
            outcome.SawDetail? ==> target in s.accounts && ShownAs(outcome.detail, s.accounts[target], staff)
  {
    RunKeepsCoherence(cfg, s0, events);
    assert EntryCoherent(Run(cfg, s0, events), DetailKey(target, staff));
  }

  function DetailKey(id: UserId, staff: bool): Key {
    if staff then StaffDetail(id) else AdminDetail(id)
  }

  // This entry is exactly what the reader of the table would get.
  predicate DetailExact(s: State, id: UserId, staff: bool) {
    var key := DetailKey(id, staff);
    id in s.accounts && key in s.cache && s.cache[key].value == DetailView(DetailOf(s.accounts[id], staff))
  }

  // A request that makes an account active and leaves this entry of it in place.
  ghost predicate ActivatesBehind(s: State, op: Op, outcome: Outcome, id: UserId, staff: bool) {
    outcome == Succeeded && id in s.accounts && s.accounts[id].status != Active
    && ((op.ActivateAccount? && FindByUsername(s.accounts, op.name) == Some(id))
        || (op.ActivateUser? && op.target == id && staff))
  }

  lemma KeptDetailIsExactIff(s: State, s': State, id: UserId, staff: bool)
    requires Inv(s) && Inv(s') && CacheFollows(s, s') && DetailExact(s, id, staff) && DetailKey(id, staff) in s'.cache
    ensures id in s'.accounts
    ensures DetailExact(s', id, staff) <==> s'.accounts[id].status == s.accounts[id].status
  {
    assert AccountInv(s.accounts[id]) && AccountInv(s'.accounts[id]);
  }

  // A read fills its own entry from the table and leaves the others.
  lemma ReadKeepsDetail(
    s: State, presented: Option<AccessToken>, op: Op, self: UserId, env: Env, id: UserId, staff: bool)
    requires DetailExact(s, id, staff)
    ensures DetailExact(GetCurrentUser(s, presented, env).state, id, staff)
    ensures op.GetMyProfile? ==> DetailExact(Operations.GetMyProfile(s, self, op.asStudent, env).state, id, staff)
    ensures op.GetUserDetail? ==>
              DetailExact(Operations.GetUserDetail(s, op.target, op.staff, op.asStudent, env).state, id, staff)
  {
  }

  lemma UserKeepsStatus(cfg: Settings, s: State, self: UserId, role: Role, op: Op, env: Env, id: UserId)
    requires NeedsUser(op) && id in s.accounts
    ensures var s' := AsUser(cfg, s, self, role, op, env).state;
            id in s'.accounts && s'.accounts[id].status == s.accounts[id].status
  {
  }

  // The requests that may change a status.
  predicate MovesStatus(op: Op) {
    op.ActivateAccount? || op.ActivateUser? || op.DeactivateUser?
  }

  lemma QuietKeepsStatus(cfg: Settings, s: State, op: Op, env: Env, id: UserId)
    requires s.nextId !in s.accounts && !NeedsUser(op) && !MovesStatus(op) && id in s.accounts
    ensures var s' := Anonymous(cfg, s, op, env).state;
            id in s'.accounts && s'.accounts[id].status == s.accounts[id].status
  {
  }

  lemma ActivationMovesStatus(s: State, name: string, invite: nat, password: string, id: UserId)
    requires Inv(s) && id in s.accounts
    ensures var r := Operations.ActivateAccount(s, name, invite, password);
            id in r.state.accounts
            && (r.state.accounts[id].status != s.accounts[id].status
                <==> r.outcome == Succeeded && s.accounts[id].status != Active
                     && FindByUsername(s.accounts, name) == Some(id))
  {
  }

  lemma ReactivationMovesStatus(s: State, target: UserId, env: Env, id: UserId)
    requires Inv(s) && id in s.accounts
    ensures var r := Operations.ActivateUser(s, target, env);
            id in r.state.accounts
            && (r.state.accounts[id].status != s.accounts[id].status
                <==> r.outcome == Succeeded && s.accounts[id].status != Active && target == id)
            && (env.deleteOk && r.outcome == Succeeded ==> AdminDetail(target) !in r.state.cache)
  {
    assert AccountInv(s.accounts[id]);
  }

  lemma DeactivationMovesStatus(s: State, target: UserId, env: Env, id: UserId, staff: bool)
    requires id in s.accounts && env.deleteOk
    ensures var r := Operations.DeactivateUser(s, target, env);
            id in r.state.accounts
            && (DetailKey(id, staff) in r.state.cache ==> r.state.accounts[id].status == s.accounts[id].status)
  {
  }

  lemma ActivationDetail(s: State, name: string, invite: nat, password: string, id: UserId, staff: bool)
    requires Inv(s) && DetailExact(s, id, staff)
    requires DetailKey(id, staff) in Operations.ActivateAccount(s, name, invite, password).state.cache
    ensures var r := Operations.ActivateAccount(s, name, invite, password);
            !DetailExact(r.state, id, staff)
            <==> r.outcome == Succeeded && s.accounts[id].status != Active
                 && FindByUsername(s.accounts, name) == Some(id)
  {
    var s' := Operations.ActivateAccount(s, name, invite, password).state;
    ActivationDropsStale(s, name, invite, password);
    ActivationMoves(s, name, invite, password);
    MovesKeepsInv(s, s');
    KeptDetailIsExactIff(s, s', id, staff);
    ActivationMovesStatus(s, name, invite, password, id);
  }

  lemma ReactivationDetail(s: State, target: UserId, env: Env, id: UserId, staff: bool)
    requires Inv(s) && env.DeletesOk() && DetailExact(s, id, staff)
    requires DetailKey(id, staff) in Operations.ActivateUser(s, target, env).state.cache
    ensures var r := Operations.ActivateUser(s, target, env);
            !DetailExact(r.state, id, staff)
            <==> r.outcome == Succeeded && s.accounts[id].status != Active && target == id && staff
  {
    var s' := Operations.ActivateUser(s, target, env).state;
    ReactivationDropsStale(s, target, env);
    ReactivationMoves(s, target, env);
    MovesKeepsInv(s, s');
    KeptDetailIsExactIff(s, s', id, staff);
    ReactivationMovesStatus(s, target, env, id);
  }

  lemma DeactivationDetail(s: State, target: UserId, env: Env, id: UserId, staff: bool)
    requires Inv(s) && env.DeletesOk() && DetailExact(s, id, staff)
    requires DetailKey(id, staff) in Operations.DeactivateUser(s, target, env).state.cache
    ensures DetailExact(Operations.DeactivateUser(s, target, env).state, id, staff)
  {
    var s' := Operations.DeactivateUser(s, target, env).state;
    DeactivationDropsStale(s, target, env);
    DeactivationMoves(s, target, env);
    MovesKeepsInv(s, s');
    KeptDetailIsExactIff(s, s', id, staff);
    DeactivationMovesStatus(s, target, env, id, staff);
  }

  lemma QuietDetail(cfg: Settings, s: State, op: Op, env: Env, id: UserId, staff: bool)
    requires Inv(s) && env.DeletesOk() && !NeedsUser(op) && SchemaAccepts(op) && DetailExact(s, id, staff)
    requires !MovesStatus(op) && DetailKey(id, staff) in Anonymous(cfg, s, op, env).state.cache
    ensures DetailExact(Anonymous(cfg, s, op, env).state, id, staff)
  {
    if op.GetUserDetail? {
      ReadKeepsDetail(s, None, op, 0, env, id, staff);
    } else {
      var s' := Anonymous(cfg, s, op, env).state;
      AnonymousFollows(cfg, s, op, env);
      AnonymousMoves(cfg, s, op, env);
      MovesKeepsInv(s, s');
      KeptDetailIsExactIff(s, s', id, staff);
      QuietKeepsStatus(cfg, s, op, env, id);
    }
  }

  lemma AnonymousDetail(cfg: Settings, s: State, op: Op, env: Env, id: UserId, staff: bool)
    requires Inv(s) && env.DeletesOk() && !NeedsUser(op) && SchemaAccepts(op) && DetailExact(s, id, staff)
    requires DetailKey(id, staff) in Anonymous(cfg, s, op, env).state.cache
    ensures var r := Anonymous(cfg, s, op, env);
            !DetailExact(r.state, id, staff) <==> ActivatesBehind(s, op, r.outcome, id, staff)
  {
    if op.ActivateAccount? {
      ActivationDetail(s, op.name, op.invite, op.newPassword, id, staff);
    } else if op.ActivateUser? {
      ReactivationDetail(s, op.target, env, id, staff);
    } else if op.DeactivateUser? {
      DeactivationDetail(s, op.target, env, id, staff);
    } else {
      QuietDetail(cfg, s, op, env, id, staff);
    }
  }

  lemma UserDetail(cfg: Settings, s: State, self: UserId, role: Role, op: Op, env: Env, id: UserId, staff: bool)
    requires Inv(s) && env.DeletesOk() && NeedsUser(op) && DetailExact(s, id, staff)
    requires self in s.accounts && s.accounts[self].status != PendingActivation
    requires DetailKey(id, staff) in AsUser(cfg, s, self, role, op, env).state.cache
    ensures DetailExact(AsUser(cfg, s, self, role, op, env).state, id, staff)
  {
    if op.GetMyProfile? {
      ReadKeepsDetail(s, None, op, self, env, id, staff);
    } else {
      UserFollows(cfg, s, self, role, op, env);
      UserRequestMoves(cfg, s, self, role, op, env);
      MovesKeepsInv(s, AsUser(cfg, s, self, role, op, env).state);
      KeptDetailIsExactIff(s, AsUser(cfg, s, self, role, op, env).state, id, staff);
      UserKeepsStatus(cfg, s, self, role, op, env, id);
    }
  }

  /** A view that is exact and stays in the cache goes stale by a request, whose deletes get through, if and
      only if that request makes the account active and is activate_account, or, for directors,
      activate_user. */
  lemma DetailGoesStaleIff(cfg: Settings, s: State, op: Op, env: Env, id: UserId, staff: bool)
    requires Inv(s) && env.DeletesOk() && DetailExact(s, id, staff)
    requires DetailKey(id, staff) in Step(cfg, s, op, env).state.cache
    ensures var r := Step(cfg, s, op, env);
            !DetailExact(r.state, id, staff) <==> ActivatesBehind(s, op, r.outcome, id, staff)
  {
    if !SchemaAccepts(op) {
    } else if !NeedsUser(op) {
      AnonymousDetail(cfg, s, op, env, id, staff);
    } else {
      AuthenticationOnlyCaches(s, op.token, env);
      ReadKeepsDetail(s, op.token, op, 0, env, id, staff);
      var auth := GetCurrentUser(s, op.token, env);
      if !auth.outcome.Failed? {
        SameTablesKeepsInv(s, auth.state);
        UserDetail(cfg, auth.state, auth.outcome.id, auth.outcome.role, op, env, id, staff);
      }
    }
  }

  // ----- Reading -----

  // What an administrator, or a director, is shown of the account: all of it, or no username, address and flag.
  predicate Shows(detail: Detail, a: Account, staff: bool) {
    detail.role == a.role && detail.status == a.status
    && detail.profile.firstname == a.profile.firstname && detail.profile.lastname == a.profile.lastname
    && detail.profile.middlename == a.profile.middlename && detail.profile.phoneNumber == a.profile.phoneNumber
    && detail.profile.dateOfBirth == a.profile.dateOfBirth && detail.profile.address == a.profile.address
    && (if staff then detail.isActive.None? && detail.profile.username.None? && detail.profile.email.None?
        else detail.isActive == Some(a.isActive) && detail.profile.username == a.profile.username
             && detail.profile.email == a.profile.email)
  }

  // Nothing is cached under the key, or not any more.
  predicate NotCached(s: State, key: Key) {
    key in s.cache ==> s.cache[key].expires <= s.now
  }

  /** Without a cached view, a user is shown if and only if there is one of the kind asked for; the view is then
      served from the cache for exactly fifteen minutes. */
  lemma DetailReadIff(s: State, target: UserId, staff: bool, asStudent: bool, env: Env, wait: nat)
    requires NotCached(s, DetailKey(target, staff)) && env.setOk
    ensures var r := Operations.GetUserDetail(s, target, staff, asStudent, env);
            if target in s.accounts && s.accounts[target].role == (if asStudent then Student else Teacher)
            then r.outcome.SawDetail? && Shows(r.outcome.detail, s.accounts[target], staff)
                 && r.state == s.(cache := r.state.cache)
                 && CacheGet(r.state.cache, s.now + wait, DetailKey(target, staff), true)
                    == if wait < 15 * 60 then Some(DetailView(r.outcome.detail)) else None
            else r == Result(s, Failed(UserNotFound))
  {
  }

  /** And so is one's own profile, from the endpoint for students or the one for everybody else. */
  lemma ProfileReadIff(s: State, id: UserId, asStudent: bool, env: Env, wait: nat)
    requires NotCached(s, SelfDetail(id)) && env.setOk
    ensures var r := Operations.GetMyProfile(s, id, asStudent, env);
            if id in s.accounts && (s.accounts[id].role == Student) == asStudent
            then r.outcome == SawProfile(s.accounts[id].profile) && r.state == s.(cache := r.state.cache)
                 && CacheGet(r.state.cache, s.now + wait, SelfDetail(id), true)
                    == if wait < 15 * 60 then Some(SelfView(s.accounts[id].profile)) else None
            else r == Result(s, Failed(UserNotFound))
  {
  }
}
