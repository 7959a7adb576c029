/** CacheStaleness refines the account machine: undisturbed, its single database and Redis calls do to one
    user's version and cache entry what the requests do (src/core/dependencies.py, src/auth/service.py,
    src/users/services/system_admin.py, src/users/services/shared.py). */
module CacheRefinement {
  import opened Prelude
  import opened Accounts
  import opened Operations
  import opened Requests
  import opened Invariants
  import opened SessionTheorems
  import CacheStaleness

  // The cache entry that an entry of the finer model stands for.
  function EntryFor(cached: Option<CacheStaleness.Cached>): Option<Entry> {
    if cached.None? then None
    else Some(Entry(Version(cached.value.version), cached.value.writtenAt + VERSION_TTL))
  }

  function EntryOf(cache: Cache, key: Key): Option<Entry> {
    if key in cache then Some(cache[key]) else None
  }

  // The finer state shows the clock, the stored version and the cached version of this user.
  predicate Shows(fine: CacheStaleness.State, s: State, id: UserId) {
    id in s.accounts && fine.now == s.now && fine.version == s.accounts[id].session.version
    && EntryFor(fine.cache) == EntryOf(s.cache, TokenVersion(id))
  }

  // ----- A bump is a load, a commit and a delete -----

  function Bumped(fine: CacheStaleness.State, deleteOk: bool): CacheStaleness.State {
    CacheStaleness.Do(
      CacheStaleness.Do(CacheStaleness.Do(fine, CacheStaleness.Load), CacheStaleness.CommitBump(fine.version)),
      CacheStaleness.DeleteCache(deleteOk))
  }

  // The stored version has moved by one, and its entry is dropped if the delete gets through.
  predicate BumpsAndDrops(s: State, s': State, id: UserId, deleteOk: bool) {
    id in s.accounts && id in s'.accounts && s'.now == s.now
    && s'.accounts[id].session.version == s.accounts[id].session.version + 1
    && EntryOf(s'.cache, TokenVersion(id)) == if deleteOk then None else EntryOf(s.cache, TokenVersion(id))
  }

  /** Undisturbed, the three calls of a bump do what the request does, and leave nothing pending. */
  lemma BumpIsLoadCommitDelete(
    lag: nat, fine: CacheStaleness.State, s: State, s': State, id: UserId, deleteOk: bool)
    requires Shows(fine, s, id) && BumpsAndDrops(s, s', id, deleteOk)
    ensures CacheStaleness.Runs(
              lag, fine,
              [CacheStaleness.Load, CacheStaleness.CommitBump(fine.version), CacheStaleness.DeleteCache(deleteOk)])
    ensures var fine' := Bumped(fine, deleteOk);
            Shows(fine', s', id) && fine'.bumpers == fine.bumpers && fine'.readers == fine.readers
            && fine'.deletes == fine.deletes
  {
    var load, commit, delete :=
      CacheStaleness.Load, CacheStaleness.CommitBump(fine.version), CacheStaleness.DeleteCache(deleteOk);
    var s1 := CacheStaleness.Do(fine, load);
    var s2 := CacheStaleness.Do(s1, commit);
    var s3 := CacheStaleness.Do(s2, delete);
    assert CacheStaleness.Runs(lag, s3, []);
    assert [delete][1..] == [] && CacheStaleness.Runs(lag, s2, [delete]);
    assert [commit, delete][1..] == [delete] && CacheStaleness.Runs(lag, s1, [commit, delete]);
    assert [load, commit, delete][1..] == [commit, delete];
    assert fine.bumpers + multiset{fine.version} - multiset{fine.version} == fine.bumpers;
  }

  lemma InvalidationBumpsAndDrops(s: State, id: UserId, env: Env)
    requires id in s.accounts
    ensures BumpsAndDrops(s, InvalidateAllTokens(s, id, env), id, env.deleteOk)
  {
  }

  /** A refresh whose pair does not match is such a bump, although it fails. */
  lemma MismatchBumpsAndDrops(cfg: Settings, s: State, token: RefreshToken, family: nat, env: Env)
    requires Bumps(s, Operations.Refresh(cfg, s, Some(token), family, env).state, token.sub)
    ensures Operations.Refresh(cfg, s, Some(token), family, env).outcome == Failed(InvalidRefreshToken)
    ensures BumpsAndDrops(s, Operations.Refresh(cfg, s, Some(token), family, env).state, token.sub, env.deleteOk)
  {
    InvalidationBumpsAndDrops(s, token.sub, env);
  }

  /** Each request that is to end the sessions of a user is such a bump when it succeeds. */
  lemma SensitiveRequestBumpsAndDrops(cfg: Settings, s: State, op: Op, env: Env, id: UserId)
    requires !NeedsUser(op) && Revokes(s, op, id) && Anonymous(cfg, s, op, env).outcome == Succeeded
    ensures BumpsAndDrops(s, Anonymous(cfg, s, op, env).state, id, env.deleteOk)
  {
  }

  lemma SensitiveUserRequestBumpsAndDrops(cfg: Settings, s: State, role: Role, op: Op, env: Env, id: UserId)
    requires NeedsUser(op) && Revokes(s, op, id) && id in s.accounts
    requires AsUser(cfg, s, id, role, op, env).outcome == Succeeded
    ensures BumpsAndDrops(s, AsUser(cfg, s, id, role, op, env).state, id, env.deleteOk)
  {
  }

  /** So is a change of one's own username, whose version entry is dropped by a delete of its own. */
  lemma RenamingBumpsAndDrops(
    cfg: Settings, s: State, id: UserId, username: Option<string>, email: Option<string>, code: string, env: Env)
    requires id in s.accounts && Renaming(s.accounts[id], username)
    requires Operations.UpdateMeCredentials(cfg, s, id, username, email, code, env).outcome == Succeeded
    ensures BumpsAndDrops(s, Operations.UpdateMeCredentials(cfg, s, id, username, email, code, env).state, id,
                          env.deleteAgainOk)
  {
  }

  lemma AnonymousBumpDrops(cfg: Settings, s: State, op: Op, env: Env, id: UserId)
    requires !NeedsUser(op) && MayBump(op) && Bumps(s, Anonymous(cfg, s, op, env).state, id)
    ensures BumpsAndDrops(s, Anonymous(cfg, s, op, env).state, id, env.deleteOk)
  {
    if op.Refresh? {
      MismatchBumpsAndDrops(cfg, s, op.presented.value, op.family, env);
    }
  }

  lemma UserBumpDrops(cfg: Settings, s: State, self: UserId, role: Role, op: Op, env: Env, id: UserId)
    requires NeedsUser(op) && Bumps(s, AsUser(cfg, s, self, role, op, env).state, id)
    ensures BumpsAndDrops(s, AsUser(cfg, s, self, role, op, env).state, id,
                          if op.UpdateMeCredentials? then env.deleteAgainOk else env.deleteOk)
  {
    if op.UpdateMeCredentials? {
      RenamingBumpsAndDrops(cfg, s, self, op.username, op.email, op.code, env);
    }
  }

  // Where the request starts from once its user, if it has one, is known.
  function Authenticated(s: State, op: Op, env: Env): State {
    if NeedsUser(op) then GetCurrentUser(s, op.token, env).state else s
  }

  lemma UserStepBumpDrops(cfg: Settings, s: State, op: Op, env: Env, id: UserId)
    requires NeedsUser(op) && Bumps(s, Step(cfg, s, op, env).state, id)
    ensures BumpsAndDrops(Authenticated(s, op, env), Step(cfg, s, op, env).state, id,
                          if op.UpdateMeCredentials? then env.deleteAgainOk else env.deleteOk)
  {
    AuthenticationKeepsAccounts(s, op.token, env);
    var auth := GetCurrentUser(s, op.token, env);
    UserBumpDrops(cfg, auth.state, auth.outcome.id, auth.outcome.role, op, env, id);
  }

  /** Every step that moves an access version, whatever the request and its outcome, is such a bump once its
      user is known. */
  lemma EveryBumpDrops(cfg: Settings, s: State, op: Op, env: Env, id: UserId)
    requires Inv(s) && Bumps(s, Step(cfg, s, op, env).state, id)
    ensures BumpsAndDrops(Authenticated(s, op, env), Step(cfg, s, op, env).state, id,
                          if op.UpdateMeCredentials? then env.deleteAgainOk else env.deleteOk)
  {
    if NeedsUser(op) {
      UserStepBumpDrops(cfg, s, op, env, id);
    } else if MayBump(op) {
      AnonymousBumpDrops(cfg, s, op, env, id);
    } else {
      QuietKeepsVersions(cfg, s, op, env, id);
    }
  }

  // ----- An authentication is a read and a write -----

  function ReadAndCached(fine: CacheStaleness.State, setOk: bool): CacheStaleness.State {
    CacheStaleness.Do(
      CacheStaleness.Do(fine, CacheStaleness.ReadRow),
      CacheStaleness.WriteCache(CacheStaleness.Reader(fine.version, fine.now), setOk))
  }

  /** A genuine token is let in by the cached path exactly when the finer model accepts its version from the
      cache; and an authentication that goes to the database and succeeds is, undisturbed, a read of the row
      and a write of the entry. */
  lemma AuthenticationIsReadWrite(fine: CacheStaleness.State, s: State, token: AccessToken, env: Env)
    requires Shows(fine, s, token.sub) && Genuine(s, Some(token))
    ensures var cached := CacheGet(s.cache, s.now, TokenVersion(token.sub), env.getOk);
            var r := GetCurrentUser(s, Some(token), env);
            if cached.Some?
            then r.state == s && (!r.outcome.Failed? <==> CacheStaleness.AcceptedFromCache(fine, token.version))
            else Shows(if r.outcome.Failed? then fine else ReadAndCached(fine, env.setOk), r.state, token.sub)
  {
  }
}
