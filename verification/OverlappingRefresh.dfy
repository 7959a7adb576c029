/** Why refresh tokens are single-use in serial runs only: refresh_token takes no row lock, so a refresh may
    commit after another one has rotated the pair it loaded (src/auth/service.py). */
module OverlappingRefresh {
  import opened Prelude
  import opened Accounts
  import opened Operations
  import opened Requests
  import opened Invariants

  // A commit writes the columns whose values differ from those the session loaded.
  function FlushedSession(row: Session, loaded: Session, changed: Session): Session {
    Session(
      Flushed(row.version, loaded.version, changed.version),
      Flushed(row.refreshHash, loaded.refreshHash, changed.refreshHash),
      Flushed(row.refreshFamily, loaded.refreshFamily, changed.refreshFamily),
      Flushed(row.refreshExpires, loaded.refreshExpires, changed.refreshExpires),
      Flushed(row.resetHash, loaded.resetHash, changed.resetHash),
      Flushed(row.resetExpires, loaded.resetExpires, changed.resetExpires),
      Flushed(row.pendingEmail, loaded.pendingEmail, changed.pendingEmail),
      Flushed(row.codeHash, loaded.codeHash, changed.codeHash),
      Flushed(row.codeExpires, loaded.codeExpires, changed.codeExpires))
  }

  /** A refresh that decides on the account as it loaded it earlier, and commits to the table of now. */
  function LateRefresh(cfg: Settings, s: State, loaded: Account, token: RefreshToken, family: nat, env: Env): Result
    requires token.sub in s.accounts
  {
    var id := token.sub;
    var row := s.accounts[id];
    var r := Operations.Refresh(cfg, s.Saved(id, loaded), Some(token), family, env);
    var session := FlushedSession(row.session, loaded.session, r.state.accounts[id].session);
    Result(r.state.Saved(id, row.(session := session)), r.outcome)
  }

  /** With nothing in between, that is the refresh of the serial model. */
  lemma UndisturbedIsRefresh(cfg: Settings, s: State, token: RefreshToken, family: nat, env: Env)
    requires token.sub in s.accounts
    ensures LateRefresh(cfg, s, s.accounts[token.sub], token, family, env)
         == Operations.Refresh(cfg, s, Some(token), family, env)
  {
    var id := token.sub;
    assert s.Saved(id, s.accounts[id]) == s;
    var s' := Operations.Refresh(cfg, s, Some(token), family, env).state;
    assert s'.Saved(id, s'.accounts[id]) == s';
  }

  // In a reachable state both halves of an acceptable pair have been drawn already.
  lemma AcceptablePairIsDrawn(s: State, token: RefreshToken, family: nat)
    requires Inv(s) && Acceptable(s, token, family)
    ensures Drawn(s.draws, s.accounts[token.sub].session)
  {
    assert RefreshTokenInv(s, token) && StoredRefreshInv(s, token.sub);
  }

  // The stored token and family are draws of the past.
  predicate Drawn(draws: nat, session: Session) {
    (session.refreshHash.Some? && session.refreshHash.value.of.Jwt? ==> session.refreshHash.value.of.token.jti < draws)
    && (session.refreshFamily.Some? ==> session.refreshFamily.value < draws)
  }

  // The account that a late refresh loaded would accept the pair now.
  predicate AcceptsLate(s: State, loaded: Account, token: RefreshToken, family: nat) {
    token in s.refreshIssued && s.now < token.expires
    && loaded.session.refreshHash == Some(Sha256(Jwt(token))) && loaded.session.refreshFamily == Some(family)
    && loaded.session.refreshExpires.Some? && s.now <= loaded.session.refreshExpires.value
  }

  // A late refresh that is accepted rotates the pair it loaded, and writes the new one over what the row holds.
  lemma LateRefreshRotates(
    cfg: Settings, s: State, loaded: Account, token: RefreshToken, family: nat, env: Env)
    requires token.sub in s.accounts && AcceptsLate(s, loaded, token, family)
    ensures var r := LateRefresh(cfg, s, loaded, token, family, env);
            var row := s.accounts[token.sub];
            var expires := s.now + cfg.refreshDays * 86400;
            var access := AccessToken(token.sub, loaded.role, loaded.session.version, s.now + cfg.accessMinutes * 60);
            var refresh := RefreshToken(token.sub, s.draws + 1, expires);
            r.outcome == LoggedIn(access, refresh, s.draws)
            && r.state.now == s.now && r.state.refreshIssued == s.refreshIssued + {refresh}
            && token.sub in r.state.accounts
            && r.state.accounts[token.sub].session
               == FlushedSession(row.session, loaded.session, Rotated(cfg, token.sub, s.now, s.draws, loaded.session))
  {
  }

  lemma RotationIsWritten(cfg: Settings, id: UserId, now: Time, draws: nat, row: Session, loaded: Session)
    requires Drawn(draws, loaded)
    ensures var session := FlushedSession(row, loaded, Rotated(cfg, id, now, draws, loaded));
            var expires := now + cfg.refreshDays * 86400;
            session.refreshHash == Some(Sha256(Jwt(RefreshToken(id, draws + 1, expires))))
            && session.refreshFamily == Some(draws)
            && session.refreshExpires == Flushed(row.refreshExpires, loaded.refreshExpires, Some(expires))
            && session.version == row.version
  {
  }

  // A late refresh, and the pair it hands out.
  predicate HandsOutAcceptable(s: State, late: Result) {
    late.outcome.LoggedIn? && late.state.now == s.now
    && Acceptable(late.state, late.outcome.refresh, late.outcome.family)
  }

  lemma LateRefreshHandsOut(
    cfg: Settings, s: State, loaded: Account, token: RefreshToken, family: nat, env: Env)
    requires token.sub in s.accounts && AcceptsLate(s, loaded, token, family) && cfg.refreshDays > 0
    requires Drawn(s.draws, loaded.session)
    requires var expires := Some(s.now + cfg.refreshDays * 86400);
             var row := s.accounts[token.sub].session.refreshExpires;
             loaded.session.refreshExpires != expires || (row.Some? && s.now <= row.value)
    ensures var late := LateRefresh(cfg, s, loaded, token, family, env);
            HandsOutAcceptable(s, late) && late.outcome.refresh.sub == token.sub && late.outcome.family == s.draws
            && late.state.accounts[token.sub].session.version == s.accounts[token.sub].session.version
  {
    LateRefreshRotates(cfg, s, loaded, token, family, env);
    RotationIsWritten(cfg, token.sub, s.now, s.draws, s.accounts[token.sub].session, loaded.session);
  }

  lemma AcceptableIsServed(cfg: Settings, s: State, token: RefreshToken, family: nat, env: Env)
    requires Acceptable(s, token, family)
    ensures Operations.Refresh(cfg, s, Some(token), family, env)
         == IssueTokens(cfg, s, token.sub, s.accounts[token.sub])
  {
  }

  // Whoever presents this pair ends the session of its user.
  predicate EndsSession(cfg: Settings, s: State, token: RefreshToken, family: nat, env: Env) {
    Operations.Refresh(cfg, s, Some(token), family, env)
      == Result(InvalidateAllTokens(s, token.sub, env), Failed(InvalidRefreshToken))
  }

  /** Two refreshes of one acceptable pair load the account, and one commits after the other: both succeed,
      so the pair has been used twice.  Only the later pair is acceptable afterwards, and presenting the
      earlier one ends the session. */
  lemma OverlappingRefreshesBothSucceed(
    cfg: Settings, s0: State, events: seq<Event>, s: State, token: RefreshToken, family: nat, env: Env, wait: nat)
    requires Init(s0) && s == Run(cfg, s0, events)
    requires Acceptable(s, token, family) && wait < cfg.refreshDays * 86400 && s.now + wait < token.expires
    requires s.now + wait <= s.accounts[token.sub].session.refreshExpires.value
    ensures var first := Operations.Refresh(cfg, s, Some(token), family, env);
            var later := first.state.(now := s.now + wait);
            var second := LateRefresh(cfg, later, s.accounts[token.sub], token, family, env);
            first.outcome.LoggedIn? && HandsOutAcceptable(later, second)
            && !Acceptable(second.state, first.outcome.refresh, first.outcome.family)
            && EndsSession(cfg, second.state, first.outcome.refresh, first.outcome.family, env)
  {
    RunKeepsInv(cfg, s0, events);
    AcceptablePairIsDrawn(s, token, family);
    AcceptableIsServed(cfg, s, token, family, env);
    var first := IssueTokens(cfg, s, token.sub, s.accounts[token.sub]);
    SecondSucceeds(cfg, s, first, token, family, env, wait);
  }

  lemma SecondSucceeds(
    cfg: Settings, s: State, first: Result, token: RefreshToken, family: nat, env: Env, wait: nat)
    requires Acceptable(s, token, family) && Drawn(s.draws, s.accounts[token.sub].session)
    requires first == IssueTokens(cfg, s, token.sub, s.accounts[token.sub])
    requires wait < cfg.refreshDays * 86400 && s.now + wait < token.expires
    requires s.now + wait <= s.accounts[token.sub].session.refreshExpires.value
    ensures var later := first.state.(now := s.now + wait);
            var second := LateRefresh(cfg, later, s.accounts[token.sub], token, family, env);
            HandsOutAcceptable(later, second)
            && !Acceptable(second.state, first.outcome.refresh, first.outcome.family)
            && EndsSession(cfg, second.state, first.outcome.refresh, first.outcome.family, env)
  {
    var later := first.state.(now := s.now + wait);
    var loaded := s.accounts[token.sub];
    LateRefreshRotates(cfg, later, loaded, token, family, env);
    RotationIsWritten(cfg, token.sub, later.now, later.draws, later.accounts[token.sub].session, loaded.session);
  }

  // The next refresh with the pair handed out issues an access token at this version.
  predicate GoesOnAt(cfg: Settings, late: Result, version: nat, env: Env) {
    late.outcome.LoggedIn?
    && var next := Operations.Refresh(cfg, late.state, Some(late.outcome.refresh), late.outcome.family, env).outcome;
       next.LoggedIn? && next.access.version == version
  }

  /** A refresh that loads the account before a logout and commits after it puts an acceptable pair back,
      and the next refresh with that pair issues an access token at the version the logout moved to. */
  lemma RefreshOvertakesLogout(
    cfg: Settings, s0: State, events: seq<Event>, s: State, token: RefreshToken, family: nat, env: Env, wait: nat)
    requires Init(s0) && s == Run(cfg, s0, events)
    requires Acceptable(s, token, family) && cfg.refreshDays > 0 && s.now + wait < token.expires
    requires var expires := s.accounts[token.sub].session.refreshExpires.value;
             s.now + wait <= expires && s.now + wait + cfg.refreshDays * 86400 != expires
    ensures var out := Operations.Logout(s, token.sub, env).state.(now := s.now + wait);
            var late := LateRefresh(cfg, out, s.accounts[token.sub], token, family, env);
            HandsOutAcceptable(out, late)
            && GoesOnAt(cfg, late, s.accounts[token.sub].session.version + 1, env)
  {
    RunKeepsInv(cfg, s0, events);
    AcceptablePairIsDrawn(s, token, family);
    var out := Operations.Logout(s, token.sub, env).state.(now := s.now + wait);
    var late := LateRefresh(cfg, out, s.accounts[token.sub], token, family, env);
    LateRefreshHandsOut(cfg, out, s.accounts[token.sub], token, family, env);
    AcceptableIsServed(cfg, late.state, late.outcome.refresh, late.outcome.family, env);
  }
}
