/** How long a revocation lasts when requests overlap (src/auth/service.py, src/users/services/).

    One user's session row, and the refreshes, logins and revoking requests that have loaded it and not
    committed yet.  None of them takes a row lock, so any number of them interleave. */
module RevocationRaces {
  import opened Prelude
  import opened Accounts
  import opened Operations
  import opened Invariants
  import opened OverlappingRefresh

  datatype Machine = Machine(
    now: Time,
    draws: nat,
    row: Session,
    refreshes: multiset<Session>, // rows loaded by refreshes whose pair was accepted
    logins: multiset<Session>,    // by logins that have passed their checks
    revokers: multiset<Session>)  // by requests that are going to revoke

  datatype Action =
    | Elapse(seconds: nat, draws: nat) // time passes, and others draw random values
    | OpenRefresh
    | CommitRefresh(loaded: Session)
    | OpenLogin
    | CommitLogin(loaded: Session)
    | OpenRevoke
    | CommitRevoke(loaded: Session)

  // Some refresh pair would be accepted now.
  predicate Live(now: Time, session: Session) {
    session.refreshHash.Some? && session.refreshFamily.Some? && session.refreshExpires.Some?
    && now <= session.refreshExpires.value
    && session.refreshHash.value.of.Jwt? && now < session.refreshHash.value.of.token.expires
  }

  /** In a reachable state of the account machine that is what the word says. */
  lemma LiveMeansAcceptable(s: State, id: UserId)
    requires Inv(s) && id in s.accounts
    ensures Live(s.now, s.accounts[id].session)
       <==> exists token: RefreshToken, family: nat :: token.sub == id && Acceptable(s, token, family)
  {
    assert StoredRefreshInv(s, id);
    var session := s.accounts[id].session;
    if Live(s.now, session) {
      assert Acceptable(s, session.refreshHash.value.of.token, session.refreshFamily.value);
    }
  }

  predicate Enabled(m: Machine, a: Action) {
    match a
    case OpenRefresh => Live(m.now, m.row)
    case CommitRefresh(loaded) => loaded in m.refreshes
    case CommitLogin(loaded) => loaded in m.logins
    case CommitRevoke(loaded) => loaded in m.revokers
    case _ => true
  }

  function Do(cfg: Settings, id: UserId, m: Machine, a: Action): Machine {
    match a
    case Elapse(seconds, draws) => m.(now := m.now + seconds, draws := m.draws + draws)
    case OpenRefresh => m.(refreshes := m.refreshes + multiset{m.row})
    case CommitRefresh(loaded) =>
      m.(row := FlushedSession(m.row, loaded, Rotated(cfg, id, m.now, m.draws, loaded)), draws := m.draws + 2,
         refreshes := m.refreshes - multiset{loaded})
    case OpenLogin => m.(logins := m.logins + multiset{m.row})
    case CommitLogin(loaded) =>
      m.(row := FlushedSession(m.row, loaded, Rotated(cfg, id, m.now, m.draws, loaded)), draws := m.draws + 2,
         logins := m.logins - multiset{loaded})
    case OpenRevoke => m.(revokers := m.revokers + multiset{m.row})
    case CommitRevoke(loaded) =>
      m.(row := FlushedSession(m.row, loaded, loaded.Revoked()), revokers := m.revokers - multiset{loaded})
  }

  predicate Runs(cfg: Settings, id: UserId, m: Machine, actions: seq<Action>)
    decreases |actions|
  {
    actions == [] || (Enabled(m, actions[0]) && Runs(cfg, id, Do(cfg, id, m, actions[0]), actions[1..]))
  }

  function After(cfg: Settings, id: UserId, m: Machine, actions: seq<Action>): Machine
    decreases |actions|
  {
    if actions == [] then m else After(cfg, id, Do(cfg, id, m, actions[0]), actions[1..])
  }

  lemma UndisturbedFlush(row: Session, changed: Session)
    ensures FlushedSession(row, row, changed) == changed
  {
  }

  /** Undisturbed, the loads and commits do to the session what the serial requests do. */
  lemma UndisturbedRevoke(cfg: Settings, id: UserId, m: Machine)
    ensures Do(cfg, id, Do(cfg, id, m, OpenRevoke), CommitRevoke(m.row)) == m.(row := m.row.Revoked())
  {
    assert m.revokers + multiset{m.row} - multiset{m.row} == m.revokers;
    UndisturbedFlush(m.row, m.row.Revoked());
  }

  lemma UndisturbedLogin(cfg: Settings, id: UserId, m: Machine)
    ensures Do(cfg, id, Do(cfg, id, m, OpenLogin), CommitLogin(m.row))
         == m.(row := Rotated(cfg, id, m.now, m.draws, m.row), draws := m.draws + 2)
  {
    assert m.logins + multiset{m.row} - multiset{m.row} == m.logins;
    UndisturbedFlush(m.row, Rotated(cfg, id, m.now, m.draws, m.row));
  }

  lemma UndisturbedRefresh(cfg: Settings, id: UserId, m: Machine)
    ensures Do(cfg, id, Do(cfg, id, m, OpenRefresh), CommitRefresh(m.row))
         == m.(row := Rotated(cfg, id, m.now, m.draws, m.row), draws := m.draws + 2)
  {
    assert m.refreshes + multiset{m.row} - multiset{m.row} == m.refreshes;
    UndisturbedFlush(m.row, Rotated(cfg, id, m.now, m.draws, m.row));
  }

  // ----- What was stored has been drawn -----

  predicate WellFormed(m: Machine) {
    Drawn(m.draws, m.row) && forall loaded | loaded in m.refreshes :: Drawn(m.draws, loaded)
  }

  // Nothing has been loaded yet.
  predicate Init(m: Machine) {
    Drawn(m.draws, m.row)
    && m.refreshes == multiset{} && m.logins == multiset{} && m.revokers == multiset{}
  }

  lemma FlushKeepsDrawn(draws: nat, row: Session, loaded: Session, changed: Session)
    requires Drawn(draws, row) && Drawn(draws, changed)
    ensures Drawn(draws, FlushedSession(row, loaded, changed))
  {
  }

  lemma DoKeepsWellFormed(cfg: Settings, id: UserId, m: Machine, a: Action)
    requires WellFormed(m) && Enabled(m, a)
    ensures WellFormed(Do(cfg, id, m, a))
  {
    var m' := Do(cfg, id, m, a);
    if a.CommitRefresh? || a.CommitLogin? {
      FlushKeepsDrawn(m'.draws, m.row, a.loaded, Rotated(cfg, id, m.now, m.draws, a.loaded));
    } else if a.CommitRevoke? {
      FlushKeepsDrawn(m'.draws, m.row, a.loaded, a.loaded.Revoked());
    }
    forall loaded | loaded in m'.refreshes ensures Drawn(m'.draws, loaded) {
      assert loaded in m.refreshes || loaded == m.row;
    }
  }

  lemma {:induction false} RunKeepsWellFormed(cfg: Settings, id: UserId, m: Machine, actions: seq<Action>)
    requires WellFormed(m) && Runs(cfg, id, m, actions)
    ensures WellFormed(After(cfg, id, m, actions))
    decreases |actions|
  {
    if actions == [] {
    } else {
      DoKeepsWellFormed(cfg, id, m, actions[0]);
      RunKeepsWellFormed(cfg, id, Do(cfg, id, m, actions[0]), actions[1..]);
    }
  }

  // ----- When a revocation lasts -----

  predicate NobodyLogsIn(actions: seq<Action>) {
    forall i | 0 <= i < |actions| :: !actions[i].CommitLogin?
  }

  // Until the next login, and however the open requests go on, no refresh pair is accepted.
  ghost predicate Lasts(cfg: Settings, id: UserId, m: Machine) {
    forall actions | Runs(cfg, id, m, actions) && NobodyLogsIn(actions) ::
      var m' := After(cfg, id, m, actions); !Live(m'.now, m'.row)
  }

  predicate Dead(m: Machine) {
    m.refreshes == multiset{} && !Live(m.now, m.row)
  }

  lemma DoKeepsDead(cfg: Settings, id: UserId, m: Machine, a: Action)
    requires Dead(m) && Enabled(m, a) && !a.CommitLogin?
    ensures Dead(Do(cfg, id, m, a))
  {
  }

  lemma {:induction false} DeadStaysDead(cfg: Settings, id: UserId, m: Machine, actions: seq<Action>)
    requires Dead(m) && Runs(cfg, id, m, actions) && NobodyLogsIn(actions)
    ensures Dead(After(cfg, id, m, actions))
    decreases |actions|
  {
    if actions == [] {
    } else {
      DoKeepsDead(cfg, id, m, actions[0]);
      DeadStaysDead(cfg, id, Do(cfg, id, m, actions[0]), actions[1..]);
    }
  }

  // A refresh that is still open commits, a second later if its new expiry would be the loaded one.
  function Reviving(cfg: Settings, m: Machine, loaded: Session): seq<Action> {
    [Elapse(if loaded.refreshExpires == Some(m.now + cfg.refreshDays * 86400) then 1 else 0, 0), CommitRefresh(loaded)]
  }

  // A late commit of an accepted refresh leaves an acceptable pair.
  lemma LateCommitRevives(cfg: Settings, id: UserId, m: Machine, loaded: Session)
    requires Drawn(m.draws, loaded) && cfg.refreshDays > 0
    requires loaded.refreshExpires != Some(m.now + cfg.refreshDays * 86400)
    ensures var m' := Do(cfg, id, m, CommitRefresh(loaded));
            Live(m'.now, m'.row) && m'.row.version == m.row.version
  {
    RotationIsWritten(cfg, id, m.now, m.draws, m.row, loaded);
  }

  lemma OpenRefreshRevives(cfg: Settings, id: UserId, m: Machine, loaded: Session)
    requires WellFormed(m) && loaded in m.refreshes && cfg.refreshDays > 0
    ensures Runs(cfg, id, m, Reviving(cfg, m, loaded))
    ensures var m' := After(cfg, id, m, Reviving(cfg, m, loaded));
            Live(m'.now, m'.row) && m'.row.version == m.row.version
  {
    var actions := Reviving(cfg, m, loaded);
    var m1 := Do(cfg, id, m, actions[0]);
    var m2 := Do(cfg, id, m1, actions[1]);
    assert actions[1..] == [actions[1]] && actions[1..][1..] == [];
    assert After(cfg, id, m1, actions[1..]) == m2;
    LateCommitRevives(cfg, id, m1, loaded);
  }

  lemma LastsIffDead(cfg: Settings, id: UserId, m: Machine)
    requires WellFormed(m) && cfg.refreshDays > 0
    ensures Lasts(cfg, id, m) <==> Dead(m)
  {
    if Dead(m) {
      forall actions | Runs(cfg, id, m, actions) && NobodyLogsIn(actions)
        ensures var m' := After(cfg, id, m, actions); !Live(m'.now, m'.row)
      {
        DeadStaysDead(cfg, id, m, actions);
      }
    } else if Live(m.now, m.row) {
      assert Runs(cfg, id, m, []) && NobodyLogsIn([]) && After(cfg, id, m, []) == m;
    } else {
      var loaded :| loaded in m.refreshes;
      OpenRefreshRevives(cfg, id, m, loaded);
      assert NobodyLogsIn(Reviving(cfg, m, loaded));
    }
  }

  predicate HasRefreshState(session: Session) {
    session.refreshHash.Some? || session.refreshFamily.Some? || session.refreshExpires.Some?
  }

  /** A revocation lasts until the next login if and only if, when it commits, no accepted refresh is open,
      and there is no acceptable pair that the revoking request has not seen: none at all, or it loaded
      refresh state, whose columns it then clears. */
  lemma RevocationLastsIff(cfg: Settings, id: UserId, m0: Machine, before: seq<Action>, loaded: Session)
    requires Init(m0) && Runs(cfg, id, m0, before) && cfg.refreshDays > 0
    requires Enabled(After(cfg, id, m0, before), CommitRevoke(loaded))
    ensures var m := After(cfg, id, m0, before);
            (Lasts(cfg, id, Do(cfg, id, m, CommitRevoke(loaded)))
             <==> m.refreshes == multiset{} && (!Live(m.now, m.row) || HasRefreshState(loaded)))
  {
    RunKeepsWellFormed(cfg, id, m0, before);
    var m := After(cfg, id, m0, before);
    DoKeepsWellFormed(cfg, id, m, CommitRevoke(loaded));
    LastsIffDead(cfg, id, Do(cfg, id, m, CommitRevoke(loaded)));
  }

  // ----- The two ways it ends early -----

  // One more action at the end of a run that has come to m.
  lemma {:induction false} Then(
    cfg: Settings, id: UserId, m0: Machine, actions: seq<Action>, m: Machine, a: Action) returns (longer: seq<Action>)
    requires Runs(cfg, id, m0, actions) && After(cfg, id, m0, actions) == m && Enabled(m, a)
    ensures longer == actions + [a]
    ensures Runs(cfg, id, m0, longer) && After(cfg, id, m0, longer) == Do(cfg, id, m, a)
    decreases |actions|
  {
    longer := actions + [a];
    if actions == [] {
      assert longer[1..] == [];
    } else {
      assert longer[1..] == actions[1..] + [a];
      var rest := Then(cfg, id, Do(cfg, id, m0, actions[0]), actions[1..], m, a);
    }
  }

  // A refresh loads the row, and a revoking request overtakes it.
  lemma RevokePastRefresh(cfg: Settings, id: UserId, m0: Machine) returns (actions: seq<Action>)
    requires Init(m0) && Live(m0.now, m0.row)
    ensures actions == [OpenRefresh, OpenRevoke, CommitRevoke(m0.row)] && Runs(cfg, id, m0, actions)
    ensures After(cfg, id, m0, actions) == m0.(row := m0.row.Revoked(), refreshes := multiset{m0.row})
  {
    actions := Then(cfg, id, m0, [], m0, OpenRefresh);
    var m1 := Do(cfg, id, m0, OpenRefresh);
    actions := Then(cfg, id, m0, actions, m1, OpenRevoke);
    actions := Then(cfg, id, m0, actions, Do(cfg, id, m1, OpenRevoke), CommitRevoke(m0.row));
    UndisturbedRevoke(cfg, id, m1);
  }

  /** A refresh is open when the revocation commits: it puts a pair back, though nobody logs in. */
  lemma RefreshOutlivesRevocation(cfg: Settings, id: UserId, m0: Machine) returns (actions: seq<Action>)
    requires Init(m0) && Live(m0.now, m0.row) && cfg.refreshDays > 0
    ensures Runs(cfg, id, m0, actions) && NobodyLogsIn(actions)
    ensures |actions| == 5 && actions[2] == CommitRevoke(m0.row)
    ensures var m := After(cfg, id, m0, actions); m.row.version == m0.row.version + 1 && Live(m.now, m.row)
  {
    var loaded := m0.row;
    actions := RevokePastRefresh(cfg, id, m0);
    var m2 := m0.(row := loaded.Revoked(), refreshes := multiset{loaded});
    var wait := Elapse(if loaded.refreshExpires == Some(m2.now + cfg.refreshDays * 86400) then 1 else 0, 0);
    actions := Then(cfg, id, m0, actions, m2, wait);
    var m3 := Do(cfg, id, m2, wait);
    actions := Then(cfg, id, m0, actions, m3, CommitRefresh(loaded));
    LateCommitRevives(cfg, id, m3, loaded);
  }

  /** The revoking request loads a session without refresh state, and a login commits before it does: the
      version moves, and the pair of that login goes on working. */
  lemma LoginOutlivesRevocation(cfg: Settings, id: UserId, m0: Machine) returns (actions: seq<Action>)
    requires Init(m0) && !HasRefreshState(m0.row) && cfg.refreshDays > 0
    ensures Runs(cfg, id, m0, actions) && |actions| == 4 && actions[3] == CommitRevoke(m0.row)
    ensures var m := After(cfg, id, m0, actions); m.row.version == m0.row.version + 1 && Live(m.now, m.row)
  {
    actions := Then(cfg, id, m0, [], m0, OpenRevoke);
    var m1 := Do(cfg, id, m0, OpenRevoke);
    actions := Then(cfg, id, m0, actions, m1, OpenLogin);
    actions := Then(cfg, id, m0, actions, Do(cfg, id, m1, OpenLogin), CommitLogin(m0.row));
    UndisturbedLogin(cfg, id, m1);
    var m2 := m1.(row := Rotated(cfg, id, m1.now, m1.draws, m0.row), draws := m1.draws + 2);
    actions := Then(cfg, id, m0, actions, m2, CommitRevoke(m0.row));
    RevokeMissesLogin(cfg, id, m1.now, m1.draws, m0.row);
  }

  // A revoking request that has loaded no refresh state clears none.
  lemma RevokeMissesLogin(cfg: Settings, id: UserId, now: Time, draws: nat, loaded: Session)
    requires !HasRefreshState(loaded) && cfg.refreshDays > 0
    ensures var session := FlushedSession(Rotated(cfg, id, now, draws, loaded), loaded, loaded.Revoked());
            session == Rotated(cfg, id, now, draws, loaded).(version := loaded.version + 1) && Live(now, session)
  {
  }
}
