/** Exactly when the requests of administrators and of signed-in users succeed, what they then change, and
    what follows from it (src/users/services/system_admin.py, src/users/services/shared.py). */
module AdminTheorems {
  import opened Prelude
  import opened Accounts
  import opened Operations
  import opened Requests
  import opened Invariants
  import opened SessionTheorems
  import opened AccessTheorems

  // An administrator sees everyone but system administrators.
  predicate Manageable(s: State, id: UserId) {
    id in s.accounts
    && (s.accounts[id].role == Director || s.accounts[id].role == Teacher || s.accounts[id].role == Student)
  }

  // Nobody else has the username.
  predicate UsernameIsFree(s: State, self: Option<UserId>, username: Option<string>) {
    forall id | id in s.accounts && self != Some(id) :: s.accounts[id].profile.username != username
  }

  // Every column that must not be null has a value.
  predicate HasRequiredColumns(profile: Profile) {
    profile.username.Some? && profile.firstname.Some? && profile.lastname.Some?
    && profile.phoneNumber.Some? && profile.email.Some?
  }

  // ----- Registration -----

  // What is stored for a registration: a student's personal columns as asked, a teacher's without the last two.
  predicate RegisteredAs(a: Account, student: bool, requested: Profile) {
    a.role == (if student then Student else Teacher)
    && a.status == PendingActivation && !a.isActive && a.passwordHash.None?
    && a.profile.username == requested.username && a.profile.firstname == requested.firstname
    && a.profile.lastname == requested.lastname && a.profile.middlename == requested.middlename
    && a.profile.phoneNumber == requested.phoneNumber && a.profile.email == requested.email
    && a.profile.dateOfBirth == (if student then requested.dateOfBirth else None)
    && a.profile.address == (if student then requested.address else None)
    && a.session.version == 1 && a.session.refreshHash.None? && a.session.resetHash.None?
    && a.session.pendingEmail.None? && a.lockout.failed == 0 && a.lockout.lockedUntil.None?
  }

  /** A registration succeeds if and only if the limit check and the constraints let it; it then adds exactly
      one account, as asked, and one invite to its address, and otherwise it changes no table. */
  lemma RegistrationIff(cfg: Settings, s: State, student: bool, requested: Profile, env: Env)
    requires s.nextId !in s.accounts
    ensures var r := Operations.RegisterUser(cfg, s, student, requested, env);
            if !env.limitReached && HasRequiredColumns(requested) && UsernameIsFree(s, None, requested.username)
               && !env.integrityError
            then r.outcome == Succeeded
                 && s.nextId in r.state.accounts && RegisteredAs(r.state.accounts[s.nextId], student, requested)
                 && r.state.accounts == s.accounts[s.nextId := r.state.accounts[s.nextId]]
                 && r.state.outbox == s.outbox + [Mail(Invite, requested.email, Some(s.draws), s.nextId)]
            else r.outcome == Failed(if env.limitReached then ContactLimitReached else IntegrityError)
                 && r.state == s.(draws := r.state.draws)
  {
  }

  lemma OthersAddNobody(cfg: Settings, s: State, op: Op, env: Env)
    requires !NeedsUser(op) && !op.RegisterUser?
    ensures Anonymous(cfg, s, op, env).state.nextId == s.nextId
  {
  }

  lemma UsersAddNobody(cfg: Settings, s: State, id: UserId, role: Role, op: Op, env: Env)
    requires NeedsUser(op)
    ensures AsUser(cfg, s, id, role, op, env).state.nextId == s.nextId
  {
  }

  lemma OnlyRegistrationAdds(cfg: Settings, s: State, op: Op, env: Env)
    requires Inv(s)
    ensures var s' := Step(cfg, s, op, env).state;
            s'.accounts.Keys == s.accounts.Keys
            || (op.RegisterUser? && s'.accounts.Keys == s.accounts.Keys + {s.nextId}
                && s.nextId !in s.accounts && RegisteredAs(s'.accounts[s.nextId], op.student, op.profile))
  {
    if op.RegisterUser? {
      RegistrationIff(cfg, s, op.student, op.profile, env);
    } else {
      StepMoves(cfg, s, op, env);
      if NeedsUser(op) {
        var auth := GetCurrentUser(s, op.token, env);
        if !auth.outcome.Failed? {
          UsersAddNobody(cfg, auth.state, auth.outcome.id, auth.outcome.role, op, env);
        }
      } else {
        OthersAddNobody(cfg, s, op, env);
      }
      NobodyIsAdded(s, Step(cfg, s, op, env).state);
    }
  }

  lemma NobodyIsAdded(s: State, s': State)
    requires Moves(s, s') && s'.nextId == s.nextId
    ensures s'.accounts.Keys == s.accounts.Keys
  {
    if !SameTables(s, s') {
      var id: UserId :| ChangesOne(s, s', id);
    }
  }

  // This step of a run registered the account.
  ghost predicate IsRegisteredBy(cfg: Settings, s: State, event: Event, id: UserId) {
    event.op.RegisterUser? && id !in s.accounts
    && var s' := Step(cfg, s, event.op, event.env).state;
       id in s'.accounts && RegisteredAs(s'.accounts[id], event.op.student, event.op.profile)
  }

  /** Every account that a run finds beside the initial ones was added by one registration in it, in the role
      and with the columns that registration asked for, and is in that role still. */
  lemma {:induction false} AccountsAreRegistered(cfg: Settings, s: State, events: seq<Event>, id: UserId)
    returns (n: nat)
    requires Inv(s) && id !in s.accounts && id in Run(cfg, s, events).accounts
    ensures n < |events| && IsRegisteredBy(cfg, Run(cfg, s, events[..n]), events[n], id)
    ensures Run(cfg, s, events).accounts[id].role == if events[n].op.student then Student else Teacher
    decreases |events|
  {
    var s1 := Step(cfg, s, events[0].op, events[0].env).state;
    StepKeepsInv(cfg, s, events[0].op, events[0].env);
    OnlyRegistrationAdds(cfg, s, events[0].op, events[0].env);
    if id in s1.accounts {
      n := 0;
      RunEvolves(cfg, s1, events[1..]);
      assert AccountEvolves(s1.accounts[id], Run(cfg, s1, events[1..]).accounts[id]);
    } else {
      var m := AccountsAreRegistered(cfg, s1, events[1..], id);
      n := m + 1;
      assert events[..n][1..] == events[1..][..m];
    }
  }

  /** No run makes a director or a system administrator. */
  lemma NobodyIsPromoted(cfg: Settings, s0: State, events: seq<Event>, id: UserId)
    requires Init(s0) && id in Run(cfg, s0, events).accounts
    ensures var role := Run(cfg, s0, events).accounts[id].role;
            if id in s0.accounts then role == s0.accounts[id].role else role == Student || role == Teacher
  {
    if id in s0.accounts {
      RunEvolves(cfg, s0, events);
      assert AccountEvolves(s0.accounts[id], Run(cfg, s0, events).accounts[id]);
    } else {
      var n := AccountsAreRegistered(cfg, s0, events, id);
    }
  }

  // ----- Invites -----

  // The last mail queued is an invite to the address of this account with this token.
  predicate InvitesLast(s: State, id: UserId, token: nat) {
    id in s.accounts && |s.outbox| > 0
    && s.outbox[|s.outbox| - 1] == Mail(Invite, s.accounts[id].profile.email, Some(token), id)
  }

  // The account's invite is the token and lasts for this many hours from now.
  predicate Invites(s: State, id: UserId, token: nat, hours: nat) {
    InvitesLast(s, id, token)
    && s.accounts[id].activation == Activation(Some(Sha256(Raw(token))), Some(s.now + hours * 60 * 60))
  }

  lemma RegistrationInvites(cfg: Settings, s: State, student: bool, requested: Profile, env: Env)
    requires Operations.RegisterUser(cfg, s, student, requested, env).outcome == Succeeded
    ensures Invites(Operations.RegisterUser(cfg, s, student, requested, env).state, s.nextId, s.draws, cfg.inviteHours)
  {
  }

  /** An invite is resent if and only if the account is manageable and pending; nothing else of it changes. */
  lemma ResendIff(cfg: Settings, s: State, id: UserId)
    ensures var r := Operations.ResendActivationInvite(cfg, s, id);
            if Manageable(s, id) && s.accounts[id].status == PendingActivation
            then r.outcome == Succeeded && Invites(r.state, id, s.draws, cfg.inviteHours)
                 && r.state.accounts == s.accounts[id := s.accounts[id].(activation := r.state.accounts[id].activation)]
            else r == Result(s, Failed(if Manageable(s, id) then UserNotPendingActivation else UserNotFound))
  {
  }

  /** An invited account is activated by exactly the token that was queued for it, for exactly its hours. */
  lemma InviteWorksIff(
    cfg: Settings, s: State, id: UserId, name: string, token: nat, hours: nat, wait: nat, presented: nat,
    password: string)
    requires Inv(s) && Invites(s, id, token, hours) && HasUsername(s.accounts, id, Some(name))
    ensures Operations.ActivateAccount(s.(now := s.now + wait), name, presented, password).outcome == Succeeded
       <==> presented == token && wait <= hours * 60 * 60
  {
    var later := s.(now := s.now + wait);
    SameTablesKeepsInv(s, later);
    ActivationInState(later, id, name, presented, password);
  }

  /** From registration to login: the queued token activates the account with a password, and then exactly that
      password logs in. */
  lemma RegisteredUserLogsIn(
    cfg: Settings, s0: State, events: seq<Event>, s: State, student: bool, requested: Profile, env: Env, wait: nat,
    password: string, attempt: string)
    requires Init(s0) && s == Run(cfg, s0, events) && wait <= cfg.inviteHours * 60 * 60
    requires Operations.RegisterUser(cfg, s, student, requested, env).outcome == Succeeded
    ensures RegisteredLogsIn(cfg, s, student, requested, env, wait, password, attempt)
  {
    RunKeepsInv(cfg, s0, events);
    RegisteredLogsInFrom(cfg, s, student, requested, env, wait, password, attempt);
  }

  ghost predicate RegisteredLogsIn(
    cfg: Settings, s: State, student: bool, requested: Profile, env: Env, wait: nat, password: string, attempt: string)
  {
    requested.username.Some?
    && var later := Operations.RegisterUser(cfg, s, student, requested, env).state.(now := s.now + wait);
       ActivatesAndLogsIn(cfg, later, requested.username.value, s.draws, password, attempt)
  }

  lemma RegisteredLogsInFrom(
    cfg: Settings, s: State, student: bool, requested: Profile, env: Env, wait: nat, password: string, attempt: string)
    requires Inv(s) && wait <= cfg.inviteHours * 60 * 60
    requires Operations.RegisterUser(cfg, s, student, requested, env).outcome == Succeeded
    ensures RegisteredLogsIn(cfg, s, student, requested, env, wait, password, attempt)
  {
    RegisteredIsInvited(cfg, s, student, requested, env);
    InvitedLogsIn(cfg, Operations.RegisterUser(cfg, s, student, requested, env).state, s.nextId,
                  requested.username.value, s.draws, cfg.inviteHours, wait, password, attempt);
  }

  lemma RegisteredIsInvited(cfg: Settings, s: State, student: bool, requested: Profile, env: Env)
    requires Inv(s) && Operations.RegisterUser(cfg, s, student, requested, env).outcome == Succeeded
    ensures var s' := Operations.RegisterUser(cfg, s, student, requested, env).state;
            Inv(s') && s'.now == s.now && Invites(s', s.nextId, s.draws, cfg.inviteHours)
            && requested.username.Some? && HasUsername(s'.accounts, s.nextId, requested.username)
            && s'.accounts[s.nextId].lockout.lockedUntil.None?
  {
    RegistrationIff(cfg, s, student, requested, env);
    RegistrationMoves(cfg, s, student, requested, env);
    RegistrationInvites(cfg, s, student, requested, env);
    MovesKeepsInv(s, Operations.RegisterUser(cfg, s, student, requested, env).state);
  }

  ghost predicate ActivatesAndLogsIn(
    cfg: Settings, s: State, name: string, invite: nat, password: string, attempt: string)
  {
    var r := Operations.ActivateAccount(s, name, invite, password);
    r.outcome == Succeeded
    && (Operations.Login(cfg, r.state, Some(name), Some(attempt)).outcome.LoggedIn? <==> attempt == password)
  }

  lemma InvitedLogsIn(
    cfg: Settings, s: State, id: UserId, name: string, token: nat, hours: nat, wait: nat, password: string,
    attempt: string)
    requires Inv(s) && Invites(s, id, token, hours) && HasUsername(s.accounts, id, Some(name))
    requires wait <= hours * 60 * 60 && s.accounts[id].lockout.lockedUntil.None?
    ensures ActivatesAndLogsIn(cfg, s.(now := s.now + wait), name, token, password, attempt)
  {
    var later := s.(now := s.now + wait);
    SameTablesKeepsInv(s, later);
    ActivationInState(later, id, name, token, password);
    ActivationMoves(later, name, token, password);
    var s' := Operations.ActivateAccount(later, name, token, password).state;
    MovesKeepsInv(later, s');
    LoginInState(cfg, s', id, name, attempt);
  }

  // ----- Administrative changes -----

  // The requested columns hold what was requested, and the others what they held.
  ghost predicate ColumnsFollow(profile: Profile, profile': Profile, request: Changes) {
    forall field: Field :: profile'.Get(field) == if field in request then request[field] else profile.Get(field)
  }

  // Some requested column is to change.
  predicate AsksForChange(profile: Profile, request: Changes) {
    exists field | field in request :: request[field] != profile.Get(field)
  }

  // No required column is set to null.
  predicate KeepsRequired(request: Changes) {
    forall field | field in request && field in {Username, Firstname, Lastname, PhoneNumber, Email} ::
      request[field].Some?
  }

  // A value is given for the column, and it is a new one.
  predicate GivesNew(profile: Profile, request: Changes, field: Field) {
    field in request && request[field].Some? && request[field] != profile.Get(field)
  }

  lemma MergedFollows(profile: Profile, request: Changes)
    ensures ColumnsFollow(profile, profile.Merged(request), request)
  {
  }

  lemma MergedDiffersIff(profile: Profile, request: Changes)
    ensures profile.Merged(request) != profile <==> AsksForChange(profile, request)
  {
    MergedFollows(profile, request);
    if !AsksForChange(profile, request) {
      ProfilesAgree(profile.Merged(request), profile);
    }
  }

  lemma RequiredAre(profile: Profile)
    ensures profile.NotNull() <==>
              forall field | field in {Username, Firstname, Lastname, PhoneNumber, Email} :: profile.Get(field).Some?
  {
    assert profile.NotNull() <==> profile.Get(Username).Some? && profile.Get(Firstname).Some?
                                  && profile.Get(Lastname).Some? && profile.Get(PhoneNumber).Some?
                                  && profile.Get(Email).Some?;
  }

  lemma MergedKeepsRequiredIff(profile: Profile, request: Changes)
    requires profile.NotNull()
    ensures profile.Merged(request).NotNull() <==> KeepsRequired(request)
  {
    MergedFollows(profile, request);
    RequiredAre(profile);
    RequiredAre(profile.Merged(request));
  }

  // The columns an administrator may change of a student, or of anybody else.
  function EditableColumns(studentShaped: bool): set<Field> {
    if studentShaped then {Firstname, Lastname, Middlename, PhoneNumber, DateOfBirth, Address}
    else {Firstname, Lastname, Middlename, PhoneNumber}
  }

  /** Payloads with any other column are turned away before anything is read, and only those. */
  lemma OtherColumnsAreUnprocessable(
    cfg: Settings, s: State, target: UserId, studentShaped: bool, request: Changes, env: Env)
    ensures Step(cfg, s, Requests.UpdateUser(target, studentShaped, request), env)
         == if request.Keys <= EditableColumns(studentShaped)
            then Operations.UpdateUser(s, target, studentShaped, request, env) else Result(s, Failed(Unprocessable))
    ensures Step(cfg, s, Requests.UpdateUserCredentials(target, request), env)
         == if request.Keys <= {Username, Email}
            then Operations.UpdateUserCredentials(cfg, s, target, request, env) else Result(s, Failed(Unprocessable))
  {
  }

  // What a refused update is told: the first of these that applies.
  function UpdateRefusal(s: State, target: UserId, studentShaped: bool, request: Changes, env: Env): Error {
    if !Manageable(s, target) then UserNotFound else
    var a := s.accounts[target];
    if (a.role == Student) != studentShaped then UserTypeMismatch
    else if studentShaped && GivesNew(a.profile, request, PhoneNumber) && env.limitReached then ContactLimitReached
    else if !AsksForChange(a.profile, request) then NoChangesDetected
    else IntegrityError
  }

  // Whether an update goes through, in terms of the merged profile.
  lemma UpdateDecides(s: State, target: UserId, studentShaped: bool, request: Changes, env: Env)
    requires VisibleToAdmin(s, target)
    ensures var r := Operations.UpdateUser(s, target, studentShaped, request, env);
            var a, profile := s.accounts[target], s.accounts[target].profile.Merged(request);
            if (a.role == Student) == studentShaped
               && !(studentShaped && GivesNew(a.profile, request, PhoneNumber) && env.limitReached)
               && profile != a.profile && !CommitFails(s.accounts, Some(target), profile, env)
            then r.outcome == Succeeded
                 && r.state == s.(accounts := s.accounts[target := a.(profile := profile)], cache := r.state.cache)
            else r.outcome == Failed(if (a.role == Student) != studentShaped then UserTypeMismatch
                                     else if studentShaped && GivesNew(a.profile, request, PhoneNumber)
                                             && env.limitReached then ContactLimitReached
                                     else if profile == a.profile then NoChangesDetected
                                     else IntegrityError)
                 && r.state == s
  {
  }

  /** An administrator's update succeeds if and only if the account is manageable and of the kind of the
      payload, something is to change, and the limit check and the constraints let it; it then changes the
      requested columns and no others, and any other attempt changes nothing. */
  lemma UserUpdateIff(s: State, target: UserId, studentShaped: bool, request: Changes, env: Env)
    requires Inv(s) && request.Keys <= EditableColumns(studentShaped)
    ensures var r := Operations.UpdateUser(s, target, studentShaped, request, env);
            if Manageable(s, target) && (s.accounts[target].role == Student) == studentShaped
               && AsksForChange(s.accounts[target].profile, request) && KeepsRequired(request) && !env.integrityError
               && !(studentShaped && GivesNew(s.accounts[target].profile, request, PhoneNumber) && env.limitReached)
            then r.outcome == Succeeded && target in r.state.accounts
                 && ColumnsFollow(s.accounts[target].profile, r.state.accounts[target].profile, request)
                 && r.state.accounts
                    == s.accounts[target := s.accounts[target].(profile := r.state.accounts[target].profile)]
                 && r.state == s.(accounts := r.state.accounts, cache := r.state.cache)
            else r == Result(s, Failed(UpdateRefusal(s, target, studentShaped, request, env)))
  {
    if VisibleToAdmin(s, target) {
      var profile := s.accounts[target].profile;
      UpdateDecides(s, target, studentShaped, request, env);
      UpdateCommitFailsIff(s, target, studentShaped, request, env);
      MergedFollows(profile, request);
      MergedDiffersIff(profile, request);
    }
  }

  lemma UpdateCommitFailsIff(s: State, target: UserId, studentShaped: bool, request: Changes, env: Env)
    requires Inv(s) && target in s.accounts && request.Keys <= EditableColumns(studentShaped)
    ensures CommitFails(s.accounts, Some(target), s.accounts[target].profile.Merged(request), env)
       <==> !KeepsRequired(request) || env.integrityError
  {
    assert AccountInv(s.accounts[target]);
    MergedKeepsRequiredIff(s.accounts[target].profile, request);
    OwnUsernameIsFree(s, target);
  }

  // The session with the version moved on, the refresh state gone and no address change pending.
  predicate SessionEnded(session: Session, session': Session) {
    session'.version == session.version + 1
    && session'.refreshHash.None? && session'.refreshFamily.None? && session'.refreshExpires.None?
    && session'.pendingEmail.None? && session'.codeHash.None? && session'.codeExpires.None?
    && session'.resetHash == session.resetHash && session'.resetExpires == session.resetExpires
  }

  predicate UsernameStaysFree(s: State, id: UserId, request: Changes) {
    Username in request ==> UsernameIsFree(s, Some(id), request[Username])
  }

  // What an override has queued: a new invite for a pending account whose address changes, else a notice to
  // the address it had.
  predicate OverrideMails(cfg: Settings, s: State, s': State, id: UserId, request: Changes)
    requires id in s.accounts && id in s'.accounts
  {
    var a, a' := s.accounts[id], s'.accounts[id];
    if a.status == PendingActivation && GivesNew(a.profile, request, Email)
    then s'.outbox == s.outbox + [Mail(Invite, request[Email], Some(s.draws), id)]
         && Invites(s', id, s.draws, cfg.inviteHours)
    else s'.outbox == s.outbox + [Mail(AdminCredentialsOverride, a.profile.email, None, id)]
         && a'.activation == a.activation
  }

  // Nothing but profile, session and activation differs.
  predicate OnlyOverridden(a: Account, a': Account) {
    a' == a.(profile := a'.profile, session := a'.session, activation := a'.activation)
  }

  predicate OverrideGoesThrough(s: State, target: UserId, request: Changes, env: Env) {
    Manageable(s, target)
    && AsksForChange(s.accounts[target].profile, request) && KeepsRequired(request)
    && UsernameStaysFree(s, target, request) && !env.integrityError
    && !(s.accounts[target].role == Student && GivesNew(s.accounts[target].profile, request, Email) && env.limitReached)
  }

  // What a refused override is told: the first of these that applies.
  function OverrideRefusal(s: State, target: UserId, request: Changes, env: Env): Error {
    if !Manageable(s, target) then UserNotFound else
    var a := s.accounts[target];
    if a.role == Student && GivesNew(a.profile, request, Email) && env.limitReached then ContactLimitReached
    else if !AsksForChange(a.profile, request) then NoChangesDetected
    else IntegrityError
  }

  predicate OverrideDone(cfg: Settings, s: State, s': State, target: UserId, request: Changes)
    requires target in s.accounts
  {
    target in s'.accounts && s'.accounts == s.accounts[target := s'.accounts[target]]
    && OnlyOverridden(s.accounts[target], s'.accounts[target])
    && SessionEnded(s.accounts[target].session, s'.accounts[target].session)
    && OverrideMails(cfg, s, s', target, request)
  }

  // Whether an override goes through, in terms of the merged profile.
  lemma OverrideDecides(cfg: Settings, s: State, target: UserId, request: Changes, env: Env)
    requires VisibleToAdmin(s, target)
    ensures var r := Operations.UpdateUserCredentials(cfg, s, target, request, env);
            var a, profile := s.accounts[target], s.accounts[target].profile.Merged(request);
            (r.outcome == Succeeded
             <==> !(a.role == Student && GivesNew(a.profile, request, Email) && env.limitReached)
                  && profile != a.profile && !CommitFails(s.accounts, Some(target), profile, env))
            && (r.outcome == Succeeded ==>
                  OverrideDone(cfg, s, r.state, target, request) && r.state.accounts[target].profile == profile)
            && (r.outcome != Succeeded ==>
                  r.outcome == Failed(if a.role == Student && GivesNew(a.profile, request, Email) && env.limitReached
                                      then ContactLimitReached
                                      else if profile == a.profile then NoChangesDetected
                                      else IntegrityError)
                  && r.state == s.(draws := r.state.draws))
  {
  }

  lemma CommitFailsIff(s: State, target: UserId, request: Changes, env: Env)
    requires Inv(s) && target in s.accounts && request.Keys <= {Username, Email}
    ensures CommitFails(s.accounts, Some(target), s.accounts[target].profile.Merged(request), env)
       <==> !KeepsRequired(request) || !UsernameStaysFree(s, target, request) || env.integrityError
  {
    assert AccountInv(s.accounts[target]);
    MergedKeepsRequiredIff(s.accounts[target].profile, request);
    OwnUsernameIsFree(s, target);
  }

  /** An override of credentials succeeds if and only if the account is manageable, something is to change,
      and the limit check and the constraints let it; it then changes the requested columns, ends the session
      and queues one mail, and any other attempt changes no table. */
  lemma CredentialUpdateIff(cfg: Settings, s: State, target: UserId, request: Changes, env: Env)
    requires Inv(s) && request.Keys <= {Username, Email}
    ensures var r := Operations.UpdateUserCredentials(cfg, s, target, request, env);
            if OverrideGoesThrough(s, target, request, env)
            then r.outcome == Succeeded && OverrideDone(cfg, s, r.state, target, request)
                 && ColumnsFollow(s.accounts[target].profile, r.state.accounts[target].profile, request)
            else r.outcome == Failed(OverrideRefusal(s, target, request, env)) && r.state == s.(draws := r.state.draws)
  {
    if VisibleToAdmin(s, target) {
      var profile := s.accounts[target].profile;
      OverrideDecides(cfg, s, target, request, env);
      CommitFailsIff(s, target, request, env);
      MergedFollows(profile, request);
      MergedDiffersIff(profile, request);
    }
  }

  // ----- Deactivation and reactivation -----

  // The account switched off, with its sessions ended.
  predicate SwitchedOff(a: Account, a': Account) {
    a' == a.(status := Deactivated, isActive := false,
             session := a.session.(version := a.session.version + 1, refreshHash := None, refreshFamily := None,
                                   refreshExpires := None))
  }

  /** In every reachable state a deactivation succeeds if and only if the account is manageable and active. */
  lemma DeactivationIff(cfg: Settings, s0: State, events: seq<Event>, s: State, target: UserId, env: Env)
    requires Init(s0) && s == Run(cfg, s0, events)
    ensures var r := Operations.DeactivateUser(s, target, env);
            if Manageable(s, target) && s.accounts[target].status == Active
            then r.outcome == Succeeded && target in r.state.accounts
                 && SwitchedOff(s.accounts[target], r.state.accounts[target])
                 && r.state == s.(accounts := s.accounts[target := r.state.accounts[target]], cache := r.state.cache)
            else r == Result(s, Failed(if Manageable(s, target) then UserAlreadyInactive else UserNotFound))
  {
    RunKeepsInv(cfg, s0, events);
    assert target in s.accounts ==> AccountInv(s.accounts[target]);
  }

  // The account switched on, with its failures forgiven.
  predicate SwitchedOn(a: Account, a': Account) {
    a'.lockout.failed == 0 && a'.lockout.lockedUntil.None?
    && a' == a.(status := Active, isActive := true, lockout := a'.lockout)
  }

  /** And an activation by an administrator if and only if the account is manageable and not active. */
  lemma ReactivationIff(cfg: Settings, s0: State, events: seq<Event>, s: State, target: UserId, env: Env)
    requires Init(s0) && s == Run(cfg, s0, events)
    ensures var r := Operations.ActivateUser(s, target, env);
            if Manageable(s, target) && s.accounts[target].status != Active
            then r.outcome == Succeeded && target in r.state.accounts
                 && SwitchedOn(s.accounts[target], r.state.accounts[target])
                 && r.state == s.(accounts := s.accounts[target := r.state.accounts[target]], cache := r.state.cache)
            else r == Result(s, Failed(if Manageable(s, target) then UserAlreadyActive else UserNotFound))
  {
    RunKeepsInv(cfg, s0, events);
    assert target in s.accounts ==> AccountInv(s.accounts[target]);
  }

  /** A deactivated user's right password is answered with AccountInactive, and after an administrator's
      activation exactly that password logs in again. */
  lemma DeactivatedUntilReactivated(
    cfg: Settings, s0: State, events: seq<Event>, s: State, target: UserId, name: string, password: string,
    attempt: string, env: Env, env': Env)
    requires Init(s0) && s == Run(cfg, s0, events) && Manageable(s, target)
    requires HasUsername(s.accounts, target, Some(name)) && LetsIn(s, target, password)
    ensures var off := Operations.DeactivateUser(s, target, env).state;
            var on := Operations.ActivateUser(off, target, env').state;
            Operations.Login(cfg, off, Some(name), Some(password)) == Result(off, Failed(AccountInactive))
            && (Operations.Login(cfg, on, Some(name), Some(attempt)).outcome.LoggedIn? <==> attempt == password)
  {
    RunKeepsInv(cfg, s0, events);
    DeactivationIff(cfg, s0, events, s, target, env);
    DeactivationMoves(s, target, env);
    var off := Operations.DeactivateUser(s, target, env).state;
    MovesKeepsInv(s, off);
    OffThenOn(cfg, off, target, name, password, attempt, env');
  }

  lemma OffThenOn(
    cfg: Settings, s: State, target: UserId, name: string, password: string, attempt: string, env: Env)
    requires Inv(s) && Manageable(s, target) && s.accounts[target].status == Deactivated
    requires HasUsername(s.accounts, target, Some(name)) && s.accounts[target].passwordHash == Some(Bcrypt(password))
    requires s.accounts[target].lockout.lockedUntil.Some? ==> s.accounts[target].lockout.lockedUntil.value <= s.now
    ensures Operations.Login(cfg, s, Some(name), Some(password)) == Result(s, Failed(AccountInactive))
    ensures var on := Operations.ActivateUser(s, target, env).state;
            Operations.Login(cfg, on, Some(name), Some(attempt)).outcome.LoggedIn? <==> attempt == password
  {
    FoundByName(s, target, name);
    SwitchingOn(s, target, env);
    LoginInState(cfg, Operations.ActivateUser(s, target, env).state, target, name, attempt);
  }

  lemma SwitchingOn(s: State, target: UserId, env: Env)
    requires Inv(s) && Manageable(s, target) && s.accounts[target].status == Deactivated
    ensures var on := Operations.ActivateUser(s, target, env).state;
            Inv(on) && target in on.accounts && SwitchedOn(s.accounts[target], on.accounts[target])
  {
    assert AccountInv(s.accounts[target]);
    ReactivationMoves(s, target, env);
    MovesKeepsInv(s, Operations.ActivateUser(s, target, env).state);
  }

  // ----- An administrator's reset request -----

  /** It succeeds if and only if the account is manageable, and then stores the token that it queues for the
      user's address, for exactly its minutes. */
  lemma AdminResetIff(cfg: Settings, s: State, id: UserId)
    ensures var r := Operations.CreateResetPasswordRequest(cfg, s, id);
            if Manageable(s, id)
            then r.outcome == Succeeded
                 && r.state.outbox
                    == s.outbox + [Mail(PasswordResetAdmin, s.accounts[id].profile.email, Some(s.draws), id)]
                 && r.state.accounts
                    == s.accounts[id := s.accounts[id].(
                                    session := s.accounts[id].session.(
                                      resetHash := Some(Sha256(Raw(s.draws))),
                                      resetExpires := Some(s.now + cfg.resetMinutes * 60)))]
            else r == Result(s, Failed(UserNotFound))
  {
  }

  // ----- One's own credentials -----

  predicate Renames(a: Account, username: Option<string>) {
    username.Some? && username != a.profile.username
  }

  predicate AsksForAddress(a: Account, email: Option<string>) {
    email.Some? && email != a.profile.email
  }

  // The same address is pending, and its code has not expired.
  predicate RepeatsRequest(a: Account, now: Time, email: Option<string>) {
    AsksForAddress(a, email) && a.session.pendingEmail == email
    && a.session.codeExpires.Some? && now < a.session.codeExpires.value
  }

  // A new username is in force and the version has moved; a new address is only pending, with its code.
  predicate SelfUpdateDone(
    cfg: Settings, now: Time, a: Account, a': Account, username: Option<string>, email: Option<string>, code: string)
  {
    a' == a.(profile := a'.profile, session := a'.session)
    && a'.profile == a.profile.(username := if Renames(a, username) then username else a.profile.username)
    && a'.session == a.session.(version := a'.session.version, pendingEmail := a'.session.pendingEmail,
                                codeHash := a'.session.codeHash, codeExpires := a'.session.codeExpires)
    && a'.session.version == (if Renames(a, username) then a.session.version + 1 else a.session.version)
    && (if AsksForAddress(a, email)
        then a'.session.pendingEmail == email && a'.session.codeHash == Some(Sha256(Code(code)))
             && a'.session.codeExpires == Some(now + cfg.codeMinutes * 60)
        else a'.session.pendingEmail == a.session.pendingEmail && a'.session.codeHash == a.session.codeHash
             && a'.session.codeExpires == a.session.codeExpires)
  }

  /** A user's own update succeeds if and only if it asks for something new, does not repeat an open request,
      and the username is free; any other attempt changes nothing. */
  lemma SelfUpdateIff(
    cfg: Settings, s: State, id: UserId, username: Option<string>, email: Option<string>, code: string, env: Env)
    requires Inv(s) && id in s.accounts
    ensures var r := Operations.UpdateMeCredentials(cfg, s, id, username, email, code, env);
            var a := s.accounts[id];
            if (Renames(a, username) || AsksForAddress(a, email)) && !RepeatsRequest(a, s.now, email)
               && (Renames(a, username) ==> UsernameIsFree(s, Some(id), username)) && !env.integrityError
            then r.outcome == Succeeded && id in r.state.accounts
                 && SelfUpdateDone(cfg, s.now, a, r.state.accounts[id], username, email, code)
                 && r.state == s.(accounts := s.accounts[id := r.state.accounts[id]], cache := r.state.cache)
            else r == Result(s, Failed(if !Renames(a, username) && !AsksForAddress(a, email) then NoChangesDetected
                                        else if RepeatsRequest(a, s.now, email) then DuplicateEmailChangeRequest
                                        else IntegrityError))
  {
    SelfUpdateWrites(cfg, s.now, s.accounts[id], username, email, code);
    assert AccountInv(s.accounts[id]);
    OwnUsernameIsFree(s, id);
  }

  lemma SelfUpdateWrites(
    cfg: Settings, now: Time, a: Account, username: Option<string>, email: Option<string>, code: string)
    ensures var a' := SelfUpdated(cfg, now, a, username, email, code);
            SelfUpdateDone(cfg, now, a, a', username, email, code)
            && a'.profile.username == (if Renames(a, username) then username else a.profile.username)
            && (a'.profile.NotNull() <==> a.profile.(username := a'.profile.username).NotNull())
  {
  }

  // An address is pending, this is its code, and it has not expired.
  predicate CodeIsGood(a: Account, now: Time, code: string) {
    a.session.pendingEmail.Some? && a.session.codeHash == Some(Sha256(Code(code)))
    && a.session.codeExpires.Some? && now <= a.session.codeExpires.value
  }

  // What a refused confirmation is told: the first of these that applies.
  function ConfirmationRefusal(a: Account, now: Time, code: string, env: Env): Error {
    if a.session.pendingEmail.None? then NoPendingEmailChange
    else if a.session.codeExpires.Some? && a.session.codeExpires.value < now then EmailChangeCodeExpired
    else if a.session.codeHash != Some(Sha256(Code(code))) then InvalidEmailChangeCode
    else if a.role == Student && env.limitReached then ContactLimitReached
    else IntegrityError
  }

  /** An address change is confirmed if and only if the code is the pending one's and has not expired, and the
      limit check and the constraints let it; the pending address is then the stored one and the session has
      ended, and any other attempt changes nothing. */
  lemma ConfirmationIff(s: State, id: UserId, code: string, env: Env)
    requires Inv(s) && id in s.accounts
    ensures var r := Operations.ConfirmEmailChange(s, id, code, env);
            var a := s.accounts[id];
            if CodeIsGood(a, s.now, code) && !(a.role == Student && env.limitReached) && !env.integrityError
            then r.outcome == Succeeded && id in r.state.accounts
                 && r.state == s.(accounts := s.accounts[id := r.state.accounts[id]], cache := r.state.cache)
                 && SessionEnded(a.session, r.state.accounts[id].session)
                 && r.state.accounts[id] == a.(profile := a.profile.(email := a.session.pendingEmail),
                                               session := r.state.accounts[id].session)
            else r == Result(s, Failed(ConfirmationRefusal(a, s.now, code, env)))
  {
    assert AccountInv(s.accounts[id]);
    OwnUsernameIsFree(s, id);
  }

  /** Request, then confirm: the address that was asked for is confirmed by exactly the code that was drawn for
      it, for exactly its minutes. */
  lemma RequestedAddressIsConfirmedIff(
    cfg: Settings, s: State, id: UserId, email: string, code: string, env: Env, wait: nat, attempt: string, env': Env)
    requires Inv(s) && !env'.limitReached && !env'.integrityError
    requires Operations.UpdateMeCredentials(cfg, s, id, None, Some(email), code, env).outcome == Succeeded
    requires id in s.accounts && s.accounts[id].status != PendingActivation
    ensures var requested := Operations.UpdateMeCredentials(cfg, s, id, None, Some(email), code, env).state;
            var r := Operations.ConfirmEmailChange(requested.(now := s.now + wait), id, attempt, env');
            (r.outcome == Succeeded <==> attempt == code && wait <= cfg.codeMinutes * 60)
            && (r.outcome == Succeeded ==> id in r.state.accounts && r.state.accounts[id].profile.email == Some(email))
  {
    SelfUpdateMoves(cfg, s, id, None, Some(email), code, env);
    var requested := Operations.UpdateMeCredentials(cfg, s, id, None, Some(email), code, env).state;
    MovesKeepsInv(s, requested);
    SameTablesKeepsInv(requested, requested.(now := s.now + wait));
    RequestStoresCode(cfg, s, id, email, code, env);
    ConfirmationIff(requested.(now := s.now + wait), id, attempt, env');
  }
}
