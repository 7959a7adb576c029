/** The routes: each call, run by the services, is one guarded step of the system and keeps its invariant
    (src/auth/router.py, src/users/routers/, src/core/dependencies.py). */
module Endpoints {
  import opened Prelude
  import opened Accounts
  import opened Operations
  import opened Requests
  import opened Invariants
  import opened ServedContacts
  import opened Guards
  import opened Services

  method HandleAnonymous(backend: Backend, op: Op, env: Env) returns (outcome: Outcome)
    requires backend.Valid() && !NeedsUser(op) && SchemaAccepts(op) && !op.Tick? && !op.Evict?
    modifies backend
    ensures backend.Did(Anonymous(backend.settings, old(backend.View()), op,
                                  WithTables(old(backend.accounts), op, env)), outcome)
  {
    match op
    case Login(username, password) => outcome := backend.Login(username, password);
    case Refresh(presented, family) => outcome := backend.Refresh(presented, family, env);
    case ActivateAccount(name, invite, newPassword) => outcome := backend.ActivateAccount(name, invite, newPassword);
    case ForgotPassword(name) => outcome := backend.CreateForgotPasswordRequest(name);
    case ResetPassword(name, reset, newPassword) => outcome := backend.ResetPassword(name, reset, newPassword, env);
    case RegisterUser(student, profile) => outcome := backend.RegisterUser(student, profile, env);
    case UpdateUser(target, studentShaped, request) =>
      outcome := backend.UpdateUser(target, studentShaped, request, env);
    case UpdateUserCredentials(target, request) => outcome := backend.UpdateUserCredentials(target, request, env);
    case DeactivateUser(target) => outcome := backend.DeactivateUser(target, env);
    case ActivateUser(target) => outcome := backend.ActivateUser(target, env);
    case CreateResetPasswordRequest(target) => outcome := backend.CreateResetPasswordRequest(target);
    case ResendActivationInvite(target) => outcome := backend.ResendActivationInvite(target);
    case GetUserDetail(target, staff, asStudent) => outcome := backend.GetUserDetail(target, staff, asStudent, env);
  }

  // The two requests of a signed-in user whose commits meet the constraints on contacts.
  method HandleOwnCredentials(backend: Backend, id: UserId, role: Role, op: Op, env: Env) returns (outcome: Outcome)
    requires op.UpdateMeCredentials? || op.ConfirmEmailChange?
    requires op.token.Some? && op.token.value.sub == id
    modifies backend
    ensures backend.Did(AsUser(backend.settings, old(backend.View()), id, role, op,
                               WithTables(old(backend.accounts), op, env)), outcome)
  {
    match op
    case UpdateMeCredentials(_, username, email, code) =>
      outcome := backend.UpdateMeCredentials(id, username, email, code, env);
    case ConfirmEmailChange(_, code) => outcome := backend.ConfirmEmailChange(id, code, env);
  }

  method HandleAsUser(backend: Backend, id: UserId, role: Role, op: Op, env: Env) returns (outcome: Outcome)
    requires NeedsUser(op) && op.token.Some? && op.token.value.sub == id
    modifies backend
    ensures backend.Did(AsUser(backend.settings, old(backend.View()), id, role, op,
                               WithTables(old(backend.accounts), op, env)), outcome)
  {
    if op.UpdateMeCredentials? || op.ConfirmEmailChange? {
      outcome := HandleOwnCredentials(backend, id, role, op, env);
    } else {
      match op
      case Logout(_) => outcome := backend.Logout(id, env);
      case UpdateMePassword(_, current, newPassword) =>
        outcome := backend.UpdateMePassword(id, current, newPassword, env);
      case GetMyProfile(_, asStudent) => outcome := backend.GetMyProfile(id, asStudent, env);
      case Authenticate(_) => outcome := ActingAs(id, role);
    }
  }

  // A request that its guard has let through.
  method HandleRequest(backend: Backend, op: Op, env: Env) returns (outcome: Outcome)
    requires Inv(backend.View()) && !op.Tick? && !op.Evict?
    modifies backend
    ensures backend.Did(Step(backend.settings, old(backend.View()), op,
                             WithTables(old(backend.accounts), op, env)), outcome)
  {
    if !SchemaAccepts(op) {
      outcome := Failed(Unprocessable);
    } else if !NeedsUser(op) {
      outcome := HandleAnonymous(backend, op, env);
    } else {
      TablesLeaveTheCacheAlone(backend.View(), op.token, op, env);
      outcome := backend.GetCurrentUser(op.token, env);
      if !outcome.Failed? {
        AuthenticationOnlyCaches(old(backend.View()), op.token, env);
        AuthenticationKeepsAccounts(old(backend.View()), op.token, env);
        outcome := HandleAsUser(backend, outcome.id, outcome.role, op, env);
      }
    }
  }

  // Authentication does not depend on what the tables say about contacts.
  lemma TablesLeaveTheCacheAlone(s: State, presented: Option<AccessToken>, op: Op, env: Env)
    ensures GetCurrentUser(s, presented, WithTables(s.accounts, op, env)) == GetCurrentUser(s, presented, env)
  {
  }

  // The guard of the route: None if it lets the call through.
  method CheckGuard(backend: Backend, call: Call) returns (refusal: Option<Outcome>)
    requires call.RequiredRole().Some?
    modifies backend
    ensures var auth := GetCurrentUser(old(backend.View()), call.Token(), call.env);
            backend.View() == auth.state
            && refusal == if auth.outcome.Failed? then Some(auth.outcome)
                          else if Some(auth.outcome.role) != call.RequiredRole() then Some(Failed(AccessDenied))
                          else None
  {
    var outcome := backend.GetCurrentUser(call.Token(), call.env);
    if outcome.Failed? {
      refusal := Some(outcome);
    } else if Some(outcome.role) != call.RequiredRole() {
      refusal := Some(Failed(AccessDenied));
    } else {
      refusal := None;
    }
  }

  /** Every call takes the state to what Serve says, with the limit check and the unique indexes answering
      from the tables, and keeps the invariant. */
  method Handle(backend: Backend, call: Call) returns (outcome: Outcome)
    requires Inv(backend.View()) && !call.op.Tick? && !call.op.Evict?
    modifies backend
    ensures backend.Did(Serve(backend.settings, old(backend.View()),
                              call.(env := WithTables(old(backend.accounts), call.op, call.env))), outcome)
    ensures Inv(backend.View())
  {
    ghost var decided := call.(env := WithTables(backend.accounts, call.op, call.env));
    ServeKeepsInv(backend.settings, backend.View(), decided);
    if call.RequiredRole().Some? {
      TablesLeaveTheCacheAlone(backend.View(), call.Token(), call.op, call.env);
      AuthenticationOnlyCaches(backend.View(), call.Token(), call.env);
      SameTablesKeepsInv(backend.View(), GetCurrentUser(backend.View(), call.Token(), call.env).state);
      var refusal := CheckGuard(backend, call);
      if refusal.Some? {
        return refusal.value;
      }
    }
    outcome := HandleRequest(backend, call.op, call.env);
  }
}
