/** The requests as data, one step of the system, and serial runs of it. */
module Requests {
  import opened Prelude
  import opened Accounts
  import opened Operations

  // ----- Requests -----

  datatype Op =
    | Login(username: Option<string>, password: Option<string>)
    | Refresh(presented: Option<RefreshToken>, family: nat)
    | ActivateAccount(name: string, invite: nat, newPassword: string)
    | ForgotPassword(name: string)
    | ResetPassword(name: string, reset: nat, newPassword: string)
    | RegisterUser(student: bool, profile: Profile)
    | UpdateUser(target: UserId, studentShaped: bool, request: Changes)
    | UpdateUserCredentials(target: UserId, request: Changes)
    | DeactivateUser(target: UserId)
    | ActivateUser(target: UserId)
    | CreateResetPasswordRequest(target: UserId)
    | ResendActivationInvite(target: UserId)
    | GetUserDetail(target: UserId, staff: bool, asStudent: bool)
    | Logout(token: Option<AccessToken>)
    | UpdateMeCredentials(token: Option<AccessToken>, username: Option<string>, email: Option<string>, code: string)
    | ConfirmEmailChange(token: Option<AccessToken>, code: string)
    | UpdateMePassword(token: Option<AccessToken>, current: string, newPassword: string)
    | GetMyProfile(token: Option<AccessToken>, asStudent: bool)
    | Authenticate(token: Option<AccessToken>)
    | Tick(seconds: nat)  // time passes
    | Evict(keys: set<Key>) // the cache drops entries of its own accord

  // The requests that go through get_current_user.
  predicate NeedsUser(op: Op) {
    op.Logout? || op.UpdateMeCredentials? || op.ConfirmEmailChange? || op.UpdateMePassword?
    || op.GetMyProfile? || op.Authenticate?
  }

  // Payloads the schemas let through.
  predicate SchemaAccepts(op: Op) {
    match op
    case UpdateUser(_, studentShaped, request) => request.Keys <= UpdateFields(studentShaped)
    case UpdateUserCredentials(_, request) => request.Keys <= CREDENTIAL_FIELDS
    case _ => true
  }

  ghost function Anonymous(cfg: Settings, s: State, op: Op, env: Env): Result
    requires !NeedsUser(op)
  {
    match op
    case Login(username, password) => Operations.Login(cfg, s, username, password)
    case Refresh(presented, family) => Operations.Refresh(cfg, s, presented, family, env)
    case ActivateAccount(name, invite, newPassword) => Operations.ActivateAccount(s, name, invite, newPassword)
    case ForgotPassword(name) => Operations.ForgotPassword(cfg, s, name)
    case ResetPassword(name, reset, newPassword) => Operations.ResetPassword(s, name, reset, newPassword, env)
    case RegisterUser(student, profile) => Operations.RegisterUser(cfg, s, student, profile, env)
    case UpdateUser(target, studentShaped, request) => Operations.UpdateUser(s, target, studentShaped, request, env)
    case UpdateUserCredentials(target, request) => Operations.UpdateUserCredentials(cfg, s, target, request, env)
    case DeactivateUser(target) => Operations.DeactivateUser(s, target, env)
    case ActivateUser(target) => Operations.ActivateUser(s, target, env)
    case CreateResetPasswordRequest(target) => Operations.CreateResetPasswordRequest(cfg, s, target)
    case ResendActivationInvite(target) => Operations.ResendActivationInvite(cfg, s, target)
    case GetUserDetail(target, staff, asStudent) => Operations.GetUserDetail(s, target, staff, asStudent, env)
    case Tick(seconds) => Result(s.(now := s.now + seconds), Succeeded)
    case Evict(keys) => Result(s.(cache := s.cache - keys), Succeeded)
  }

  function AsUser(cfg: Settings, s: State, id: UserId, role: Role, op: Op, env: Env): Result
    requires NeedsUser(op)
  {
    match op
    case Logout(_) => Operations.Logout(s, id, env)
    case UpdateMeCredentials(_, username, email, code) =>
      Operations.UpdateMeCredentials(cfg, s, id, username, email, code, env)
    case ConfirmEmailChange(_, code) => Operations.ConfirmEmailChange(s, id, code, env)
    case UpdateMePassword(_, current, newPassword) => Operations.UpdateMePassword(s, id, current, newPassword, env)
    case GetMyProfile(_, asStudent) => Operations.GetMyProfile(s, id, asStudent, env)
    case Authenticate(_) => Result(s, ActingAs(id, role))
  }

  ghost function Step(cfg: Settings, s: State, op: Op, env: Env): Result {
    if !SchemaAccepts(op) then Result(s, Failed(Unprocessable))
    else if !NeedsUser(op) then Anonymous(cfg, s, op, env)
    else
      var auth := GetCurrentUser(s, op.token, env);
      if auth.outcome.Failed? then auth
      else AsUser(cfg, auth.state, auth.outcome.id, auth.outcome.role, op, env)
  }

  // ----- Serial runs -----

  datatype Event = Event(op: Op, env: Env)

  ghost function Run(cfg: Settings, s: State, events: seq<Event>): State
    decreases |events|
  {
    if events == [] then s else Run(cfg, Step(cfg, s, events[0].op, events[0].env).state, events[1..])
  }

  // An account as it is seeded before the system opens: active, and with no token outstanding.
  predicate Seeded(a: Account) {
    a.status == Active && a.isActive && a.profile.NotNull() && a.session == NEW_SESSION
    && a.activation == Activation(None, None) && a.lockout == NO_FAILURES
  }

  ghost predicate Init(s: State) {
    (forall id | id in s.accounts :: id < s.nextId && Seeded(s.accounts[id]))
    && UniqueUsernames(s.accounts)
    && s.outbox == [] && s.cache == map[] && s.accessIssued == {} && s.refreshIssued == {}
  }

  predicate DeletesSucceed(events: seq<Event>) {
    forall i | 0 <= i < |events| :: events[i].env.DeletesOk()
  }
}
