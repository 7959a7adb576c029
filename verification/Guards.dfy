/** The role guards of the routes (src/core/dependencies.py, src/users/routers/), and runs of guarded
    calls.  A guard authenticates before the service runs, so a run of guarded calls is a run of the
    requests with some authentications in between, and every theorem about runs covers it. */
module Guards {
  import opened Prelude
  import opened Accounts
  import opened Operations
  import opened Requests
  import opened Invariants
  import opened SessionTheorems
  import opened CacheTheorems

  // The requests behind require_system_admin.
  predicate AdminOnly(op: Op) {
    op.RegisterUser? || op.UpdateUser? || op.UpdateUserCredentials? || op.DeactivateUser?
    || op.ActivateUser? || op.CreateResetPasswordRequest? || op.ResendActivationInvite?
    || (op.GetUserDetail? && !op.staff)
  }

  // A request as it arrives; requests for the signed-in user carry their token themselves.
  datatype Call = Call(credential: Option<AccessToken>, op: Op, env: Env)
  {
    function Token(): Option<AccessToken> {
      if NeedsUser(op) then op.token else credential
    }

    // The role the route asks for.
    function RequiredRole(): Option<Role> {
      if AdminOnly(op) then Some(SystemAdmin)
      else if op.GetUserDetail? then Some(Director)
      else if op.GetMyProfile? && op.asStudent then Some(Student)
      else None
    }

    function Authentication(): Event {
      Event(Authenticate(Token()), env)
    }
  }

  /** A guarded call: the route's role is checked before the request is served.  A guarded request of a
      signed-in user authenticates here and again in Step, where the framework resolves the user once; with
      one environment for both, the second time only repeats the first. */
  ghost function Serve(cfg: Settings, s: State, call: Call): Result {
    if call.RequiredRole().None? then Step(cfg, s, call.op, call.env) else
    var auth := GetCurrentUser(s, call.Token(), call.env);
    if auth.outcome.Failed? then auth
    else if Some(auth.outcome.role) != call.RequiredRole() then Result(auth.state, Failed(AccessDenied))
    else Step(cfg, auth.state, call.op, call.env)
  }

  ghost function ServeAll(cfg: Settings, s: State, calls: seq<Call>): State
    decreases |calls|
  {
    if calls == [] then s else ServeAll(cfg, Serve(cfg, s, calls[0]).state, calls[1..])
  }

  // ----- A guarded run is a run -----

  // The events of one call: its guard, and the request if the guard lets it through.
  ghost function EventsOf(s: State, call: Call): seq<Event> {
    if call.RequiredRole().None? then [Event(call.op, call.env)] else
    var auth := GetCurrentUser(s, call.Token(), call.env);
    if auth.outcome.Failed? || Some(auth.outcome.role) != call.RequiredRole() then [call.Authentication()]
    else [call.Authentication(), Event(call.op, call.env)]
  }

  ghost function EventsOfAll(cfg: Settings, s: State, calls: seq<Call>): seq<Event>
    decreases |calls|
  {
    if calls == [] then []
    else EventsOf(s, calls[0]) + EventsOfAll(cfg, Serve(cfg, s, calls[0]).state, calls[1..])
  }

  lemma RunOfTwo(cfg: Settings, s: State, first: Event, second: Event)
    ensures Run(cfg, s, [first, second])
         == Step(cfg, Step(cfg, s, first.op, first.env).state, second.op, second.env).state
  {
    assert [first, second][1..] == [second];
    RunOfOne(cfg, Step(cfg, s, first.op, first.env).state, second.op, second.env);
  }

  lemma ServeIsRun(cfg: Settings, s: State, call: Call)
    ensures Run(cfg, s, EventsOf(s, call)) == Serve(cfg, s, call).state
  {
    var guard := call.Authentication();
    if |EventsOf(s, call)| == 2 {
      RunOfTwo(cfg, s, guard, Event(call.op, call.env));
    } else if call.RequiredRole().None? {
      RunOfOne(cfg, s, call.op, call.env);
    } else {
      RunOfOne(cfg, s, guard.op, guard.env);
    }
  }

  lemma {:induction false} RunConcat(cfg: Settings, s: State, first: seq<Event>, second: seq<Event>)
    ensures Run(cfg, s, first + second) == Run(cfg, Run(cfg, s, first), second)
    decreases |first|
  {
    if first == [] {
      assert first + second == second;
    } else {
      assert (first + second)[1..] == first[1..] + second;
      RunConcat(cfg, Step(cfg, s, first[0].op, first[0].env).state, first[1..], second);
    }
  }

  predicate CallDeletesSucceed(calls: seq<Call>) {
    forall i | 0 <= i < |calls| :: calls[i].env.DeletesOk()
  }

  /** A run of guarded calls reaches the state of a run of requests, with the same luck in its deletes. */
  lemma {:induction false} GuardedRunIsRun(cfg: Settings, s: State, calls: seq<Call>)
    ensures ServeAll(cfg, s, calls) == Run(cfg, s, EventsOfAll(cfg, s, calls))
    ensures CallDeletesSucceed(calls) ==> DeletesSucceed(EventsOfAll(cfg, s, calls))
    decreases |calls|
  {
    if calls == [] {
    } else {
      var s1 := Serve(cfg, s, calls[0]).state;
      ServeIsRun(cfg, s, calls[0]);
      RunConcat(cfg, s, EventsOf(s, calls[0]), EventsOfAll(cfg, s1, calls[1..]));
      GuardedRunIsRun(cfg, s1, calls[1..]);
    }
  }

  // ----- What the guards guarantee -----

  /** In a run of guarded calls whose deletes succeed, an admin request gets past its guard if and only if
      it carries a genuine token, at the stored version, of an account that is a system administrator's;
      and that account is active.  Otherwise it fails and changes nothing but the cache. */
  lemma AdminRequestsNeedAnAdmin(cfg: Settings, s0: State, calls: seq<Call>, call: Call)
    requires Init(s0) && CallDeletesSucceed(calls) && AdminOnly(call.op)
    ensures var s := ServeAll(cfg, s0, calls);
            var r := Serve(cfg, s, call);
            if Current(s, call.credential) && s.accounts[call.credential.value.sub].role == SystemAdmin
            then s.accounts[call.credential.value.sub].isActive
                 && r == Step(cfg, GetCurrentUser(s, call.credential, call.env).state, call.op, call.env)
            else r.outcome.Failed? && r.state == s.(cache := r.state.cache)
  {
    GuardedRunIsRun(cfg, s0, calls);
    RunKeepsInv(cfg, s0, EventsOfAll(cfg, s0, calls));
    RunKeepsCoherence(cfg, s0, EventsOfAll(cfg, s0, calls));
    AdminCallInState(cfg, ServeAll(cfg, s0, calls), call);
  }

  lemma AdminCallInState(cfg: Settings, s: State, call: Call)
    requires Inv(s) && Coherent(s) && AdminOnly(call.op)
    ensures var r := Serve(cfg, s, call);
            if Current(s, call.credential) && s.accounts[call.credential.value.sub].role == SystemAdmin
            then s.accounts[call.credential.value.sub].isActive
                 && r == Step(cfg, GetCurrentUser(s, call.credential, call.env).state, call.op, call.env)
            else r.outcome.Failed? && r.state == s.(cache := r.state.cache)
  {
    AuthenticationInState(s, call.credential, call.env);
    AuthenticationOnlyCaches(s, call.credential, call.env);
  }

  lemma ServeKeepsInv(cfg: Settings, s: State, call: Call)
    requires Inv(s)
    ensures Inv(Serve(cfg, s, call).state)
  {
    ServeIsRun(cfg, s, call);
    RunKeepsInv(cfg, s, EventsOf(s, call));
  }

  // The role that the route of a request asks for.
  predicate RouteAsksFor(op: Op, role: Role) {
    match op
    case RegisterUser(_, _) => role == SystemAdmin
    case UpdateUser(_, _, _) => role == SystemAdmin
    case UpdateUserCredentials(_, _) => role == SystemAdmin
    case DeactivateUser(_) => role == SystemAdmin
    case ActivateUser(_) => role == SystemAdmin
    case CreateResetPasswordRequest(_) => role == SystemAdmin
    case ResendActivationInvite(_) => role == SystemAdmin
    case GetUserDetail(_, staff, _) => role == if staff then Director else SystemAdmin
    case GetMyProfile(_, asStudent) => asStudent && role == Student
    case _ => false
  }

  /** In a run of guarded calls whose deletes succeed, a call whose route asks for a role is served if and only
      if it carries a genuine token, at the stored version, of an account in that role, which is then active.
      Otherwise it fails and changes nothing but the cache. */
  lemma RoutesAskForRoles(cfg: Settings, s0: State, calls: seq<Call>, call: Call, role: Role)
    requires Init(s0) && CallDeletesSucceed(calls) && RouteAsksFor(call.op, role)
    ensures var s := ServeAll(cfg, s0, calls);
            var token := if call.op.GetMyProfile? then call.op.token else call.credential;
            ServedToRole(cfg, s, call, token, role)
  {
    GuardedRunIsRun(cfg, s0, calls);
    RunKeepsInv(cfg, s0, EventsOfAll(cfg, s0, calls));
    RunKeepsCoherence(cfg, s0, EventsOfAll(cfg, s0, calls));
    RoleCallInState(cfg, ServeAll(cfg, s0, calls), call, role);
  }

  ghost predicate ServedToRole(cfg: Settings, s: State, call: Call, token: Option<AccessToken>, role: Role) {
    var r := Serve(cfg, s, call);
    if Current(s, token) && s.accounts[token.value.sub].role == role
    then s.accounts[token.value.sub].isActive
         && r == Step(cfg, GetCurrentUser(s, token, call.env).state, call.op, call.env)
    else r.outcome == Failed(if Current(s, token) then AccessDenied else InvalidAccessToken)
         && r.state == s.(cache := r.state.cache)
  }

  lemma RoleCallInState(cfg: Settings, s: State, call: Call, role: Role)
    requires Inv(s) && Coherent(s) && RouteAsksFor(call.op, role)
    ensures ServedToRole(cfg, s, call, if call.op.GetMyProfile? then call.op.token else call.credential, role)
  {
    AuthenticationInState(s, call.Token(), call.env);
    AuthenticationOnlyCaches(s, call.Token(), call.env);
  }

  /** The other routes ask for no role. */
  lemma OtherRoutesServeAll(cfg: Settings, s: State, call: Call)
    requires forall role :: !RouteAsksFor(call.op, role)
    ensures Serve(cfg, s, call) == Step(cfg, s, call.op, call.env)
  {
    assert !RouteAsksFor(call.op, SystemAdmin) && !RouteAsksFor(call.op, Director) && !RouteAsksFor(call.op, Student);
  }
}
