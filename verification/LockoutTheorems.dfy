/** How often passwords can be guessed: the lockout of src/auth/service.py over whole serial runs. */
module LockoutTheorems {
  import opened Prelude
  import opened Accounts
  import opened Operations
  import opened Requests
  import opened Invariants

  // The attempt compares the password of this account and finds it wrong.
  ghost predicate WrongGuess(s: State, op: Op, id: UserId) {
    op.Login? && op.username.Some? && op.password.Some?
    && FindByUsername(s.accounts, op.username.value) == Some(id)
    && PasswordIsEvaluated(s.accounts[id], s.now)
    && !VerifyPassword(op.password.value, s.accounts[id].passwordHash)
  }

  // The requests that set the counter back to zero when they succeed.
  ghost predicate Resets(s: State, op: Op, outcome: Outcome, id: UserId) {
    (op.Login? && outcome.LoggedIn? && outcome.access.sub == id)
    || (op.ResetPassword? && outcome == Succeeded && FindByUsername(s.accounts, op.name) == Some(id))
    || (op.ActivateUser? && outcome == Succeeded && op.target == id)
  }

  // ----- One step -----

  // The lockout counts a wrong guess, or is reset, or stays.
  ghost predicate LockoutFollows(s: State, op: Op, r: Result, id: UserId)
    requires id in s.accounts
  {
    id in r.state.accounts
    && r.state.accounts[id].lockout ==
         if WrongGuess(s, op, id) then Failure(s.accounts[id].lockout, s.now)
         else if Resets(s, op, r.outcome, id) then NO_FAILURES
         else s.accounts[id].lockout
  }

  predicate KeepsLockout(s: State, s': State, id: UserId) {
    id in s.accounts && id in s'.accounts && s'.accounts[id].lockout == s.accounts[id].lockout
  }

  lemma LoginLockout(cfg: Settings, s: State, op: Op, id: UserId)
    requires op.Login? && id in s.accounts
    ensures LockoutFollows(s, op, Operations.Login(cfg, s, op.username, op.password), id)
  {
  }

  lemma ResettingLockout(cfg: Settings, s: State, op: Op, env: Env, id: UserId)
    requires id in s.accounts && (op.ResetPassword? || op.ActivateUser?)
    ensures LockoutFollows(s, op, Anonymous(cfg, s, op, env), id)
  {
  }

  predicate AdminEdit(op: Op) {
    op.UpdateUser? || op.UpdateUserCredentials? || op.DeactivateUser?
    || op.CreateResetPasswordRequest? || op.ResendActivationInvite?
  }

  lemma AdminEditLockout(cfg: Settings, s: State, op: Op, env: Env, id: UserId)
    requires id in s.accounts && AdminEdit(op)
    ensures KeepsLockout(s, Anonymous(cfg, s, op, env).state, id)
  {
  }

  lemma OtherLockout(cfg: Settings, s: State, op: Op, env: Env, id: UserId)
    requires s.nextId !in s.accounts && id in s.accounts
    requires !NeedsUser(op) && !op.Login? && !op.ResetPassword? && !op.ActivateUser? && !AdminEdit(op)
    ensures KeepsLockout(s, Anonymous(cfg, s, op, env).state, id)
  {
  }

  lemma AnonymousLockout(cfg: Settings, s: State, op: Op, env: Env, id: UserId)
    requires s.nextId !in s.accounts && id in s.accounts && !NeedsUser(op)
    ensures LockoutFollows(s, op, Anonymous(cfg, s, op, env), id)
  {
    if op.Login? {
      LoginLockout(cfg, s, op, id);
    } else if op.ResetPassword? || op.ActivateUser? {
      ResettingLockout(cfg, s, op, env, id);
    } else if AdminEdit(op) {
      AdminEditLockout(cfg, s, op, env, id);
    } else {
      OtherLockout(cfg, s, op, env, id);
    }
  }

  lemma SelfLockout(cfg: Settings, s: State, self: UserId, role: Role, op: Op, env: Env, id: UserId)
    requires NeedsUser(op) && id in s.accounts
    ensures KeepsLockout(s, AsUser(cfg, s, self, role, op, env).state, id)
  {
  }

  lemma UserStepLockout(cfg: Settings, s: State, op: Op, env: Env, id: UserId)
    requires NeedsUser(op) && id in s.accounts
    ensures KeepsLockout(s, Step(cfg, s, op, env).state, id)
  {
    AuthenticationKeepsAccounts(s, op.token, env);
    var auth := GetCurrentUser(s, op.token, env);
    if !auth.outcome.Failed? {
      SelfLockout(cfg, auth.state, auth.outcome.id, auth.outcome.role, op, env, id);
    }
  }

  lemma TimeGoesOn(cfg: Settings, s: State, op: Op, env: Env)
    requires Inv(s)
    ensures s.now <= Step(cfg, s, op, env).state.now
  {
    StepMoves(cfg, s, op, env);
  }

  /** A step counts a wrong guess, or resets the counter, or leaves the lockout of the account alone. */
  lemma StepLockout(cfg: Settings, s: State, op: Op, env: Env, id: UserId)
    requires s.nextId !in s.accounts && id in s.accounts
    ensures LockoutFollows(s, op, Step(cfg, s, op, env), id)
  {
    if NeedsUser(op) {
      UserStepLockout(cfg, s, op, env, id);
    } else if SchemaAccepts(op) {
      AnonymousLockout(cfg, s, op, env, id);
    }
  }

  // ----- Runs -----

  ghost function WrongGuesses(cfg: Settings, s: State, events: seq<Event>, id: UserId): nat
    decreases |events|
  {
    if events == [] then 0
    else (if WrongGuess(s, events[0].op, id) then 1 else 0)
         + WrongGuesses(cfg, Step(cfg, s, events[0].op, events[0].env).state, events[1..], id)
  }

  ghost predicate NeverResets(cfg: Settings, s: State, events: seq<Event>, id: UserId)
    decreases |events|
  {
    events == []
    || var r := Step(cfg, s, events[0].op, events[0].env);
       !Resets(s, events[0].op, r.outcome, id) && NeverResets(cfg, r.state, events[1..], id)
  }

  // The most wrong guesses that fit between now and a later moment.
  function Allowance(lockout: Lockout, now: Time, end: Time): nat
    requires now <= end
  {
    if lockout.failed < MAX_FAILED_ATTEMPTS then MAX_FAILED_ATTEMPTS - lockout.failed + (end - now) / LOCKOUT_SECONDS
    else if lockout.lockedUntil.Some? && now < lockout.lockedUntil.value then
      (if lockout.lockedUntil.value <= end then 1 + (end - lockout.lockedUntil.value) / LOCKOUT_SECONDS else 0)
    else 1 + (end - now) / LOCKOUT_SECONDS
  }

  // Five failures and a lock time go together, and the lock is not running.
  predicate MayGuess(lockout: Lockout, now: Time) {
    (lockout.failed >= MAX_FAILED_ATTEMPTS <==> lockout.lockedUntil.Some?)
    && (lockout.lockedUntil.Some? ==> lockout.lockedUntil.value <= now)
  }

  lemma GuessUsesAllowance(lockout: Lockout, now: Time, end: Time)
    requires MayGuess(lockout, now) && now <= end
    ensures 1 + Allowance(Failure(lockout, now), now, end) <= Allowance(lockout, now, end)
  {
  }

  lemma WaitingKeepsAllowance(lockout: Lockout, now: Time, later: Time, end: Time)
    requires now <= later <= end
    ensures Allowance(lockout, later, end) <= Allowance(lockout, now, end)
  {
    assert (end - later) / LOCKOUT_SECONDS <= (end - now) / LOCKOUT_SECONDS;
    if lockout.lockedUntil.Some? && now < lockout.lockedUntil.value <= later {
      assert (end - later) / LOCKOUT_SECONDS <= (end - lockout.lockedUntil.value) / LOCKOUT_SECONDS;
    }
  }

  lemma {:induction false} GuessesFitAllowance(cfg: Settings, s: State, events: seq<Event>, id: UserId)
    requires Inv(s) && id in s.accounts && NeverResets(cfg, s, events, id)
    ensures s.now <= Run(cfg, s, events).now
    ensures WrongGuesses(cfg, s, events, id) <= Allowance(s.accounts[id].lockout, s.now, Run(cfg, s, events).now)
    decreases |events|
  {
    if events == [] {
    } else {
      var op, env := events[0].op, events[0].env;
      var s1 := Step(cfg, s, op, env).state;
      var end := Run(cfg, s, events).now;
      StepLockout(cfg, s, op, env, id);
      TimeGoesOn(cfg, s, op, env);
      StepKeepsInv(cfg, s, op, env);
      GuessesFitAllowance(cfg, s1, events[1..], id);
      if WrongGuess(s, op, id) {
        GuessUsesAllowance(s.accounts[id].lockout, s.now, end);
      }
      WaitingKeepsAllowance(s1.accounts[id].lockout, s.now, s1.now, end);
    }
  }

  lemma AllowanceInMinutes(lockout: Lockout, now: Time, end: Time, minutes: nat)
    requires now <= end <= now + minutes * 60
    ensures Allowance(lockout, now, end) <= 5 + minutes / 15
  {
    assert (end - now) / LOCKOUT_SECONDS <= minutes * 60 / LOCKOUT_SECONDS == minutes / 15;
    if lockout.lockedUntil.Some? && now < lockout.lockedUntil.value <= end {
      assert (end - lockout.lockedUntil.value) / LOCKOUT_SECONDS <= (end - now) / LOCKOUT_SECONDS;
    }
  }

  /** In any stretch of a serial run that lasts T minutes and does not reset the counter, the password
      of a user is guessed wrong at most 5 + T / 15 times. */
  lemma GuessingIsBounded(cfg: Settings, s0: State, before: seq<Event>, window: seq<Event>, id: UserId, minutes: nat)
    requires Init(s0) && id in Run(cfg, s0, before).accounts
    requires NeverResets(cfg, Run(cfg, s0, before), window, id)
    requires var s := Run(cfg, s0, before); Run(cfg, s, window).now <= s.now + minutes * 60
    ensures WrongGuesses(cfg, Run(cfg, s0, before), window, id) <= 5 + minutes / 15
  {
    RunKeepsInv(cfg, s0, before);
    var s := Run(cfg, s0, before);
    GuessesFitAllowance(cfg, s, window, id);
    AllowanceInMinutes(s.accounts[id].lockout, s.now, Run(cfg, s, window).now, minutes);
  }

  /** The counter has reached five exactly when a lock time is set, and the lock then refuses every
      attempt until it passes. */
  lemma LockedExactlyAfterFive(cfg: Settings, s0: State, events: seq<Event>, id: UserId, name: string, password: string)
    requires Init(s0) && id in Run(cfg, s0, events).accounts
    requires FindByUsername(Run(cfg, s0, events).accounts, name) == Some(id)
    ensures var s := Run(cfg, s0, events);
            var lockout := s.accounts[id].lockout;
            (lockout.failed >= 5 <==> lockout.lockedUntil.Some?)
            && (lockout.lockedUntil.Some? && s.now < lockout.lockedUntil.value ==>
                  Operations.Login(cfg, s, Some(name), Some(password)) == Result(s, Failed(AccountLocked)))
  {
    RunKeepsInv(cfg, s0, events);
    assert AccountInv(Run(cfg, s0, events).accounts[id]);
  }
}
