/** The account machine and the contact protocol meet: a request that succeeds by itself changes the
    contacts of the accounts as its transaction does, and serial runs of all requests keep the cap
    (src/users/services/system_admin.py, src/users/services/shared.py). */
module ServedContacts {
  import opened Prelude
  import opened Accounts
  import opened Operations
  import opened Requests
  import opened Invariants
  import opened AccountContacts
  import opened ContactLimit
  import LockKeys
  import ContactProtocol
  import opened ContactTheorems

  // The surroundings, with what the tables themselves decide about this request.
  function WithTables(accounts: map<UserId, Account>, op: Op, env: Env): Env {
    match op
    case RegisterUser(student, profile) => RegistrationEnv(accounts, student, profile, env)
    case UpdateUser(target, _, request) => UpdateEnv(accounts, target, request, env)
    case UpdateUserCredentials(target, request) => CredentialsEnv(accounts, target, request, env)
    case UpdateMeCredentials(token, _, _, _) =>
      if token.Some? then SelfUpdateEnv(accounts, token.value.sub, env) else env
    case ConfirmEmailChange(token, _) =>
      if token.Some? then ConfirmationEnv(accounts, token.value.sub, env) else env
    case _ => env
  }

  // The contact transaction that a request runs, if it does.
  function TransactionOf(accounts: map<UserId, Account>, op: Op): Option<ContactProtocol.Request> {
    match op
    case RegisterUser(student, profile) =>
      Some(ContactProtocol.Register(student, profile.phoneNumber.GetOr(""), profile.email.GetOr("")))
    case UpdateUser(target, studentShaped, request) =>
      Some(ContactProtocol.UpdateUser(target, studentShaped, Given(request, PhoneNumber)))
    case UpdateUserCredentials(target, request) =>
      Some(ContactProtocol.UpdateCredentials(target, Given(request, Email)))
    case ConfirmEmailChange(token, _) =>
      if token.Some? && token.value.sub in accounts && accounts[token.value.sub].session.pendingEmail.Some?
      then Some(ContactProtocol.ConfirmEmail(token.value.sub, accounts[token.value.sub].session.pendingEmail.value))
      else None
    case _ => None
  }

  // ----- Requests that write no contact -----

  // The same accounts, in the same roles and with the same contacts.
  predicate KeepsContacts(accounts: map<UserId, Account>, accounts': map<UserId, Account>) {
    accounts'.Keys == accounts.Keys
    && forall id | id in accounts :: ContactRow(accounts'[id]) == ContactRow(accounts[id])
  }

  lemma KeptContacts(accounts: map<UserId, Account>, accounts': map<UserId, Account>)
    requires KeepsContacts(accounts, accounts')
    ensures ContactTable(accounts') == ContactTable(accounts)
  {
  }

  predicate OtherAnonymous(op: Op) {
    !NeedsUser(op) && !op.RegisterUser? && !op.UpdateUser? && !op.UpdateUserCredentials?
  }

  lemma LoginKeepsContacts(cfg: Settings, s: State, username: Option<string>, password: Option<string>)
    ensures KeepsContacts(s.accounts, Operations.Login(cfg, s, username, password).state.accounts)
  {
    if username.Some? && password.Some? && FindByUsername(s.accounts, username.value).Some? {
      LoginToKeepsContacts(cfg, s, FindByUsername(s.accounts, username.value).value, password.value);
    }
  }

  lemma LoginToKeepsContacts(cfg: Settings, s: State, id: UserId, password: string)
    requires id in s.accounts
    ensures KeepsContacts(s.accounts, LoginTo(cfg, s, id, password).state.accounts)
  {
  }

  lemma RefreshKeepsContacts(cfg: Settings, s: State, presented: Option<RefreshToken>, family: nat, env: Env)
    ensures KeepsContacts(s.accounts, Operations.Refresh(cfg, s, presented, family, env).state.accounts)
  {
  }

  lemma OtherAnonymousKeepsContacts(cfg: Settings, s: State, op: Op, env: Env)
    requires OtherAnonymous(op)
    ensures KeepsContacts(s.accounts, Anonymous(cfg, s, op, env).state.accounts)
  {
    if op.Login? {
      LoginKeepsContacts(cfg, s, op.username, op.password);
    } else if op.Refresh? {
      RefreshKeepsContacts(cfg, s, op.presented, op.family, env);
    } else if op.ActivateAccount? {
      ActivationKeepsContacts(s, op.name, op.invite, op.newPassword);
    } else if op.ForgotPassword? {
      ForgottenPasswordKeepsContacts(cfg, s, op.name);
    } else if op.ResetPassword? {
      PasswordResetKeepsContacts(s, op.name, op.reset, op.newPassword, env);
    } else {
      RestKeepsContacts(cfg, s, op, env);
    }
  }

  lemma ActivationKeepsContacts(s: State, name: string, invite: nat, password: string)
    ensures KeepsContacts(s.accounts, Operations.ActivateAccount(s, name, invite, password).state.accounts)
  {
  }

  lemma ForgottenPasswordKeepsContacts(cfg: Settings, s: State, name: string)
    ensures KeepsContacts(s.accounts, Operations.ForgotPassword(cfg, s, name).state.accounts)
  {
  }

  lemma PasswordResetKeepsContacts(s: State, name: string, token: nat, password: string, env: Env)
    ensures KeepsContacts(s.accounts, Operations.ResetPassword(s, name, token, password, env).state.accounts)
  {
  }

  lemma RestKeepsContacts(cfg: Settings, s: State, op: Op, env: Env)
    requires OtherAnonymous(op) && !op.Login? && !op.Refresh?
    requires !op.ActivateAccount? && !op.ForgotPassword? && !op.ResetPassword?
    ensures KeepsContacts(s.accounts, Anonymous(cfg, s, op, env).state.accounts)
  {
    if op.DeactivateUser? || op.ActivateUser? {
      StatusRequestKeepsContacts(s, op.target, env);
    } else if op.CreateResetPasswordRequest? || op.ResendActivationInvite? {
      TokenRequestKeepsContacts(cfg, s, op.target);
    }
  }

  lemma StatusRequestKeepsContacts(s: State, target: UserId, env: Env)
    ensures KeepsContacts(s.accounts, Operations.DeactivateUser(s, target, env).state.accounts)
    ensures KeepsContacts(s.accounts, Operations.ActivateUser(s, target, env).state.accounts)
  {
  }

  lemma TokenRequestKeepsContacts(cfg: Settings, s: State, target: UserId)
    ensures KeepsContacts(s.accounts, Operations.CreateResetPasswordRequest(cfg, s, target).state.accounts)
    ensures KeepsContacts(s.accounts, Operations.ResendActivationInvite(cfg, s, target).state.accounts)
  {
  }

  lemma SelfUpdateKeepsContacts(
    cfg: Settings, s: State, id: UserId, username: Option<string>, email: Option<string>, code: string, env: Env)
    ensures KeepsContacts(
              s.accounts, Operations.UpdateMeCredentials(cfg, s, id, username, email, code, env).state.accounts)
  {
  }

  lemma OtherUserKeepsContacts(cfg: Settings, s: State, id: UserId, role: Role, op: Op, env: Env)
    requires NeedsUser(op) && !op.ConfirmEmailChange?
    ensures KeepsContacts(s.accounts, AsUser(cfg, s, id, role, op, env).state.accounts)
  {
    if op.UpdateMeCredentials? {
      SelfUpdateKeepsContacts(cfg, s, id, op.username, op.email, op.code, env);
    }
  }

  // ----- Requests that do -----

  // What the request leaves in the contact columns: its transaction's work, or nothing.
  ghost predicate Serves(s: State, r: Result, request: ContactProtocol.Request) {
    ContactTable(r.state.accounts)
      == if r.outcome == Succeeded then Served(ContactTable(s.accounts), s.nextId, request)
         else ContactTable(s.accounts)
  }

  // A new phone number that had room.
  lemma PhoneServes(accounts: map<UserId, Account>, target: UserId, a': Account, newPhone: Option<string>)
    requires target in accounts && a'.role == accounts[target].role
    requires a'.profile.email == accounts[target].profile.email
    requires a'.profile.phoneNumber == if newPhone.Some? then newPhone else accounts[target].profile.phoneNumber
    requires a'.role == Student && newPhone.Some? && newPhone != accounts[target].profile.phoneNumber ==>
               !LimitIsReached(accounts, true, newPhone, None, Some(target))
    ensures ContactTable(accounts[target := a'])
         == Served(ContactTable(accounts), 0, ContactProtocol.UpdateUser(target, a'.role == Student, newPhone))
  {
  }

  // A new address that had room.
  lemma AddressServes(accounts: map<UserId, Account>, target: UserId, a': Account, newEmail: Option<string>)
    requires target in accounts && a'.role == accounts[target].role
    requires a'.profile.phoneNumber == accounts[target].profile.phoneNumber
    requires a'.profile.email == if newEmail.Some? then newEmail else accounts[target].profile.email
    requires a'.role == Student && newEmail.Some? && newEmail != accounts[target].profile.email ==>
               !LimitIsReached(accounts, true, None, newEmail, Some(target))
    ensures ContactTable(accounts[target := a'])
         == Served(ContactTable(accounts), 0, ContactProtocol.UpdateCredentials(target, newEmail))
  {
  }

  lemma RegistrationServes(cfg: Settings, s: State, student: bool, profile: Profile, env: Env)
    ensures Serves(s, Operations.RegisterUser(cfg, s, student, profile,
                                              RegistrationEnv(s.accounts, student, profile, env)),
                   ContactProtocol.Register(student, profile.phoneNumber.GetOr(""), profile.email.GetOr("")))
  {
  }

  // What a successful update has written, and that the check let it.
  lemma UserUpdateWrites(s: State, target: UserId, studentShaped: bool, request: Changes, env: Env)
    requires request.Keys <= UpdateFields(studentShaped)
    requires Operations.UpdateUser(s, target, studentShaped, request, env).outcome == Succeeded
    ensures target in s.accounts && (s.accounts[target].role == Student) == studentShaped
    ensures var accounts' := Operations.UpdateUser(s, target, studentShaped, request, env).state.accounts;
            var a, phone := s.accounts[target], Given(request, PhoneNumber);
            target in accounts' && accounts' == s.accounts[target := accounts'[target]]
            && accounts'[target].role == a.role
            && accounts'[target].profile.email == a.profile.email
            && accounts'[target].profile.phoneNumber == (if phone.Some? then phone else a.profile.phoneNumber)
            && (a.role == Student && phone.Some? && phone != a.profile.phoneNumber ==> !env.limitReached)
  {
  }

  lemma UserUpdateServes(s: State, target: UserId, studentShaped: bool, request: Changes, env: Env)
    requires request.Keys <= UpdateFields(studentShaped)
    ensures Serves(s, Operations.UpdateUser(s, target, studentShaped, request,
                                            UpdateEnv(s.accounts, target, request, env)),
                   ContactProtocol.UpdateUser(target, studentShaped, Given(request, PhoneNumber)))
  {
    var env' := UpdateEnv(s.accounts, target, request, env);
    var r := Operations.UpdateUser(s, target, studentShaped, request, env');
    if r.outcome == Succeeded {
      UserUpdateWrites(s, target, studentShaped, request, env');
      PhoneServes(s.accounts, target, r.state.accounts[target], Given(request, PhoneNumber));
    }
  }

  lemma CredentialUpdateWrites(cfg: Settings, s: State, target: UserId, request: Changes, env: Env)
    requires request.Keys <= CREDENTIAL_FIELDS
    requires Operations.UpdateUserCredentials(cfg, s, target, request, env).outcome == Succeeded
    ensures target in s.accounts
    ensures var accounts' := Operations.UpdateUserCredentials(cfg, s, target, request, env).state.accounts;
            var a, email := s.accounts[target], Given(request, Email);
            target in accounts' && accounts' == s.accounts[target := accounts'[target]]
            && accounts'[target].role == a.role
            && accounts'[target].profile.phoneNumber == a.profile.phoneNumber
            && accounts'[target].profile.email == (if email.Some? then email else a.profile.email)
            && (a.role == Student && email.Some? && email != a.profile.email ==> !env.limitReached)
  {
  }

  lemma CredentialUpdateServes(cfg: Settings, s: State, target: UserId, request: Changes, env: Env)
    requires request.Keys <= CREDENTIAL_FIELDS
    ensures Serves(s, Operations.UpdateUserCredentials(cfg, s, target, request,
                                                       CredentialsEnv(s.accounts, target, request, env)),
                   ContactProtocol.UpdateCredentials(target, Given(request, Email)))
  {
    var env' := CredentialsEnv(s.accounts, target, request, env);
    var r := Operations.UpdateUserCredentials(cfg, s, target, request, env');
    if r.outcome == Succeeded {
      CredentialUpdateWrites(cfg, s, target, request, env');
      AddressServes(s.accounts, target, r.state.accounts[target], Given(request, Email));
    }
  }

  lemma ConfirmationServes(s: State, id: UserId, code: string, env: Env)
    requires id in s.accounts && s.accounts[id].session.pendingEmail.Some? && s.accounts[id].profile.NotNull()
    ensures Serves(s, Operations.ConfirmEmailChange(s, id, code, ConfirmationEnv(s.accounts, id, env)),
                   ContactProtocol.ConfirmEmail(id, s.accounts[id].session.pendingEmail.value))
  {
  }

  // ----- Every step -----

  lemma ConfirmationStepServes(s: State, id: UserId, op: Op, env: Env)
    requires op.ConfirmEmailChange? && op.token.Some? && op.token.value.sub == id
    requires id in s.accounts && s.accounts[id].profile.NotNull()
    ensures StepServes(s, Operations.ConfirmEmailChange(s, id, op.code, WithTables(s.accounts, op, env)), op)
  {
    if s.accounts[id].session.pendingEmail.Some? {
      ConfirmationServes(s, id, op.code, env);
    }
  }

  lemma UserStepServes(cfg: Settings, s: State, op: Op, env: Env)
    requires Inv(s) && NeedsUser(op)
    ensures StepServes(s, Step(cfg, s, op, WithTables(s.accounts, op, env)), op)
  {
    var env' := WithTables(s.accounts, op, env);
    AuthenticationOnlyCaches(s, op.token, env');
    AuthenticationKeepsAccounts(s, op.token, env');
    var auth := GetCurrentUser(s, op.token, env');
    if !auth.outcome.Failed? {
      if op.ConfirmEmailChange? {
        assert AccountInv(s.accounts[auth.outcome.id]);
        ConfirmationStepServes(auth.state, auth.outcome.id, op, env);
      } else {
        OtherUserKeepsContacts(cfg, auth.state, auth.outcome.id, auth.outcome.role, op, env');
        KeptContacts(s.accounts, Step(cfg, s, op, env').state.accounts);
      }
    }
  }

  ghost predicate StepServes(s: State, r: Result, op: Op) {
    var request := TransactionOf(s.accounts, op);
    if request.Some? then Serves(s, r, request.value) else ContactTable(r.state.accounts) == ContactTable(s.accounts)
  }

  /** A request that succeeds by itself leaves the contacts of the accounts as its contact transaction
      leaves the contact table; any other request leaves them alone. */
  lemma StepServesContacts(cfg: Settings, s: State, op: Op, env: Env)
    requires Inv(s)
    ensures StepServes(s, Step(cfg, s, op, WithTables(s.accounts, op, env)), op)
  {
    if !SchemaAccepts(op) {
    } else if NeedsUser(op) {
      UserStepServes(cfg, s, op, env);
    } else if op.RegisterUser? {
      RegistrationServes(cfg, s, op.student, op.profile, env);
    } else if op.UpdateUser? {
      UserUpdateServes(s, op.target, op.studentShaped, op.request, env);
    } else if op.UpdateUserCredentials? {
      CredentialUpdateServes(cfg, s, op.target, op.request, env);
    } else {
      OtherAnonymousKeepsContacts(cfg, s, op, env);
      KeptContacts(s.accounts, Anonymous(cfg, s, op, env).state.accounts);
    }
  }

  // ----- The cap in serial runs -----

  // One row is written, and the contacts that are new to it had room.
  lemma OneRowKeepsCap(table: Table, id: UserId, row: Row)
    requires CapHolds(table)
    requires id in table ==> table[id].student == row.student
    requires forall field ::
               row.student ==>
                 (id in table && table[id].Contact(field) == row.Contact(field))
                 || CountUsersWithContact(table, true, field, row.Contact(field), Some(id)) < STUDENT_MAX_SHARED_CONTACT
    ensures CapHolds(table[id := row])
  {
    var table' := table[id := row];
    forall field, contact
      ensures CountUsersWithContact(table', true, field, contact, None) <= STUDENT_MAX_SHARED_CONTACT
    {
      assert CountUsersWithContact(table, true, field, contact, None) <= STUDENT_MAX_SHARED_CONTACT;
      if row.student && row.Contact(field) == contact && !(id in table && table[id].Contact(field) == contact) {
        OneMoreHolder(table, table', field, contact, id);
      } else {
        SubsetIsNoLarger(Holders(table', true, field, contact, None), Holders(table, true, field, contact, None));
      }
    }
  }

  lemma NobodyToExclude(table: Table, field: LockKeys.ContactField, contact: string, id: UserId)
    requires id !in table
    ensures CountUsersWithContact(table, true, field, contact, Some(id))
         == CountUsersWithContact(table, true, field, contact, None)
  {
    assert Holders(table, true, field, contact, Some(id)) == Holders(table, true, field, contact, None);
  }

  lemma ServedKeepsCap(table: Table, nextId: UserId, request: ContactProtocol.Request)
    requires CapHolds(table) && nextId !in table
    ensures CapHolds(Served(table, nextId, request))
  {
    match request
    case Register(student, phone, email) =>
      NobodyToExclude(table, LockKeys.Phone, phone, nextId);
      NobodyToExclude(table, LockKeys.Email, email, nextId);
      if CheckContactLimit(table, student, Some(phone), Some(email), None) == Allowed {
        OneRowKeepsCap(table, nextId, Row(student, phone, email));
      }
    case UpdateUser(target, _, newPhone) =>
      if target in table && newPhone.Some? {
        UpdateKeepsCap(table, target, LockKeys.Phone, newPhone.value);
      }
    case UpdateCredentials(target, newEmail) =>
      if target in table && newEmail.Some? {
        UpdateKeepsCap(table, target, LockKeys.Email, newEmail.value);
      }
    case ConfirmEmail(target, pending) =>
      if target in table {
        UpdateKeepsCap(table, target, LockKeys.Email, pending);
      }
  }

  lemma UpdateKeepsCap(table: Table, target: UserId, field: LockKeys.ContactField, value: string)
    requires CapHolds(table) && target in table
    ensures CapHolds(UpdatedContact(table, target, field, value))
  {
    if UpdatedContact(table, target, field, value) != table {
      OneRowKeepsCap(table, target, table[target].WithContact(field, value));
    }
  }

  // The limit check and the indexes answer each request of the run from the tables it meets.
  ghost predicate TablesDecide(cfg: Settings, s: State, events: seq<Event>)
    decreases |events|
  {
    events == []
    || (events[0].env == WithTables(s.accounts, events[0].op, events[0].env)
        && TablesDecide(cfg, Step(cfg, s, events[0].op, events[0].env).state, events[1..]))
  }

  lemma {:induction false} RunKeepsCap(cfg: Settings, s: State, events: seq<Event>)
    requires Inv(s) && CapHolds(ContactTable(s.accounts)) && TablesDecide(cfg, s, events)
    ensures CapHolds(ContactTable(Run(cfg, s, events).accounts))
    decreases |events|
  {
    if events == [] {
    } else {
      var op, env := events[0].op, events[0].env;
      var s1 := Step(cfg, s, op, env).state;
      StepServesContacts(cfg, s, op, env);
      StepKeepsInv(cfg, s, op, env);
      var request := TransactionOf(s.accounts, op);
      if request.Some? {
        ServedKeepsCap(ContactTable(s.accounts), s.nextId, request.value);
      }
      RunKeepsCap(cfg, s1, events[1..]);
    }
  }

  /** In every serial run of all the requests, no phone number and no e-mail address is ever held by more
      than three students. */
  lemma CapHoldsInSerialRuns(
    cfg: Settings, s0: State, events: seq<Event>, field: LockKeys.ContactField, contact: string)
    requires Init(s0) && CapHolds(ContactTable(s0.accounts)) && TablesDecide(cfg, s0, events)
    ensures |Holders(ContactTable(Run(cfg, s0, events).accounts), true, field, contact, None)| <= 3
  {
    RunKeepsCap(cfg, s0, events);
    assert CountUsersWithContact(ContactTable(Run(cfg, s0, events).accounts), true, field, contact, None) <= 3;
  }
}
