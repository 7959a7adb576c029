/** A contact with room is accepted: requests by themselves, with the limit check and the unique indexes
    answering from the tables, are refused at the cap and only there
    (src/users/utils/check_contact_limit.py, src/users/utils/constants.py, src/users/models/user.py). */
module RoomTheorems {
  import opened Prelude
  import opened Accounts
  import opened Operations
  import opened Invariants
  import opened SessionTheorems
  import opened AdminTheorems
  import opened AccountContacts
  import LockKeys
  import ContactLimit

  // The other students, or the other users who are not students, with this phone number.
  function WithPhone(
    accounts: map<UserId, Account>, students: bool, phone: Option<string>, exclude: Option<UserId>): set<UserId>
  {
    set id | id in accounts && (accounts[id].role == Student) == students
             && accounts[id].profile.phoneNumber == phone && exclude != Some(id)
  }

  // And with this e-mail address.
  function WithEmail(
    accounts: map<UserId, Account>, students: bool, email: Option<string>, exclude: Option<UserId>): set<UserId>
  {
    set id | id in accounts && (accounts[id].role == Student) == students
             && accounts[id].profile.email == email && exclude != Some(id)
  }

  ghost predicate AllHaveContacts(accounts: map<UserId, Account>) {
    forall id | id in accounts :: accounts[id].profile.phoneNumber.Some? && accounts[id].profile.email.Some?
  }

  lemma InvHasContacts(s: State)
    requires Inv(s)
    ensures AllHaveContacts(s.accounts)
  {
    forall id | id in s.accounts
      ensures s.accounts[id].profile.phoneNumber.Some? && s.accounts[id].profile.email.Some?
    {
      assert AccountInv(s.accounts[id]);
    }
  }

  lemma HoldersAre(accounts: map<UserId, Account>, students: bool, contact: string, exclude: Option<UserId>)
    requires AllHaveContacts(accounts)
    ensures ContactLimit.Holders(ContactTable(accounts), students, LockKeys.Phone, contact, exclude)
         == WithPhone(accounts, students, Some(contact), exclude)
    ensures ContactLimit.Holders(ContactTable(accounts), students, LockKeys.Email, contact, exclude)
         == WithEmail(accounts, students, Some(contact), exclude)
  {
  }

  // Fewer than three students, or nobody else, have the contacts that are given.
  predicate HasRoom(
    accounts: map<UserId, Account>, students: bool, phone: Option<string>, email: Option<string>,
    exclude: Option<UserId>)
  {
    (phone.Some? ==> |WithPhone(accounts, students, phone, exclude)| < if students then 3 else 1)
    && (email.Some? ==> |WithEmail(accounts, students, email, exclude)| < if students then 3 else 1)
  }

  /** The limit check raises if and only if a contact that is given has three other students, or one other user
      who is not a student. */
  lemma LimitIsReachedIff(
    accounts: map<UserId, Account>, students: bool, phone: Option<string>, email: Option<string>,
    exclude: Option<UserId>)
    requires AllHaveContacts(accounts)
    ensures LimitIsReached(accounts, students, phone, email, exclude)
       <==> !HasRoom(accounts, students, phone, email, exclude)
  {
    if phone.Some? {
      HoldersAre(accounts, students, phone.value, exclude);
    }
    if email.Some? {
      HoldersAre(accounts, students, email.value, exclude);
    }
  }

  // Nobody else who is not a student has one of these contacts.
  predicate NobodyElseHas(s: State, self: Option<UserId>, phone: Option<string>, email: Option<string>) {
    forall id | id in s.accounts && self != Some(id) && s.accounts[id].role != Student ::
      s.accounts[id].profile.phoneNumber != phone && s.accounts[id].profile.email != email
  }

  lemma ContactTakenIff(s: State, self: Option<UserId>, student: bool, phone: Option<string>, email: Option<string>)
    ensures NonStudentContactTaken(s.accounts, self, student, phone, email)
       <==> !student && !NobodyElseHas(s, self, phone, email)
  {
    if !student && !NobodyElseHas(s, self, phone, email) {
      var id :| id in s.accounts && self != Some(id) && s.accounts[id].role != Student
                && (s.accounts[id].profile.phoneNumber == phone || s.accounts[id].profile.email == email);
      assert HoldsContact(s.accounts, id, self, phone, email);
    }
  }

  lemma NobodyHasRoom(s: State, self: Option<UserId>, phone: Option<string>, email: Option<string>)
    requires NobodyElseHas(s, self, phone, email)
    ensures HasRoom(s.accounts, false, phone, email, self)
  {
    assert WithPhone(s.accounts, false, phone, self) == {} && WithEmail(s.accounts, false, email, self) == {};
  }

  // ----- Registration -----

  /** A student is registered if and only if the username is free and fewer than three students have the phone
      number and the address. */
  lemma StudentIsRegisteredIff(cfg: Settings, s: State, requested: Profile, env: Env)
    requires Inv(s) && HasRequiredColumns(requested)
    ensures Operations.RegisterUser(cfg, s, true, requested, RegistrationEnv(s.accounts, true, requested, env))
              .outcome == Succeeded
            <==> UsernameIsFree(s, None, requested.username)
                 && |WithPhone(s.accounts, true, requested.phoneNumber, None)| < 3
                 && |WithEmail(s.accounts, true, requested.email, None)| < 3
  {
    InvHasContacts(s);
    LimitIsReachedIff(s.accounts, true, requested.phoneNumber, requested.email, None);
    ContactTakenIff(s, None, true, requested.phoneNumber, requested.email);
    RegistrationIff(cfg, s, true, requested, RegistrationEnv(s.accounts, true, requested, env));
  }

  /** A teacher is registered if and only if the username is free and nobody who is not a student has the phone
      number or the address. */
  lemma TeacherIsRegisteredIff(cfg: Settings, s: State, requested: Profile, env: Env)
    requires Inv(s) && HasRequiredColumns(requested)
    ensures Operations.RegisterUser(cfg, s, false, requested, RegistrationEnv(s.accounts, false, requested, env))
              .outcome == Succeeded
            <==> UsernameIsFree(s, None, requested.username)
                 && NobodyElseHas(s, None, requested.phoneNumber, requested.email)
  {
    InvHasContacts(s);
    LimitIsReachedIff(s.accounts, false, requested.phoneNumber, requested.email, None);
    ContactTakenIff(s, None, false, requested.phoneNumber, requested.email);
    if NobodyElseHas(s, None, requested.phoneNumber, requested.email) {
      NobodyHasRoom(s, None, requested.phoneNumber, requested.email);
    }
    RegistrationIff(cfg, s, false, requested, RegistrationEnv(s.accounts, false, requested, env));
  }

  // ----- Changes of a contact -----

  /** A student's columns are changed if and only if something is to change, nothing required is taken away, and
      a new phone number has fewer than three other students. */
  lemma StudentIsUpdatedIff(s: State, target: UserId, request: Changes, env: Env)
    requires Inv(s) && target in s.accounts && s.accounts[target].role == Student
    requires request.Keys <= EditableColumns(true)
    ensures Operations.UpdateUser(s, target, true, request, UpdateEnv(s.accounts, target, request, env)).outcome
              == Succeeded
            <==> AsksForChange(s.accounts[target].profile, request) && KeepsRequired(request)
                 && (GivesNew(s.accounts[target].profile, request, PhoneNumber) ==>
                       |WithPhone(s.accounts, true, request[PhoneNumber], Some(target))| < 3)
  {
    InvHasContacts(s);
    LimitIsReachedIff(s.accounts, true, Given(request, PhoneNumber), None, Some(target));
    var profile := s.accounts[target].profile;
    ContactTakenIff(s, Some(target), true,
                    profile.Requested(request, PhoneNumber), profile.Requested(request, Email));
    UserUpdateIff(s, target, true, request, UpdateEnv(s.accounts, target, request, env));
  }

  /** The columns of a user who is not a student are changed if and only if something is to change, nothing
      required is taken away, and nobody else who is not a student has what the contacts then are. */
  lemma StaffIsUpdatedIff(s: State, target: UserId, request: Changes, env: Env)
    requires Inv(s) && target in s.accounts && Manageable(s, target) && s.accounts[target].role != Student
    requires request.Keys <= EditableColumns(false)
    ensures var profile := s.accounts[target].profile;
            var phone := if PhoneNumber in request then request[PhoneNumber] else profile.phoneNumber;
            Operations.UpdateUser(s, target, false, request, UpdateEnv(s.accounts, target, request, env)).outcome
              == Succeeded
            <==> AsksForChange(profile, request) && KeepsRequired(request)
                 && NobodyElseHas(s, Some(target), phone, profile.email)
  {
    var env' := UpdateEnv(s.accounts, target, request, env);
    StaffUpdateIsJudged(s, target, request, env);
    UserUpdateIff(s, target, false, request, env');
  }

  lemma StaffUpdateIsJudged(s: State, target: UserId, request: Changes, env: Env)
    requires target in s.accounts && s.accounts[target].role != Student && request.Keys <= EditableColumns(false)
    ensures var profile := s.accounts[target].profile;
            var phone := if PhoneNumber in request then request[PhoneNumber] else profile.phoneNumber;
            UpdateEnv(s.accounts, target, request, env).integrityError
            <==> !NobodyElseHas(s, Some(target), phone, profile.email)
  {
    var profile := s.accounts[target].profile;
    ContactTakenIff(s, Some(target), false,
                    profile.Requested(request, PhoneNumber), profile.Requested(request, Email));
  }

  /** A student's username or address is changed if and only if something is to change, nothing required is taken
      away, the username is free, and a new address has fewer than three other students. */
  lemma StudentIsOverriddenIff(cfg: Settings, s: State, target: UserId, request: Changes, env: Env)
    requires Inv(s) && target in s.accounts && s.accounts[target].role == Student
    requires request.Keys <= {Username, Email}
    ensures Operations.UpdateUserCredentials(cfg, s, target, request, CredentialsEnv(s.accounts, target, request, env))
              .outcome == Succeeded
            <==> AsksForChange(s.accounts[target].profile, request) && KeepsRequired(request)
                 && UsernameStaysFree(s, target, request)
                 && (GivesNew(s.accounts[target].profile, request, Email) ==>
                       |WithEmail(s.accounts, true, request[Email], Some(target))| < 3)
  {
    InvHasContacts(s);
    LimitIsReachedIff(s.accounts, true, None, Given(request, Email), Some(target));
    var profile := s.accounts[target].profile;
    ContactTakenIff(s, Some(target), true,
                    profile.Requested(request, PhoneNumber), profile.Requested(request, Email));
    CredentialUpdateIff(cfg, s, target, request, CredentialsEnv(s.accounts, target, request, env));
  }

  /** A pending address is confirmed by its code if and only if fewer than three other students have it, or, for
      a user who is not a student, nobody else who is not a student has it or the user's phone number. */
  lemma AddressIsConfirmedIff(s: State, id: UserId, code: string, env: Env)
    requires Inv(s) && id in s.accounts && CodeIsGood(s.accounts[id], s.now, code)
    ensures var a := s.accounts[id];
            Operations.ConfirmEmailChange(s, id, code, ConfirmationEnv(s.accounts, id, env)).outcome == Succeeded
            <==> if a.role == Student then |WithEmail(s.accounts, true, a.session.pendingEmail, Some(id))| < 3
                 else NobodyElseHas(s, Some(id), a.profile.phoneNumber, a.session.pendingEmail)
  {
    InvHasContacts(s);
    var a := s.accounts[id];
    LimitIsReachedIff(s.accounts, true, None, a.session.pendingEmail, Some(id));
    ContactTakenIff(s, Some(id), a.role == Student, a.profile.phoneNumber, a.session.pendingEmail);
    ConfirmationIff(s, id, code, ConfirmationEnv(s.accounts, id, env));
  }
}
