/** The contacts of the accounts as the table that the limit check counts in, and what the check and the
    unique indexes on contacts say to a request that runs by itself
    (src/users/utils/check_contact_limit.py, src/users/models/user.py). */
module AccountContacts {
  import opened Prelude
  import opened Accounts
  import opened ContactLimit

  function ContactRow(a: Account): Row {
    Row(a.role == Student, a.profile.phoneNumber.GetOr(""), a.profile.email.GetOr(""))
  }

  function ContactTable(accounts: map<UserId, Account>): Table {
    map id | id in accounts :: ContactRow(accounts[id])
  }

  // check_contact_limit raises.
  function LimitIsReached(
    accounts: map<UserId, Account>, students: bool, phone: Option<string>, email: Option<string>,
    exclude: Option<UserId>): bool
  {
    CheckContactLimit(ContactTable(accounts), students, phone, email, exclude) != Allowed
  }

  // This row belongs to somebody else who is not a student, and holds the phone number or the address.
  predicate HoldsContact(
    accounts: map<UserId, Account>, id: UserId, self: Option<UserId>, phone: Option<string>, email: Option<string>)
  {
    id in accounts && self != Some(id) && accounts[id].role != Student
    && (accounts[id].profile.phoneNumber == phone || accounts[id].profile.email == email)
  }

  // The partial unique indexes refuse these contacts.
  predicate NonStudentContactTaken(
    accounts: map<UserId, Account>, self: Option<UserId>, student: bool, phone: Option<string>, email: Option<string>)
  {
    !student
    && exists id {:trigger HoldsContact(accounts, id, self, phone, email)} | id in accounts ::
         HoldsContact(accounts, id, self, phone, email)
  }

  // ----- What the tables say to each request that writes contacts -----

  function WithVerdicts(env: Env, limitReached: bool, contactTaken: bool): Env {
    env.(limitReached := limitReached, integrityError := contactTaken)
  }

  function RegistrationEnv(accounts: map<UserId, Account>, student: bool, requested: Profile, env: Env): Env {
    WithVerdicts(env, LimitIsReached(accounts, student, requested.phoneNumber, requested.email, None),
                 NonStudentContactTaken(accounts, None, student, requested.phoneNumber, requested.email))
  }

  function UpdateEnv(accounts: map<UserId, Account>, target: UserId, request: Changes, env: Env): Env {
    if target !in accounts then env else
    var a := accounts[target];
    WithVerdicts(env, LimitIsReached(accounts, true, Given(request, PhoneNumber), None, Some(target)),
                 NonStudentContactTaken(accounts, Some(target), a.role == Student,
                                        a.profile.Requested(request, PhoneNumber), a.profile.Requested(request, Email)))
  }

  function CredentialsEnv(accounts: map<UserId, Account>, target: UserId, request: Changes, env: Env): Env {
    if target !in accounts then env else
    var a := accounts[target];
    WithVerdicts(env, LimitIsReached(accounts, true, None, Given(request, Email), Some(target)),
                 NonStudentContactTaken(accounts, Some(target), a.role == Student,
                                        a.profile.Requested(request, PhoneNumber), a.profile.Requested(request, Email)))
  }

  function ConfirmationEnv(accounts: map<UserId, Account>, id: UserId, env: Env): Env {
    if id !in accounts then env else
    var a := accounts[id];
    var pending := a.session.pendingEmail;
    WithVerdicts(env, LimitIsReached(accounts, true, None, pending, Some(id)),
                 NonStudentContactTaken(accounts, Some(id), a.role == Student, a.profile.phoneNumber, pending))
  }

  // A self-service update writes no contact.
  function SelfUpdateEnv(accounts: map<UserId, Account>, id: UserId, env: Env): Env {
    if id !in accounts then env else
    var a := accounts[id];
    WithVerdicts(env, false,
                 NonStudentContactTaken(accounts, Some(id), a.role == Student, a.profile.phoneNumber, a.profile.email))
  }
}
