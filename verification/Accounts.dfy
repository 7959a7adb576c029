/** The rows of the user tables, the tokens, the cache entries and the outbox, as values
    (src/users/models/, src/core/security.py, src/core/caching.py, src/emails/models.py). */
module Accounts {
  import opened Prelude

  datatype Role = SystemAdmin | Director | Teacher | Student

  datatype Status = Active | Deactivated | PendingActivation | Graduated | Expelled | Withdrawn

  // ----- Personal columns -----

  datatype Field =
    | Username | Firstname | Lastname | Middlename
    | PhoneNumber | Email | DateOfBirth | Address

  // None is SQL NULL.
  datatype Profile = Profile(
    username: Option<string>, firstname: Option<string>, lastname: Option<string>, middlename: Option<string>,
    phoneNumber: Option<string>, email: Option<string>, dateOfBirth: Option<string>, address: Option<string>)
  {
    function Get(field: Field): Option<string> {
      match field
      case Username => username
      case Firstname => firstname
      case Lastname => lastname
      case Middlename => middlename
      case PhoneNumber => phoneNumber
      case Email => email
      case DateOfBirth => dateOfBirth
      case Address => address
    }

    function Set(field: Field, value: Option<string>): Profile {
      match field
      case Username => this.(username := value)
      case Firstname => this.(firstname := value)
      case Lastname => this.(lastname := value)
      case Middlename => this.(middlename := value)
      case PhoneNumber => this.(phoneNumber := value)
      case Email => this.(email := value)
      case DateOfBirth => this.(dateOfBirth := value)
      case Address => this.(address := value)
    }

    // The profile with the requested columns replaced.
    function Merged(request: Changes): Profile {
      Profile(Requested(request, Username), Requested(request, Firstname), Requested(request, Lastname),
              Requested(request, Middlename), Requested(request, PhoneNumber), Requested(request, Email),
              Requested(request, DateOfBirth), Requested(request, Address))
    }

    function Requested(request: Changes, field: Field): Option<string> {
      if field in request then request[field] else Get(field)
    }

    // The columns declared NOT NULL.
    predicate NotNull() {
      username.Some? && firstname.Some? && lastname.Some? && phoneNumber.Some? && email.Some?
    }
  }

  lemma ProfilesAgree(p: Profile, q: Profile)
    requires forall f :: p.Get(f) == q.Get(f)
    ensures p == q
  {
    assert p.Get(Username) == q.Get(Username) && p.Get(Firstname) == q.Get(Firstname)
        && p.Get(Lastname) == q.Get(Lastname) && p.Get(Middlename) == q.Get(Middlename)
        && p.Get(PhoneNumber) == q.Get(PhoneNumber) && p.Get(Email) == q.Get(Email)
        && p.Get(DateOfBirth) == q.Get(DateOfBirth) && p.Get(Address) == q.Get(Address);
  }

  // The fields that were set in a PATCH payload.
  type Changes = map<Field, Option<string>>

  // A payload field, None when it was left out or set to null.
  function Given(request: Changes, field: Field): Option<string> {
    if field in request then request[field] else None
  }

  // ----- Secrets -----

  datatype AccessToken = AccessToken(sub: UserId, role: Role, version: nat, expires: Time)

  datatype RefreshToken = RefreshToken(sub: UserId, jti: nat, expires: Time)

  datatype Secret = Jwt(token: RefreshToken) | Raw(draw: nat) | Code(digits: string)

  // Hash functions are taken to be injective.
  datatype Digest = Sha256(of: Secret)

  datatype PasswordHash = Bcrypt(of: string)

  // A missing hash verifies no password.
  predicate VerifyPassword(password: string, hash: Option<PasswordHash>) {
    hash == Some(Bcrypt(password))
  }

  // ----- Rows -----

  datatype Session = Session(
    version: nat,
    refreshHash: Option<Digest>, refreshFamily: Option<nat>, refreshExpires: Option<Time>,
    resetHash: Option<Digest>, resetExpires: Option<Time>,
    pendingEmail: Option<string>, codeHash: Option<Digest>, codeExpires: Option<Time>)
  {
    // The access version moves on and the refresh state is cleared.
    function Revoked(): Session {
      this.(version := version + 1, refreshHash := None, refreshFamily := None, refreshExpires := None)
    }

    function WithoutEmailChange(): Session {
      this.(pendingEmail := None, codeHash := None, codeExpires := None)
    }
  }

  const NEW_SESSION := Session(1, None, None, None, None, None, None, None, None)

  datatype Activation = Activation(inviteHash: Option<Digest>, inviteExpires: Option<Time>)

  datatype Lockout = Lockout(failed: nat, lockedUntil: Option<Time>)

  const NO_FAILURES := Lockout(0, None)

  datatype Account = Account(
    role: Role, status: Status, isActive: bool, passwordHash: Option<PasswordHash>, profile: Profile,
    session: Session, activation: Activation, lockout: Lockout)

  datatype MailKind = Invite | AdminCredentialsOverride | PasswordResetAdmin

  // A row of the outbox; `token` is the raw token its body carries.
  datatype Mail = Mail(kind: MailKind, recipient: Option<string>, token: Option<nat>, user: UserId)

  // ----- The cache -----

  datatype Key =
    | TokenVersion(id: UserId)
    | SelfDetail(id: UserId)
    | AdminDetail(id: UserId)
    | StaffDetail(id: UserId)

  // The keys of the cached views of a user.
  function DetailKeys(id: UserId): set<Key> {
    {AdminDetail(id), StaffDetail(id), SelfDetail(id)}
  }

  /** A user as administrators and directors see one; what directors do not see is None. */
  datatype Detail = Detail(role: Role, status: Status, isActive: Option<bool>, profile: Profile)

  function DetailOf(a: Account, staff: bool): Detail {
    if staff then Detail(a.role, a.status, None, a.profile.(username := None, email := None))
    else Detail(a.role, a.status, Some(a.isActive), a.profile)
  }

  datatype CacheValue = Version(version: nat) | SelfView(profile: Profile) | DetailView(detail: Detail)

  datatype Entry = Entry(value: CacheValue, expires: Time)

  type Cache = map<Key, Entry>

  // An entry set with a time to live is gone once that time has passed.  Failures read as a miss.
  function CacheGet(cache: Cache, now: Time, key: Key, ok: bool): Option<CacheValue> {
    if ok && key in cache && now < cache[key].expires then Some(cache[key].value) else None
  }

  // A failed write or delete leaves the store as it was.
  function CacheSet(cache: Cache, now: Time, key: Key, value: CacheValue, ttl: nat, ok: bool): Cache {
    if ok then cache[key := Entry(value, now + ttl)] else cache
  }

  function CacheDelete(cache: Cache, keys: set<Key>, ok: bool): Cache {
    if ok then cache - keys else cache
  }

  // ----- The whole system -----

  datatype Settings = Settings(
    accessMinutes: nat, refreshDays: nat, inviteHours: nat, resetMinutes: nat, codeMinutes: nat)

  datatype State = State(
    now: Time,
    accounts: map<UserId, Account>,
    nextId: UserId,
    outbox: seq<Mail>,
    cache: Cache,
    draws: nat,                      // random draws made so far
    accessIssued: set<AccessToken>,  // tokens signed so far; nothing else has a valid signature
    refreshIssued: set<RefreshToken>)
  {
    function Saved(id: UserId, account: Account): State {
      this.(accounts := accounts[id := account])
    }
  }

  datatype Error =
    | Unprocessable | EmptyCredentials | InvalidCredentials | AccountLocked | AccountInactive
    | InvalidInviteToken | ExpiredInviteToken | InvalidRefreshToken | ExpiredRefreshToken
    | ExpiredResetToken | InvalidResetToken | InvalidAccessToken | UserNotFound | UserTypeMismatch
    | NoChangesDetected | ContactLimitReached | IntegrityError | UserAlreadyInactive
    | UserAlreadyActive | UserNotPendingActivation | NoPendingEmailChange | EmailChangeCodeExpired
    | InvalidEmailChangeCode | DuplicateEmailChangeRequest | IncorrectPassword
    | AccessDenied
    | NullDereference // a null met where the source needs a value

  datatype Outcome =
    | Succeeded
    | LoggedIn(access: AccessToken, refresh: RefreshToken, family: nat)
    | ActingAs(id: UserId, role: Role)
    | SawProfile(profile: Profile)
    | SawDetail(detail: Detail)
    | Failed(error: Error)

  datatype Result = Result(state: State, outcome: Outcome)

  // What the surroundings decide during one request.
  datatype Env = Env(
    getOk: bool, setOk: bool, deleteOk: bool, // whether the Redis calls go through
    deleteAgainOk: bool,                      // and the second delete of update_me_credentials
    integrityError: bool,                     // a unique index other than the username's is violated
    limitReached: bool)                       // check_contact_limit raises
  {
    predicate DeletesOk() {
      deleteOk && deleteAgainOk
    }
  }
}
