/** The four transactions that write contacts, interleaved at READ COMMITTED
    (src/users/services/system_admin.py, src/users/services/shared.py,
    src/core/advisory_locks.py).

    A transaction is a program counter and what it has read so far.  Its steps are the database
    round trips of the source: read the target row, take the phone lock, take the e-mail lock,
    count phone holders, count e-mail holders, write privately, commit.  Between any two steps of
    one transaction any number of steps of the others may happen. */
module ContactProtocol {
  import opened Prelude
  import opened LockKeys
  import opened ContactLimit

  // What one request asks for.
  datatype Request =
    | Register(student: bool, phone: string, email: string)
    | UpdateUser(target: UserId, studentShaped: bool, newPhone: Option<string>)
    | UpdateCredentials(target: UserId, newEmail: Option<string>)
    | ConfirmEmail(target: UserId, pending: string)

  // The request schemas reject empty phone numbers and e-mail addresses.
  predicate Validated(request: Request) {
    match request
    case Register(_, phone, email) => phone != "" && email != ""
    case UpdateUser(_, _, newPhone) => newPhone != Some("")
    case UpdateCredentials(_, newEmail) => newEmail != Some("")
    case ConfirmEmail(_, pending) => pending != ""
  }

  datatype Pc = Read | Lock(field: ContactField) | Count(field: ContactField) | Write | Commit | Done

  // The place of a step in the program.
  function Rank(pc: Pc): nat {
    match pc
    case Read => 0
    case Lock(Phone) => 1
    case Lock(Email) => 2
    case Count(Phone) => 3
    case Count(Email) => 4
    case Write => 5
    case Commit => 6
    case Done => 7
  }

  function Next(pc: Pc): Pc {
    match pc
    case Read => Lock(Phone)
    case Lock(Phone) => Lock(Email)
    case Lock(Email) => Count(Phone)
    case Count(Phone) => Count(Email)
    case Count(Email) => Write
    case Write => Commit
    case Commit => Done
    case Done => Done
  }

  // A value for each of the two contact columns.
  datatype PerField<T> = PerField(phone: T, email: T) {
    function At(field: ContactField): T {
      match field
      case Phone => phone
      case Email => email
    }

    function With(field: ContactField, value: T): PerField<T> {
      match field
      case Phone => this.(phone := value)
      case Email => this.(email := value)
    }
  }

  datatype Tx = Tx(
    request: Request,
    pc: Pc,
    snapshot: Option<Row>,             // the target row as it was read, before any lock
    student: bool,
    want: PerField<Option<string>>,   // contacts to check and assign
    seen: PerField<nat>,               // holders counted
    dirty: PerField<Option<string>>)  // columns of the private UPDATE or INSERT
  {
    // The row left out of the counts: the target's own.
    function Self(): Option<UserId> {
      if request.Register? then None else Some(request.target)
    }

    // acquire_student_contact_lock is called for students only, and skips a missing or empty
    // contact.
    predicate NeedsLock(field: ContactField) {
      student && want.At(field).Some? && want.At(field).value != ""
    }

    // check_contact_limit is called for students, and for every registration.
    predicate NeedsCount(field: ContactField) {
      (student || request.Register?) && want.At(field).Some?
    }

    predicate Holds(field: ContactField) {
      pc != Done && Rank(Lock(field)) < Rank(pc) && NeedsLock(field)
    }

    // Past the limit check of a student's contact, and not ended.
    predicate Admitted(field: ContactField) {
      pc != Done && Rank(Count(field)) < Rank(pc) && NeedsLock(field)
    }
  }

  // An advisory lock: the field selects the namespace (9001 or 9002).
  datatype LockId = LockId(field: ContactField, key: int)

  datatype State = State(table: Table, nextId: UserId, txs: seq<Tx>, locks: map<LockId, nat>)

  datatype Action =
    | Start(request: Request)
    | Step(tx: nat)   // the next step of the program
    | Abort(tx: nat)  // any exception or integrity error: roll back

  const NO_CONTACTS: PerField<Option<string>> := PerField(None, None)

  function LockOf(hash: Hash, field: ContactField, contact: string): LockId {
    LockId(field, ComputeLockKey(hash, field, contact))
  }

  // ----- The steps -----

  // A contact is changing when it is given and differs from the row that was read.
  function Changing(requested: Option<string>, current: string): Option<string> {
    if requested.Some? && requested.value != current then requested else None
  }

  /** Read the target row and decide what to do with it.  No row, or a payload of the wrong shape,
      ends the transaction. */
  function AfterRead(table: Table, tx: Tx): Tx {
    match tx.request
    case Register(student, phone, email) =>
      tx.(pc := Next(Read), student := student, want := PerField(Some(phone), Some(email)))
    case UpdateUser(target, studentShaped, newPhone) =>
      if target !in table || table[target].student != studentShaped then tx.(pc := Done) else
      tx.(pc := Next(Read), snapshot := Some(table[target]), student := table[target].student,
          want := PerField(Changing(newPhone, table[target].phone), None))
    case UpdateCredentials(target, newEmail) =>
      if target !in table then tx.(pc := Done) else
      tx.(pc := Next(Read), snapshot := Some(table[target]), student := table[target].student,
          want := PerField(None, Changing(newEmail, table[target].email)))
    case ConfirmEmail(target, pending) =>
      if target !in table then tx.(pc := Done) else
      tx.(pc := Next(Read), snapshot := Some(table[target]), student := table[target].student,
          want := PerField(None, Some(pending)))
  }

  /** The ORM writes a column only when the assigned value differs from the one it loaded. */
  function DirtyColumn(tx: Tx, field: ContactField): Option<string> {
    if tx.snapshot.Some? && tx.want.At(field) == Some(tx.snapshot.value.Contact(field)) then None
    else tx.want.At(field)
  }

  // The private write, applied to the latest committed version of the row.
  function Written(row: Row, dirty: PerField<Option<string>>): Row {
    Row(row.student, dirty.phone.GetOr(row.phone), dirty.email.GetOr(row.email))
  }

  // COMMIT and ROLLBACK both release every lock of the transaction.
  function Released(locks: map<LockId, nat>, t: nat): map<LockId, nat> {
    map l | l in locks && locks[l] != t :: locks[l]
  }

  function End(s: State, t: nat): State
    requires t < |s.txs|
  {
    s.(txs := s.txs[t := s.txs[t].(pc := Done)], locks := Released(s.locks, t))
  }

  function PublishedTable(
    table: Table, nextId: UserId, request: Request, student: bool, dirty: PerField<Option<string>>): Table
  {
    if request.Register? then table[nextId := Written(Row(student, "", ""), dirty)]
    else if request.target in table then table[request.target := Written(table[request.target], dirty)]
    else table
  }

  function Published(s: State, tx: Tx): State {
    s.(table := PublishedTable(s.table, s.nextId, tx.request, tx.student, tx.dirty),
       nextId := if tx.request.Register? then s.nextId + 1 else s.nextId)
  }

  // pg_advisory_xact_lock waits while another transaction holds the key.
  predicate Blocked(hash: Hash, s: State, t: nat)
    requires t < |s.txs|
  {
    var tx := s.txs[t];
    tx.pc.Lock? && tx.NeedsLock(tx.pc.field)
    && LockOf(hash, tx.pc.field, tx.want.At(tx.pc.field).value) in s.locks
  }

  predicate Unfinished(s: State, t: nat) {
    t < |s.txs| && s.txs[t].pc != Done
  }

  predicate CanStep(hash: Hash, s: State, t: nat) {
    Unfinished(s, t) && !Blocked(hash, s, t)
  }

  function DoStep(hash: Hash, s: State, t: nat): State
    requires CanStep(hash, s, t)
  {
    var tx := s.txs[t];
    var advanced := tx.(pc := Next(tx.pc));
    match tx.pc
    case Read => s.(txs := s.txs[t := AfterRead(s.table, tx)])
    case Lock(field) =>
      s.(txs := s.txs[t := advanced],
         locks := if tx.NeedsLock(field)
                  then s.locks[LockOf(hash, field, tx.want.At(field).value) := t] else s.locks)
    case Count(field) =>
      if !tx.NeedsCount(field) then s.(txs := s.txs[t := advanced]) else
      var count := CountUsersWithContact(s.table, tx.student, field, tx.want.At(field).value, tx.Self());
      if count >= MaxAllowed(tx.student) then End(s, t)
      else s.(txs := s.txs[t := advanced.(seen := tx.seen.With(field, count))])
    case Write =>
      s.(txs := s.txs[t := advanced.(dirty := PerField(DirtyColumn(tx, Phone), DirtyColumn(tx, Email)))])
    case Commit => End(Published(s, tx), t)
  }

  predicate Enabled(hash: Hash, s: State, a: Action) {
    match a
    case Start(request) => Validated(request)
    case Step(t) => CanStep(hash, s, t)
    case Abort(t) => Unfinished(s, t)
  }

  function Do(hash: Hash, s: State, a: Action): State
    requires Enabled(hash, s, a)
  {
    match a
    case Start(request) =>
      s.(txs := s.txs + [Tx(request, Read, None, false, NO_CONTACTS, PerField(0, 0), NO_CONTACTS)])
    case Step(t) => DoStep(hash, s, t)
    case Abort(t) => End(s, t)
  }

  // ----- Runs -----

  // Before the first transaction: any table that respects the cap, and no locks.
  ghost predicate Init(s: State) {
    s.txs == [] && s.locks == map[] && CapHolds(s.table) && forall id | id in s.table :: id < s.nextId
  }

  ghost predicate Runs(hash: Hash, s: State, actions: seq<Action>)
    decreases |actions|
  {
    actions == [] || (Enabled(hash, s, actions[0]) && Runs(hash, Do(hash, s, actions[0]), actions[1..]))
  }

  ghost function After(hash: Hash, s: State, actions: seq<Action>): State
    requires Runs(hash, s, actions)
    decreases |actions|
  {
    if actions == [] then s else After(hash, Do(hash, s, actions[0]), actions[1..])
  }

  // ----- What every step keeps -----

  ghost predicate LocksHaveHolders(hash: Hash, s: State) {
    forall l | l in s.locks ::
      s.locks[l] < |s.txs|
      && s.txs[s.locks[l]].Holds(l.field)
      && LockOf(hash, l.field, s.txs[s.locks[l]].want.At(l.field).value) == l
  }

  ghost predicate OwnsItsLocks(hash: Hash, s: State, t: nat, field: ContactField)
    requires t < |s.txs|
  {
    s.txs[t].Holds(field) ==>
      var l := LockOf(hash, field, s.txs[t].want.At(field).value);
      l in s.locks && s.locks[l] == t
  }

  // The other students who hold the contact are no more than those counted, which were too few.
  ghost predicate CountStands(s: State, t: nat, field: ContactField)
    requires t < |s.txs|
  {
    var tx := s.txs[t];
    tx.Admitted(field) ==>
      CountUsersWithContact(s.table, true, field, tx.want.At(field).value, tx.Self()) <= tx.seen.At(field)
      && tx.seen.At(field) < STUDENT_MAX_SHARED_CONTACT
  }

  ghost predicate WritesWhatItWants(s: State, t: nat, field: ContactField)
    requires t < |s.txs|
  {
    var tx := s.txs[t];
    (tx.dirty.At(field).Some? ==> tx.dirty.At(field) == tx.want.At(field) && Rank(Write) < Rank(tx.pc))
    && tx.want.At(field) != Some("")
    && Validated(tx.request)
    && (tx.pc == Read ==> tx.want.At(field).None?)
    && (tx.request.Register? && Rank(Read) < Rank(tx.pc) && tx.pc != Done ==> tx.want.At(field).Some?)
    && (tx.request.Register? && tx.pc == Commit ==> tx.dirty.At(field).Some?)
  }

  ghost predicate KnowsItsTarget(s: State, t: nat)
    requires t < |s.txs|
  {
    var tx := s.txs[t];
    (tx.request.Register? ==> tx.snapshot.None?)
    && (tx.Self().Some? && Rank(Read) < Rank(tx.pc) && tx.pc != Done ==>
          tx.request.target in s.table && s.table[tx.request.target].student == tx.student)
  }

  ghost predicate Inv(hash: Hash, s: State) {
    && LocksHaveHolders(hash, s)
    && (forall t, field | 0 <= t < |s.txs| :: OwnsItsLocks(hash, s, t, field))
    && (forall t, field | 0 <= t < |s.txs| :: CountStands(s, t, field))
    && (forall t, field | 0 <= t < |s.txs| :: WritesWhatItWants(s, t, field))
    && (forall t | 0 <= t < |s.txs| :: KnowsItsTarget(s, t))
    && (forall id | id in s.table :: id < s.nextId)
    && CapHolds(s.table)
  }

  /** Two transactions that are both past the lock of a field want different contacts there. */
  lemma LocksExclude(hash: Hash, s: State, t: nat, u: nat, field: ContactField)
    requires Inv(hash, s) && t < |s.txs| && u < |s.txs| && t != u
    requires s.txs[t].Holds(field) && s.txs[u].Holds(field)
    ensures s.txs[t].want.At(field) != s.txs[u].want.At(field)
  {
    assert OwnsItsLocks(hash, s, t, field) && OwnsItsLocks(hash, s, u, field);
  }

  // A step that changes one transaction only, and not the table.
  ghost predicate OnlyMoves(s: State, s': State, t: nat) {
    t < |s.txs| && |s'.txs| == |s.txs| && s'.table == s.table && s'.nextId == s.nextId
    && forall u | 0 <= u < |s.txs| && u != t :: s'.txs[u] == s.txs[u]
  }

  lemma EndKeepsInv(hash: Hash, s: State, t: nat)
    requires Inv(hash, s) && t < |s.txs|
    ensures Inv(hash, End(s, t))
  {
    var s' := End(s, t);
    forall u, field | 0 <= u < |s'.txs|
      ensures OwnsItsLocks(hash, s', u, field) && CountStands(s', u, field) && WritesWhatItWants(s', u, field)
    {
      assert OwnsItsLocks(hash, s, u, field) && CountStands(s, u, field) && WritesWhatItWants(s, u, field);
    }
    forall u | 0 <= u < |s'.txs| ensures KnowsItsTarget(s', u) {
      assert KnowsItsTarget(s, u);
    }
  }

  /** A step that leaves the table alone keeps the invariant if the transaction that moves keeps its
      own part of it, and the lock table follows what it holds. */
  lemma MoveKeepsInv(hash: Hash, s: State, s': State, t: nat)
    requires Inv(hash, s) && OnlyMoves(s, s', t)
    requires LocksHaveHolders(hash, s')
    requires forall l | l in s.locks && s.locks[l] != t :: l in s'.locks && s'.locks[l] == s.locks[l]
    requires forall field :: OwnsItsLocks(hash, s', t, field) && CountStands(s', t, field)
                             && WritesWhatItWants(s', t, field)
    requires KnowsItsTarget(s', t)
    ensures Inv(hash, s')
  {
    forall u, field | 0 <= u < |s'.txs|
      ensures OwnsItsLocks(hash, s', u, field) && CountStands(s', u, field) && WritesWhatItWants(s', u, field)
    {
      assert OwnsItsLocks(hash, s, u, field) && CountStands(s, u, field) && WritesWhatItWants(s, u, field);
    }
    forall u | 0 <= u < |s'.txs| ensures KnowsItsTarget(s', u) {
      assert KnowsItsTarget(s, u);
    }
  }

  lemma ReadKeepsInv(hash: Hash, s: State, t: nat)
    requires Inv(hash, s) && CanStep(hash, s, t) && s.txs[t].pc == Read
    ensures Inv(hash, DoStep(hash, s, t))
  {
    var s' := DoStep(hash, s, t);
    assert KnowsItsTarget(s, t);
    forall field
      ensures OwnsItsLocks(hash, s', t, field) && CountStands(s', t, field) && WritesWhatItWants(s', t, field)
    {
      assert WritesWhatItWants(s, t, field);
    }
    MoveKeepsInv(hash, s, s', t);
  }

  lemma LockPasses(hash: Hash, s: State, t: nat)
    requires t < |s.txs| && s.txs[t].pc.Lock? && !Blocked(hash, s, t)
    ensures var s' := DoStep(hash, s, t);
            OnlyMoves(s, s', t) && s'.txs[t] == s.txs[t].(pc := Next(s.txs[t].pc))
            && (forall l | l in s'.locks :: l in s.locks || l.field == s.txs[t].pc.field)
            && s'.locks == if s.txs[t].NeedsLock(s.txs[t].pc.field)
                           then s.locks[LockOf(hash, s.txs[t].pc.field, s.txs[t].want.At(s.txs[t].pc.field).value) := t]
                           else s.locks
  {
  }

  lemma LockIsOwned(hash: Hash, s: State, t: nat)
    requires Inv(hash, s) && CanStep(hash, s, t) && s.txs[t].pc.Lock?
    ensures LocksHaveHolders(hash, DoStep(hash, s, t))
    ensures forall field :: OwnsItsLocks(hash, DoStep(hash, s, t), t, field)
  {
    LockPasses(hash, s, t);
    forall field ensures OwnsItsLocks(hash, DoStep(hash, s, t), t, field) {
      assert OwnsItsLocks(hash, s, t, field);
    }
  }

  lemma LockKeepsInv(hash: Hash, s: State, t: nat)
    requires Inv(hash, s) && CanStep(hash, s, t) && s.txs[t].pc.Lock?
    ensures Inv(hash, DoStep(hash, s, t))
  {
    var s' := DoStep(hash, s, t);
    LockPasses(hash, s, t);
    LockIsOwned(hash, s, t);
    assert KnowsItsTarget(s, t);
    forall field ensures CountStands(s', t, field) && WritesWhatItWants(s', t, field) {
      assert WritesWhatItWants(s, t, field);
    }
    MoveKeepsInv(hash, s, s', t);
  }

  predicate Refused(table: Table, tx: Tx, field: ContactField) {
    tx.NeedsCount(field)
    && CountUsersWithContact(table, tx.student, field, tx.want.At(field).value, tx.Self()) >= MaxAllowed(tx.student)
  }

  lemma CountDecides(hash: Hash, s: State, t: nat)
    requires t < |s.txs| && s.txs[t].pc.Count?
    ensures var tx := s.txs[t];
            var s' := DoStep(hash, s, t);
            OnlyMoves(s, s', t)
            && (if Refused(s.table, tx, tx.pc.field) then s'.txs[t].pc == Done
                else s'.txs[t] == tx.(pc := Next(tx.pc), seen := s'.txs[t].seen) && s'.locks == s.locks)
  {
  }

  lemma CountRecords(hash: Hash, s: State, t: nat, field: ContactField)
    requires Inv(hash, s) && CanStep(hash, s, t) && s.txs[t].pc.Count? && !Refused(s.table, s.txs[t], s.txs[t].pc.field)
    ensures CountStands(DoStep(hash, s, t), t, field)
  {
    assert CountStands(s, t, field) && WritesWhatItWants(s, t, field);
  }

  lemma CountKeepsInv(hash: Hash, s: State, t: nat)
    requires Inv(hash, s) && CanStep(hash, s, t) && s.txs[t].pc.Count?
    ensures Inv(hash, DoStep(hash, s, t))
  {
    var s' := DoStep(hash, s, t);
    if Refused(s.table, s.txs[t], s.txs[t].pc.field) {
      EndKeepsInv(hash, s, t);
    } else {
      CountDecides(hash, s, t);
      forall field
        ensures OwnsItsLocks(hash, s', t, field) && CountStands(s', t, field) && WritesWhatItWants(s', t, field)
      {
        CountRecords(hash, s, t, field);
        assert OwnsItsLocks(hash, s, t, field) && WritesWhatItWants(s, t, field);
      }
      assert KnowsItsTarget(s, t);
      MoveKeepsInv(hash, s, s', t);
    }
  }

  lemma WriteKeepsInv(hash: Hash, s: State, t: nat)
    requires Inv(hash, s) && CanStep(hash, s, t) && s.txs[t].pc == Write
    ensures Inv(hash, DoStep(hash, s, t))
  {
    var s' := DoStep(hash, s, t);
    assert KnowsItsTarget(s, t);
    forall field
      ensures OwnsItsLocks(hash, s', t, field) && CountStands(s', t, field) && WritesWhatItWants(s', t, field)
    {
      assert OwnsItsLocks(hash, s, t, field) && CountStands(s, t, field) && WritesWhatItWants(s, t, field);
    }
    MoveKeepsInv(hash, s, s', t);
  }

  // ----- The commit -----

  // The row a commit writes: a new one for a registration.
  function Target(s: State, tx: Tx): UserId {
    if tx.request.Register? then s.nextId else tx.request.target
  }

  /** After a commit the holders of a contact are old holders, plus the target if the transaction
      wrote that contact. */
  lemma CommitHolders(hash: Hash, s: State, t: nat, field: ContactField, contact: string, exclude: Option<UserId>)
    requires Inv(hash, s) && t < |s.txs| && s.txs[t].pc == Commit
    ensures var id := Target(s, s.txs[t]);
            var after := Holders(Published(s, s.txs[t]).table, true, field, contact, exclude);
            if s.txs[t].student && s.txs[t].dirty.At(field) == Some(contact)
            then after <= Holders(s.table, true, field, contact, Some(id)) + {id}
            else after <= Holders(s.table, true, field, contact, exclude)
  {
    assert KnowsItsTarget(s, t) && WritesWhatItWants(s, t, field);
    var tx := s.txs[t];
    var id := Target(s, tx);
    var table' := Published(s, tx).table;
    assert table'.Keys == s.table.Keys + {id};
    assert table'[id].student == tx.student;
    assert table'[id].Contact(field)
        == if tx.dirty.At(field).Some? then tx.dirty.At(field).value else s.table[id].Contact(field);
    assert forall other | other in s.table && other != id :: table'[other] == s.table[other];
  }

  lemma CommitKeepsCap(hash: Hash, s: State, t: nat)
    requires Inv(hash, s) && t < |s.txs| && s.txs[t].pc == Commit
    ensures CapHolds(Published(s, s.txs[t]).table)
  {
    var tx := s.txs[t];
    var id := Target(s, tx);
    var table' := Published(s, tx).table;
    forall field, contact
      ensures CountUsersWithContact(table', true, field, contact, None) <= STUDENT_MAX_SHARED_CONTACT
    {
      CommitHolders(hash, s, t, field, contact, None);
      if tx.student && tx.dirty.At(field) == Some(contact) {
        assert WritesWhatItWants(s, t, field) && CountStands(s, t, field);
        SubsetIsNoLarger(Holders(s.table, true, field, contact, Some(id)),
                         Holders(s.table, true, field, contact, tx.Self()));
        OneMoreHolder(s.table, table', field, contact, id);
      } else {
        SubsetIsNoLarger(Holders(table', true, field, contact, None), Holders(s.table, true, field, contact, None));
        assert CountUsersWithContact(s.table, true, field, contact, None) <= STUDENT_MAX_SHARED_CONTACT;
      }
    }
  }

  /** A commit cannot raise the count another transaction relies on: it would need its lock. */
  lemma CommitKeepsCount(hash: Hash, s: State, t: nat, u: nat, field: ContactField)
    requires Inv(hash, s) && t < |s.txs| && s.txs[t].pc == Commit && u < |s.txs| && u != t
    ensures CountStands(Published(s, s.txs[t]), u, field)
  {
    assert CountStands(s, u, field);
    if s.txs[u].Admitted(field) {
      var contact := s.txs[u].want.At(field).value;
      if s.txs[t].student && s.txs[t].dirty.At(field) == Some(contact) {
        assert WritesWhatItWants(s, t, field);
        LocksExclude(hash, s, t, u, field);
        assert false;
      }
      CommitHolders(hash, s, t, field, contact, s.txs[u].Self());
      SubsetIsNoLarger(Holders(Published(s, s.txs[t]).table, true, field, contact, s.txs[u].Self()),
                       Holders(s.table, true, field, contact, s.txs[u].Self()));
    }
  }

  lemma CommitKeepsInv(hash: Hash, s: State, t: nat)
    requires Inv(hash, s) && CanStep(hash, s, t) && s.txs[t].pc == Commit
    ensures Inv(hash, DoStep(hash, s, t))
  {
    var p := Published(s, s.txs[t]);
    var s' := End(p, t);
    CommitKeepsCap(hash, s, t);
    assert KnowsItsTarget(s, t);
    forall u, field | 0 <= u < |s'.txs|
      ensures OwnsItsLocks(hash, s', u, field) && CountStands(s', u, field) && WritesWhatItWants(s', u, field)
    {
      assert OwnsItsLocks(hash, s, u, field) && WritesWhatItWants(s, u, field);
      if u != t {
        CommitKeepsCount(hash, s, t, u, field);
      }
    }
    forall u | 0 <= u < |s'.txs| ensures KnowsItsTarget(s', u) {
      assert KnowsItsTarget(s, u);
    }
  }

  lemma DoKeepsInv(hash: Hash, s: State, a: Action)
    requires Inv(hash, s) && Enabled(hash, s, a)
    ensures Inv(hash, Do(hash, s, a))
  {
    match a
    case Start(_) =>
      var s' := Do(hash, s, a);
      forall u, field | 0 <= u < |s'.txs|
        ensures OwnsItsLocks(hash, s', u, field) && CountStands(s', u, field) && WritesWhatItWants(s', u, field)
      {
        if u < |s.txs| {
          assert OwnsItsLocks(hash, s, u, field) && CountStands(s, u, field) && WritesWhatItWants(s, u, field);
        }
      }
      forall u | 0 <= u < |s'.txs| ensures KnowsItsTarget(s', u) {
        assert u < |s.txs| ==> KnowsItsTarget(s, u);
      }
    case Step(t) =>
      match s.txs[t].pc {
      case Read => ReadKeepsInv(hash, s, t);
      case Lock(_) => LockKeepsInv(hash, s, t);
      case Count(_) => CountKeepsInv(hash, s, t);
      case Write => WriteKeepsInv(hash, s, t);
      case Commit => CommitKeepsInv(hash, s, t);
      }
    case Abort(t) =>
      EndKeepsInv(hash, s, t);
  }

  lemma {:induction false} RunKeepsInv(hash: Hash, s: State, actions: seq<Action>)
    requires Inv(hash, s) && Runs(hash, s, actions)
    ensures Inv(hash, After(hash, s, actions))
    decreases |actions|
  {
    if actions == [] {
    } else {
      DoKeepsInv(hash, s, actions[0]);
      RunKeepsInv(hash, Do(hash, s, actions[0]), actions[1..]);
    }
  }
}
