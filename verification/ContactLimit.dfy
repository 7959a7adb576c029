/** Who holds a contact, and the limit check (src/users/repositories/user.py,
    src/users/utils/check_contact_limit.py). */
module ContactLimit {
  import opened Prelude
  import opened LockKeys

  const STUDENT_MAX_SHARED_CONTACT := 3
  const TEACHER_MAX_SHARED_CONTACT := 1

  // The columns of a user row that the contact rules look at.
  datatype Row = Row(student: bool, phone: string, email: string) {
    function Contact(field: ContactField): string {
      match field
      case Phone => phone
      case Email => email
    }

    function WithContact(field: ContactField, value: string): Row {
      match field
      case Phone => this.(phone := value)
      case Email => this.(email := value)
    }
  }

  type Table = map<UserId, Row>

  /** The rows matched by count_users_with_contact: the given kind of user, holding the contact,
      leaving out one row if asked to. */
  function Holders(table: Table, students: bool, field: ContactField, contact: string, exclude: Option<UserId>)
    : (ids: set<UserId>)
  {
    set id | id in table
             && table[id].student == students
             && table[id].Contact(field) == contact
             && exclude != Some(id)
  }

  function CountUsersWithContact(
    table: Table, students: bool, field: ContactField, contact: string, exclude: Option<UserId>): nat
  {
    |Holders(table, students, field, contact, exclude)|
  }

  function MaxAllowed(students: bool): nat {
    if students then STUDENT_MAX_SHARED_CONTACT else TEACHER_MAX_SHARED_CONTACT
  }

  datatype Verdict = Allowed | LimitReached(field: ContactField)

  /** The check on one unchanging table: phone first, then e-mail; a missing contact is not
      counted. */
  function CheckContactLimit(
    table: Table, students: bool, phone: Option<string>, email: Option<string>, exclude: Option<UserId>): Verdict
  {
    if phone.Some?
       && CountUsersWithContact(table, students, Phone, phone.value, exclude) >= MaxAllowed(students) then
      LimitReached(Phone)
    else if email.Some?
            && CountUsersWithContact(table, students, Email, email.value, exclude) >= MaxAllowed(students) then
      LimitReached(Email)
    else
      Allowed
  }

  // No contact is held by more students than the cap.
  ghost predicate CapHolds(table: Table) {
    forall field, contact ::
      CountUsersWithContact(table, true, field, contact, None) <= STUDENT_MAX_SHARED_CONTACT
  }

  /** Adding one user to those who hold a contact raises the count by one at most. */
  lemma OneMoreHolder(
    table: Table, table': Table, field: ContactField, contact: string, id: UserId)
    requires Holders(table', true, field, contact, None) <= Holders(table, true, field, contact, Some(id)) + {id}
    ensures CountUsersWithContact(table', true, field, contact, None)
         <= CountUsersWithContact(table, true, field, contact, Some(id)) + 1
  {
    SubsetIsNoLarger(Holders(table', true, field, contact, None),
                     Holders(table, true, field, contact, Some(id)) + {id});
  }
}
