/** What the contact protocol guarantees in every interleaving: the cap, the stability of an admitted
    count, freedom from deadlock, and termination. */
module ContactTheorems {
  import opened Prelude
  import opened LockKeys
  import opened ContactLimit
  import opened ContactProtocol

  // ----- Safety -----

  /** However the transactions interleave and whichever of them roll back, no phone number and no
      e-mail address is ever held by more than three students in the committed table. */
  lemma CapHoldsInEveryRun(hash: Hash, s0: State, actions: seq<Action>, field: ContactField, contact: string)
    requires Init(s0) && Runs(hash, s0, actions)
    ensures |Holders(After(hash, s0, actions).table, true, field, contact, None)| <= 3
  {
    RunKeepsInv(hash, s0, actions);
    assert CountUsersWithContact(After(hash, s0, actions).table, true, field, contact, None) <= 3;
  }

  // From the passed check to the end of the transaction, what it wants and what it counted is fixed.
  predicate SameAdmission(tx: Tx, tx': Tx, field: ContactField) {
    tx'.Admitted(field) && tx'.request == tx.request
    && tx'.want.At(field) == tx.want.At(field) && tx'.seen.At(field) == tx.seen.At(field)
  }

  lemma ActionKeepsAdmission(hash: Hash, s: State, a: Action, t: nat, field: ContactField)
    requires Enabled(hash, s, a) && t < |s.txs| && s.txs[t].Admitted(field)
    ensures var s' := Do(hash, s, a);
            t < |s'.txs| && (s'.txs[t].pc == Done || SameAdmission(s.txs[t], s'.txs[t], field))
  {
  }

  lemma {:induction false} AdmissionIsFixed(hash: Hash, s: State, actions: seq<Action>, t: nat, field: ContactField)
    requires Runs(hash, s, actions) && t < |s.txs| && s.txs[t].Admitted(field)
    ensures var s' := After(hash, s, actions);
            t < |s'.txs| && (s'.txs[t].pc == Done || SameAdmission(s.txs[t], s'.txs[t], field))
    decreases |actions|
  {
    if actions == [] {
    } else {
      var s1 := Do(hash, s, actions[0]);
      ActionKeepsAdmission(hash, s, actions[0], t, field);
      if s1.txs[t].pc == Done {
        DoneIsForever(hash, s1, actions[1..], t);
      } else {
        AdmissionIsFixed(hash, s1, actions[1..], t, field);
      }
    }
  }

  lemma {:induction false} DoneIsForever(hash: Hash, s: State, actions: seq<Action>, t: nat)
    requires Runs(hash, s, actions) && t < |s.txs| && s.txs[t].pc == Done
    ensures var s' := After(hash, s, actions); t < |s'.txs| && s'.txs[t].pc == Done
    decreases |actions|
  {
    if actions == [] {
    } else {
      DoneIsForever(hash, Do(hash, s, actions[0]), actions[1..], t);
    }
  }

  /** A student transaction that has just counted `field` and goes on relies on that count until it
      ends: at no later moment do more other students hold the contact. */
  lemma CountIsStable(
    hash: Hash, s0: State, before: seq<Action>, t: nat, field: ContactField, later: seq<Action>)
    requires Init(s0) && Runs(hash, s0, before)
    requires var s := After(hash, s0, before);
             CanStep(hash, s, t) && s.txs[t].pc == Count(field) && s.txs[t].NeedsLock(field)
             && Unfinished(DoStep(hash, s, t), t)
    requires Runs(hash, DoStep(hash, After(hash, s0, before), t), later)
    ensures var s := After(hash, s0, before);
            var s' := After(hash, DoStep(hash, s, t), later);
            var contact := s.txs[t].want.At(field).value;
            var self := s.txs[t].Self();
            Unfinished(s', t) ==>
              CountUsersWithContact(s'.table, true, field, contact, self)
              <= CountUsersWithContact(s.table, true, field, contact, self)
  {
    RunKeepsInv(hash, s0, before);
    var s := After(hash, s0, before);
    var s1 := DoStep(hash, s, t);
    DoKeepsInv(hash, s, Step(t));
    AdmissionIsFixed(hash, s1, later, t, field);
    RunKeepsInv(hash, s1, later);
    assert CountStands(After(hash, s1, later), t, field);
  }

  // ----- Freedom from deadlock -----

  // Transaction t is blocked on a lock that transaction u holds.
  predicate WaitsFor(hash: Hash, s: State, t: nat, u: nat) {
    t < |s.txs| && Blocked(hash, s, t)
    && s.locks[LockOf(hash, s.txs[t].pc.field, s.txs[t].want.At(s.txs[t].pc.field).value)] == u
  }

  /** Phone before e-mail, one key in each namespace: whoever is waited for is further on. */
  lemma WaitsForSomeoneFurther(hash: Hash, s: State, t: nat, u: nat)
    requires Inv(hash, s) && WaitsFor(hash, s, t, u)
    ensures Unfinished(s, u) && Rank(s.txs[t].pc) < Rank(s.txs[u].pc)
  {
  }

  /** Whoever is waited for by a waiting transaction does not wait. */
  lemma TwoWaitsAtMost(hash: Hash, s: State, t: nat, u: nat, v: nat)
    requires Inv(hash, s) && WaitsFor(hash, s, t, u) && WaitsFor(hash, s, u, v)
    ensures v < |s.txs| && !Blocked(hash, s, v)
  {
    WaitsForSomeoneFurther(hash, s, t, u);
    WaitsForSomeoneFurther(hash, s, u, v);
  }

  ghost predicate WaitChain(hash: Hash, s: State, chain: seq<nat>) {
    |chain| > 0 && forall i | 0 <= i < |chain| - 1 :: WaitsFor(hash, s, chain[i], chain[i + 1])
  }

  lemma {:induction false} ChainRises(hash: Hash, s: State, chain: seq<nat>)
    requires Inv(hash, s) && WaitChain(hash, s, chain) && |chain| > 1
    ensures chain[0] < |s.txs| && chain[|chain| - 1] < |s.txs|
    ensures Rank(s.txs[chain[0]].pc) + |chain| - 1 <= Rank(s.txs[chain[|chain| - 1]].pc)
  {
    var prefix := chain[..|chain| - 1];
    var last := |chain| - 1;
    assert WaitsFor(hash, s, chain[last - 1], chain[last]);
    WaitsForSomeoneFurther(hash, s, chain[last - 1], chain[last]);
    if |prefix| == 1 {
    } else {
      assert forall i | 0 <= i < |prefix| - 1 :: WaitsFor(hash, s, prefix[i], prefix[i + 1]);
      ChainRises(hash, s, prefix);
    }
  }

  /** The wait-for graph of every reachable state has no cycle, even when contacts collide on a key;
      indeed no chain of waits joins more than three transactions. */
  lemma NoDeadlock(hash: Hash, s0: State, actions: seq<Action>, chain: seq<nat>)
    requires Init(s0) && Runs(hash, s0, actions) && |chain| > 1
    requires WaitChain(hash, After(hash, s0, actions), chain)
    ensures chain[0] != chain[|chain| - 1]
    ensures |chain| <= 3
  {
    RunKeepsInv(hash, s0, actions);
    var s := After(hash, s0, actions);
    ChainRises(hash, s, chain);
    ChainIsShort(hash, s, chain);
  }

  lemma ChainIsShort(hash: Hash, s: State, chain: seq<nat>)
    requires Inv(hash, s) && WaitChain(hash, s, chain)
    ensures |chain| <= 3
  {
    if |chain| >= 3 {
      assert WaitsFor(hash, s, chain[0], chain[0 + 1]) && WaitsFor(hash, s, chain[1], chain[1 + 1]);
      assert |chain| > 3 ==> WaitsFor(hash, s, chain[2], chain[2 + 1]);
      TwoWaitsAtMost(hash, s, chain[0], chain[1], chain[2]);
    }
  }

  /** While a transaction is unfinished, some transaction can take its next step. */
  lemma SomeoneCanStep(hash: Hash, s: State, t: nat) returns (u: nat)
    requires Inv(hash, s) && Unfinished(s, t)
    ensures CanStep(hash, s, u)
    decreases 7 - Rank(s.txs[t].pc)
  {
    if Blocked(hash, s, t) {
      var holder := s.locks[LockOf(hash, s.txs[t].pc.field, s.txs[t].want.At(s.txs[t].pc.field).value)];
      WaitsForSomeoneFurther(hash, s, t, holder);
      u := SomeoneCanStep(hash, s, holder);
    } else {
      u := t;
    }
  }

  // ----- Termination -----

  function StepsLeft(txs: seq<Tx>): nat {
    if txs == [] then 0 else 7 - Rank(txs[0].pc) + StepsLeft(txs[1..])
  }

  lemma {:induction false} StepsLeftAfterUpdate(txs: seq<Tx>, t: nat, tx: Tx)
    requires t < |txs|
    ensures StepsLeft(txs[t := tx]) == StepsLeft(txs) + Rank(txs[t].pc) - Rank(tx.pc)
  {
    if t == 0 {
      assert txs[t := tx][1..] == txs[1..];
    } else {
      assert txs[t := tx][1..] == txs[1..][t - 1 := tx];
      StepsLeftAfterUpdate(txs[1..], t - 1, tx);
    }
  }

  lemma ActionUsesUpSteps(hash: Hash, s: State, a: Action)
    requires Enabled(hash, s, a) && !a.Start?
    ensures StepsLeft(Do(hash, s, a).txs) < StepsLeft(s.txs)
  {
    var s' := Do(hash, s, a);
    assert s'.txs == s.txs[a.tx := s'.txs[a.tx]];
    StepsLeftAfterUpdate(s.txs, a.tx, s'.txs[a.tx]);
  }

  ghost predicate AllDone(s: State) {
    forall t | 0 <= t < |s.txs| :: s.txs[t].pc == Done
  }

  /** Once no more transactions start, every run is finite, whatever the schedule and the aborts. */
  lemma {:induction false} RunsEnd(hash: Hash, s: State, actions: seq<Action>)
    requires Runs(hash, s, actions) && forall i | 0 <= i < |actions| :: !actions[i].Start?
    ensures |actions| <= StepsLeft(s.txs)
    decreases |actions|
  {
    if actions == [] {
    } else {
      ActionUsesUpSteps(hash, s, actions[0]);
      RunsEnd(hash, Do(hash, s, actions[0]), actions[1..]);
    }
  }

  /** And from every reachable state the unfinished transactions can all be run to their end without
      aborting any of them. */
  lemma EveryoneCanFinish(hash: Hash, s: State) returns (actions: seq<Action>)
    requires Inv(hash, s)
    ensures forall i | 0 <= i < |actions| :: actions[i].Step?
    ensures Runs(hash, s, actions) && AllDone(After(hash, s, actions))
    decreases StepsLeft(s.txs)
  {
    if AllDone(s) {
      actions := [];
    } else {
      var t :| 0 <= t < |s.txs| && s.txs[t].pc != Done;
      var u := SomeoneCanStep(hash, s, t);
      ActionUsesUpSteps(hash, s, Step(u));
      DoKeepsInv(hash, s, Step(u));
      var rest := EveryoneCanFinish(hash, Do(hash, s, Step(u)));
      actions := [Step(u)] + rest;
      assert actions[1..] == rest;
    }
  }

  // When all are done nothing is left locked.
  lemma DoneHoldsNoLocks(hash: Hash, s: State)
    requires Inv(hash, s) && AllDone(s)
    ensures s.locks == map[]
  {
  }

  // ----- One transaction alone -----

  /** What the request does to the table when nothing interferes: the services read as one step. */
  function Served(table: Table, nextId: UserId, request: Request): Table {
    match request
    case Register(student, phone, email) =>
      if CheckContactLimit(table, student, Some(phone), Some(email), None) != Allowed then table
      else table[nextId := Row(student, phone, email)]
    case UpdateUser(target, studentShaped, newPhone) =>
      if target !in table || table[target].student != studentShaped || newPhone.None? then table
      else UpdatedContact(table, target, Phone, newPhone.value)
    case UpdateCredentials(target, newEmail) =>
      if target !in table || newEmail.None? then table
      else UpdatedContact(table, target, Email, newEmail.value)
    case ConfirmEmail(target, pending) =>
      if target !in table then table else UpdatedContact(table, target, Email, pending)
  }

  function UpdatedContact(table: Table, target: UserId, field: ContactField, value: string): Table
    requires target in table
  {
    if table[target].Contact(field) != value
       && table[target].student
       && CountUsersWithContact(table, true, field, value, Some(target)) >= STUDENT_MAX_SHARED_CONTACT
    then table
    else table[target := table[target].WithContact(field, value)]
  }

  // Run transaction t alone to its end.
  function Alone(hash: Hash, s: State, t: nat, steps: nat): State
    requires t < |s.txs|
    decreases steps
  {
    if steps == 0 || !CanStep(hash, s, t) then s else Alone(hash, DoStep(hash, s, t), t, steps - 1)
  }

  // What the transaction leaves behind when it gets to its checks now.
  function Effect(table: Table, nextId: UserId, tx: Tx): Table {
    if Refused(table, tx, Phone) || Refused(table, tx, Email) then table
    else PublishedTable(table, nextId, tx.request, tx.student, PerField(DirtyColumn(tx, Phone), DirtyColumn(tx, Email)))
  }

  lemma WriteAndCommit(hash: Hash, s: State, t: nat)
    requires t < |s.txs| && s.txs[t].pc == Write
    ensures var tx := s.txs[t];
            var end := DoStep(hash, DoStep(hash, s, t), t);
            end.txs[t].pc == Done
            && end.table == PublishedTable(s.table, s.nextId, tx.request, tx.student,
                                           PerField(DirtyColumn(tx, Phone), DirtyColumn(tx, Email)))
  {
  }

  lemma AloneSteps(hash: Hash, s: State, t: nat, steps: nat)
    requires t < |s.txs| && steps > 0
    ensures Alone(hash, s, t, steps)
         == if CanStep(hash, s, t) then Alone(hash, DoStep(hash, s, t), t, steps - 1) else s
  {
  }

  lemma AloneFromCount(hash: Hash, s: State, t: nat)
    requires t < |s.txs| && s.txs[t].pc == Count(Phone)
    ensures var end := Alone(hash, s, t, 4);
            t < |end.txs| && end.txs[t].pc == Done && end.table == Effect(s.table, s.nextId, s.txs[t])
  {
    var tx := s.txs[t];
    CountDecides(hash, s, t);
    AloneSteps(hash, s, t, 4);
    var s1 := DoStep(hash, s, t);
    AloneSteps(hash, s1, t, 3);
    if s1.txs[t].pc != Done {
      CountDecides(hash, s1, t);
      assert Refused(s1.table, s1.txs[t], Email) == Refused(s.table, tx, Email);
      var s2 := DoStep(hash, s1, t);
      AloneSteps(hash, s2, t, 2);
      if s2.txs[t].pc != Done {
        WriteAndCommit(hash, s2, t);
        AloneSteps(hash, DoStep(hash, s2, t), t, 1);
        assert DirtyColumn(s2.txs[t], Phone) == DirtyColumn(tx, Phone);
        assert DirtyColumn(s2.txs[t], Email) == DirtyColumn(tx, Email);
      }
    }
  }

  lemma AloneFromLock(hash: Hash, s: State, t: nat)
    requires t < |s.txs| && s.txs[t].pc == Lock(Phone) && s.locks == map[]
    ensures var end := Alone(hash, s, t, 6);
            t < |end.txs| && end.txs[t].pc == Done && end.table == Effect(s.table, s.nextId, s.txs[t])
  {
    LockPasses(hash, s, t);
    AloneSteps(hash, s, t, 6);
    var s1 := DoStep(hash, s, t);
    assert !Blocked(hash, s1, t);
    LockPasses(hash, s1, t);
    AloneSteps(hash, s1, t, 5);
    var s2 := DoStep(hash, s1, t);
    AloneFromCount(hash, s2, t);
    assert forall field :: DirtyColumn(s2.txs[t], field) == DirtyColumn(s.txs[t], field);
    assert forall field :: Refused(s.table, s2.txs[t], field) == Refused(s.table, s.txs[t], field);
  }

  // Only t's own locks are in the table while it runs alone.
  lemma StepTakesOwnLocks(hash: Hash, s: State, t: nat)
    requires CanStep(hash, s, t) && forall l | l in s.locks :: s.locks[l] == t
    ensures var s' := DoStep(hash, s, t);
            t < |s'.txs| && forall l | l in s'.locks :: s'.locks[l] == t
  {
  }

  ghost predicate AloneInv(hash: Hash, s: State, t: nat) {
    Inv(hash, s) && t < |s.txs| && forall l | l in s.locks :: s.locks[l] == t
  }

  lemma AloneStepKeepsInv(hash: Hash, s: State, t: nat)
    requires AloneInv(hash, s, t) && CanStep(hash, s, t)
    ensures AloneInv(hash, DoStep(hash, s, t), t)
  {
    StepTakesOwnLocks(hash, s, t);
    DoKeepsInv(hash, s, Step(t));
  }

  lemma {:induction false} AloneKeepsInv(hash: Hash, s: State, t: nat, steps: nat)
    requires AloneInv(hash, s, t)
    ensures AloneInv(hash, Alone(hash, s, t, steps), t)
    decreases steps
  {
    if steps == 0 {
    } else {
      AloneSteps(hash, s, t, steps);
      if CanStep(hash, s, t) {
        AloneStepKeepsInv(hash, s, t);
        AloneKeepsInv(hash, DoStep(hash, s, t), t, steps - 1);
      }
    }
  }

  // What a started transaction has decided when it has read its target.
  function Opened(request: Request): Tx {
    Tx(request, Read, None, false, NO_CONTACTS, PerField(0, 0), NO_CONTACTS)
  }

  lemma EffectServes(table: Table, nextId: UserId, request: Request)
    requires CapHolds(table)
    ensures var tx := AfterRead(table, Opened(request));
            Served(table, nextId, request) == if tx.pc == Done then table else Effect(table, nextId, tx)
  {
  }

  /** A transaction that runs alone does exactly what its request means, and releases every lock. */
  lemma AloneMeetsRequest(hash: Hash, s: State, request: Request)
    requires Inv(hash, s) && s.locks == map[] && Validated(request)
    ensures var t := |s.txs|;
            var end := Alone(hash, Do(hash, s, Start(request)), t, 7);
            t < |end.txs| && end.txs[t].pc == Done
            && end.table == Served(s.table, s.nextId, request)
            && end.locks == map[]
  {
    var t := |s.txs|;
    var s0 := Do(hash, s, Start(request));
    DoKeepsInv(hash, s, Start(request));
    AloneKeepsInv(hash, s0, t, 7);
    AloneSteps(hash, s0, t, 7);
    EffectServes(s.table, s.nextId, request);
    var s1 := DoStep(hash, s0, t);
    assert s1.txs[t] == AfterRead(s.table, Opened(request));
    if s1.txs[t].pc == Done {
      AloneSteps(hash, s1, t, 6);
    } else {
      AloneFromLock(hash, s1, t);
    }
  }

  // ----- At the cap, and only there -----

  // The other users of the transaction's kind who hold the contact now.
  function OtherHolders(table: Table, tx: Tx, field: ContactField): set<UserId>
    requires tx.want.At(field).Some?
  {
    set id | id in table && table[id].student == tx.student && tx.Self() != Some(id)
             && (match field
                 case Phone => table[id].phone == tx.want.phone.value
                 case Email => table[id].email == tx.want.email.value)
  }

  /** Whatever overlaps, a count ends its transaction if and only if a student's contact, or a new user's, has
      three other holders, or one if that user is not a student. */
  lemma CountEndsIff(hash: Hash, s: State, t: nat)
    requires CanStep(hash, s, t) && s.txs[t].pc.Count?
    ensures var tx, field := s.txs[t], s.txs[t].pc.field;
            DoStep(hash, s, t).txs[t].pc == Done
            <==> (tx.student || tx.request.Register?) && tx.want.At(field).Some?
                 && |OtherHolders(s.table, tx, field)| >= if tx.student then 3 else 1
  {
    var tx, field := s.txs[t], s.txs[t].pc.field;
    CountDecides(hash, s, t);
    if tx.want.At(field).Some? {
      assert Holders(s.table, tx.student, field, tx.want.At(field).value, tx.Self())
          == OtherHolders(s.table, tx, field);
    }
  }

  /** Every advisory lock belongs to a student's transaction that has not ended, and is that of the contact it
      wants in that field. */
  lemma LocksAreForStudents(hash: Hash, s0: State, actions: seq<Action>, l: LockId)
    requires Init(s0) && Runs(hash, s0, actions) && l in After(hash, s0, actions).locks
    ensures var s := After(hash, s0, actions);
            s.locks[l] < |s.txs|
            && var tx := s.txs[s.locks[l]];
               tx.pc != Done && tx.student && tx.want.At(l.field).Some? && tx.want.At(l.field).value != ""
               && l.key == ComputeLockKey(hash, l.field, tx.want.At(l.field).value)
  {
    RunKeepsInv(hash, s0, actions);
  }

  // The row and the contact that a request is about, if it is to change one of a row.
  predicate IsChangeOf(table: Table, request: Request, target: UserId, field: ContactField, value: string) {
    target in table
    && match request
       case Register(_, _, _) => false
       case UpdateUser(id, studentShaped, newPhone) =>
         id == target && field == Phone && newPhone == Some(value) && table[target].student == studentShaped
       case UpdateCredentials(id, newEmail) => id == target && field == Email && newEmail == Some(value)
       case ConfirmEmail(id, pending) => id == target && field == Email && pending == value
  }

  // The students who hold the contact, but for the target.
  function StudentsWith(table: Table, field: ContactField, value: string, target: UserId): set<UserId> {
    set id | id in table && id != target && table[id].student
             && (match field case Phone => table[id].phone == value case Email => table[id].email == value)
  }

  /** A contact change that runs alone takes effect unless it gives a student a new contact that three other
      students hold; and then it changes nothing. */
  lemma AloneChangesIff(
    hash: Hash, s: State, request: Request, target: UserId, field: ContactField, value: string)
    requires Inv(hash, s) && s.locks == map[] && Validated(request)
    requires IsChangeOf(s.table, request, target, field, value)
    ensures var end := Alone(hash, Do(hash, s, Start(request)), |s.txs|, 7).table;
            var row := s.table[target];
            if row.student && row.Contact(field) != value && |StudentsWith(s.table, field, value, target)| >= 3
            then end == s.table
            else end == s.table[target := match field
                                          case Phone => row.(phone := value)
                                          case Email => row.(email := value)]
  {
    AloneMeetsRequest(hash, s, request);
    assert Holders(s.table, true, field, value, Some(target)) == StudentsWith(s.table, field, value, target);
  }
}
