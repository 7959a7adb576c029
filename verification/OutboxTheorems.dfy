/** Progress of the outbox, and the bounds on how often an e-mail is attempted. */
module OutboxTheorems {
  import opened Prelude
  import opened Outbox

  // Three failed attempts and the status FAILED go together.
  predicate RowInv(row: Row) {
    row.retryCount >= MAX_ATTEMPTS <==> row.status == Failed
  }

  predicate TableInv(table: seq<Row>) {
    forall i | 0 <= i < |table| :: RowInv(table[i])
  }

  lemma AttemptKeepsInv(row: Row, now: Time, sending: Sending)
    requires RowInv(row)
    ensures Eligible(row) ==> RowInv(Attempted(row, now, sending))
  {
  }

  lemma BatchKeepsInv(table: seq<Row>, now: Time, sendings: nat -> Sending)
    requires TableInv(table)
    ensures TableInv(AfterBatch(table, now, sendings))
  {
    forall i | 0 <= i < |table| ensures RowInv(AfterBatch(table, now, sendings)[i]) {
      assert RowInv(table[i]);
      AttemptKeepsInv(table[i], now, sendings(i));
    }
  }

  // ----- No starvation -----

  // One poll of the worker, after which some newer e-mails have arrived.
  datatype Poll = Poll(now: Time, sendings: nat -> Sending, arrivals: nat)

  function AfterPoll(table: seq<Row>, poll: Poll): seq<Row> {
    AfterBatch(table, poll.now, poll.sendings) + seq(poll.arrivals, _ => NEW_ROW)
  }

  lemma PollAtRow(table: seq<Row>, poll: Poll, i: nat)
    requires i < |table|
    ensures AfterPoll(table, poll)[i]
         == if InBatch(table, i, BATCH_SIZE) then Attempted(table[i], poll.now, poll.sendings(i)) else table[i]
  {
  }

  function AfterPolls(table: seq<Row>, polls: seq<Poll>): (after: seq<Row>)
    ensures |table| <= |after|
    decreases |polls|
  {
    if polls == [] then table else AfterPolls(AfterPoll(table, polls[0]), polls[1..])
  }

  lemma {:induction false} PollsConcat(table: seq<Row>, first: seq<Poll>, second: seq<Poll>)
    ensures AfterPolls(table, first + second) == AfterPolls(AfterPolls(table, first), second)
    decreases |first|
  {
    if first == [] {
      assert first + second == second;
    } else {
      assert (first + second)[1..] == first[1..] + second;
      PollsConcat(AfterPoll(table, first[0]), first[1..], second);
    }
  }

  lemma {:induction false} PollsKeepInv(table: seq<Row>, polls: seq<Poll>)
    requires TableInv(table)
    ensures TableInv(AfterPolls(table, polls))
    decreases |polls|
  {
    if polls == [] {
    } else {
      BatchKeepsInv(table, polls[0].now, polls[0].sendings);
      assert forall i | |table| <= i < |AfterPoll(table, polls[0])| :: AfterPoll(table, polls[0])[i] == NEW_ROW;
      PollsKeepInv(AfterPoll(table, polls[0]), polls[1..]);
    }
  }

  // Rows of the old table that are settled stay settled, so the queue ahead of a row only shrinks.
  predicate Shrinks(table: seq<Row>, table': seq<Row>) {
    |table| <= |table'|
    && forall i | 0 <= i < |table| && Eligible(table'[i]) :: Eligible(table[i])
  }

  lemma {:induction false} RankShrinks(table: seq<Row>, table': seq<Row>, i: nat)
    requires Shrinks(table, table') && i <= |table|
    ensures Rank(table', i) <= Rank(table, i)
  {
    if i == 0 {
    } else {
      RankShrinks(table, table', i - 1);
    }
  }

  lemma PollShrinks(table: seq<Row>, poll: Poll)
    ensures Shrinks(table, AfterPoll(table, poll))
  {
    forall i | 0 <= i < |table| && Eligible(AfterPoll(table, poll)[i]) ensures Eligible(table[i]) {
      PollAtRow(table, poll, i);
    }
  }

  lemma {:induction false} PollsShrink(table: seq<Row>, polls: seq<Poll>)
    ensures Shrinks(table, AfterPolls(table, polls))
    decreases |polls|
  {
    if polls == [] {
    } else {
      PollShrinks(table, polls[0]);
      PollsShrink(AfterPoll(table, polls[0]), polls[1..]);
    }
  }

  /** A row among the ten oldest eligible ones uses up an attempt at every poll. */
  lemma {:induction false} FrontRowIsSettled(table: seq<Row>, polls: seq<Poll>, i: nat)
    requires i < |table| && Rank(table, i) < BATCH_SIZE && table[i].retryCount + |polls| >= MAX_ATTEMPTS
    ensures !Eligible(AfterPolls(table, polls)[i])
    decreases |polls|
  {
    PollsShrink(table, polls);
    if Eligible(table[i]) {
      var table1 := AfterPoll(table, polls[0]);
      PollAtRow(table, polls[0], i);
      PollShrinks(table, polls[0]);
      RankShrinks(table, table1, i);
      if Eligible(table1[i]) {
        FrontRowIsSettled(table1, polls[1..], i);
      } else {
        PollsShrink(table1, polls[1..]);
      }
    }
  }

  /** If the ten oldest eligible rows are settled, everyone moves up by ten. */
  lemma {:induction false} FrontLeaves(table: seq<Row>, table': seq<Row>, i: nat)
    requires Shrinks(table, table') && i <= |table|
    requires forall j | 0 <= j < |table| && Rank(table, j) < BATCH_SIZE :: !Eligible(table'[j])
    ensures Rank(table', i) <= if Rank(table, i) <= BATCH_SIZE then 0 else Rank(table, i) - BATCH_SIZE
  {
    if i == 0 {
    } else {
      FrontLeaves(table, table', i - 1);
    }
  }

  /** Without manual retries, an e-mail that has k eligible ones ahead of it is settled within
      3 * (k / 10 + 1) polls, whatever the sends do and however many newer e-mails arrive. */
  lemma {:induction false} NoStarvation(table: seq<Row>, polls: seq<Poll>, i: nat)
    requires TableInv(table) && i < |table|
    requires |polls| >= 3 * (Rank(table, i) / 10 + 1)
    ensures var row := AfterPolls(table, polls)[i]; row.status == Sent || row.status == Failed
    decreases Rank(table, i)
  {
    PollsKeepInv(table, polls);
    assert RowInv(AfterPolls(table, polls)[i]);
    if Rank(table, i) < BATCH_SIZE {
      FrontRowIsSettled(table, polls, i);
    } else {
      var first, rest := polls[..3], polls[3..];
      assert polls == first + rest;
      PollsConcat(table, first, rest);
      var table1 := AfterPolls(table, first);
      PollsKeepInv(table, first);
      PollsShrink(table, first);
      forall j | 0 <= j < |table| && Rank(table, j) < BATCH_SIZE ensures !Eligible(table1[j]) {
        FrontRowIsSettled(table, first, j);
      }
      FrontLeaves(table, table1, i);
      NoStarvation(table1, rest, i);
    }
  }

  // ----- One row, with the worker and administrators interleaved -----

  // The worker holds a record it loaded; its send may be over before the commit.
  datatype Worker =
    | Idle
    | Holding(record: Row)
    | Finished(record: Row, sending: Sending)

  /** The row, the record in the worker's hands, the records administrators have loaded, and what has been
      sent since the last manual retry took effect. */
  datatype Machine = Machine(row: Row, worker: Worker, admins: multiset<Row>, attempts: nat, deliveries: nat)

  datatype Action =
    | Load                     // the worker's query returns the row
    | Send(sending: Sending)
    | Commit(now: Time)        // the worker marks the record and commits
    | AdminLoad                // retry_failed_email reads the row
    | AdminCommit(loaded: Row) // and commits its reset

  predicate Enabled(m: Machine, a: Action) {
    match a
    case Load => m.worker == Idle && Eligible(m.row)
    case Send(_) => m.worker.Holding?
    case Commit(_) => m.worker.Finished?
    case AdminLoad => true
    case AdminCommit(loaded) => loaded in m.admins
  }

  // A commit writes the columns whose values differ from those the session loaded.
  function FlushedRow(row: Row, loaded: Row, record: Row): Row {
    Row(Flushed(row.status, loaded.status, record.status),
        Flushed(row.retryCount, loaded.retryCount, record.retryCount),
        Flushed(row.lastError, loaded.lastError, record.lastError),
        Flushed(row.sentAt, loaded.sentAt, record.sentAt))
  }

  function Do(m: Machine, a: Action): Machine
    requires Enabled(m, a)
  {
    match a
    case Load => m.(worker := Holding(m.row))
    case Send(sending) =>
      m.(worker := Finished(m.worker.record, sending),
         attempts := m.attempts + 1,
         deliveries := if sending.None? then m.deliveries + 1 else m.deliveries)
    case Commit(now) =>
      var record := m.worker.record;
      m.(row := FlushedRow(m.row, record, Attempted(record, now, m.worker.sending)), worker := Idle)
    case AdminLoad => m.(admins := m.admins + multiset{m.row})
    case AdminCommit(loaded) =>
      m.(row := FlushedRow(m.row, loaded, Retried(loaded)), admins := m.admins - multiset{loaded},
         attempts := 0, deliveries := 0)
  }

  predicate Init(m: Machine) {
    m.row == NEW_ROW && m.worker == Idle && m.admins == multiset{} && m.attempts == 0 && m.deliveries == 0
  }

  predicate Runs(m: Machine, actions: seq<Action>)
    decreases |actions|
  {
    actions == [] || (Enabled(m, actions[0]) && Runs(Do(m, actions[0]), actions[1..]))
  }

  function After(m: Machine, actions: seq<Action>): Machine
    requires Runs(m, actions)
    decreases |actions|
  {
    if actions == [] then m else After(Do(m, actions[0]), actions[1..])
  }

  /** Undisturbed, a load, a send and a commit are one attempt of a batch. */
  lemma AttemptIsLoadSendCommit(m: Machine, now: Time, sending: Sending)
    requires m.worker == Idle && Eligible(m.row)
    ensures Do(Do(Do(m, Load), Send(sending)), Commit(now)).row == Attempted(m.row, now, sending)
  {
  }

  /** Undisturbed, the administrator's read and commit are reset_for_retry, and the row, whatever it was,
      is in line for the worker again. */
  lemma RetryIsLoadCommit(m: Machine)
    ensures Enabled(Do(m, AdminLoad), AdminCommit(m.row))
    ensures Do(Do(m, AdminLoad), AdminCommit(m.row)) == m.(row := Retried(m.row), attempts := 0, deliveries := 0)
    ensures Eligible(Retried(m.row)) && RowInv(Retried(m.row))
    ensures RowInv(m.row) ==> SafeRetry(m.row, m.row)
  {
    assert m.admins + multiset{m.row} - multiset{m.row} == m.admins;
  }

  // ----- Attempts and deliveries, in every run -----

  // What the attempts since the last retry leave for the next one.
  predicate AttemptsInv(m: Machine) {
    match m.worker
    case Idle =>
      m.attempts <= (if Eligible(m.row) then m.row.retryCount else MAX_ATTEMPTS)
      && m.deliveries <= (if m.row.status == Sent then 1 else 0)
    case Holding(record) => Eligible(record) && m.attempts <= record.retryCount && m.deliveries == 0
    case Finished(record, sending) =>
      Eligible(record) && m.attempts <= record.retryCount + 1 && m.deliveries <= (if sending.None? then 1 else 0)
  }

  lemma DoKeepsAttemptsInv(m: Machine, a: Action)
    requires AttemptsInv(m) && Enabled(m, a)
    ensures AttemptsInv(Do(m, a))
  {
  }

  lemma {:induction false} RunKeepsAttemptsInv(m: Machine, actions: seq<Action>)
    requires AttemptsInv(m) && Runs(m, actions)
    ensures AttemptsInv(After(m, actions))
    decreases |actions|
  {
    if actions == [] {
    } else {
      DoKeepsAttemptsInv(m, actions[0]);
      RunKeepsAttemptsInv(Do(m, actions[0]), actions[1..]);
    }
  }

  /** However the worker and any number of manual retries interleave: between two manual retries there are
      at most three send attempts, and at most one delivery. */
  lemma AttemptsAreBounded(m0: Machine, actions: seq<Action>)
    requires Init(m0) && Runs(m0, actions)
    ensures After(m0, actions).attempts <= 3 && After(m0, actions).deliveries <= 1
  {
    RunKeepsAttemptsInv(m0, actions);
  }

  // ----- Three failures exactly when FAILED -----

  // When the administrator's commit leaves a sound row behind.
  predicate SafeRetry(row: Row, loaded: Row) {
    row.status != Failed || (loaded.status != Pending <==> loaded.retryCount != 0)
  }

  /** A manual retry keeps "three failures exactly when FAILED" if and only if the row has not failed,
      or its status and its count are both written or both left.  Otherwise the worker's last failure and
      the retry mix, and no batch picks the row up again. */
  lemma RetryIsSoundIff(row: Row, loaded: Row)
    requires RowInv(row) && RowInv(loaded)
    ensures RowInv(FlushedRow(row, loaded, Retried(loaded))) <==> SafeRetry(row, loaded)
    ensures !SafeRetry(row, loaded) ==> !Eligible(FlushedRow(row, loaded, Retried(loaded)))
  {
  }

  predicate RetriesAreSafe(m: Machine, actions: seq<Action>)
    requires Runs(m, actions)
    decreases |actions|
  {
    actions == []
    || ((actions[0].AdminCommit? ==> SafeRetry(m.row, actions[0].loaded))
        && RetriesAreSafe(Do(m, actions[0]), actions[1..]))
  }

  // Three failures exactly when FAILED, all along the run.
  predicate StaysSound(m: Machine, actions: seq<Action>)
    requires Runs(m, actions)
    decreases |actions|
  {
    RowInv(m.row) && (actions == [] || StaysSound(Do(m, actions[0]), actions[1..]))
  }

  predicate SoundInv(m: Machine) {
    && RowInv(m.row)
    && (forall loaded | loaded in m.admins :: RowInv(loaded))
    && (m.worker != Idle ==> m.row.status == Pending && Eligible(m.worker.record))
  }

  lemma DoKeepsSoundInv(m: Machine, a: Action)
    requires SoundInv(m) && Enabled(m, a)
    ensures SoundInv(Do(m, a)) <==> (a.AdminCommit? ==> SafeRetry(m.row, a.loaded))
    ensures RowInv(Do(m, a).row) <==> (a.AdminCommit? ==> SafeRetry(m.row, a.loaded))
  {
    forall loaded | loaded in Do(m, a).admins ensures RowInv(loaded) {
      assert loaded in m.admins || loaded == m.row;
    }
    if a.AdminCommit? {
      RetryIsSoundIff(m.row, a.loaded);
    }
  }

  lemma {:induction false} SoundRun(m: Machine, actions: seq<Action>)
    requires SoundInv(m) && Runs(m, actions)
    ensures StaysSound(m, actions) <==> RetriesAreSafe(m, actions)
    decreases |actions|
  {
    if actions == [] {
    } else {
      var m1 := Do(m, actions[0]);
      DoKeepsSoundInv(m, actions[0]);
      if SoundInv(m1) {
        SoundRun(m1, actions[1..]);
      } else {
        assert !StaysSound(m1, actions[1..]);
      }
    }
  }

  /** Over a whole run, three failures and FAILED go together all along if and only if every manual retry
      is safe when it commits. */
  lemma SoundExactlyIfRetriesAreSafe(m0: Machine, actions: seq<Action>)
    requires Init(m0) && Runs(m0, actions)
    ensures StaysSound(m0, actions) <==> RetriesAreSafe(m0, actions)
  {
    SoundRun(m0, actions);
  }

  // ----- The two ways it fails -----

  // One more action at the end of a run that has come to m.
  lemma {:induction false} Then(m0: Machine, actions: seq<Action>, m: Machine, a: Action) returns (longer: seq<Action>)
    requires Runs(m0, actions) && After(m0, actions) == m && Enabled(m, a)
    ensures longer == actions + [a]
    ensures Runs(m0, longer) && After(m0, longer) == Do(m, a)
    decreases |actions|
  {
    longer := actions + [a];
    if actions == [] {
      assert longer[1..] == [];
    } else {
      assert longer[1..] == actions[1..] + [a];
      var rest := Then(Do(m0, actions[0]), actions[1..], m, a);
    }
  }

  // The worker loads the row, sends, and commits.
  lemma ThenAttempt(m0: Machine, actions: seq<Action>, m: Machine, sending: Sending, now: Time)
    returns (longer: seq<Action>)
    requires Runs(m0, actions) && After(m0, actions) == m && m.worker == Idle && Eligible(m.row)
    ensures Runs(m0, longer)
    ensures var m' := After(m0, longer);
            m'.row == Attempted(m.row, now, sending) && m'.worker == Idle && m'.admins == m.admins
  {
    longer := Then(m0, actions, m, Load);
    longer := Then(m0, longer, Do(m, Load), Send(sending));
    longer := Then(m0, longer, Do(Do(m, Load), Send(sending)), Commit(now));
  }

  /** An administrator reads the row after its first failure and commits after its third: the row is
      FAILED with no failures. */
  lemma FailedWithoutFailures(m0: Machine, error: string, now: Time) returns (actions: seq<Action>)
    requires Init(m0)
    ensures Runs(m0, actions) && After(m0, actions).row == Row(Failed, 0, None, None)
  {
    actions := ThenAttempt(m0, [], m0, Some(error), now);
    var m1 := After(m0, actions);
    actions := Then(m0, actions, m1, AdminLoad);
    actions := ThenAttempt(m0, actions, Do(m1, AdminLoad), Some(error), now);
    actions := ThenAttempt(m0, actions, After(m0, actions), Some(error), now);
    actions := Then(m0, actions, After(m0, actions), AdminCommit(m1.row));
  }

  /** Two administrators read a row that was delivered; one retries it, it fails three times, and then the
      other commits: the row is PENDING with three failures. */
  lemma PendingWithThreeFailures(m0: Machine, error: string, now: Time) returns (actions: seq<Action>)
    requires Init(m0)
    ensures Runs(m0, actions) && After(m0, actions).row == Row(Pending, 3, Some(error), Some(now))
  {
    actions := ThenAttempt(m0, [], m0, None, now);
    var m1 := After(m0, actions);
    actions := Then(m0, actions, m1, AdminLoad);
    actions := Then(m0, actions, Do(m1, AdminLoad), AdminLoad);
    var m2 := After(m0, actions);
    assert m2.admins == multiset{m1.row, m1.row};
    actions := Then(m0, actions, m2, AdminCommit(m1.row));
    assert After(m0, actions).admins == multiset{m1.row};
    actions := ThenAttempt(m0, actions, After(m0, actions), Some(error), now);
    actions := ThenAttempt(m0, actions, After(m0, actions), Some(error), now);
    actions := ThenAttempt(m0, actions, After(m0, actions), Some(error), now);
    actions := Then(m0, actions, After(m0, actions), AdminCommit(m1.row));
  }

  // ----- What a batch attempts -----

  // The rows before i that a query for work would return.
  function Waiting(table: seq<Row>, i: nat): set<nat>
    requires i <= |table|
  {
    set j: nat | j < i && table[j].status == Pending && table[j].retryCount < 3
  }

  lemma {:induction false} RankCountsWaiting(table: seq<Row>, i: nat)
    requires i <= |table|
    ensures |Waiting(table, i)| == Rank(table, i)
  {
    if i == 0 {
    } else {
      RankCountsWaiting(table, i - 1);
      if Eligible(table[i - 1]) {
        assert Waiting(table, i) == Waiting(table, i - 1) + {i - 1};
      } else {
        assert Waiting(table, i) == Waiting(table, i - 1);
      }
    }
  }

  // What one attempt makes of a row.
  predicate AttemptedOnce(row: Row, row': Row, now: Time, sending: Sending) {
    match sending
    case None => row' == row.(status := Sent, sentAt := Some(now))
    case Some(error) =>
      row'.retryCount == row.retryCount + 1 && row'.lastError == Some(error) && row'.sentAt == row.sentAt
      && row'.status == (if row.retryCount + 1 >= 3 then Failed else row.status)
  }

  /** A poll attempts a row if and only if it is PENDING with fewer than three failures and fewer than ten older
      rows are; every other row stays as it is. */
  lemma BatchAttemptsIff(table: seq<Row>, now: Time, sendings: nat -> Sending, i: nat)
    requires i < |table|
    ensures if table[i].status == Pending && table[i].retryCount < 3 && |Waiting(table, i)| < 10
            then AttemptedOnce(table[i], AfterBatch(table, now, sendings)[i], now, sendings(i))
            else AfterBatch(table, now, sendings)[i] == table[i]
  {
    RankCountsWaiting(table, i);
    assert AfterBatch(table, now, sendings)[i]
        == if InBatch(table, i, BATCH_SIZE) then Attempted(table[i], now, sendings(i)) else table[i];
  }
}
