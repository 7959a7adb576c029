/** The e-mail outbox and its worker (src/emails/repository.py, src/emails/service.py,
    src/workers/email_worker.py).

    The outbox table is a sequence in order of creation, so that ORDER BY created_at is its own order. */
module Outbox {
  import opened Prelude

  const BATCH_SIZE := 10
  const MAX_ATTEMPTS := 3

  datatype Status = Pending | Sent | Failed

  datatype Row = Row(status: Status, retryCount: nat, lastError: Option<string>, sentAt: Option<Time>)

  const NEW_ROW := Row(Pending, 0, None, None)

  // What became of one call of send: None when it returned, the error when it raised.
  type Sending = Option<string>

  // ----- The repository, on one row -----

  function MarkedSent(row: Row, now: Time): Row {
    row.(status := Sent, sentAt := Some(now))
  }

  function MarkedFailedAttempt(row: Row, error: string): Row {
    row.(retryCount := row.retryCount + 1, lastError := Some(error),
         status := if row.retryCount + 1 >= MAX_ATTEMPTS then Failed else row.status)
  }

  function Retried(row: Row): Row {
    row.(status := Pending, retryCount := 0, lastError := None)
  }

  function Attempted(row: Row, now: Time, sending: Sending): Row {
    if sending.None? then MarkedSent(row, now) else MarkedFailedAttempt(row, sending.value)
  }

  predicate Eligible(row: Row) {
    row.status == Pending && row.retryCount < MAX_ATTEMPTS
  }

  // ----- A batch -----

  // How many eligible rows were created before row i.
  function Rank(table: seq<Row>, i: nat): nat
    requires i <= |table|
  {
    if i == 0 then 0 else Rank(table, i - 1) + if Eligible(table[i - 1]) then 1 else 0
  }

  // The rows that the query returns: the oldest eligible ones.
  predicate InBatch(table: seq<Row>, i: nat, limit: nat) {
    i < |table| && Eligible(table[i]) && Rank(table, i) < limit
  }

  /** One batch attempts every row of the query once, and no other row. */
  function AfterBatch(table: seq<Row>, now: Time, sendings: nat -> Sending): seq<Row> {
    seq(|table|, i requires 0 <= i < |table| =>
      if InBatch(table, i, BATCH_SIZE) then Attempted(table[i], now, sendings(i)) else table[i])
  }

  // ----- The objects -----

  class PendingEmail {
    const id: nat
    var status: Status
    var retryCount: nat
    var lastError: Option<string>
    var sentAt: Option<Time>

    function View(): Row
      reads this
    {
      Row(status, retryCount, lastError, sentAt)
    }

    constructor Load(id: nat, row: Row)
      ensures this.id == id && View() == row
    {
      this.id := id;
      status, retryCount, lastError, sentAt := row.status, row.retryCount, row.lastError, row.sentAt;
    }

    method MarkSent(now: Time)
      modifies this
      ensures View() == MarkedSent(old(View()), now)
    {
      status := Sent;
      sentAt := Some(now);
    }

    method MarkFailedAttempt(error: string)
      modifies this
      ensures View() == MarkedFailedAttempt(old(View()), error)
    {
      retryCount := retryCount + 1;
      lastError := Some(error);
      if retryCount >= MAX_ATTEMPTS {
        status := Failed;
      }
    }

    method ResetForRetry()
      modifies this
      ensures View() == Retried(old(View()))
    {
      status := Pending;
      retryCount := 0;
      lastError := None;
    }
  }

  class EmailWorker {
    var table: seq<Row>

    /** get_pending_emails: the oldest eligible rows, up to the limit, each loaded as an object. */
    method GetPendingEmails(limit: nat) returns (records: seq<PendingEmail>)
      ensures forall r | r in records :: fresh(r) && InBatch(table, r.id, limit) && r.View() == table[r.id]
      ensures forall i, j | 0 <= i < j < |records| :: records[i].id < records[j].id
      ensures forall i: nat | InBatch(table, i, limit) :: exists r | r in records :: r.id == i
    {
      records := [];
      var i := 0;
      while i < |table| && |records| < limit
        invariant i <= |table|
        invariant |records| == Rank(table, i) <= limit
        invariant forall r | r in records ::
                    fresh(r) && r.id < i && InBatch(table, r.id, limit) && r.View() == table[r.id]
        invariant forall a, b | 0 <= a < b < |records| :: records[a].id < records[b].id
        invariant forall j | 0 <= j < i && InBatch(table, j, limit) :: exists r | r in records :: r.id == j
      {
        if Eligible(table[i]) {
          var record := new PendingEmail.Load(i, table[i]);
          records := records + [record];
          assert record in records;
        }
        i := i + 1;
      }
      forall j: nat | InBatch(table, j, limit) ensures exists r | r in records :: r.id == j {
        if j >= i {
          RankIsMonotone(table, i, j);
        }
      }
    }

    // Commit one record.
    method Commit(record: PendingEmail)
      requires record.id < |table|
      modifies this
      ensures table == old(table)[record.id := record.View()]
    {
      table := table[record.id := record.View()];
    }

    // The body of the batch loop: what the send did is marked on the record and committed.
    method Settle(record: PendingEmail, now: Time, sending: Sending)
      requires record.id < |table|
      modifies this, record
      ensures table == old(table)[record.id := Attempted(old(record.View()), now, sending)]
    {
      if sending.None? {
        record.MarkSent(now);
      } else {
        record.MarkFailedAttempt(sending.value);
      }
      Commit(record);
    }

    /** process_batch: send each record of the batch, mark it, and commit after each. */
    method ProcessBatch(now: Time, sendings: nat -> Sending)
      modifies this
      ensures table == AfterBatch(old(table), now, sendings)
    {
      var pending := GetPendingEmails(BATCH_SIZE);
      ghost var goal := AfterBatch(table, now, sendings);
      ghost var ids := Ids(pending);
      var k := 0;
      while k < |pending|
        invariant 0 <= k <= |pending|
        invariant forall j | k <= j < |pending| :: pending[j].View() == old(table)[pending[j].id]
        invariant Settled(old(table), table, goal, ids[..k])
      {
        SettleOneMore(old(table), table, goal, ids, k);
        SettleNext(pending, k, now, sendings(pending[k].id));
        k := k + 1;
      }
      assert ids[..k] == ids;
      BatchIsComplete(old(table), table, now, sendings, ids);
    }

    ghost function Ids(records: seq<PendingEmail>): (ids: seq<nat>)
      ensures |ids| == |records| && forall j | 0 <= j < |ids| :: ids[j] == records[j].id && records[j] in records
      ensures forall r | r in records :: r.id in ids
    {
      var ids := seq(|records|, j requires 0 <= j < |records| => records[j].id);
      assert forall j | 0 <= j < |records| :: ids[j] == records[j].id;
      ids
    }

    // One turn of the loop: the records still to come are left as they are.
    method SettleNext(pending: seq<PendingEmail>, k: nat, now: Time, sending: Sending)
      requires k < |pending| && pending[k].id < |table|
      requires forall i, j | 0 <= i < j < |pending| :: pending[i].id < pending[j].id
      modifies this, pending[k]
      ensures table == old(table)[pending[k].id := Attempted(old(pending[k].View()), now, sending)]
      ensures forall j | k < j < |pending| :: pending[j].View() == old(pending[j].View())
    {
      assert forall j | k < j < |pending| :: pending[j] != pending[k];
      Settle(pending[k], now, sending);
    }

    /** retry_failed_email: any existing row goes back to the start of its attempts. */
    method RetryFailedEmail(id: nat) returns (found: bool)
      modifies this
      ensures found <==> id < |old(table)|
      ensures table == if found then old(table)[id := Retried(old(table)[id])] else old(table)
    {
      found := id < |table|;
      if found {
        var record := new PendingEmail.Load(id, table[id]);
        record.ResetForRetry();
        Commit(record);
      }
    }
  }

  // The table agrees with the goal on these rows, and is unchanged elsewhere.
  predicate Settled(table: seq<Row>, table': seq<Row>, goal: seq<Row>, ids: seq<nat>) {
    |table'| == |table| == |goal|
    && (forall id | id in ids :: id < |table| && table'[id] == goal[id])
    && (forall i: nat | i < |table| && i !in ids :: table'[i] == table[i])
  }

  lemma SettleOneMore(table: seq<Row>, table': seq<Row>, goal: seq<Row>, ids: seq<nat>, k: nat)
    requires k < |ids| && ids[k] < |table| && Settled(table, table', goal, ids[..k])
    ensures Settled(table, table'[ids[k] := goal[ids[k]]], goal, ids[..k + 1])
  {
    assert ids[..k + 1] == ids[..k] + [ids[k]];
  }

  lemma BatchIsComplete(table: seq<Row>, table': seq<Row>, now: Time, sendings: nat -> Sending, ids: seq<nat>)
    requires Settled(table, table', AfterBatch(table, now, sendings), ids)
    requires forall i: nat | InBatch(table, i, BATCH_SIZE) :: i in ids
    ensures table' == AfterBatch(table, now, sendings)
  {
  }

  lemma {:induction false} RankIsMonotone(table: seq<Row>, i: nat, j: nat)
    requires i <= j <= |table|
    ensures Rank(table, i) <= Rank(table, j) <= Rank(table, i) + (j - i)
  {
    if i == j {
    } else {
      RankIsMonotone(table, i, j - 1);
    }
  }
}
