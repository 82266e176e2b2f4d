/** The `analysis_tasks` table: one lease row per (trace, stage), changed only by guarded
    single-row statements. The row functions are the specification of the SQL; the class
    performs the same statements in place on the table. */
module TaskStore {

  datatype Stage = Core | Enrichment

  datatype Key = Key(trace: string, stage: Stage)

  datatype Status = Queued | Leased | Succeeded | FailedRetryable | FailedTerminal

  datatype Expiry = NoExpiry | At(time: int)

  datatype Row = Row(status: Status, attempts: nat, maxAttempts: int, owner: string, expires: Expiry)

  datatype Claim = NoRow | Won(attempt: nat, maxAttempts: int)

  datatype Lookup = Missing | Found(status: Status)

  predicate Final(s: Status) {
    s.Succeeded? || s.FailedTerminal?
  }

  /** A freshly inserted row; the schema defaults `attempt_count` to 0. */
  function FreshRow(maxAttempts: int): Row {
    Row(Queued, 0, maxAttempts, "", NoExpiry)
  }

  /** The WHERE clause of the claim statement, read at clock value `now`. */
  predicate Claimable(r: Row, now: int) {
    && r.attempts < r.maxAttempts
    && (r.status.Queued? || r.status.FailedRetryable?
        || (r.status.Leased? && r.expires.At? && r.expires.time < now))
  }

  function ClaimRow(r: Row, worker: string, expires: int): Row {
    r.(status := Leased, owner := worker, expires := At(expires), attempts := r.attempts + 1)
  }

  /** The guard shared by the three `mark_*` statements. */
  predicate HoldsLease(r: Row, worker: string, now: int) {
    r.status.Leased? && r.owner == worker && r.expires.At? && now <= r.expires.time
  }

  function EndLease(r: Row, outcome: Status): Row {
    r.(status := outcome, owner := "", expires := NoExpiry)
  }

  /** What every row of every reachable table satisfies, for a positive retry limit. */
  predicate RowOk(r: Row) {
    && 0 < r.maxAttempts
    && r.attempts <= r.maxAttempts
    && (r.status.Queued? <==> r.attempts == 0)
    && (r.status.Leased? <==> r.expires.At?)
  }

  /** How a row may change while the system runs, whoever changes it. */
  predicate RowEvolves(r: Row, r': Row) {
    && r'.maxAttempts == r.maxAttempts
    && r.attempts <= r'.attempts
    && (Final(r.status) ==> r' == r)
  }

  /** A table grows and each row evolves; no row is deleted. */
  ghost predicate TableEvolves(rows: map<Key, Row>, rows': map<Key, Row>) {
    forall k | k in rows :: k in rows' && RowEvolves(rows[k], rows'[k])
  }

  ghost predicate TableOk(rows: map<Key, Row>) {
    forall k | k in rows :: RowOk(rows[k])
  }

  /** The store bound to one worker id, over a table that other stores share. */
  class AnalysisTaskStore {
    var rows: map<Key, Row>
    const workerId: string

    constructor (workerId: string, rows: map<Key, Row>)
      ensures this.workerId == workerId && this.rows == rows
    {
      this.workerId := workerId;
      this.rows := rows;
    }

    method InsertTask(k: Key, maxAttempts: int)
      requires 0 < maxAttempts && TableOk(rows)
      modifies this`rows
      ensures k in old(rows) ==> rows == old(rows)
      ensures k !in old(rows) ==> rows == old(rows)[k := FreshRow(maxAttempts)]
      ensures TableOk(rows) && TableEvolves(old(rows), rows)
    {
      if k !in rows {
        rows := rows[k := FreshRow(maxAttempts)];
      }
    }

    method ClaimTask(k: Key, now: int, leaseSeconds: int) returns (c: Claim)
      requires TableOk(rows)
      modifies this`rows
      ensures c.Won? <==> k in old(rows) && Claimable(old(rows)[k], now)
      ensures c.Won? ==> && rows == old(rows)[k := ClaimRow(old(rows)[k], workerId, now + leaseSeconds)]
                         && c == Won(old(rows)[k].attempts + 1, old(rows)[k].maxAttempts)
      ensures c.NoRow? ==> rows == old(rows)
      ensures TableOk(rows) && TableEvolves(old(rows), rows)
    {
      if k in rows && Claimable(rows[k], now) {
        rows := rows[k := ClaimRow(rows[k], workerId, now + leaseSeconds)];
        c := Won(rows[k].attempts, rows[k].maxAttempts);
      } else {
        c := NoRow;
      }
    }

    method GetTask(k: Key) returns (l: Lookup)
      ensures l.Found? <==> k in rows
      ensures l.Found? ==> l.status == rows[k].status
    {
      if k in rows {
        l := Found(rows[k].status);
      } else {
        l := Missing;
      }
    }

    /** `mark_succeeded`, `mark_failed_retryable` and `mark_failed_terminal` are one guarded
        statement that differs in the status it writes. */
    method Mark(k: Key, outcome: Status, now: int) returns (held: bool)
      requires TableOk(rows)
      requires Final(outcome) || outcome.FailedRetryable?
      modifies this`rows
      ensures held <==> k in old(rows) && HoldsLease(old(rows)[k], workerId, now)
      ensures held ==> rows == old(rows)[k := EndLease(old(rows)[k], outcome)]
      ensures !held ==> rows == old(rows)
      ensures TableOk(rows) && TableEvolves(old(rows), rows)
    {
      held := k in rows && HoldsLease(rows[k], workerId, now);
      if held {
        rows := rows[k := EndLease(rows[k], outcome)];
      }
    }
  }

  /** Evolution is transitive, so what one step keeps, every run keeps. */
  lemma TableEvolvesTransitive(a: map<Key, Row>, b: map<Key, Row>, c: map<Key, Row>)
    requires TableEvolves(a, b) && TableEvolves(b, c)
    ensures TableEvolves(a, c)
  {
    forall k | k in a ensures k in c && RowEvolves(a[k], c[k]) {
      assert k in b && RowEvolves(a[k], b[k]);
      assert RowEvolves(b[k], c[k]);
    }
  }
}
