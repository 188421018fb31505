/** The job row, its status machine and the SQL statements of the jobs table
    (crates/domain/src/job.rs, crates/storage/src/jobs.rs). */
module JobModel {
  import opened Common

  type JobId = nat

  type UserId = nat

  datatype JobStatus = Queued | Downloading | Uploading | Completed | Failed

  datatype DomainError = InvalidTransition(from: JobStatus, to: JobStatus)

  /** The intended status machine. */
  function Transition(from: JobStatus, to: JobStatus): Result<JobStatus, DomainError> {
    match (from, to)
    case (Queued, Downloading) => Ok(to)
    case (Downloading, Uploading) => Ok(to)
    case (Uploading, Completed) => Ok(to)
    case (Queued, Failed) => Ok(to)
    case (Downloading, Failed) => Ok(to)
    case (Uploading, Failed) => Ok(to)
    case _ => Err(InvalidTransition(from, to))
  }

  predicate IsEdge(from: JobStatus, to: JobStatus) {
    Transition(from, to).Ok?
  }

  predicate InFlight(status: JobStatus) {
    status == Downloading || status == Uploading
  }

  predicate Terminal(status: JobStatus) {
    status == Completed || status == Failed
  }

  function Rank(status: JobStatus): nat {
    match status
    case Queued => 0
    case Downloading => 1
    case Uploading => 2
    case Completed => 3
    case Failed => 4
  }

  /** `error_message`, `drive_file_id` and `status_message_id` are nullable columns;
      `created` is `created_at` in whole seconds. */
  datatype JobRow = JobRow(
    user: UserId,
    status: JobStatus,
    created: nat,
    progressCurrent: int,
    progressTotal: int,
    messageId: Option<int>,
    error: Option<string>,
    driveFileId: Option<string>)

  type Table = map<JobId, JobRow>

  /** The column defaults of an inserted row. */
  function NewRow(user: UserId, created: nat): JobRow {
    JobRow(user, Queued, created, 0, 1, None, None, None)
  }

  function WithStatus(rows: Table, id: JobId, status: JobStatus, error: Option<string>): Table {
    if id in rows then rows[id := rows[id].(status := status, error := error)] else rows
  }

  function WithProgress(rows: Table, id: JobId, current: int, total: int): Table {
    if id in rows then rows[id := rows[id].(progressCurrent := current, progressTotal := total)] else rows
  }

  function WithMessageId(rows: Table, id: JobId, messageId: int): Table {
    if id in rows then rows[id := rows[id].(messageId := Some(messageId))] else rows
  }

  function WithFileId(rows: Table, id: JobId, fileId: string): Table {
    if id in rows then rows[id := rows[id].(driveFileId := Some(fileId))] else rows
  }

  function Lookup(rows: Table, id: JobId): Option<JobRow> {
    if id in rows then Some(rows[id]) else None
  }

  /** The statements of the enqueuing code and those of the workers write different columns: in whichever order two of
      them run, on one row or on two, the table ends up the same. */
  lemma StatementsCommute(rows: Table, a: JobId, b: JobId, status: JobStatus, error: Option<string>, fileId: string,
                          current: int, total: int, messageId: int)
    ensures WithProgress(WithStatus(rows, a, status, error), b, current, total)
            == WithStatus(WithProgress(rows, b, current, total), a, status, error)
    ensures WithMessageId(WithStatus(rows, a, status, error), b, messageId)
            == WithStatus(WithMessageId(rows, b, messageId), a, status, error)
    ensures WithProgress(WithFileId(rows, a, fileId), b, current, total)
            == WithFileId(WithProgress(rows, b, current, total), a, fileId)
    ensures WithMessageId(WithFileId(rows, a, fileId), b, messageId)
            == WithFileId(WithMessageId(rows, b, messageId), a, fileId)
  {
    if a in rows && b in rows && a != b {
      TwoRows(rows, a, b, rows[a].(status := status, error := error), rows[b].(messageId := Some(messageId)));
      TwoRows(rows, a, b, rows[a].(driveFileId := Some(fileId)), rows[b].(messageId := Some(messageId)));
      var progressed := rows[b].(progressCurrent := current, progressTotal := total);
      TwoRows(rows, a, b, rows[a].(status := status, error := error), progressed);
      TwoRows(rows, a, b, rows[a].(driveFileId := Some(fileId)), progressed);
    }
  }

  lemma TwoRows(rows: Table, a: JobId, b: JobId, x: JobRow, y: JobRow)
    requires a != b
    ensures rows[a := x][b := y] == rows[b := y][a := x]
  {
  }

  predicate IsQueued(rows: Table, id: JobId) {
    id in rows && rows[id].status == Queued
  }

  /** `id` is a row that `ORDER BY created_at ASC LIMIT 1` may select among the queued rows;
      rows created in the same second come in no particular order. */
  predicate Claimable(rows: Table, id: JobId) {
    && IsQueued(rows, id)
    && forall other | other in rows :: rows[other].status == Queued ==> rows[id].created <= rows[other].created
  }

  /** Some queued row is claimable as soon as any row is queued. */
  lemma {:induction false} ClaimableExists(rows: Table, ids: set<JobId>, witnessId: JobId) returns (id: JobId)
    requires witnessId in ids && (forall i :: i in ids ==> IsQueued(rows, i))
    ensures id in ids && IsQueued(rows, id)
    ensures forall i :: i in ids ==> i in rows && rows[id].created <= rows[i].created
    decreases |ids|
  {
    var rest := ids - {witnessId};
    if rest == {} {
      assert forall i :: i in ids ==> i == witnessId;
      id := witnessId;
    } else {
      var other :| other in rest;
      var best := ClaimableExists(rows, rest, other);
      id := if rows[witnessId].created <= rows[best].created then witnessId else best;
      assert forall i :: i in ids ==> i == witnessId || i in rest;
    }
  }

  /** The jobs table as its users meet it; every method is one SQL statement. */
  class JobsTable {
    var rows: Table

    constructor (rows: Table)
      ensures this.rows == rows
    {
      this.rows := rows;
    }

    /** Fails on a duplicate primary key and on a user that is not in the table `users`. */
    method Insert(id: JobId, user: UserId, users: set<UserId>, now: nat) returns (row: Option<JobRow>)
      modifies this
      ensures row.Some? <==> id !in old(rows) && user in users
      ensures row.None? ==> rows == old(rows)
      ensures row.Some? ==> row.value == NewRow(user, now) && rows == old(rows)[id := row.value]
    {
      if id in rows || user !in users {
        return None;
      }
      rows := rows[id := NewRow(user, now)];
      row := Some(rows[id]);
    }

    method ClaimNextQueued() returns (claimed: Option<JobId>)
      modifies this
      ensures claimed.None? ==> rows == old(rows) && forall id :: !IsQueued(rows, id)
      ensures claimed.Some? ==>
                && Claimable(old(rows), claimed.value)
                && rows == old(rows)[claimed.value := old(rows)[claimed.value].(status := Downloading)]
    {
      var queued := set id | id in rows && rows[id].status == Queued;
      if queued == {} {
        assert forall id :: IsQueued(rows, id) ==> id in queued;
        return None;
      }
      var some :| some in queued;
      assert exists id :: Claimable(rows, id) by {
        var first := ClaimableExists(rows, queued, some);
        assert Claimable(rows, first);
      }
      var id :| id in rows && Claimable(rows, id);
      rows := rows[id := rows[id].(status := Downloading)];
      claimed := Some(id);
    }

    method UpdateStatus(id: JobId, status: JobStatus, error: Option<string>)
      modifies this
      ensures rows == WithStatus(old(rows), id, status, error)
    {
      if id in rows {
        rows := rows[id := rows[id].(status := status, error := error)];
      }
    }

    method UpdateProgress(id: JobId, current: int, total: int)
      modifies this
      ensures rows == WithProgress(old(rows), id, current, total)
    {
      if id in rows {
        rows := rows[id := rows[id].(progressCurrent := current, progressTotal := total)];
      }
    }

    method SetStatusMessageId(id: JobId, messageId: int)
      modifies this
      ensures rows == WithMessageId(old(rows), id, messageId)
    {
      if id in rows {
        rows := rows[id := rows[id].(messageId := Some(messageId))];
      }
    }

    method SetDriveFileId(id: JobId, fileId: string)
      modifies this
      ensures rows == WithFileId(old(rows), id, fileId)
    {
      if id in rows {
        rows := rows[id := rows[id].(driveFileId := Some(fileId))];
      }
    }

    method GetById(id: JobId) returns (row: Option<JobRow>)
      ensures row == Lookup(rows, id)
    {
      row := if id in rows then Some(rows[id]) else None;
    }
  }
}
