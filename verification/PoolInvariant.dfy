/** What every step of the pool keeps: exclusive ownership of claimed jobs, and the agreement of
    each worker's position with the row of the job it holds. */
module PoolInvariant {
  import opened Common
  import opened JobModel
  import opened WorkerPool

  /** A row and the uploader calls made for it. */
  predicate RowOk(row: JobRow, calls: seq<Option<string>>) {
    && |calls| <= 1
    && (row.status == Queued ==> calls == [])
    && (row.error.Some? <==> row.status == Failed)
    && (row.status == Completed ==> row.driveFileId.Some?)
    && (row.driveFileId.Some? ==> calls == [row.driveFileId])
  }

  predicate Claimed(status: JobStatus) {
    status == Downloading || status == Uploading || status == Completed
  }

  /** What a worker's position says about the row of its job. */
  predicate HolderOk(pc: Pc, row: JobRow, calls: seq<Option<string>>)
    requires Busy(pc)
  {
    match pc
    case Reading(_, to, error) => TargetOk(row.status, to, error, row, calls)
    case Writing(_, from, to, error, _) =>
      row.status == from && to != Downloading && TargetOk(from, to, error, row, calls)
    case Reloading(_, to) =>
      row.status == to && (to == Completed || to == Failed || (to == Uploading && calls == []))
    case Sending(_) => row.status == Uploading && calls == []
    case Recording(_, fileId) => row.status == Uploading && calls == [Some(fileId)]
    case Failing(_, _, _) => Claimed(row.status)
    case Cleaning(_) => row.status != Queued
    case _ => row.status == Downloading && calls == []
  }

  /** What `set_status` finds when it is asked for `to`. */
  predicate TargetOk(from: JobStatus, to: JobStatus, error: Option<string>, row: JobRow, calls: seq<Option<string>>) {
    && (error.Some? <==> to == Failed)
    && match to
       case Queued => false
       case Downloading => from == Downloading && calls == []
       case Uploading => from == Downloading && calls == []
       case Completed => from == Uploading && row.driveFileId.Some?
       case Failed => Claimed(from)
  }

  predicate HeldBy(s: State, id: JobId, w: nat) {
    w < |s.workers| && Busy(s.workers[w]) && s.workers[w].id == id
  }

  ghost predicate RowsOk(s: State) {
    && (forall id | id in s.rows :: RowOk(s.rows[id], Calls(s, id)))
    && (forall id | id in s.uploads :: id in s.rows)
  }

  ghost predicate WorkersOk(s: State) {
    forall w | 0 <= w < |s.workers| && Busy(s.workers[w]) ::
      var id := s.workers[w].id;
      id in s.rows && HolderOk(s.workers[w], s.rows[id], Calls(s, id))
  }

  ghost predicate Exclusive(s: State) {
    forall id, v, w :: HeldBy(s, id, v) && HeldBy(s, id, w) ==> v == w
  }

  /** Kept by every step, failing SQL statements included. */
  ghost predicate Inv(s: State) {
    RowsOk(s) && WorkersOk(s) && Exclusive(s)
  }

  predicate InSetStatus(pc: Pc) {
    pc.Reading? || pc.Writing? || pc.Reloading?
  }

  /** What a step of the worker that holds `id` has to establish. */
  predicate HolderDone(s': State, w: nat, id: JobId)
    requires w < |s'.workers|
  {
    && id in s'.rows
    && RowOk(s'.rows[id], Calls(s', id))
    && (Busy(s'.workers[w]) ==> s'.workers[w].id == id && HolderOk(s'.workers[w], s'.rows[id], Calls(s', id)))
  }

  lemma SetStatusStep(s: State, a: Action)
    requires Enabled(s, a) && ByWorker(a) && InSetStatus(s.workers[a.w])
    requires HolderDone(s, a.w, s.workers[a.w].id)
    ensures HolderDone(Apply(s, a), a.w, s.workers[a.w].id)
  {
  }

  lemma OtherHolderStep(s: State, a: Action)
    requires Enabled(s, a) && ByWorker(a) && Busy(s.workers[a.w]) && !InSetStatus(s.workers[a.w])
    requires HolderDone(s, a.w, s.workers[a.w].id)
    ensures HolderDone(Apply(s, a), a.w, s.workers[a.w].id)
  {
  }

  /** One step of a worker that holds a job: its own job's row and calls fit its new position ... */
  lemma HolderStep(s: State, a: Action)
    requires Inv(s) && Enabled(s, a) && ByWorker(a) && Busy(s.workers[a.w])
    ensures HolderDone(Apply(s, a), a.w, s.workers[a.w].id)
  {
    var id := s.workers[a.w].id;
    assert RowOk(s.rows[id], Calls(s, id));
    assert HolderOk(s.workers[a.w], s.rows[id], Calls(s, id));
    if InSetStatus(s.workers[a.w]) {
      SetStatusStep(s, a);
    } else {
      OtherHolderStep(s, a);
    }
  }

  /** ... and every other job is left alone. */
  lemma HolderFrame(s: State, a: Action, other: JobId)
    requires Inv(s) && Enabled(s, a) && ByWorker(a) && Busy(s.workers[a.w]) && other != s.workers[a.w].id
    ensures var s' := Apply(s, a);
            && (other in s'.rows <==> other in s.rows)
            && (other in s.rows ==> s'.rows[other] == s.rows[other])
            && (other in s'.uploads <==> other in s.uploads)
            && Calls(s', other) == Calls(s, other)
  {
  }

  lemma BusyWorkers(s: State, a: Action)
    requires Enabled(s, a) && ByWorker(a)
    ensures |Apply(s, a).workers| == |s.workers|
    ensures forall w | 0 <= w < |s.workers| && w != a.w :: Apply(s, a).workers[w] == s.workers[w]
  {
  }

  lemma BusyStepKeepsRows(s: State, a: Action)
    requires Inv(s) && Enabled(s, a) && ByWorker(a) && Busy(s.workers[a.w])
    ensures RowsOk(Apply(s, a))
  {
    var s' := Apply(s, a);
    HolderStep(s, a);
    forall i | i in s'.rows
      ensures RowOk(s'.rows[i], Calls(s', i))
    {
      if i != s.workers[a.w].id {
        HolderFrame(s, a, i);
        assert RowOk(s.rows[i], Calls(s, i));
      }
    }
    forall i | i in s'.uploads
      ensures i in s'.rows
    {
      if i != s.workers[a.w].id {
        HolderFrame(s, a, i);
      }
    }
  }

  lemma BusyStepKeepsWorkers(s: State, a: Action)
    requires Inv(s) && Enabled(s, a) && ByWorker(a) && Busy(s.workers[a.w])
    ensures WorkersOk(Apply(s, a)) && Exclusive(Apply(s, a))
  {
    var id := s.workers[a.w].id;
    var s' := Apply(s, a);
    HolderStep(s, a);
    BusyWorkers(s, a);
    assert HeldBy(s, id, a.w);
    forall w | 0 <= w < |s'.workers| && w != a.w && Busy(s'.workers[w])
      ensures s'.workers[w].id != id && s'.workers[w].id in s'.rows
      ensures HolderOk(s'.workers[w], s'.rows[s'.workers[w].id], Calls(s', s'.workers[w].id))
    {
      assert HeldBy(s, s.workers[w].id, w);
      HolderFrame(s, a, s.workers[w].id);
    }
    forall i, v, w | HeldBy(s', i, v) && HeldBy(s', i, w)
      ensures v == w
    {
      if v != a.w && w != a.w {
        assert HeldBy(s, i, v) && HeldBy(s, i, w);
      }
    }
  }

  lemma BusyStepKeepsInv(s: State, a: Action)
    requires Inv(s) && Enabled(s, a) && ByWorker(a) && Busy(s.workers[a.w])
    ensures Inv(Apply(s, a))
  {
    BusyStepKeepsRows(s, a);
    BusyStepKeepsWorkers(s, a);
  }

  /** Claiming: a queued job is held by nobody, so its new holder is the only one. */
  lemma ClaimKeepsInv(s: State, a: Action)
    requires Inv(s) && Enabled(s, a) && a.Claim?
    ensures Inv(Apply(s, a))
  {
    var s' := Apply(s, a);
    forall w | 0 <= w < |s.workers| && Busy(s.workers[w])
      ensures s.workers[w].id != a.job
    {
      assert HolderOk(s.workers[w], s.rows[s.workers[w].id], Calls(s, s.workers[w].id));
    }
    assert RowOk(s.rows[a.job], Calls(s, a.job));
    forall i, v, w | HeldBy(s', i, v) && HeldBy(s', i, w)
      ensures v == w
    {
      if v != a.w && w != a.w {
        assert HeldBy(s, i, v) && HeldBy(s, i, w);
      }
    }
  }

  /** The rows after a step of an idle worker, the enqueuing code or the clock: no job's status,
      error, file id or uploader calls change. */
  lemma OtherFrame(s: State, a: Action, id: JobId)
    requires Inv(s) && Enabled(s, a) && !a.Claim? && (ByWorker(a) ==> !Busy(s.workers[a.w]))
    requires id in s.rows
    ensures var s' := Apply(s, a);
            && id in s'.rows
            && s'.rows[id].status == s.rows[id].status
            && s'.rows[id].error == s.rows[id].error
            && s'.rows[id].driveFileId == s.rows[id].driveFileId
            && s'.uploads == s.uploads
  {
  }

  lemma OtherWorkers(s: State, a: Action)
    requires Enabled(s, a) && !a.Claim? && (ByWorker(a) ==> !Busy(s.workers[a.w]))
    ensures |Apply(s, a).workers| == |s.workers|
    ensures forall w | 0 <= w < |s.workers| ::
              && (Busy(Apply(s, a).workers[w]) <==> Busy(s.workers[w]))
              && (Busy(s.workers[w]) ==> Apply(s, a).workers[w] == s.workers[w])
  {
  }

  lemma OtherStepKeepsRows(s: State, a: Action)
    requires Inv(s) && Enabled(s, a) && !a.Claim? && (ByWorker(a) ==> !Busy(s.workers[a.w]))
    ensures RowsOk(Apply(s, a))
  {
    var s' := Apply(s, a);
    assert s'.uploads == s.uploads;
    forall id | id in s'.rows
      ensures RowOk(s'.rows[id], Calls(s', id))
    {
      if id in s.rows {
        assert RowOk(s.rows[id], Calls(s, id));
        OtherFrame(s, a, id);
      } else {
        assert a.Insert? && id !in s.uploads;
      }
    }
    forall id | id in s.uploads
      ensures id in s'.rows
    {
      OtherFrame(s, a, id);
    }
  }

  /** A step that is neither a claim of this job nor a step of its holder: the job's outcome stays. */
  lemma Undisturbed(s: State, a: Action, id: JobId)
    requires Enabled(s, a) && id in s.rows
    requires ByWorker(a) ==> !HeldBy(s, id, a.w)
    requires a.Claim? ==> a.job != id
    ensures var t := Apply(s, a);
            && id in t.rows
            && t.rows[id].status == s.rows[id].status
            && t.rows[id].error == s.rows[id].error
            && t.rows[id].driveFileId == s.rows[id].driveFileId
            && t.rows[id].created == s.rows[id].created
            && t.rows[id].user == s.rows[id].user
  {
  }

  /** Only its own steps move a worker. */
  lemma OthersStay(s: State, a: Action, id: JobId, w: nat)
    requires Enabled(s, a) && (ByWorker(a) ==> a.w != w)
    ensures |Apply(s, a).workers| == |s.workers|
    ensures w < |s.workers| ==> Apply(s, a).workers[w] == s.workers[w]
    ensures HeldBy(Apply(s, a), id, w) <==> HeldBy(s, id, w)
  {
  }

  /** Everything else: idle workers, the enqueuing code and the clock. */
  lemma OtherStepKeepsInv(s: State, a: Action)
    requires Inv(s) && Enabled(s, a) && !a.Claim? && (ByWorker(a) ==> !Busy(s.workers[a.w]))
    ensures Inv(Apply(s, a))
  {
    var s' := Apply(s, a);
    OtherStepKeepsRows(s, a);
    OtherWorkers(s, a);
    forall w | 0 <= w < |s'.workers| && Busy(s'.workers[w])
      ensures s'.workers[w].id in s'.rows
      ensures HolderOk(s'.workers[w], s'.rows[s'.workers[w].id], Calls(s', s'.workers[w].id))
    {
      OtherFrame(s, a, s.workers[w].id);
    }
    forall i, v, w | HeldBy(s', i, v) && HeldBy(s', i, w)
      ensures v == w
    {
      assert HeldBy(s, i, v) && HeldBy(s, i, w);
    }
  }

  lemma StepKeepsInv(s: State, a: Action)
    requires Inv(s) && Enabled(s, a)
    ensures Inv(Apply(s, a))
  {
    if ByWorker(a) && Busy(s.workers[a.w]) {
      BusyStepKeepsInv(s, a);
    } else if a.Claim? {
      ClaimKeepsInv(s, a);
    } else {
      OtherStepKeepsInv(s, a);
    }
  }

  /** A process start on any database that the pool can have left behind, by stopping or by crashing: no worker holds a
      job. Jobs may still be in flight, and temp dirs may still exist. */
  ghost predicate Init(s: State) {
    && (forall w | 0 <= w < |s.workers| :: s.workers[w] == Idle)
    && RowsOk(s)
    && (forall id | id in s.rows :: s.rows[id].created <= s.now)
  }

  lemma {:induction false} RunKeepsInv(s: State, acts: seq<Action>)
    requires Inv(s) && Runs(s, acts)
    ensures Inv(Exec(s, acts))
    decreases |acts|
  {
    if acts != [] {
      RunKeepsInv(s, Front(acts));
      StepKeepsInv(Exec(s, Front(acts)), Last(acts));
    }
  }

  lemma InitOk(s: State)
    requires Init(s)
    ensures Inv(s)
  {
  }
}
