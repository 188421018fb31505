/** What goes wrong with a job, and how that decides how it ends. */
module PoolFaults {
  import opened Common
  import opened JobModel
  import opened WorkerPool
  import opened PoolInvariant

  /** What has gone wrong with one job: `trouble`, anything that makes its holder fail it; `late`, a statement of the
      `set_status` that asks for completed has failed; `reload`, the last of those has, which reloads the row for its
      notification; `failJob`, a statement with which `fail_job` reads or writes the status has failed. */
  datatype Faults = Faults(trouble: bool, late: bool, reload: bool, failJob: bool)

  const NO_FAULTS := Faults(false, false, false, false)

  /** In this step a holder meets the error for which it will fail its job: an outside call fails, the pressure flag
      is set, or a statement fails that is not one of `fail_job`. */
  predicate Troubling(s: State, a: Action)
    requires ByWorker(a) && a.w < |s.workers|
  {
    var pc := s.workers[a.w];
    || a.Abort?
    || (a.CheckGate? && s.pressured)
    || (a.StorageFault? && !(InSetStatus(pc) && pc.to == Failed))
  }

  function NextFaults(s: State, a: Action, id: JobId, f: Faults): Faults {
    if !ByWorker(a) || !HeldBy(s, id, a.w) then f
    else
      var pc := s.workers[a.w];
      Faults(f.trouble || Troubling(s, a),
             f.late || (a.StorageFault? && InSetStatus(pc) && pc.to == Completed),
             f.reload || (a.StorageFault? && pc.Reloading? && pc.to == Completed),
             f.failJob || (a.StorageFault? && (pc.Reading? || pc.Writing?) && pc.to == Failed))
  }

  /** What must have gone wrong with a job that a process finds in its database: a job in flight has been given up
      unfinished, as if by a failing `fail_job`, and a failed job with a file id failed late. */
  function Inherited(rows: Table, id: JobId): Faults {
    if id !in rows || rows[id].status == Queued || rows[id].status == Completed then NO_FAULTS
    else Faults(true, rows[id].driveFileId.Some?, false, InFlight(rows[id].status))
  }

  /** What has gone wrong with a job by the end of a run. */
  function FaultsOf(s: State, acts: seq<Action>, id: JobId): Faults
    requires Runs(s, acts)
    decreases |acts|
  {
    if acts == [] then Inherited(s.rows, id)
    else NextFaults(Exec(s, Front(acts)), Last(acts), id, FaultsOf(s, Front(acts), id))
  }

  /** The same statements have failed. */
  predicate SameFaults(f: Faults, g: Faults) {
    f.late == g.late && f.reload == g.reload && f.failJob == g.failJob
  }

  lemma ReliableStep(s: State, a: Action, id: JobId, f: Faults)
    requires !a.StorageFault?
    ensures SameFaults(NextFaults(s, a, id, f), f)
  {
  }

  lemma {:induction false} ReliableHasNoFaults(s: State, acts: seq<Action>, id: JobId)
    requires Runs(s, acts) && Reliable(acts)
    ensures SameFaults(FaultsOf(s, acts, id), Inherited(s.rows, id))
    decreases |acts|
  {
    if acts != [] {
      ReliableStep(Exec(s, Front(acts)), acts[|acts| - 1], id, FaultsOf(s, Front(acts), id));
      ReliableHasNoFaults(s, Front(acts), id);
    }
  }

  /** From its `i`-th step on, no statement fails. */
  predicate ReliableFrom(acts: seq<Action>, i: nat) {
    forall j | i <= j < |acts| :: !acts[j].StorageFault?
  }

  /** Going on without failing statements adds nothing. */
  lemma {:induction false} FaultsOfReliable(s: State, acts: seq<Action>, i: nat, id: JobId)
    requires Runs(s, acts) && i <= |acts| && ReliableFrom(acts, i)
    ensures Runs(s, acts[..i]) && SameFaults(FaultsOf(s, acts, id), FaultsOf(s, acts[..i], id))
    decreases |acts|
  {
    if i == |acts| {
      assert acts[..i] == acts;
    } else {
      PrefixOfFront(acts, i);
      FaultsOfReliable(s, Front(acts), i, id);
      ReliableStep(Exec(s, Front(acts)), acts[|acts| - 1], id, FaultsOf(s, Front(acts), id));
    }
  }

  /** What is left of a job that no worker works on any more (or that none has taken up). */
  predicate Settled(row: JobRow, f: Faults) {
    && (f.reload ==> f.late)
    && (f.late || f.failJob ==> f.trouble)
    && (row.status == Queued ==> f == NO_FAULTS)
    && (row.status == Completed ==> (f.trouble <==> f.reload && f.failJob))
    && (InFlight(row.status) ==> f.trouble && f.failJob && !f.reload)
    && (row.status == Failed ==> f.trouble && !f.failJob && (row.driveFileId.Some? <==> f.late))
  }

  /** What the position of the worker that holds the job says about the faults so far. */
  predicate OnTrack(pc: Pc, row: JobRow, f: Faults)
    requires Busy(pc)
  {
    match pc
    case Failing(_, _, _) => IsFailing(row, f)
    case Reading(_, to, _) => if to == Failed then IsFailing(row, f) else IsWorking(row, to, f)
    case Writing(_, _, to, _, _) => if to == Failed then IsFailing(row, f) else IsWorking(row, to, f)
    case Reloading(_, to) => if to == Failed then Settled(row, f) else IsWorking(row, to, f)
    case Cleaning(_) => Settled(row, f) && row.status != Queued
    case _ => IsWorking(row, Downloading, f)
  }

  predicate IsWorking(row: JobRow, to: JobStatus, f: Faults) {
    f == NO_FAULTS && (row.driveFileId.Some? <==> to == Completed)
  }

  predicate IsFailing(row: JobRow, f: Faults) {
    && f.trouble && !f.failJob
    && (f.reload ==> f.late)
    && (f.reload <==> row.status == Completed)
    && (f.late <==> row.driveFileId.Some?)
  }

  ghost predicate Held(s: State, id: JobId) {
    exists w: nat :: HeldBy(s, id, w)
  }

  /** The faults of a job agree with its row and with where its holder is. */
  ghost predicate Tracked(s: State, id: JobId, f: Faults) {
    && (id !in s.rows ==> f == NO_FAULTS)
    && (forall w: nat | HeldBy(s, id, w) :: id in s.rows && OnTrack(s.workers[w], s.rows[id], f))
    && (id in s.rows && !Held(s, id) ==> Settled(s.rows[id], f))
  }

  /** What a step of the holder has to establish. */
  predicate TrackDone(s': State, w: nat, id: JobId, f: Faults)
    requires w < |s'.workers|
  {
    && id in s'.rows
    && (if Busy(s'.workers[w]) then s'.workers[w].id == id && OnTrack(s'.workers[w], s'.rows[id], f)
        else Settled(s'.rows[id], f))
  }

  lemma SetStatusStaysOnTrack(s: State, a: Action, f: Faults)
    requires Enabled(s, a) && ByWorker(a) && InSetStatus(s.workers[a.w])
    requires HolderDone(s, a.w, s.workers[a.w].id) && TrackDone(s, a.w, s.workers[a.w].id, f)
    ensures TrackDone(Apply(s, a), a.w, s.workers[a.w].id, NextFaults(s, a, s.workers[a.w].id, f))
  {
  }

  lemma OtherHolderStaysOnTrack(s: State, a: Action, f: Faults)
    requires Enabled(s, a) && ByWorker(a) && Busy(s.workers[a.w]) && !InSetStatus(s.workers[a.w])
    requires HolderDone(s, a.w, s.workers[a.w].id) && TrackDone(s, a.w, s.workers[a.w].id, f)
    ensures TrackDone(Apply(s, a), a.w, s.workers[a.w].id, NextFaults(s, a, s.workers[a.w].id, f))
  {
  }

  lemma HolderStaysOnTrack(s: State, a: Action, f: Faults)
    requires Inv(s) && Enabled(s, a) && ByWorker(a) && Busy(s.workers[a.w]) && Tracked(s, s.workers[a.w].id, f)
    ensures TrackDone(Apply(s, a), a.w, s.workers[a.w].id, NextFaults(s, a, s.workers[a.w].id, f))
  {
    var id := s.workers[a.w].id;
    assert HeldBy(s, id, a.w);
    assert HolderOk(s.workers[a.w], s.rows[id], Calls(s, id));
    assert RowOk(s.rows[id], Calls(s, id));
    if InSetStatus(s.workers[a.w]) {
      SetStatusStaysOnTrack(s, a, f);
    } else {
      OtherHolderStaysOnTrack(s, a, f);
    }
  }

  /** Nobody but the holder can come to hold its job by the holder's step. */
  lemma SoleHolder(s: State, a: Action, w: nat)
    requires Exclusive(s) && Enabled(s, a) && ByWorker(a) && Busy(s.workers[a.w]) && w != a.w
    ensures !HeldBy(Apply(s, a), s.workers[a.w].id, w)
  {
    var id := s.workers[a.w].id;
    assert HeldBy(s, id, a.w);
    OthersStay(s, a, id, w);
  }

  lemma HolderKeepsTrack(s: State, a: Action, f: Faults)
    requires Inv(s) && Enabled(s, a) && ByWorker(a) && Busy(s.workers[a.w]) && Tracked(s, s.workers[a.w].id, f)
    ensures var id := s.workers[a.w].id;
            Tracked(Apply(s, a), id, NextFaults(s, a, id, f))
  {
    var id := s.workers[a.w].id;
    var t := Apply(s, a);
    HolderStaysOnTrack(s, a, f);
    forall w: nat | w != a.w
      ensures !HeldBy(t, id, w)
    {
      SoleHolder(s, a, w);
    }
    SoleHolderTracked(t, a.w, id, NextFaults(s, a, id, f));
  }

  lemma SoleHolderTracked(s: State, w: nat, id: JobId, f: Faults)
    requires w < |s.workers| && TrackDone(s, w, id, f) && forall v: nat | v != w :: !HeldBy(s, id, v)
    ensures Tracked(s, id, f)
  {
    if Busy(s.workers[w]) {
      assert HeldBy(s, id, w);
    }
  }

  /** A queued job is held by nobody. */
  lemma QueuedIsFree(s: State, id: JobId)
    requires Inv(s) && IsQueued(s.rows, id)
    ensures !Held(s, id)
  {
    assert forall w: nat :: !HeldBy(s, id, w);
  }

  lemma ClaimKeepsTrack(s: State, a: Action, f: Faults)
    requires Inv(s) && Enabled(s, a) && a.Claim? && Tracked(s, a.job, f)
    ensures Tracked(Apply(s, a), a.job, NextFaults(s, a, a.job, f))
  {
    var t := Apply(s, a);
    QueuedIsFree(s, a.job);
    assert RowOk(s.rows[a.job], Calls(s, a.job));
    forall w: nat | w != a.w
      ensures !HeldBy(t, a.job, w)
    {
      OthersStay(s, a, a.job, w);
    }
    assert HeldBy(t, a.job, a.w);
  }

  /** A step that is neither a claim of the job nor a step of its holder leaves it with its holder. */
  lemma ForeignHolder(s: State, a: Action, id: JobId, w: nat)
    requires Enabled(s, a) && (ByWorker(a) ==> !HeldBy(s, id, a.w)) && (a.Claim? ==> a.job != id)
    ensures HeldBy(Apply(s, a), id, w) <==> HeldBy(s, id, w)
    ensures HeldBy(s, id, w) ==> Apply(s, a).workers[w] == s.workers[w]
  {
    if !ByWorker(a) || w != a.w {
      OthersStay(s, a, id, w);
    }
  }

  lemma ForeignKeepsTrack(s: State, a: Action, id: JobId, f: Faults)
    requires Enabled(s, a) && Tracked(s, id, f) && id in s.rows
    requires (ByWorker(a) ==> !HeldBy(s, id, a.w)) && (a.Claim? ==> a.job != id)
    ensures Tracked(Apply(s, a), id, f) && NextFaults(s, a, id, f) == f
  {
    var t := Apply(s, a);
    Undisturbed(s, a, id);
    forall w: nat
      ensures HeldBy(t, id, w) <==> HeldBy(s, id, w)
      ensures HeldBy(s, id, w) ==> t.workers[w] == s.workers[w]
    {
      ForeignHolder(s, a, id, w);
    }
  }

  /** Every step keeps track of every job, whichever statements fail. */
  lemma StepKeepsTrack(s: State, a: Action, id: JobId, f: Faults)
    requires Inv(s) && Enabled(s, a) && Tracked(s, id, f)
    ensures Tracked(Apply(s, a), id, NextFaults(s, a, id, f))
  {
    if ByWorker(a) && HeldBy(s, id, a.w) {
      HolderKeepsTrack(s, a, f);
    } else if a.Claim? && a.job == id {
      ClaimKeepsTrack(s, a, f);
    } else if id in s.rows {
      ForeignKeepsTrack(s, a, id, f);
    } else {
      NewRowOnTrack(s, a, id);
    }
  }

  lemma NewRowOnTrack(s: State, a: Action, id: JobId)
    requires Inv(s) && Enabled(s, a) && id !in s.rows
    ensures Tracked(Apply(s, a), id, NO_FAULTS) && NextFaults(s, a, id, NO_FAULTS) == NO_FAULTS
  {
    forall w: nat
      ensures !HeldBy(Apply(s, a), id, w)
    {
      assert !HeldBy(s, id, w);
      ForeignHolder(s, a, id, w);
    }
    NewRowIsQueued(s, a, id);
  }

  lemma NewRowIsQueued(s: State, a: Action, id: JobId)
    requires Inv(s) && Enabled(s, a) && id !in s.rows
    ensures id in Apply(s, a).rows ==> Settled(Apply(s, a).rows[id], NO_FAULTS)
  {
  }

  lemma {:induction false} RunKeepsTrack(s: State, acts: seq<Action>, id: JobId)
    requires Init(s) && Runs(s, acts)
    ensures Inv(Exec(s, acts)) && Tracked(Exec(s, acts), id, FaultsOf(s, acts, id))
    decreases |acts|
  {
    InitOk(s);
    if acts != [] {
      RunKeepsTrack(s, Front(acts), id);
      StepKeepsInv(Exec(s, Front(acts)), Last(acts));
      StepKeepsTrack(Exec(s, Front(acts)), Last(acts), id, FaultsOf(s, Front(acts), id));
    }
  }

  /** How a job ends that has been taken up and given up again, whatever else happens in the run. If its holder met no
      error it is completed. If it met one, the job is failed, unless `fail_job` failed as well: then it stays as it
      was, completed after a lost reload, and otherwise in flight. A failed job has a file id exactly if a statement
      failed after the upload had been recorded. */
  lemma FaultsDecideOutcome(s: State, acts: seq<Action>, id: JobId)
    requires Init(s) && Runs(s, acts) && id in Exec(s, acts).rows && !Held(Exec(s, acts), id)
    requires Exec(s, acts).rows[id].status != Queued
    ensures var row := Exec(s, acts).rows[id];
            var f := FaultsOf(s, acts, id);
            && (f.reload || f.late || f.failJob ==> f.trouble)
            && (row.status == Completed <==> !f.trouble || (f.reload && f.failJob))
            && (row.status == Failed <==> f.trouble && !f.failJob)
            && (InFlight(row.status) <==> f.failJob && !f.reload)
            && (row.status == Failed ==> (row.driveFileId.Some? <==> f.late))
  {
    RunKeepsTrack(s, acts, id);
    SettledOutcome(Exec(s, acts).rows[id], FaultsOf(s, acts, id));
  }

  lemma SettledOutcome(row: JobRow, f: Faults)
    requires Settled(row, f) && row.status != Queued
    ensures f.reload || f.late || f.failJob ==> f.trouble
    ensures row.status == Completed <==> !f.trouble || (f.reload && f.failJob)
    ensures row.status == Failed <==> f.trouble && !f.failJob
    ensures InFlight(row.status) <==> f.failJob && !f.reload
    ensures row.status == Failed ==> (row.driveFileId.Some? <==> f.late)
  {
  }

  /** A job in flight that nobody holds, such as one found at the process start, stays so: no code takes it up again. */
  lemma {:induction false} OrphansStay(s: State, acts: seq<Action>, id: JobId)
    requires Inv(s) && Runs(s, acts) && id in s.rows && InFlight(s.rows[id].status) && !Held(s, id)
    ensures id in Exec(s, acts).rows && !Held(Exec(s, acts), id)
    ensures var row := Exec(s, acts).rows[id];
            && row.status == s.rows[id].status && row.error == s.rows[id].error
            && row.driveFileId == s.rows[id].driveFileId
    decreases |acts|
  {
    if acts != [] {
      OrphansStay(s, Front(acts), id);
      OrphanStep(Exec(s, Front(acts)), Last(acts), id);
    }
  }

  lemma OrphanStep(s: State, a: Action, id: JobId)
    requires Enabled(s, a) && id in s.rows && InFlight(s.rows[id].status) && !Held(s, id)
    ensures id in Apply(s, a).rows && !Held(Apply(s, a), id)
    ensures var row := Apply(s, a).rows[id];
            && row.status == s.rows[id].status && row.error == s.rows[id].error
            && row.driveFileId == s.rows[id].driveFileId
  {
    Undisturbed(s, a, id);
    forall w: nat
      ensures !HeldBy(Apply(s, a), id, w)
    {
      ForeignHolder(s, a, id, w);
    }
  }
}
