/** What holds over every run of the worker pool. */
module PoolSafety {
  import opened Common
  import opened JobModel
  import opened WorkerPool
  import opened PoolInvariant
  import opened PoolFaults

  // ----- exclusive ownership ---------------------------------------------------------------

  /** A job in flight is never held by two workers, and there is one at work on it (not only about to remove its
      directory) if and only if no statement of its `fail_job` has failed. */
  lemma ExclusiveOwnership(s: State, acts: seq<Action>, id: JobId)
    requires Init(s) && Runs(s, acts)
    requires id in Exec(s, acts).rows && InFlight(Exec(s, acts).rows[id].status)
    ensures forall v: nat, w: nat :: HeldBy(Exec(s, acts), id, v) && HeldBy(Exec(s, acts), id, w) ==> v == w
    ensures (exists w: nat :: HeldBy(Exec(s, acts), id, w) && !Exec(s, acts).workers[w].Cleaning?)
            <==> !FaultsOf(s, acts, id).failJob
  {
    RunKeepsTrack(s, acts, id);
    var t := Exec(s, acts);
    if Held(t, id) {
      var w: nat :| HeldBy(t, id, w);
      assert OnTrack(t.workers[w], t.rows[id], FaultsOf(s, acts, id));
      assert HolderOk(t.workers[w], t.rows[id], Calls(t, id));
    }
  }

  /** `set_status` reads, checks and then writes in separate statements. At the write, in every run, the row still has
      the status that was read and checked, and the write is an edge of the status machine, although the check lets
      `Failed` through from anywhere, if and only if the job has not lost its final reload. */
  lemma CheckedStatusStillHolds(s: State, acts: seq<Action>, w: nat)
    requires Init(s) && Runs(s, acts) && Enabled(Exec(s, acts), WriteStatus(w))
    ensures var t := Exec(s, acts);
            var pc := t.workers[w];
            && pc.id in t.rows
            && t.rows[pc.id].status == pc.from
            && (IsEdge(pc.from, pc.to) <==> !FaultsOf(s, acts, pc.id).reload)
  {
    var t := Exec(s, acts);
    var id := t.workers[w].id;
    RunKeepsTrack(s, acts, id);
    WriteIsChecked(t, w, FaultsOf(s, acts, id));
  }

  lemma WriteIsChecked(s: State, w: nat, f: Faults)
    requires Inv(s) && w < |s.workers| && s.workers[w].Writing? && Tracked(s, s.workers[w].id, f)
    ensures var pc := s.workers[w];
            && pc.id in s.rows
            && s.rows[pc.id].status == pc.from
            && (IsEdge(pc.from, pc.to) <==> !f.reload)
  {
    var id := s.workers[w].id;
    assert HeldBy(s, id, w);
    assert HolderOk(s.workers[w], s.rows[id], Calls(s, id));
  }

  // ----- status histories ------------------------------------------------------------------

  /** A history goes on with the status in `s`, unless it ends with it. */
  function Extended(h: seq<JobStatus>, s: State, id: JobId): seq<JobStatus> {
    if id !in s.rows || (h != [] && Last(h) == s.rows[id].status) then h else h + [s.rows[id].status]
  }

  /** The statuses a job goes through in a run, without repetitions. */
  function StatusHistory(s: State, acts: seq<Action>, id: JobId): seq<JobStatus>
    requires Runs(s, acts)
    decreases |acts|
  {
    Extended(if acts == [] then [] else StatusHistory(s, Front(acts), id), Exec(s, acts), id)
  }

  predicate IsPath(h: seq<JobStatus>) {
    forall i | 0 <= i < |h| - 1 :: IsEdge(h[i], h[i + 1])
  }

  /** What one step may do to a row: nothing is deleted, a status moves along an edge, and the outcome of a
      finished job is final. The exception is a worker that fails a job it has completed. */
  lemma StatusStep(s: State, a: Action, id: JobId)
    requires Inv(s) && Enabled(s, a) && id in s.rows
    ensures var t := Apply(s, a);
            && id in t.rows
            && (t.rows[id].status == s.rows[id].status || IsEdge(s.rows[id].status, t.rows[id].status)
                || (s.rows[id].status == Completed && t.rows[id].status == Failed))
            && (Terminal(s.rows[id].status) && t.rows[id].status == s.rows[id].status ==>
                  t.rows[id].error == s.rows[id].error && t.rows[id].driveFileId == s.rows[id].driveFileId)
  {
    if ByWorker(a) && HeldBy(s, id, a.w) {
      assert HolderOk(s.workers[a.w], s.rows[id], Calls(s, id));
      HolderStatusStep(s, a);
    } else if !(a.Claim? && a.job == id) {
      Undisturbed(s, a, id);
    }
  }

  lemma HolderStatusStep(s: State, a: Action)
    requires Enabled(s, a) && ByWorker(a) && Busy(s.workers[a.w])
    requires var pc := s.workers[a.w];
             pc.id in s.rows && HolderOk(pc, s.rows[pc.id], Calls(s, pc.id))
    ensures var id := s.workers[a.w].id;
            var row := s.rows[id];
            && id in Apply(s, a).rows
            && var row' := Apply(s, a).rows[id];
            && (row'.status != row.status ==> a.WriteStatus? && row'.status == s.workers[a.w].to)
            && (row'.status == row.status || IsEdge(row.status, row'.status)
                || (row.status == Completed && row'.status == Failed))
            && (row'.status == row.status && Terminal(row.status) ==>
                  row'.error == row.error && row'.driveFileId == row.driveFileId)
  {
  }

  /** Only a lost final reload takes a job from completed to failed. */
  lemma CompletedStep(s: State, a: Action, id: JobId, f: Faults)
    requires Inv(s) && Enabled(s, a) && Tracked(s, id, f) && id in s.rows && s.rows[id].status == Completed
    ensures id in Apply(s, a).rows && (Apply(s, a).rows[id].status != Completed ==> f.reload)
  {
    StatusStep(s, a, id);
    if ByWorker(a) && HeldBy(s, id, a.w) {
      assert HolderOk(s.workers[a.w], s.rows[id], Calls(s, id));
      assert OnTrack(s.workers[a.w], s.rows[id], f);
      HolderStatusStep(s, a);
    } else {
      Undisturbed(s, a, id);
    }
  }

  /** A history ends with the present status. */
  lemma {:induction false} HistoryEndsInStatus(s: State, acts: seq<Action>, id: JobId)
    requires Init(s) && Runs(s, acts)
    ensures var h := StatusHistory(s, acts, id);
            var t := Exec(s, acts);
            if id in t.rows then h != [] && Last(h) == t.rows[id].status else h == []
    decreases |acts|
  {
    if acts != [] {
      HistoryEndsInStatus(s, Front(acts), id);
      RowsStay(Exec(s, Front(acts)), Last(acts), id);
    }
  }

  /** Rows are never deleted, and a new one is queued. */
  lemma RowsStay(s: State, a: Action, id: JobId)
    requires Enabled(s, a)
    ensures id in s.rows ==> id in Apply(s, a).rows
    ensures id !in s.rows && id in Apply(s, a).rows ==> Apply(s, a).rows[id].status == Queued
  {
  }

  /** It begins with the status at the start of the run or, if the job was inserted later, with queued. */
  lemma {:induction false} HistoryBegins(s: State, acts: seq<Action>, id: JobId)
    requires Init(s) && Runs(s, acts) && StatusHistory(s, acts, id) != []
    ensures StatusHistory(s, acts, id)[0] == if id in s.rows then s.rows[id].status else Queued
    decreases |acts|
  {
    if acts != [] {
      var earlier := StatusHistory(s, Front(acts), id);
      HistoryEndsInStatus(s, Front(acts), id);
      RowsStay(Exec(s, Front(acts)), Last(acts), id);
      if earlier != [] {
        HistoryBegins(s, Front(acts), id);
      } else if id in s.rows {
        StartRowsHaveHistories(s, Front(acts), id);
      }
    }
  }

  lemma {:induction false} StartRowsHaveHistories(s: State, acts: seq<Action>, id: JobId)
    requires Runs(s, acts) && id in s.rows
    ensures StatusHistory(s, acts, id) != []
    decreases |acts|
  {
    if acts != [] {
      StartRowsHaveHistories(s, Front(acts), id);
    }
  }

  lemma PathSnoc(h: seq<JobStatus>, to: JobStatus)
    ensures IsPath(h + [to]) <==> IsPath(h) && (h != [] ==> IsEdge(Last(h), to))
  {
    var h' := h + [to];
    assert forall i | 0 <= i < |h| :: h'[i] == h[i];
    if h != [] && IsPath(h') {
      assert IsEdge(h'[|h| - 1], h'[|h|]);
    }
  }

  /** The job has lost its final reload and has been failed for it. */
  predicate Lost(s: State, id: JobId, f: Faults) {
    id in s.rows && s.rows[id].status == Failed && f.reload
  }

  predicate LostCompletion(s: State, acts: seq<Action>, id: JobId)
    requires Runs(s, acts)
  {
    Lost(Exec(s, acts), id, FaultsOf(s, acts, id))
  }

  /** Over every run, whatever fails, a job's history is a path of the status machine if and only if the job has not
      been failed after a lost reload; without failing statements it always is. */
  lemma {:induction false} HistoriesArePaths(s: State, acts: seq<Action>, id: JobId)
    requires Init(s) && Runs(s, acts)
    ensures IsPath(StatusHistory(s, acts, id)) <==> !LostCompletion(s, acts, id)
    ensures Reliable(acts) ==> IsPath(StatusHistory(s, acts, id))
    decreases |acts|
  {
    if acts == [] {
      PathSnoc([], if id in s.rows then s.rows[id].status else Queued);
    } else {
      HistoriesArePaths(s, Front(acts), id);
      HistoryEndsInStatus(s, Front(acts), id);
      RunKeepsTrack(s, Front(acts), id);
      HistoryStep(Exec(s, Front(acts)), Last(acts), id, FaultsOf(s, Front(acts), id),
                  StatusHistory(s, Front(acts), id));
    }
    if Reliable(acts) {
      ReliableHasNoFaults(s, acts, id);
    }
  }

  lemma HistoryStep(s: State, a: Action, id: JobId, f: Faults, h: seq<JobStatus>)
    requires Inv(s) && Enabled(s, a) && Tracked(s, id, f)
    requires if id in s.rows then h != [] && Last(h) == s.rows[id].status else h == []
    requires IsPath(h) <==> !Lost(s, id, f)
    ensures IsPath(Extended(h, Apply(s, a), id)) <==> !Lost(Apply(s, a), id, NextFaults(s, a, id, f))
  {
    var t := Apply(s, a);
    RowsStay(s, a, id);
    if id in s.rows {
      StatusStep(s, a, id);
      ReloadStep(s, a, id, f);
      PathSnoc(h, t.rows[id].status);
    } else if id in t.rows {
      PathSnoc(h, Queued);
    }
  }

  lemma LostReloadIsTerminal(s: State, id: JobId, f: Faults)
    requires Inv(s) && Tracked(s, id, f) && f.reload
    ensures id in s.rows && Terminal(s.rows[id].status)
  {
    if Held(s, id) {
      var w: nat :| HeldBy(s, id, w);
      assert HolderOk(s.workers[w], s.rows[id], Calls(s, id));
      assert OnTrack(s.workers[w], s.rows[id], f);
    }
  }

  lemma LosingReload(s: State, a: Action, id: JobId, f: Faults)
    requires Inv(s) && Enabled(s, a) && NextFaults(s, a, id, f).reload && !f.reload
    ensures id in s.rows && s.rows[id].status == Completed && Apply(s, a).rows == s.rows
  {
    assert HolderOk(s.workers[a.w], s.rows[id], Calls(s, id));
  }

  /** How the loss of the final reload shows in a step. */
  lemma ReloadStep(s: State, a: Action, id: JobId, f: Faults)
    requires Inv(s) && Enabled(s, a) && Tracked(s, id, f) && id in s.rows
    ensures id in Apply(s, a).rows
    ensures f.reload ==> NextFaults(s, a, id, f).reload && Terminal(s.rows[id].status)
    ensures NextFaults(s, a, id, f).reload && !f.reload ==>
              s.rows[id].status == Completed && Apply(s, a).rows[id].status == Completed
    ensures s.rows[id].status == Completed && Apply(s, a).rows[id].status != Completed ==> f.reload
  {
    StatusStep(s, a, id);
    if f.reload {
      LostReloadIsTerminal(s, id, f);
    } else if NextFaults(s, a, id, f).reload {
      LosingReload(s, a, id, f);
    }
    if s.rows[id].status == Completed {
      CompletedStep(s, a, id, f);
    }
  }

  /** The order of statuses never goes back, in any run. */
  lemma {:induction false} RankNeverDrops(s: State, acts: seq<Action>, id: JobId)
    requires Inv(s) && Runs(s, acts) && id in s.rows
    ensures id in Exec(s, acts).rows
    ensures Rank(s.rows[id].status) <= Rank(Exec(s, acts).rows[id].status)
    decreases |acts|
  {
    if acts != [] {
      RankNeverDrops(s, Front(acts), id);
      RunKeepsInv(s, Front(acts));
      StatusStep(Exec(s, Front(acts)), Last(acts), id);
    }
  }

  /** The outcome is kept, or it was completed and has been lost. */
  predicate OutcomeKept(row: JobRow, row': JobRow, lost: bool) {
    if row'.status == row.status then row'.error == row.error && row'.driveFileId == row.driveFileId
    else row.status == Completed && lost
  }

  lemma OutcomeStep(s: State, a: Action, id: JobId, f: Faults, row: JobRow)
    requires Inv(s) && Enabled(s, a) && Tracked(s, id, f) && id in s.rows && Terminal(row.status)
    requires OutcomeKept(row, s.rows[id], s.rows[id].status == Failed && f.reload)
    ensures id in Apply(s, a).rows
    ensures var row' := Apply(s, a).rows[id];
            OutcomeKept(row, row', row'.status == Failed && NextFaults(s, a, id, f).reload)
  {
    StatusStep(s, a, id);
    ReloadStep(s, a, id, f);
  }

  /** Completed and failed absorb, however the other workers and the enqueuing code go on: a finished job keeps its
      status, error and file id, unless it was completed and has since been failed after its own lost reload. */
  lemma {:induction false} OutcomesAreFinal(s: State, acts: seq<Action>, i: nat, id: JobId)
    requires Init(s) && Runs(s, acts) && i <= |acts| && Runs(s, acts[..i])
    requires id in Exec(s, acts[..i]).rows && Terminal(Exec(s, acts[..i]).rows[id].status)
    ensures id in Exec(s, acts).rows
    ensures OutcomeKept(Exec(s, acts[..i]).rows[id], Exec(s, acts).rows[id], LostCompletion(s, acts, id))
    decreases |acts|
  {
    if i == |acts| {
      assert acts[..i] == acts;
    } else {
      PrefixOfFront(acts, i);
      OutcomesAreFinal(s, Front(acts), i, id);
      RunKeepsTrack(s, Front(acts), id);
      OutcomeStep(Exec(s, Front(acts)), Last(acts), id, FaultsOf(s, Front(acts), id), Exec(s, acts[..i]).rows[id]);
    }
  }

  /** Once its holder has given it up, a job that has ever been completed is failed if and only if its final reload
      failed and both statements of the `fail_job` that followed worked. Otherwise it is still completed. */
  lemma CompletionLostIff(s: State, acts: seq<Action>, i: nat, id: JobId)
    requires Init(s) && Runs(s, acts) && i <= |acts| && Runs(s, acts[..i])
    requires id in Exec(s, acts[..i]).rows && Exec(s, acts[..i]).rows[id].status == Completed
    requires !Held(Exec(s, acts), id)
    ensures id in Exec(s, acts).rows
    ensures var f := FaultsOf(s, acts, id);
            Exec(s, acts).rows[id].status == if f.reload && !f.failJob then Failed else Completed
  {
    OutcomesAreFinal(s, acts, i, id);
    FaultsDecideOutcome(s, acts, id);
  }

  // ----- conservation of uploads -----------------------------------------------------------

  /** The uploader is called at most once for a job, and what it returned is what the row says. A failed job has a file
      id if and only if a statement failed after the upload had been recorded. */
  lemma UploadsAreConserved(s: State, acts: seq<Action>, id: JobId)
    requires Init(s) && Runs(s, acts) && id in Exec(s, acts).rows
    ensures var t := Exec(s, acts);
            var row := t.rows[id];
            && |Calls(t, id)| <= 1
            && (row.status == Completed ==> row.driveFileId.Some? && Calls(t, id) == [row.driveFileId])
            && (row.driveFileId.Some? ==> Calls(t, id) == [row.driveFileId])
            && (row.error.Some? <==> row.status == Failed)
            && (row.status == Failed ==> (row.driveFileId.Some? <==> FaultsOf(s, acts, id).late))
  {
    var t := Exec(s, acts);
    RunKeepsTrack(s, acts, id);
    assert RowOk(t.rows[id], Calls(t, id));
    if Held(t, id) {
      var w: nat :| HeldBy(t, id, w);
      assert HolderOk(t.workers[w], t.rows[id], Calls(t, id));
      assert OnTrack(t.workers[w], t.rows[id], FaultsOf(s, acts, id));
    }
  }

  // ----- concurrency bound -----------------------------------------------------------------

  ghost function InFlightIds(s: State): set<JobId> {
    set id | id in s.rows && InFlight(s.rows[id].status)
  }

  /** The jobs in flight that a failing statement of `fail_job` has left so, or an earlier process. */
  ghost function Orphans(s: State, acts: seq<Action>): set<JobId>
    requires Runs(s, acts)
  {
    set id | id in InFlightIds(Exec(s, acts)) && FaultsOf(s, acts, id).failJob
  }

  ghost function HeldIds(workers: seq<Pc>): set<JobId> {
    set w | 0 <= w < |workers| && Busy(workers[w]) :: workers[w].id
  }

  lemma {:induction false} HeldIdsBound(workers: seq<Pc>)
    ensures |HeldIds(workers)| <= |workers|
    decreases |workers|
  {
    if workers == [] {
      assert HeldIds(workers) == {};
    } else {
      HeldIdsBound(Front(workers));
      var pc := Last(workers);
      assert HeldIds(workers) == HeldIds(Front(workers)) + (if Busy(pc) then {pc.id} else {}) by {
        forall id | id in HeldIds(workers)
          ensures id in HeldIds(Front(workers)) + (if Busy(pc) then {pc.id} else {})
        {
          var w: nat :| 0 <= w < |workers| && Busy(workers[w]) && workers[w].id == id;
          assert w < |workers| - 1 ==> Front(workers)[w] == workers[w];
        }
        forall id | id in HeldIds(Front(workers))
          ensures id in HeldIds(workers)
        {
          var w: nat :| 0 <= w < |Front(workers)| && Busy(Front(workers)[w]) && Front(workers)[w].id == id;
          assert workers[w] == Front(workers)[w];
        }
      }
    }
  }

  lemma SubsetCardinality<T>(a: set<T>, b: set<T>)
    requires a <= b
    ensures |a| <= |b|
  {
    if a != {} {
      var x :| x in a;
      SubsetCardinality(a - {x}, b - {x});
    }
  }

  /** Apart from orphans never more jobs in flight than there are workers. Without failing statements the only orphans
      are the jobs that were in flight at the start. */
  lemma ConcurrencyBound(s: State, acts: seq<Action>)
    requires Init(s) && Runs(s, acts)
    ensures |Exec(s, acts).workers| == |s.workers|
    ensures |InFlightIds(Exec(s, acts)) - Orphans(s, acts)| <= |s.workers|
    ensures Reliable(acts) ==> Orphans(s, acts) <= InFlightIds(s)
  {
    var t := Exec(s, acts);
    WorkerCount(s, acts);
    forall id | id in InFlightIds(t)
      ensures id in HeldIds(t.workers) || id in Orphans(s, acts)
      ensures Reliable(acts) && id in Orphans(s, acts) ==> id in InFlightIds(s)
    {
      ExclusiveOwnership(s, acts, id);
      if Reliable(acts) {
        ReliableHasNoFaults(s, acts, id);
      }
    }
    SubsetCardinality(InFlightIds(t) - Orphans(s, acts), HeldIds(t.workers));
    HeldIdsBound(t.workers);
  }

  lemma {:induction false} WorkerCount(s: State, acts: seq<Action>)
    requires Runs(s, acts)
    ensures |Exec(s, acts).workers| == |s.workers|
    decreases |acts|
  {
    if acts != [] {
      WorkerCount(s, Front(acts));
    }
  }

  // ----- no residue ------------------------------------------------------------------------

  /** Temp dirs belong to jobs that are held, except for those of `before`. */
  ghost predicate DirsHeld(s: State, before: set<JobId>) {
    forall id | id in s.dirs :: id in before || exists w: nat :: HeldBy(s, id, w)
  }

  /** Whoever holds a job holds it after the next step, or has just dropped its guard. */
  lemma HolderStays(s: State, a: Action, id: JobId, w: nat)
    requires Inv(s) && Enabled(s, a) && HeldBy(s, id, w)
    ensures HeldBy(Apply(s, a), id, w) || (a.Clean? && a.w == w)
  {
    if ByWorker(a) && w == a.w {
      HolderStep(s, a);
    } else {
      OthersStay(s, a, id, w);
    }
  }

  lemma StepKeepsDirsHeld(s: State, a: Action, before: set<JobId>)
    requires Inv(s) && DirsHeld(s, before) && Enabled(s, a) && (a.Clean? ==> a.removed)
    ensures DirsHeld(Apply(s, a), before)
  {
    var t := Apply(s, a);
    forall id | id in t.dirs && id !in before
      ensures exists w: nat :: HeldBy(t, id, w)
    {
      var w: nat :| HeldBy(s, id, w) || (a.MakeDir? && a.w == w && s.workers[w].id == id);
      HolderStays(s, a, id, w);
      assert HeldBy(t, id, w);
    }
  }

  /** When removals succeed, a temp dir that was not there at the start always belongs to a job that is held. Once all
      workers are idle again no such dir is left, and only orphans are in flight. */
  lemma NoResidue(s: State, acts: seq<Action>)
    requires Init(s) && Runs(s, acts) && RemovesDirs(acts)
    ensures forall id | id in Exec(s, acts).dirs :: id in s.dirs || exists w: nat :: HeldBy(Exec(s, acts), id, w)
    ensures (forall w | 0 <= w < |Exec(s, acts).workers| :: !Busy(Exec(s, acts).workers[w])) ==>
              Exec(s, acts).dirs <= s.dirs && InFlightIds(Exec(s, acts)) == Orphans(s, acts)
  {
    RunKeepsDirsHeld(s, acts);
    var t := Exec(s, acts);
    if forall w | 0 <= w < |t.workers| :: !Busy(t.workers[w]) {
      assert forall id, w :: !HeldBy(t, id, w);
      forall id | id in InFlightIds(t)
        ensures id in Orphans(s, acts)
      {
        ExclusiveOwnership(s, acts, id);
      }
    }
  }

  lemma {:induction false} RunKeepsDirsHeld(s: State, acts: seq<Action>)
    requires Init(s) && Runs(s, acts) && RemovesDirs(acts)
    ensures DirsHeld(Exec(s, acts), s.dirs)
    decreases |acts|
  {
    InitOk(s);
    if acts != [] {
      RunKeepsDirsHeld(s, Front(acts));
      RunKeepsInv(s, Front(acts));
      assert acts[|acts| - 1].Clean? ==> acts[|acts| - 1].removed;
      StepKeepsDirsHeld(Exec(s, Front(acts)), Last(acts), s.dirs);
    }
  }
}
