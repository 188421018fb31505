/** Why the pool finishes its work. */
module PoolDrain {
  import opened Common
  import opened JobModel
  import opened ScratchDisk
  import opened WorkerPool
  import opened PoolInvariant
  import opened PoolFaults
  import opened PoolSafety

  /** An upper bound on the steps a worker still takes with its job. */
  function StepsLeft(pc: Pc): nat {
    match pc
    case Idle => 0
    case Claiming => 0
    case Starting(_) => 21
    case Loading(_) => 20
    case Gating(_) => 19
    case Preparing(_) => 18
    case Reading(_, to, _) => 3 + StepsAfter(to)
    case Writing(_, _, to, _, _) => 2 + StepsAfter(to)
    case Reloading(_, to) => 1 + StepsAfter(to)
    case Fetching(_) => 14
    case Sending(_) => 10
    case Recording(_, _) => 9
    case Failing(_, _, _) => 5
    case Cleaning(_) => 1
  }

  function StepsAfter(to: JobStatus): nat {
    match to
    case Downloading => 14
    case Uploading => 10
    case Failed => 1
    case _ => 5
  }

  const PER_JOB: nat := 22

  function StepsLeftOfAll(workers: seq<Pc>): nat {
    if workers == [] then 0 else StepsLeftOfAll(Front(workers)) + StepsLeft(Last(workers))
  }

  ghost function QueuedIds(s: State): set<JobId> {
    set id | id in s.rows && s.rows[id].status == Queued
  }

  ghost function Measure(s: State): nat {
    PER_JOB * |QueuedIds(s)| + StepsLeftOfAll(s.workers)
  }

  lemma {:induction false} StepsLeftUpdate(workers: seq<Pc>, w: nat, pc: Pc)
    requires w < |workers|
    ensures StepsLeftOfAll(workers[w := pc]) + StepsLeft(workers[w]) == StepsLeftOfAll(workers) + StepsLeft(pc)
    decreases |workers|
  {
    var changed := workers[w := pc];
    if w == |workers| - 1 {
      assert Front(changed) == Front(workers);
    } else {
      assert Front(changed) == Front(workers)[w := pc];
      StepsLeftUpdate(Front(workers), w, pc);
    }
  }

  /** A claim, or a step of a worker with its job. */
  predicate Works(s: State, a: Action) {
    a.Claim? || (ByWorker(a) && a.w < |s.workers| && Busy(s.workers[a.w]))
  }

  lemma HolderStepsLeft(s: State, a: Action)
    requires Enabled(s, a) && ByWorker(a) && Busy(s.workers[a.w])
    ensures StepsLeft(NextPc(s, a)) < StepsLeft(s.workers[a.w])
  {
  }

  /** Whether a job is queued changes only by its insert and its claim. */
  lemma QueuedRowStep(s: State, a: Action, id: JobId)
    requires Inv(s) && Enabled(s, a)
    ensures IsQueued(Apply(s, a).rows, id) <==>
            ((a.Insert? && id == a.job) || (IsQueued(s.rows, id) && !(a.Claim? && id == a.job)))
  {
    if ByWorker(a) && HeldBy(s, id, a.w) {
      assert HolderOk(s.workers[a.w], s.rows[id], Calls(s, id));
      StatusStep(s, a, id);
    } else if id in s.rows && !(a.Claim? && id == a.job) {
      Undisturbed(s, a, id);
    }
  }

  lemma QueuedStep(s: State, a: Action)
    requires Inv(s) && Enabled(s, a)
    ensures QueuedIds(Apply(s, a)) ==
            if a.Insert? then QueuedIds(s) + {a.job} else if a.Claim? then QueuedIds(s) - {a.job} else QueuedIds(s)
  {
    forall id
      ensures id in QueuedIds(Apply(s, a)) <==>
              ((a.Insert? && id == a.job) || (id in QueuedIds(s) && !(a.Claim? && id == a.job)))
    {
      QueuedRowStep(s, a, id);
    }
  }

  /** What a step does to the work of the workers. */
  lemma StepsLeftStep(s: State, a: Action)
    requires Enabled(s, a)
    ensures !ByWorker(a) ==> StepsLeftOfAll(Apply(s, a).workers) == StepsLeftOfAll(s.workers)
    ensures ByWorker(a) ==>
              StepsLeftOfAll(Apply(s, a).workers) + StepsLeft(s.workers[a.w])
              == StepsLeftOfAll(s.workers) + StepsLeft(NextPc(s, a))
  {
    if ByWorker(a) {
      StepsLeftUpdate(s.workers, a.w, NextPc(s, a));
    }
  }

  lemma ClaimMeasure(s: State, a: Action)
    requires Inv(s) && Enabled(s, a) && a.Claim?
    ensures Measure(Apply(s, a)) < Measure(s)
  {
    QueuedStep(s, a);
    StepsLeftStep(s, a);
    assert a.job in QueuedIds(s);
    assert |QueuedIds(s) - {a.job}| == |QueuedIds(s)| - 1;
  }

  lemma HolderMeasure(s: State, a: Action)
    requires Inv(s) && Enabled(s, a) && ByWorker(a) && Busy(s.workers[a.w])
    ensures Measure(Apply(s, a)) < Measure(s)
  {
    QueuedStep(s, a);
    StepsLeftStep(s, a);
    HolderStepsLeft(s, a);
  }

  lemma OtherMeasure(s: State, a: Action)
    requires Inv(s) && Enabled(s, a) && !Works(s, a)
    ensures Measure(Apply(s, a)) == Measure(s) + if a.Insert? then PER_JOB else 0
  {
    QueuedStep(s, a);
    StepsLeftStep(s, a);
    if a.Insert? {
      assert a.job !in QueuedIds(s);
    }
  }

  /** Every working step lowers the measure, an insert raises it by a constant, and nothing else touches it:
      not even failing statements or a paused pool. */
  lemma MeasureStep(s: State, a: Action)
    requires Inv(s) && Enabled(s, a)
    ensures Works(s, a) ==> Measure(Apply(s, a)) < Measure(s)
    ensures a.Insert? ==> Measure(Apply(s, a)) == Measure(s) + PER_JOB
    ensures !Works(s, a) && !a.Insert? ==> Measure(Apply(s, a)) == Measure(s)
  {
    if a.Claim? {
      ClaimMeasure(s, a);
    } else if Works(s, a) {
      HolderMeasure(s, a);
    } else {
      OtherMeasure(s, a);
    }
  }

  function WorkCount(s: State, acts: seq<Action>): nat
    requires Runs(s, acts)
    decreases |acts|
  {
    if acts == [] then 0
    else WorkCount(s, Front(acts)) + if Works(Exec(s, Front(acts)), Last(acts)) then 1 else 0
  }

  function InsertCount(acts: seq<Action>): nat {
    if acts == [] then 0 else InsertCount(Front(acts)) + if Last(acts).Insert? then 1 else 0
  }

  /** No run works forever: its working steps are bounded by what was to be done at its start and
      what was inserted since, 22 steps a job. */
  lemma {:induction false} WorkIsBounded(s: State, acts: seq<Action>)
    requires Inv(s) && Runs(s, acts)
    ensures WorkCount(s, acts) + Measure(Exec(s, acts)) <= Measure(s) + PER_JOB * InsertCount(acts)
    decreases |acts|
  {
    if acts != [] {
      WorkIsBounded(s, Front(acts));
      RunKeepsInv(s, Front(acts));
      MeasureStep(Exec(s, Front(acts)), Last(acts));
    }
  }

  /** A failing statement of `fail_job`, or an earlier process, has left the job in flight. */
  ghost predicate Orphaned(s: State, acts: seq<Action>, id: JobId)
    requires Runs(s, acts)
  {
    FaultsOf(s, acts, id).failJob && !FaultsOf(s, acts, id).reload
  }

  /** After a run, exactly the orphans are not completed or failed. */
  ghost predicate AllFinishedButOrphans(s: State, acts: seq<Action>)
    requires Runs(s, acts)
  {
    forall id | id in Exec(s, acts).rows :: Terminal(Exec(s, acts).rows[id].status) <==> !Orphaned(s, acts, id)
  }

  /** After a run, only jobs that were in flight at its start are not completed or failed. */
  ghost predicate AllFinishedButStart(s: State, acts: seq<Action>)
    requires Runs(s, acts)
  {
    forall id | id in Exec(s, acts).rows ::
      Terminal(Exec(s, acts).rows[id].status) || (id in s.rows && InFlight(s.rows[id].status))
  }

  lemma {:induction false} StepsLeftPositive(workers: seq<Pc>)
    ensures StepsLeftOfAll(workers) == 0 <==> forall w | 0 <= w < |workers| :: !Busy(workers[w])
    decreases |workers|
  {
    if workers != [] {
      StepsLeftPositive(Front(workers));
      assert forall w | 0 <= w < |workers| - 1 :: Front(workers)[w] == workers[w];
    }
  }

  /** The measure is used up exactly when nothing is queued and nobody is busy. */
  lemma NothingLeft(s: State)
    ensures Measure(s) == 0 <==>
              (forall id :: !IsQueued(s.rows, id)) && (forall w | 0 <= w < |s.workers| :: !Busy(s.workers[w]))
  {
    StepsLeftPositive(s.workers);
    assert QueuedIds(s) == {} <==> forall id :: !IsQueued(s.rows, id) by {
      assert forall id :: IsQueued(s.rows, id) <==> id in QueuedIds(s);
    }
  }

  /** Then a job is completed or failed if and only if it is not an orphan; without failing statements all are that
      were not in flight at the start. */
  lemma NothingLeftIsFinished(s: State, acts: seq<Action>)
    requires Init(s) && Runs(s, acts) && Measure(Exec(s, acts)) == 0
    ensures AllFinishedButOrphans(s, acts)
    ensures Reliable(acts) ==> AllFinishedButStart(s, acts)
  {
    var t := Exec(s, acts);
    NothingLeft(t);
    forall id | id in t.rows
      ensures Terminal(t.rows[id].status) <==> !Orphaned(s, acts, id)
      ensures Reliable(acts) ==> Terminal(t.rows[id].status) || (id in s.rows && InFlight(s.rows[id].status))
    {
      assert !IsQueued(t.rows, id) && forall w :: !HeldBy(t, id, w);
      FaultsDecideOutcome(s, acts, id);
      if Reliable(acts) {
        ReliableHasNoFaults(s, acts, id);
      }
    }
  }

  /** A step a worker can always take with its job. */
  function NextAction(pc: Pc, w: nat): Action
    requires Busy(pc)
  {
    match pc
    case Starting(_) => MakeDir(w)
    case Loading(_) => Load(w)
    case Gating(_) => CheckGate(w)
    case Preparing(_) => Prepare(w)
    case Reading(_, _, _) => ReadStatus(w)
    case Writing(_, _, _, _, _) => WriteStatus(w)
    case Reloading(_, _) => Reload(w)
    case Fetching(_) => Fetch(w)
    case Sending(_) => Upload(w, "")
    case Recording(_, _) => RecordFileId(w)
    case Failing(_, _, _) => FailJob(w)
    case Cleaning(_) => Clean(w, true)
  }

  lemma NextActionEnabled(s: State, w: nat)
    requires w < |s.workers| && Busy(s.workers[w])
    ensures var a := NextAction(s.workers[w], w);
            Enabled(s, a) && ByWorker(a) && !a.StorageFault? && a.w == w
  {
  }

  /** While something is left to do and the gate lets some worker claim, a working step is possible at once. */
  lemma WorkingStep(s: State, w: nat) returns (a: Action)
    requires Measure(s) > 0
    requires w < |s.workers| && s.workers[w].Claiming?
    ensures Enabled(s, a) && Works(s, a)
  {
    NothingLeft(s);
    if v :| 0 <= v < |s.workers| && Busy(s.workers[v]) {
      a := NextAction(s.workers[v], v);
      NextActionEnabled(s, v);
    } else {
      var first :| IsQueued(s.rows, first);
      var id := ClaimableExists(s.rows, QueuedIds(s), first);
      assert forall other | other in s.rows :: s.rows[other].status == Queued ==> other in QueuedIds(s);
      a := Claim(w, id);
    }
  }

  /** A run stops working, with a worker let through by the gate, only when every job is completed or failed that no
      failing statement has orphaned. */
  lemma QuiescentIsFinished(s: State, acts: seq<Action>, w: nat)
    requires Init(s) && Runs(s, acts)
    requires w < |Exec(s, acts).workers| && Exec(s, acts).workers[w].Claiming?
    requires forall a :: Enabled(Exec(s, acts), a) ==> !Works(Exec(s, acts), a)
    ensures Measure(Exec(s, acts)) == 0 && AllFinishedButOrphans(s, acts)
    ensures Reliable(acts) ==> AllFinishedButStart(s, acts)
  {
    if Measure(Exec(s, acts)) > 0 {
      var a := WorkingStep(Exec(s, acts), w);
    }
    NothingLeftIsFinished(s, acts);
  }

  lemma SingleStep(s: State, a: Action)
    requires Enabled(s, a)
    ensures Runs(s, [a]) && Exec(s, [a]) == Apply(s, a)
    ensures InsertCount([a]) == if a.Insert? then 1 else 0
    ensures WorkCount(s, [a]) == if Works(s, a) then 1 else 0
  {
    RunsSnoc(s, [], a);
    assert [] + [a] == [a];
  }

  lemma ClaimAtOnce(s: State, w: nat, id: JobId) returns (acts: seq<Action>)
    requires Inv(s) && w < |s.workers| && s.workers[w].Claiming? && Claimable(s.rows, id)
    ensures Runs(s, acts) && Reliable(acts) && |acts| == 1 && InsertCount(acts) == 0
    ensures Measure(Exec(s, acts)) < Measure(s)
  {
    var claim := Claim(w, id);
    ClaimMeasure(s, claim);
    SingleStep(s, claim);
    acts := [claim];
  }

  /** The gate lets an idle worker through once the scratch disk has recovered. */
  lemma OpenGate(s: State, w: nat) returns (open: Action)
    requires Inv(s) && w < |s.workers| && s.workers[w].Idle?
    ensures open.Evaluate? && Enabled(s, open)
    ensures Inv(Apply(s, open)) && Measure(Apply(s, open)) == Measure(s)
    ensures Apply(s, open).workers == s.workers[w := Claiming] && Apply(s, open).rows == s.rows
  {
    open := Evaluate(w, s.limits.minFree + s.limits.resumeFree);
    StepKeepsInv(s, open);
    OtherMeasure(s, open);
  }

  /** A paused or idle worker gets to a queued job. */
  lemma OpenAndClaim(s: State, w: nat, id: JobId) returns (acts: seq<Action>)
    requires Inv(s) && w < |s.workers| && !Busy(s.workers[w]) && Claimable(s.rows, id)
    ensures Runs(s, acts) && Reliable(acts) && 0 < |acts| <= 2 && InsertCount(acts) == 0
    ensures Measure(Exec(s, acts)) < Measure(s)
  {
    if s.workers[w].Claiming? {
      acts := ClaimAtOnce(s, w, id);
    } else {
      var open := OpenGate(s, w);
      var claiming := ClaimAtOnce(Apply(s, open), w, id);
      SingleStep(s, open);
      RunsConcat(s, [open], claiming);
      InsertCountConcat([open], claiming);
      acts := [open] + claiming;
    }
  }

  /** While something is left to do the pool is never stuck, if only the scratch disk can recover. */
  lemma SomeoneCanWork(s: State) returns (acts: seq<Action>)
    requires Inv(s) && Measure(s) > 0 && |s.workers| > 0
    ensures Runs(s, acts) && Reliable(acts) && 0 < |acts| <= 2 && InsertCount(acts) == 0
    ensures Measure(Exec(s, acts)) < Measure(s)
  {
    NothingLeft(s);
    if w :| 0 <= w < |s.workers| && Busy(s.workers[w]) {
      var a := NextAction(s.workers[w], w);
      NextActionEnabled(s, w);
      SingleStep(s, a);
      MeasureStep(s, a);
      acts := [a];
    } else {
      var first :| IsQueued(s.rows, first);
      var id := ClaimableExists(s.rows, QueuedIds(s), first);
      assert forall other | other in s.rows :: s.rows[other].status == Queued ==> other in QueuedIds(s);
      acts := OpenAndClaim(s, 0, id);
    }
  }

  lemma {:induction false} InsertCountConcat(first: seq<Action>, second: seq<Action>)
    ensures InsertCount(first + second) == InsertCount(first) + InsertCount(second)
    decreases |second|
  {
    if second == [] {
      assert first + second == first;
    } else {
      InsertCountConcat(first, Front(second));
      assert Front(first + second) == first + Front(second);
    }
  }

  /** From every state of the pool the measure can be used up without inserts and without further faults. */
  lemma {:induction false} UseUp(s: State) returns (acts: seq<Action>)
    requires Inv(s) && |s.workers| > 0
    ensures Runs(s, acts) && Reliable(acts) && InsertCount(acts) == 0
    ensures Measure(Exec(s, acts)) == 0
    decreases Measure(s)
  {
    acts := [];
    if Measure(s) > 0 {
      var first := SomeoneCanWork(s);
      RunKeepsInv(s, first);
      WorkerCount(s, first);
      var second := UseUp(Exec(s, first));
      RunsConcat(s, first, second);
      InsertCountConcat(first, second);
      acts := first + second;
    }
  }

  /** Every run, whatever has failed in it, can be continued without inserts until exactly those jobs are not
      completed or failed that it had orphaned. */
  lemma Drain(s: State, acts: seq<Action>) returns (more: seq<Action>)
    requires Init(s) && Runs(s, acts) && |s.workers| > 0
    ensures Runs(s, acts + more) && Reliable(more) && InsertCount(more) == 0
    ensures AllFinishedButOrphans(s, acts + more) && Measure(Exec(s, acts + more)) == 0
    ensures forall id :: Orphaned(s, acts + more, id) <==> Orphaned(s, acts, id)
  {
    InitOk(s);
    RunKeepsInv(s, acts);
    WorkerCount(s, acts);
    more := UseUp(Exec(s, acts));
    RunsConcat(s, acts, more);
    NothingLeftIsFinished(s, acts + more);
    forall id
      ensures Orphaned(s, acts + more, id) <==> Orphaned(s, acts, id)
    {
      assert (acts + more)[..|acts|] == acts;
      FaultsOfReliable(s, acts + more, |acts|, id);
    }
  }
}
