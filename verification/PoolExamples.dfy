/** Runs, from any start of the process with something to do, in which one failing statement does its worst. */
module PoolExamples {
  import opened Common
  import opened JobModel
  import opened ScratchDisk
  import opened WorkerPool
  import opened PoolInvariant
  import opened PoolFaults
  import opened PoolDrain

  lemma GoOn(s: State, acts: seq<Action>, a: Action) returns (longer: seq<Action>)
    requires Runs(s, acts) && Enabled(Exec(s, acts), a)
    ensures longer == acts + [a] && Runs(s, longer) && Exec(s, longer) == Apply(Exec(s, acts), a)
    ensures Reliable(acts) && !a.StorageFault? ==> Reliable(longer)
  {
    longer := acts + [a];
    RunsSnoc(s, acts, a);
  }

  /** An idle worker takes up a job. */
  lemma TakeUp(s: State, w: nat, id: JobId) returns (acts: seq<Action>)
    requires w < |s.workers| && s.workers[w].Idle? && Claimable(s.rows, id)
    ensures Runs(s, acts) && Reliable(acts)
    ensures var t := Exec(s, acts);
            && t.workers == s.workers[w := Starting(id)]
            && t.rows == s.rows[id := s.rows[id].(status := Downloading)]
            && !t.pressured
  {
    acts := GoOn(s, [], Evaluate(w, s.limits.minFree + s.limits.resumeFree));
    assert Exec(s, acts).workers[w] == Claiming;
    acts := GoOn(s, acts, Claim(w, id));
  }

  /** A worker that has seen an error reaches the status it wants to write. */
  lemma FailAndRead(s: State, w: nat) returns (acts: seq<Action>)
    requires w < |s.workers| && s.workers[w].Failing? && s.workers[w].id in s.rows
    ensures Runs(s, acts) && Reliable(acts)
    ensures var t := Exec(s, acts);
            var pc := s.workers[w];
            var row := s.rows[pc.id];
            && t.workers == s.workers[w := Writing(pc.id, row.status, Failed, Some(pc.message), row.messageId.Some?)]
            && t.rows == s.rows
  {
    var pc := s.workers[w];
    var t := Apply(s, FailJob(w));
    assert t.workers == s.workers[w := Reading(pc.id, Failed, Some(pc.message))] && t.rows == s.rows;
    SingleStep(s, FailJob(w));
    acts := GoOn(s, [FailJob(w)], ReadStatus(w));
  }

  /** An outside call fails for a job just taken up. */
  lemma TakeUpAndFail(s: State, w: nat, id: JobId, message: string) returns (acts: seq<Action>)
    requires w < |s.workers| && s.workers[w].Idle? && Claimable(s.rows, id)
    ensures Runs(s, acts) && Reliable(acts)
    ensures Exec(s, acts).workers == s.workers[w := Failing(id, message, false)]
    ensures Exec(s, acts).rows == s.rows[id := s.rows[id].(status := Downloading)]
  {
    acts := TakeUp(s, w, id);
    acts := GoOn(s, acts, Abort(w, message, false));
  }

  /** The statement that should write the failure fails itself. */
  lemma FailWriting(s: State, w: nat, message: string) returns (acts: seq<Action>)
    requires w < |s.workers| && s.workers[w].Writing? && s.workers[w].to == Failed
    ensures acts == [StorageFault(w, message, false)] + [Clean(w, true)]
    ensures Runs(s, acts) && Exec(s, acts).workers == s.workers[w := Idle] && Exec(s, acts).rows == s.rows
  {
    var fault := StorageFault(w, message, false);
    var t := Apply(s, fault);
    assert t.workers == s.workers[w := Cleaning(s.workers[w].id)] && t.rows == s.rows;
    SingleStep(s, fault);
    acts := CleanUp(s, [fault], w);
  }

  lemma CleanUp(s: State, acts: seq<Action>, w: nat) returns (longer: seq<Action>)
    requires Runs(s, acts) && w < |Exec(s, acts).workers| && Exec(s, acts).workers[w].Cleaning?
    ensures longer == acts + [Clean(w, true)] && Runs(s, longer)
    ensures Exec(s, longer).workers == Exec(s, acts).workers[w := Idle] && Exec(s, longer).rows == Exec(s, acts).rows
    ensures Reliable(acts) ==> Reliable(longer)
  {
    longer := GoOn(s, acts, Clean(w, true));
  }

  /** A job just taken up, in front of the write of its failure. */
  lemma TakeUpAndFailWriting(s: State, w: nat, id: JobId, message: string) returns (acts: seq<Action>)
    requires w < |s.workers| && s.workers[w].Idle? && Claimable(s.rows, id)
    ensures Runs(s, acts) && Reliable(acts)
    ensures Exec(s, acts).rows == s.rows[id := s.rows[id].(status := Downloading)]
    ensures Exec(s, acts).workers ==
            s.workers[w := Writing(id, Downloading, Failed, Some(message), s.rows[id].messageId.Some?)]
  {
    var failed := TakeUpAndFail(s, w, id, message);
    ghost var t := Exec(s, failed);
    var failing := FailAndRead(t, w);
    RunsConcat(s, failed, failing);
    acts := failed + failing;
  }

  /** One error of any outside call, and then one failing statement of `fail_job`: the job stays in flight although
      every worker is idle again. */
  lemma FailedFailJobOrphans(s: State, w: nat, id: JobId, message: string) returns (before: seq<Action>)
    requires Init(s) && w < |s.workers| && Claimable(s.rows, id)
    ensures Reliable(before) && Runs(s, before) && Enabled(Exec(s, before), WriteStatus(w))
    ensures var acts := before + ([StorageFault(w, message, false)] + [Clean(w, true)]);
            && Runs(s, acts)
            && Exec(s, acts).workers == s.workers
            && Exec(s, acts).rows == s.rows[id := s.rows[id].(status := Downloading)]
  {
    before := TakeUpAndFailWriting(s, w, id, message);
    ghost var t := Exec(s, before);
    var after := FailWriting(t, w, message);
    RunsConcat(s, before, after);
  }

  /** The worker's job will complete if nothing fails from here, and its status message exists. */
  predicate Completing(s: State, w: nat) {
    && w < |s.workers|
    && !s.pressured
    && var pc := s.workers[w];
       && Busy(pc) && !pc.Failing? && !pc.Cleaning?
       && (InSetStatus(pc) ==> pc.to == Downloading || pc.to == Uploading || pc.to == Completed)
       && (pc.Writing? ==> pc.notify)
       && pc.id in s.rows && s.rows[pc.id].messageId.Some?
  }

  predicate LastReload(s: State, w: nat) {
    w < |s.workers| && s.workers[w].Reloading? && s.workers[w].to == Completed
  }

  lemma CompletingStep(s: State, w: nat)
    requires Inv(s) && Completing(s, w) && !LastReload(s, w)
    ensures var pc := s.workers[w];
            var a := NextAction(pc, w);
            && Enabled(s, a) && !a.StorageFault?
            && Inv(Apply(s, a)) && Completing(Apply(s, a), w)
            && Apply(s, a).workers == s.workers[w := Apply(s, a).workers[w]]
            && Apply(s, a).workers[w].id == pc.id
            && StepsLeft(Apply(s, a).workers[w]) < StepsLeft(pc)
  {
    var pc := s.workers[w];
    assert HolderOk(pc, s.rows[pc.id], Calls(s, pc.id));
    NextActionEnabled(s, w);
    StepKeepsInv(s, NextAction(pc, w));
    HolderStepsLeft(s, NextAction(pc, w));
  }

  lemma {:induction false} ReachReload(s: State, w: nat) returns (acts: seq<Action>)
    requires Inv(s) && Completing(s, w)
    ensures Runs(s, acts) && Reliable(acts)
    ensures Exec(s, acts).workers == s.workers[w := Reloading(s.workers[w].id, Completed)]
    decreases if w < |s.workers| then StepsLeft(s.workers[w]) else 0
  {
    acts := [];
    if !LastReload(s, w) {
      var a := NextAction(s.workers[w], w);
      CompletingStep(s, w);
      var t := Apply(s, a);
      var rest := ReachReload(t, w);
      UpdatedTwice(s.workers, w, t.workers[w], Reloading(s.workers[w].id, Completed));
      acts := Prepend(s, a, t, rest);
    }
  }

  lemma UpdatedTwice(workers: seq<Pc>, w: nat, first: Pc, second: Pc)
    requires w < |workers|
    ensures workers[w := first][w := second] == workers[w := second]
  {
  }

  lemma Prepend(s: State, a: Action, t: State, rest: seq<Action>) returns (acts: seq<Action>)
    requires Enabled(s, a) && t == Apply(s, a) && Runs(t, rest)
    ensures acts == [a] + rest && Runs(s, acts) && Exec(s, acts) == Exec(t, rest)
  {
    SingleStep(s, a);
    RunsConcat(s, [a], rest);
    acts := [a] + rest;
  }

  /** A queued job with a message, from its claim to the reload after its completion. */
  lemma ReachCompleted(s: State, w: nat, id: JobId) returns (acts: seq<Action>)
    requires Init(s) && w < |s.workers| && Claimable(s.rows, id) && s.rows[id].messageId.Some?
    ensures Runs(s, acts) && Reliable(acts)
    ensures var t := Exec(s, acts);
            && t.workers == s.workers[w := Reloading(id, Completed)]
            && id in t.rows && t.rows[id].status == Completed && t.rows[id].driveFileId.Some?
  {
    InitOk(s);
    var taken := TakeUp(s, w, id);
    RunKeepsInv(s, taken);
    ghost var t := Exec(s, taken);
    var working := ReachReload(t, w);
    RunKeepsInv(t, working);
    ReloadingIsCompleted(Exec(t, working), w);
    RunsConcat(s, taken, working);
    acts := taken + working;
  }

  lemma ReloadingIsCompleted(s: State, w: nat)
    requires Inv(s) && LastReload(s, w)
    ensures var id := s.workers[w].id;
            id in s.rows && s.rows[id].status == Completed && s.rows[id].driveFileId.Some?
  {
    var id := s.workers[w].id;
    assert HolderOk(s.workers[w], s.rows[id], Calls(s, id));
    assert RowOk(s.rows[id], Calls(s, id));
  }

  /** A completed job cannot be reloaded for its notification, so the worker goes on to fail it. */
  lemma FailReload(s: State, w: nat, message: string) returns (after: seq<Action>)
    requires LastReload(s, w)
    requires s.workers[w].id in s.rows && s.rows[s.workers[w].id].status == Completed
    ensures Reliable(after) && Runs(s, [StorageFault(w, message, false)] + after)
    ensures var t := Exec(s, [StorageFault(w, message, false)] + after);
            var id := s.workers[w].id;
            && t.workers == s.workers[w := Writing(id, Completed, Failed, Some(message), s.rows[id].messageId.Some?)]
            && t.rows == s.rows
  {
    var fault := StorageFault(w, message, false);
    SingleStep(s, fault);
    after := FailAndRead(Apply(s, fault), w);
    RunsConcat(s, [fault], after);
  }

  /** From there it takes a write and, perhaps, one more reload. */
  lemma WriteFailure(s: State, w: nat) returns (acts: seq<Action>)
    requires w < |s.workers| && s.workers[w].Writing? && s.workers[w].to == Failed && s.workers[w].id in s.rows
    ensures Reliable(acts) && Runs(s, acts)
    ensures var t := Exec(s, acts);
            var pc := s.workers[w];
            && t.workers == s.workers[w := Cleaning(pc.id)]
            && t.rows == WithStatus(s.rows, pc.id, Failed, pc.error)
  {
    acts := GoOn(s, [], WriteStatus(w));
    if s.workers[w].notify {
      acts := GoOn(s, acts, Reload(w));
    }
  }

  lemma WriteAndClean(s: State, w: nat) returns (acts: seq<Action>)
    requires w < |s.workers| && s.workers[w].Writing? && s.workers[w].to == Failed && s.workers[w].id in s.rows
    ensures Reliable(acts) && Runs(s, acts)
    ensures Exec(s, acts).workers == s.workers[w := Idle]
    ensures Exec(s, acts).rows == WithStatus(s.rows, s.workers[w].id, Failed, s.workers[w].error)
  {
    acts := WriteFailure(s, w);
    acts := CleanUp(s, acts, w);
  }

  lemma FailAfterReload(s: State, w: nat, message: string) returns (after: seq<Action>)
    requires LastReload(s, w)
    requires s.workers[w].id in s.rows && s.rows[s.workers[w].id].status == Completed
    ensures Reliable(after) && Runs(s, [StorageFault(w, message, false)] + after)
    ensures var t := Exec(s, [StorageFault(w, message, false)] + after);
            && t.workers == s.workers[w := Idle]
            && t.rows == WithStatus(s.rows, s.workers[w].id, Failed, Some(message))
  {
    var fault := StorageFault(w, message, false);
    var reading := FailReload(s, w, message);
    var before := [fault] + reading;
    var writing := WriteAndClean(Exec(s, before), w);
    after := reading + writing;
    assert [fault] + after == before + writing;
    RunsConcat(s, before, writing);
  }

  /** From every start of the process with a queued job that has a message: a run in which nothing but the reload
      after its completion fails, and the job ends up failed although the drive holds its file. */
  lemma ReloadFaultLosesCompletion(s: State, w: nat, id: JobId, message: string)
      returns (before: seq<Action>, after: seq<Action>)
    requires Init(s) && w < |s.workers| && Claimable(s.rows, id) && s.rows[id].messageId.Some?
    ensures Reliable(before) && Reliable(after)
    ensures Runs(s, before) && Exec(s, before).workers == s.workers[w := Reloading(id, Completed)]
    ensures id in Exec(s, before).rows && Exec(s, before).rows[id].status == Completed
    ensures var acts := before + ([StorageFault(w, message, false)] + after);
            && Runs(s, acts)
            && Exec(s, acts).workers == s.workers
            && id in Exec(s, acts).rows
            && Exec(s, acts).rows[id].status == Failed && Exec(s, acts).rows[id].driveFileId.Some?
  {
    before := ReachCompleted(s, w, id);
    ghost var t := Exec(s, before);
    after := FailAfterReload(t, w, message);
    RunsConcat(s, before, [StorageFault(w, message, false)] + after);
  }
}
