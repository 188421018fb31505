/** One worker's code, statement by statement, while everybody else runs
    (crates/app/src/job_runner.rs, crates/app/src/worker.rs). */
module JobRunner {
  import opened Common
  import opened JobModel
  import opened ScratchDisk
  import opened WorkerPool
  import opened PoolInvariant

  datatype Failure = Failure(message: string, diskFull: bool)

  /** What the code calls: create_dir_all, the user, folder, credential and token lookups, the downloader
      and the uploader. */
  datatype Answer = Good(value: string) | Bad(failure: Failure)

  predicate Foreign(a: Action, w: nat) {
    ByWorker(a) ==> a.w != w
  }

  /** The row of `id` has this status and this error message. */
  predicate Shows(s: State, id: JobId, status: JobStatus, error: Option<string>) {
    id in s.rows && s.rows[id].status == status && s.rows[id].error == error
  }

  function FileId(s: State, id: JobId): Option<string> {
    if id in s.rows then s.rows[id].driveFileId else None
  }

  /** The job's outcome is the same in both states. */
  predicate SameOutcome(s: State, t: State, id: JobId) {
    id in s.rows && Shows(t, id, s.rows[id].status, s.rows[id].error) && FileId(t, id) == FileId(s, id)
  }

  /** A step of somebody else leaves this worker where it is and its job's outcome as it is. */
  lemma ForeignStep(s: State, a: Action, w: nat)
    requires Inv(s) && Enabled(s, a) && Foreign(a, w) && w < |s.workers|
    ensures |Apply(s, a).workers| == |s.workers| && Apply(s, a).workers[w] == s.workers[w]
    ensures Busy(s.workers[w]) ==> SameOutcome(s, Apply(s, a), s.workers[w].id)
  {
    if Busy(s.workers[w]) {
      var id := s.workers[w].id;
      assert HeldBy(s, id, w);
      assert HolderOk(s.workers[w], s.rows[id], Calls(s, id));
      assert ByWorker(a) ==> !HeldBy(s, id, a.w);
      Undisturbed(s, a, id);
    }
    OthersStay(s, a, 0, w);
  }

  /** While a worker is inside `set_status`, the row is what the job's position promises. */
  lemma TargetIsExpected(s: State, w: nat)
    requires Inv(s) && w < |s.workers| && s.workers[w].Reading?
    ensures var pc := s.workers[w];
            && pc.id in s.rows
            && pc.to != Queued
            && (pc.to == Downloading ==> s.rows[pc.id].status == Downloading)
            && (pc.to == Uploading ==> s.rows[pc.id].status == Downloading)
            && (pc.to == Completed ==> s.rows[pc.id].status == Uploading)
            && s.rows[pc.id].error.None?
            && (pc.error.Some? <==> pc.to == Failed)
  {
    var id := s.workers[w].id;
    assert HolderOk(s.workers[w], s.rows[id], Calls(s, id));
    assert RowOk(s.rows[id], Calls(s, id));
  }

  /** A property of the pool that includes its invariant and that every step of the machine keeps. */
  ghost predicate Kept(p: State -> bool) {
    && (forall s {:trigger Inv(s)} :: p(s) ==> Inv(s))
    && (forall s, a {:trigger p(Apply(s, a))} :: p(s) && Enabled(s, a) ==> p(Apply(s, a)))
  }

  type KeptProperty = p: State -> bool | Kept(p) witness (s: State) => false

  ghost predicate Reachable(start: State, s: State) {
    exists acts :: Runs(start, acts) && Exec(start, acts) == s
  }

  ghost function ReachableFrom(start: State): State -> bool {
    s => Reachable(start, s)
  }

  /** Being reachable from a given state is such a property, the strongest one that holds of that state. */
  lemma ReachableIsKept(start: State)
    requires Inv(start)
    ensures Kept(ReachableFrom(start)) && Reachable(start, start)
  {
    forall s | Reachable(start, s)
      ensures Inv(s)
    {
      var acts :| Runs(start, acts) && Exec(start, acts) == s;
      RunKeepsInv(start, acts);
    }
    forall s, a | Reachable(start, s) && Enabled(s, a)
      ensures Reachable(start, Apply(s, a))
    {
      var acts :| Runs(start, acts) && Exec(start, acts) == s;
      RunsSnoc(start, acts, a);
    }
    assert Runs(start, []) && Exec(start, []) == start;
  }

  /** Where the code goes on from a failing statement: after a claim and inside `fail_job`, the `set_status` that asks
      for failed. */
  predicate Ignores(pc: Pc) {
    pc.Claiming? || (InSetStatus(pc) && pc.to == Failed)
  }

  /** The first error met, after one more result. */
  function MetAfter<T>(met: Option<Failure>, r: Result<T, Failure>): Option<Failure> {
    if met.None? && r.Err? then Some(r.error) else met
  }

  /** What a worker does, as it shows from outside: a use of the gate; a claim, with the table it met; a job that was
      run. */
  datatype Event =
    | Gate(free: nat, skip: bool)
    | Asked(rows: Table, claimed: Option<JobId>, failed: bool)
    | Ran(id: JobId, result: Result<(), Failure>)

  /** A claim that works takes a claimable job, and none only if none is queued. */
  ghost predicate Honest(e: Event) {
    e.Asked? ==>
      if e.failed then e.claimed.None?
      else if e.claimed.Some? then Claimable(e.rows, e.claimed.value)
      else forall id :: !IsQueued(e.rows, id)
  }

  /** One pass of the worker loop: it waits, or asks for a job in vain, or runs the job it gets. */
  ghost predicate IsPass(events: seq<Event>, free: nat) {
    || events == [Gate(free, true)]
    || (|events| >= 2 && events[0] == Gate(free, false) && events[1].Asked? && Honest(events[1])
        && if events[1].claimed.None? then |events| == 2
           else |events| == 3 && events[2].Ran? && events[2].id == events[1].claimed.value)
  }

  /** One pass for each reading, in order. */
  ghost predicate Accounts(events: seq<Event>, readings: seq<nat>)
    decreases |readings|
  {
    if readings == [] then events == []
    else exists n: nat ::
           n <= |events| && IsPass(events[n..], Last(readings)) && Accounts(events[..n], Front(readings))
  }

  class Worker {
    const w: nat

    /** The jobs table of the database, which everybody shares. */
    const jobs: JobsTable

    /** The state of the machine: the rows, the temp dirs, the pressure flag, the drive, and where all workers are. */
    var world: State

    /** What the others do before each step of this worker, what the external calls answer, and which
        SQL statements fail. */
    var others: seq<seq<Action>>
    var answers: seq<Answer>
    var faults: seq<Option<Failure>>

    /** What the external calls have answered. */
    ghost var answered: seq<Answer>

    /** The first error that the current job has met: a failing outside call, the pressure flag, or a failing
        statement that is not one of `fail_job`. Whatever meets the error sets it, not the code that draws the
        consequences. */
    ghost var met: Option<Failure>

    /** The failing statements from which the code went on. */
    ghost var ignored: seq<Failure>

    /** What this worker has done. */
    ghost var trail: seq<Event>

    /** Any property that the steps of the machine keep. */
    ghost const kept: KeptProperty

    /** The machine is in a state that its steps can lead to. */
    ghost predicate Sound()
      reads this
    {
      kept(world) && w < |world.workers|
    }

    /** Nothing but steps of the machine has been taken, and the table shows what they have made of the rows. */
    ghost predicate Valid()
      reads this, jobs
    {
      Sound() && jobs.rows == world.rows
    }

    ghost function Pc(): Pc
      reads this
      requires w < |world.workers|
    {
      world.workers[w]
    }

    constructor (w: nat, jobs: JobsTable, s: State, others: seq<seq<Action>>, answers: seq<Answer>,
                 faults: seq<Option<Failure>>, ghost kept: KeptProperty)
      requires kept(s) && w < |s.workers| && jobs.rows == s.rows
      ensures Valid() && this.w == w && this.jobs == jobs && this.kept == kept && world == s
      ensures this.others == others && this.answers == answers && this.faults == faults && trail == []
    {
      this.w, this.jobs, this.world, this.kept := w, jobs, s, kept;
      this.others, this.answers, this.faults := others, answers, faults;
      answered, met, ignored, trail := [], None, [], [];
    }

    lemma InvHolds()
      requires Valid()
      ensures Inv(world)
    {
    }

    lemma HolderHasRow()
      requires Valid() && Busy(Pc())
      ensures Pc().id in world.rows
    {
      InvHolds();
    }

    lemma TargetHolds()
      requires Valid() && Pc().Reading?
      ensures Pc().id in world.rows && Pc().to != Queued
      ensures Pc().to == Downloading || Pc().to == Uploading ==> world.rows[Pc().id].status == Downloading
      ensures Pc().to == Completed ==> world.rows[Pc().id].status == Uploading
      ensures world.rows[Pc().id].error.None?
      ensures Pc().error.Some? <==> Pc().to == Failed
    {
      InvHolds();
      TargetIsExpected(world, w);
    }

    /** The others take any of the steps they can take. */
    method Interfere()
      requires Valid()
      modifies this`world, this`others, jobs
      ensures Valid() && Pc() == old(Pc())
      ensures Busy(Pc()) ==> SameOutcome(old(world), world, Pc().id)
    {
      if Busy(Pc()) {
        HolderHasRow();
      }
      if others == [] {
        return;
      }
      var batch := others[0];
      others := others[1..];
      for i := 0 to |batch|
        invariant Valid() && Pc() == old(Pc())
        invariant Busy(Pc()) ==> SameOutcome(old(world), world, Pc().id)
      {
        var a := batch[i];
        if Foreign(a, w) && Enabled(world, a) {
          InvHolds();
          ForeignStep(world, a, w);
          world := Apply(world, a);
          jobs.rows := world.rows;
        }
      }
    }

    /** One atomic step of this worker; a statement has already left its mark on the table. */
    method Step(a: Action)
      requires Sound() && ByWorker(a) && a.w == w && Enabled(world, a) && jobs.rows == NextRows(world, a)
      modifies this`world
      ensures Valid() && world == Apply(old(world), a)
      ensures Pc() == NextPc(old(world), a)
    {
      world := Apply(world, a);
    }

    method NextAnswer() returns (answer: Answer)
      modifies this`answers, this`answered, this`met
      ensures answer == if old(answers) == [] then Good("") else old(answers)[0]
      ensures answered == old(answered) + [answer]
      ensures met == if old(met).None? && answer.Bad? then Some(answer.failure) else old(met)
    {
      answer := if answers == [] then Good("") else answers[0];
      answers := if answers == [] then [] else answers[1..];
      answered := answered + [answer];
      met := if met.None? && answer.Bad? then Some(answer.failure) else met;
    }

    /** Whether the next SQL statement fails. If it does, that is the step taken. */
    method Fails() returns (fault: Option<Failure>)
      requires Valid() && TouchesStorage(Pc())
      modifies this`faults, this`world, this`met, this`ignored
      ensures Valid() && world.rows == old(world).rows
      ensures fault == if old(faults) == [] then None else old(faults)[0]
      ensures fault.None? ==> world == old(world) && met == old(met) && ignored == old(ignored)
      ensures fault.Some? ==>
                && Pc() == AfterFault(old(Pc()), fault.value.message, fault.value.diskFull)
                && if Ignores(old(Pc())) then met == old(met) && ignored == old(ignored) + [fault.value]
                   else met == (if old(met).None? then fault else old(met)) && ignored == old(ignored)
    {
      fault := if faults == [] then None else faults[0];
      faults := if faults == [] then [] else faults[1..];
      if fault.Some? {
        if Ignores(world.workers[w]) {
          ignored := ignored + [fault.value];
        } else if met.None? {
          met := fault;
        }
        Step(StorageFault(w, fault.value.message, fault.value.diskFull));
      }
    }

    /** The others take their steps, and then the next statement is due, which may fail. */
    method AwaitStatement() returns (fault: Option<Failure>)
      requires Valid() && TouchesStorage(Pc())
      modifies this`world, this`others, this`faults, this`met, this`ignored, jobs
      ensures Valid()
      ensures fault == if old(faults) == [] then None else old(faults)[0]
      ensures Busy(old(Pc())) ==> SameOutcome(old(world), world, old(Pc()).id)
      ensures fault.None? ==> Pc() == old(Pc()) && met == old(met) && ignored == old(ignored)
      ensures fault.Some? ==>
                && Pc() == AfterFault(old(Pc()), fault.value.message, fault.value.diskFull)
                && if Ignores(old(Pc())) then met == old(met) && ignored == old(ignored) + [fault.value]
                   else met == (if old(met).None? then fault else old(met)) && ignored == old(ignored)
    {
      Interfere();
      fault := Fails();
    }

    /** Whether `set_status` leaves a job with this status alone. */
    predicate Skips(status: JobStatus, to: JobStatus) {
      !IsEdge(status, to) && to != Failed
    }

    /** `set_status`: read, check, write, and reload when there is a message to edit. If it succeeds, the row
        shows the new status, whatever the others did between its statements; it fails only with a failing statement. */
    method SetStatus(id: JobId, to: JobStatus, error: Option<string>) returns (r: Result<(), Failure>)
      requires Valid() && Pc() == Reading(id, to, error)
      modifies this`world, this`others, this`faults, this`met, this`ignored, jobs
      ensures Valid()
      ensures r.Ok? ==> Pc() == AfterSetStatus(id, to) && Shows(world, id, to, error)
      ensures r.Err? ==> Pc() == AfterSetStatusError(id, to, r.error.message, r.error.diskFull)
      ensures met == (if to == Failed then old(met) else MetAfter(old(met), r))
      ensures ignored == old(ignored) + (if to == Failed && r.Err? then [r.error] else [])
      ensures FileId(world, id) == FileId(old(world), id)
    {
      var job := ReadForUpdate(id, to, error);
      if job.Err? {
        return Err(job.error);
      }
      if Skips(job.value.status, to) {
        return Ok(());
      }
      r := WriteAndReload(id, to, error, job.value);
    }

    /** The first half of `set_status`. What it leaves alone shows the new status already. */
    method ReadForUpdate(id: JobId, to: JobStatus, error: Option<string>) returns (r: Result<JobRow, Failure>)
      requires Valid() && Pc() == Reading(id, to, error)
      modifies this`world, this`others, this`faults, this`met, this`ignored, jobs
      ensures Valid()
      ensures r.Ok? && Skips(r.value.status, to) ==> Pc() == AfterSetStatus(id, to) && Shows(world, id, to, error)
      ensures r.Ok? && !Skips(r.value.status, to) ==>
                Pc() == Writing(id, r.value.status, to, error, r.value.messageId.Some?)
      ensures r.Err? ==> Pc() == AfterSetStatusError(id, to, r.error.message, r.error.diskFull)
      ensures met == (if to == Failed then old(met) else MetAfter(old(met), r))
      ensures ignored == old(ignored) + (if to == Failed && r.Err? then [r.error] else [])
      ensures FileId(world, id) == FileId(old(world), id)
    {
      var fault := AwaitStatement();
      if fault.Some? {
        return Err(fault.value);
      }
      TargetHolds();
      var job := jobs.GetById(id);
      Step(ReadStatus(w));
      if job.None? {
        return Err(Failure("job not found for status update", false));
      }
      r := Ok(job.value);
    }

    /** The second half of `set_status`. */
    method WriteAndReload(id: JobId, to: JobStatus, error: Option<string>, job: JobRow) returns (r: Result<(), Failure>)
      requires Valid() && Pc() == Writing(id, job.status, to, error, job.messageId.Some?)
      modifies this`world, this`others, this`faults, this`met, this`ignored, jobs
      ensures Valid()
      ensures r.Ok? ==> Pc() == AfterSetStatus(id, to) && Shows(world, id, to, error)
      ensures r.Err? ==> Pc() == AfterSetStatusError(id, to, r.error.message, r.error.diskFull)
      ensures met == (if to == Failed then old(met) else MetAfter(old(met), r))
      ensures ignored == old(ignored) + (if to == Failed && r.Err? then [r.error] else [])
      ensures FileId(world, id) == FileId(old(world), id)
    {
      r := Write(id, to, error, job);
      if r.Ok? && job.messageId.Some? {
        r := ReloadJob(id, to, error);
      }
    }

    /** The unconditional write: the row shows the new status and error at once. */
    method Write(id: JobId, to: JobStatus, error: Option<string>, job: JobRow) returns (r: Result<(), Failure>)
      requires Valid() && Pc() == Writing(id, job.status, to, error, job.messageId.Some?)
      modifies this`world, this`others, this`faults, this`met, this`ignored, jobs
      ensures Valid()
      ensures r.Ok? ==> Pc() == (if job.messageId.Some? then Reloading(id, to) else AfterSetStatus(id, to))
      ensures r.Ok? ==> Shows(world, id, to, error)
      ensures r.Err? ==> Pc() == AfterSetStatusError(id, to, r.error.message, r.error.diskFull)
      ensures met == (if to == Failed then old(met) else MetAfter(old(met), r))
      ensures ignored == old(ignored) + (if to == Failed && r.Err? then [r.error] else [])
      ensures FileId(world, id) == FileId(old(world), id)
    {
      var fault := AwaitStatement();
      if fault.Some? {
        return Err(fault.value);
      }
      HolderHasRow();
      jobs.UpdateStatus(id, to, error);
      Step(WriteStatus(w));
      r := Ok(());
    }

    /** The reload for the notification. It never finds the row missing. */
    method ReloadJob(id: JobId, to: JobStatus, error: Option<string>) returns (r: Result<(), Failure>)
      requires Valid() && Pc() == Reloading(id, to) && Shows(world, id, to, error)
      modifies this`world, this`others, this`faults, this`met, this`ignored, jobs
      ensures Valid()
      ensures r.Ok? ==> Pc() == AfterSetStatus(id, to) && Shows(world, id, to, error)
      ensures r.Err? ==> Pc() == AfterSetStatusError(id, to, r.error.message, r.error.diskFull)
      ensures met == (if to == Failed then old(met) else MetAfter(old(met), r))
      ensures ignored == old(ignored) + (if to == Failed && r.Err? then [r.error] else [])
      ensures FileId(world, id) == FileId(old(world), id)
    {
      var fault := AwaitStatement();
      if fault.Some? {
        return Err(fault.value);
      }
      HolderHasRow();
      var updated := jobs.GetById(id);
      Step(Reload(w));
      if updated.None? {
        return Err(Failure("reload job", false));
      }
      r := Ok(());
    }

    /** An external call: it answers, or the job fails with exactly its error. */
    method Call(id: JobId, good: Action) returns (r: Result<(), Failure>)
      requires Valid() && Busy(Pc()) && Pc().id == id
      requires good == MakeDir(w) || good == Prepare(w) || good == Fetch(w)
      requires good.MakeDir? ==> Pc().Starting?
      requires good.Prepare? ==> Pc().Preparing?
      requires good.Fetch? ==> Pc().Fetching?
      modifies this`world, this`others, this`answers, this`answered, this`met, jobs
      ensures Valid()
      ensures |answered| == |old(answered)| + 1 && old(answered) <= answered
      ensures r == if Last(answered).Good? then Ok(()) else Err(Last(answered).failure)
      ensures met == MetAfter(old(met), r)
      ensures r.Ok? && good.MakeDir? ==> Pc() == Loading(id)
      ensures r.Ok? && good.Prepare? ==> Pc() == Reading(id, Downloading, None)
      ensures r.Ok? && good.Fetch? ==> Pc() == Reading(id, Uploading, None)
      ensures r.Err? ==> Pc() == Failing(id, r.error.message, r.error.diskFull)
    {
      Interfere();
      var answer := NextAnswer();
      match answer
      case Good(_) =>
        Step(good);
        r := Ok(());
      case Bad(failure) =>
        Step(Abort(w, failure.message, failure.diskFull));
        r := Err(failure);
    }

    /** `run_job_inner` up to the token refresh. */
    method Open(id: JobId) returns (r: Result<(), Failure>)
      requires Valid() && Pc() == Starting(id)
      modifies this`world, this`others, this`answers, this`answered, this`faults, this`met, this`ignored, jobs
      ensures Valid()
      ensures r.Ok? ==> Pc() == Reading(id, Downloading, None) && |answered| == |old(answered)| + 2
      ensures r.Err? ==> Pc() == Failing(id, r.error.message, r.error.diskFull)
      ensures met == MetAfter(old(met), r) && ignored == old(ignored)
    {
      r := Call(id, MakeDir(w));
      if r.Ok? {
        r := LoadJob(id);
      }
      if r.Ok? {
        r := CheckPressure(id);
      }
      if r.Ok? {
        r := Call(id, Prepare(w));
      }
    }

    /** The row is always there, so only a failing statement fails. */
    method LoadJob(id: JobId) returns (r: Result<(), Failure>)
      requires Valid() && Pc() == Loading(id)
      modifies this`world, this`others, this`faults, this`met, this`ignored, jobs
      ensures Valid()
      ensures r.Ok? ==> Pc() == Gating(id)
      ensures r.Err? ==> Pc() == Failing(id, r.error.message, r.error.diskFull)
      ensures met == MetAfter(old(met), r) && ignored == old(ignored)
    {
      var fault := AwaitStatement();
      if fault.Some? {
        return Err(fault.value);
      }
      HolderHasRow();
      var job := jobs.GetById(id);
      Step(Load(w));
      if job.None? {
        return Err(Failure("job not found", false));
      }
      r := Ok(());
    }

    /** A job that finds the pressure flag set is failed. */
    method CheckPressure(id: JobId) returns (r: Result<(), Failure>)
      requires Valid() && Pc() == Gating(id)
      modifies this`world, this`others, this`met, jobs
      ensures Valid()
      ensures r == if world.pressured then Err(Failure(STORAGE_FULL, false)) else Ok(())
      ensures r.Ok? ==> Pc() == Preparing(id)
      ensures r.Err? ==> Pc() == Failing(id, r.error.message, r.error.diskFull)
      ensures met == MetAfter(old(met), r)
    {
      Interfere();
      var pressured := world.pressured;
      if pressured && met.None? {
        met := Some(Failure(STORAGE_FULL, false));
      }
      Step(CheckGate(w));
      r := if pressured then Err(Failure(STORAGE_FULL, false)) else Ok(());
    }

    /** The call of the uploader; the file id it answers on success. */
    method CallUploader(id: JobId) returns (r: Result<string, Failure>)
      requires Valid() && Pc() == Sending(id)
      modifies this`world, this`others, this`answers, this`answered, this`met, jobs
      ensures Valid()
      ensures |answered| == |old(answered)| + 1 && old(answered) <= answered
      ensures r == if Last(answered).Good? then Ok(Last(answered).value) else Err(Last(answered).failure)
      ensures met == MetAfter(old(met), r)
      ensures r.Ok? ==> Pc() == Recording(id, r.value)
      ensures r.Err? ==> Pc() == Failing(id, r.error.message, r.error.diskFull)
    {
      Interfere();
      var answer := NextAnswer();
      match answer
      case Good(fileId) =>
        Step(Upload(w, fileId));
        r := Ok(fileId);
      case Bad(failure) =>
        Step(Abort(w, failure.message, failure.diskFull));
        r := Err(failure);
    }

    /** `set_drive_file_id`. */
    method SetDriveFileId(id: JobId, fileId: string) returns (r: Result<(), Failure>)
      requires Valid() && Pc() == Recording(id, fileId)
      modifies this`world, this`others, this`faults, this`met, this`ignored, jobs
      ensures Valid()
      ensures r.Ok? ==> Pc() == Reading(id, Completed, None) && FileId(world, id) == Some(fileId)
      ensures r.Err? ==> Pc() == Failing(id, r.error.message, r.error.diskFull)
      ensures met == MetAfter(old(met), r) && ignored == old(ignored)
    {
      var fault := AwaitStatement();
      if fault.Some? {
        return Err(fault.value);
      }
      HolderHasRow();
      jobs.SetDriveFileId(id, fileId);
      Step(RecordFileId(w));
      r := Ok(());
    }

    /** `run_job_inner` up to the upload. */
    method Download(id: JobId) returns (r: Result<(), Failure>)
      requires Valid() && Pc() == Starting(id)
      modifies this`world, this`others, this`answers, this`answered, this`faults, this`met, this`ignored, jobs
      ensures Valid()
      ensures r.Ok? ==> Pc() == Sending(id) && |answered| == |old(answered)| + 3
      ensures r.Err? ==> Pc() == Failing(id, r.error.message, r.error.diskFull)
      ensures met == MetAfter(old(met), r) && ignored == old(ignored)
    {
      r := Open(id);
      if r.Ok? {
        r := SetStatus(id, Downloading, None);
      }
      if r.Ok? {
        r := FetchFile(id);
      }
    }

    /** The download, and the status after it. */
    method FetchFile(id: JobId) returns (r: Result<(), Failure>)
      requires Valid() && Pc() == Fetching(id)
      modifies this`world, this`others, this`answers, this`answered, this`faults, this`met, this`ignored, jobs
      ensures Valid()
      ensures |answered| == |old(answered)| + 1
      ensures r.Ok? ==> Pc() == Sending(id)
      ensures r.Err? ==> Pc() == Failing(id, r.error.message, r.error.diskFull)
      ensures met == MetAfter(old(met), r) && ignored == old(ignored)
    {
      r := Call(id, Fetch(w));
      if r.Ok? {
        r := SetStatus(id, Uploading, None);
      }
    }

    /** `run_job_inner`. When it succeeds, the row has the id that the uploader answered, the fourth external call. */
    method RunJobInner(id: JobId) returns (r: Result<(), Failure>)
      requires Valid() && Pc() == Starting(id)
      modifies this`world, this`others, this`answers, this`answered, this`faults, this`met, this`ignored, jobs
      ensures Valid()
      ensures r.Ok? ==> Pc() == Cleaning(id) && Shows(world, id, Completed, None) && |answered| == |old(answered)| + 4
      ensures r.Ok? ==> Last(answered).Good? && FileId(world, id) == Some(Last(answered).value)
      ensures r.Err? ==> Pc() == Failing(id, r.error.message, r.error.diskFull)
      ensures met == MetAfter(old(met), r) && ignored == old(ignored)
    {
      r := Download(id);
      if r.Err? {
        return;
      }
      r := Send(id);
      if r.Ok? {
        r := SetStatus(id, Completed, None);
      }
    }

    /** The upload and the record of its id. */
    method Send(id: JobId) returns (r: Result<(), Failure>)
      requires Valid() && Pc() == Sending(id)
      modifies this`world, this`others, this`answers, this`answered, this`faults, this`met, this`ignored, jobs
      ensures Valid()
      ensures |answered| == |old(answered)| + 1
      ensures r.Ok? ==> Pc() == Reading(id, Completed, None)
      ensures r.Ok? ==> Last(answered).Good? && FileId(world, id) == Some(Last(answered).value)
      ensures r.Err? ==> Pc() == Failing(id, r.error.message, r.error.diskFull)
      ensures met == MetAfter(old(met), r) && ignored == old(ignored)
    {
      var sent := CallUploader(id);
      if sent.Err? {
        return Err(sent.error);
      }
      r := SetDriveFileId(id, sent.value);
    }

    /** What `run_job` does first with an error: one that tells of a full disk sets the pressure flag. */
    method MarkPressure(id: JobId, failure: Failure)
      requires Valid() && Pc() == Failing(id, failure.message, failure.diskFull)
      modifies this`world, this`others, jobs
      ensures Valid() && Pc() == Reading(id, Failed, Some(failure.message))
      ensures failure.diskFull ==> world.pressured
    {
      Interfere();
      Step(Action.FailJob(w));
    }

    /** `fail_job`: the row shows the error, unless one of its statements fails. */
    method FailJob(id: JobId, failure: Failure)
      requires Valid() && Pc() == Reading(id, Failed, Some(failure.message))
      modifies this`world, this`others, this`faults, this`met, this`ignored, jobs
      ensures Valid() && Pc() == Cleaning(id) && met == old(met)
      ensures ignored == old(ignored) ==> Shows(world, id, Failed, Some(failure.message))
    {
      var outcome := SetStatus(id, Failed, Some(failure.message));
    }

    /** All that `run_job` does with an error. */
    method HandleError(id: JobId, failure: Failure)
      requires Valid() && Pc() == Failing(id, failure.message, failure.diskFull)
      modifies this`world, this`others, this`faults, this`met, this`ignored, jobs
      ensures Valid() && Pc() == Cleaning(id) && met == old(met)
      ensures ignored == old(ignored) ==> Shows(world, id, Failed, Some(failure.message))
    {
      MarkPressure(id, failure);
      FailJob(id, failure);
    }

    /** The temp-dir guard is dropped; the job's outcome is what it was. */
    method DropGuard(id: JobId, removed: bool)
      requires Valid() && Pc() == Cleaning(id)
      modifies this`world, this`others, jobs
      ensures Valid() && Pc() == Idle
      ensures SameOutcome(old(world), world, id)
      ensures removed ==> id !in world.dirs
    {
      Interfere();
      Step(Clean(w, removed));
    }

    /** `run_job`, from the claim to the dropped guard. Whatever the others do and whatever fails, it takes only steps
        of the pool's machine and gives its job up at the end: it returns the first error it met, and the row shows
        that error unless a statement of `fail_job` failed; if it met none the row is completed and has the id that
        the uploader answered, the fourth external call. */
    method RunJob(id: JobId, removed: bool) returns (r: Result<(), Failure>)
      requires Valid() && Pc() == Starting(id)
      modifies this`world, this`others, this`answers, this`answered, this`faults, this`met, this`ignored, this`trail,
               jobs
      ensures Valid()
      ensures Pc() == Idle && trail == old(trail) + [Ran(id, r)]
      ensures met == if r.Err? then Some(r.error) else None
      ensures r.Ok? ==> Shows(world, id, Completed, None) && |answered| == |old(answered)| + 4
      ensures r.Ok? ==> Last(answered).Good? && FileId(world, id) == Some(Last(answered).value)
      ensures r.Err? && ignored == old(ignored) ==> Shows(world, id, Failed, Some(r.error.message))
      ensures removed ==> id !in world.dirs
    {
      met := None;
      r := RunJobInner(id);
      if r.Err? {
        HandleError(id, r.error);
      }
      DropGuard(id, removed);
      trail := trail + [Ran(id, r)];
    }

    /** The use of the gate at the top of the loop: whether to wait instead of claiming. `at` is the state it was used
        in. */
    method EvaluateGate(free: nat) returns (skip: bool, ghost at: State)
      requires Valid() && Pc() == Idle
      modifies this`world, this`others, this`trail, jobs
      ensures Valid() && Pc() == if skip then Idle else Claiming
      ensures kept(at) && Enabled(at, Evaluate(w, free)) && world == Apply(at, Evaluate(w, free))
      ensures skip == Toggle(at.pressured, Measured(free, at.limits)) == world.pressured
      ensures trail == old(trail) + [Gate(free, skip)]
    {
      Interfere();
      at := world;
      skip := Toggle(world.pressured, Measured(free, world.limits));
      Step(Evaluate(w, free));
      trail := trail + [Gate(free, skip)];
    }

    /** One statement claims a claimable job of the table it meets, and none only if none is queued or it fails. */
    method ClaimNextQueued() returns (claimed: Option<JobId>)
      requires Valid() && Pc() == Claiming
      modifies this`world, this`others, this`faults, this`met, this`ignored, this`trail, jobs
      ensures Valid()
      ensures Pc() == if claimed.Some? then Starting(claimed.value) else Idle
      ensures |trail| == |old(trail)| + 1 && old(trail) <= trail
      ensures var e := Last(trail);
              && e.Asked? && e.claimed == claimed && Honest(e)
              && |ignored| == |old(ignored)| + (if e.failed then 1 else 0)
              && world.rows == if claimed.None? then e.rows
                               else e.rows[claimed.value := e.rows[claimed.value].(status := Downloading)]
    {
      var fault := AwaitStatement();
      ghost var rows := world.rows;
      if fault.Some? {
        trail := trail + [Asked(rows, None, true)];
        return None;
      }
      claimed := jobs.ClaimNextQueued();
      if claimed.Some? {
        Step(Claim(w, claimed.value));
      } else {
        assert forall id | id in world.rows :: !IsQueued(world.rows, id);
        Step(ClaimNothing(w));
      }
      trail := trail + [Asked(rows, claimed, false)];
    }

    /** One pass of the worker loop. */
    method Pass(free: nat)
      requires Valid() && Pc() == Idle
      modifies this`world, this`others, this`answers, this`answered, this`faults, this`met, this`ignored, this`trail,
               jobs
      ensures Valid() && Pc() == Idle
      ensures old(trail) <= trail && IsPass(trail[|old(trail)|..], free)
    {
      ghost var n := |trail|;
      var skip, at := EvaluateGate(free);
      if !skip {
        var claimed := ClaimNextQueued();
        if claimed.Some? {
          var removal := NextAnswer();
          var outcome := RunJob(claimed.value, removal.Good?);
        }
      }
      assert trail[n] == Gate(free, skip);
      assert skip ==> trail[n..] == [Gate(free, true)];
    }

    /** The worker loop, one pass for each reading of the free space. Every reading is used, and every one that does
        not make the worker wait leads to a claim; a claim that works finds a job as long as one is queued; and every
        claimed job is run to its end. */
    method Work(readings: seq<nat>)
      requires Valid() && Pc() == Idle
      modifies this, jobs
      ensures Valid() && Pc() == Idle
      ensures old(trail) <= trail && Accounts(trail[|old(trail)|..], readings)
    {
      for i := 0 to |readings|
        invariant Valid() && Pc() == Idle
        invariant old(trail) <= trail && Accounts(trail[|old(trail)|..], readings[..i])
      {
        ghost var before := trail;
        Pass(readings[i]);
        AccountsOn(old(trail), before, trail, readings, i);
      }
      assert readings[..|readings|] == readings;
    }
  }

  lemma AccountsOn(start: seq<Event>, before: seq<Event>, after: seq<Event>, readings: seq<nat>, i: nat)
    requires start <= before <= after && i < |readings|
    requires Accounts(before[|start|..], readings[..i]) && IsPass(after[|before|..], readings[i])
    ensures Accounts(after[|start|..], readings[..i + 1])
  {
    var events, n := after[|start|..], |before| - |start|;
    assert events[n..] == after[|before|..] && events[..n] == before[|start|..];
    assert Last(readings[..i + 1]) == readings[i] && Front(readings[..i + 1]) == readings[..i];
  }

  /** The code of worker `w` next to everybody else, from a process start on: whatever happens, the pool ends up in a
      state that the machine reaches, so everything that holds of its runs holds of this code; and the worker has used
      each reading. */
  method RunWorker(start: State, w: nat, others: seq<seq<Action>>, answers: seq<Answer>, faults: seq<Option<Failure>>,
                   readings: seq<nat>) returns (final: State, ghost trail: seq<Event>)
    requires Init(start) && w < |start.workers|
    ensures exists acts :: Runs(start, acts) && Exec(start, acts) == final
    ensures Accounts(trail, readings)
  {
    InitOk(start);
    ReachableIsKept(start);
    var jobs := new JobsTable(start.rows);
    var worker := new Worker(w, jobs, start, others, answers, faults, ReachableFrom(start));
    worker.Work(readings);
    final, trail := worker.world, worker.trail[0..];
    assert Reachable(start, final);
  }
}
