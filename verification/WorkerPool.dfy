/** The worker pool as a machine of atomic steps: every SQL statement, every external call and every
    access to the pressure flag is one step, and the steps of all workers, of the enqueuing code and
    of the clock interleave freely (crates/app/src/worker.rs, crates/app/src/job_runner.rs). */
module WorkerPool {
  import opened Common
  import opened JobModel
  import opened ScratchDisk

  /** Where a worker is. Every state but the first two carries the claimed job. */
  datatype Pc =
    | Idle                                        // top of the worker loop
    | Claiming                                    // the gate was open
    | Starting(id: JobId)                         // claimed; about to create the temp dir
    | Loading(id: JobId)                          // about to read the row
    | Gating(id: JobId)                           // about to look at the pressure flag
    | Preparing(id: JobId)                        // user, folder, credentials, access token
    | Reading(id: JobId, to: JobStatus, error: Option<string>)   // set_status: about to read the row
    | Writing(id: JobId, from: JobStatus, to: JobStatus, error: Option<string>, notify: bool)
    | Reloading(id: JobId, to: JobStatus)         // set_status: reload for the notification
    | Fetching(id: JobId)                         // the download
    | Sending(id: JobId)                          // the upload
    | Recording(id: JobId, fileId: string)        // set_drive_file_id
    | Failing(id: JobId, message: string, diskFull: bool)   // run_job saw an error
    | Cleaning(id: JobId)                         // dropping the temp-dir guard

  predicate Busy(pc: Pc) {
    !pc.Idle? && !pc.Claiming?
  }

  datatype Action =
    | Evaluate(w: nat, free: nat)
    | Claim(w: nat, job: JobId)
    | ClaimNothing(w: nat)
    | MakeDir(w: nat)
    | Load(w: nat)
    | CheckGate(w: nat)
    | Prepare(w: nat)
    | ReadStatus(w: nat)
    | WriteStatus(w: nat)
    | Reload(w: nat)
    | Fetch(w: nat)
    | Upload(w: nat, newFileId: string)
    | RecordFileId(w: nat)
    | FailJob(w: nat)
    | Clean(w: nat, removed: bool)
    | Abort(w: nat, message: string, full: bool)         // an external call fails
    | StorageFault(w: nat, message: string, full: bool)  // a SQL statement fails and changes nothing
    | Insert(job: JobId, user: UserId)
    | SetProgress(job: JobId, current: int, total: int)
    | SetMessageId(job: JobId, messageId: int)
    | Tick

  predicate ByWorker(a: Action) {
    !a.Insert? && !a.SetProgress? && !a.SetMessageId? && !a.Tick?
  }

  /** `uploads` is what the drive saw: for each job, the outcome of every call of the uploader. */
  datatype State = State(
    rows: Table,
    workers: seq<Pc>,
    dirs: set<JobId>,
    pressured: bool,
    limits: Thresholds,
    uploads: map<JobId, seq<Option<string>>>,
    now: nat)

  function Calls(s: State, id: JobId): seq<Option<string>> {
    if id in s.uploads then s.uploads[id] else []
  }

  /** The worker states in which the next step is a SQL statement. */
  predicate TouchesStorage(pc: Pc) {
    pc.Claiming? || pc.Loading? || pc.Reading? || pc.Writing? || pc.Reloading? || pc.Recording?
  }

  predicate CallsOut(pc: Pc) {
    pc.Starting? || pc.Preparing? || pc.Fetching? || pc.Sending?
  }

  predicate Enabled(s: State, a: Action) {
    match a
    case Insert(id, _) => id !in s.rows
    case SetProgress(_, _, _) => true
    case SetMessageId(_, _) => true
    case Tick => true
    case _ =>
      a.w < |s.workers| &&
      var pc := s.workers[a.w];
      match a
      case Evaluate(_, _) => pc.Idle?
      case Claim(_, id) => pc.Claiming? && Claimable(s.rows, id)
      case ClaimNothing(_) => pc.Claiming? && forall id | id in s.rows :: s.rows[id].status != Queued
      case MakeDir(_) => pc.Starting?
      case Load(_) => pc.Loading?
      case CheckGate(_) => pc.Gating?
      case Prepare(_) => pc.Preparing?
      case ReadStatus(_) => pc.Reading?
      case WriteStatus(_) => pc.Writing?
      case Reload(_) => pc.Reloading?
      case Fetch(_) => pc.Fetching?
      case Upload(_, _) => pc.Sending?
      case RecordFileId(_) => pc.Recording?
      case FailJob(_) => pc.Failing?
      case Clean(_, _) => pc.Cleaning?
      case Abort(_, _, _) => CallsOut(pc)
      case StorageFault(_, _, _) => TouchesStorage(pc)
      case _ => false
  }

  /** Where `set_status` returns to when it succeeds. */
  function AfterSetStatus(id: JobId, to: JobStatus): Pc {
    match to
    case Downloading => Fetching(id)
    case Uploading => Sending(id)
    case _ => Cleaning(id)
  }

  /** Where an error inside `set_status` leads: `run_job` ignores the outcome of `fail_job`. */
  function AfterSetStatusError(id: JobId, to: JobStatus, message: string, full: bool): Pc {
    if to == Failed then Cleaning(id) else Failing(id, message, full)
  }

  /** Where a failing statement leads. */
  function AfterFault(pc: Pc, message: string, full: bool): Pc
    requires TouchesStorage(pc)
  {
    if pc.Claiming? then Idle
    else if pc.Reading? || pc.Writing? || pc.Reloading? then AfterSetStatusError(pc.id, pc.to, message, full)
    else Failing(pc.id, message, full)
  }

  const STORAGE_FULL := "Server storage is full. Try again in a few minutes."

  /** The next state of worker `a.w`. */
  function NextPc(s: State, a: Action): Pc
    requires ByWorker(a) && Enabled(s, a)
  {
    var pc := s.workers[a.w];
    match a
    case Evaluate(_, free) => if Toggle(s.pressured, Measured(free, s.limits)) then Idle else Claiming
    case Claim(_, id) => Starting(id)
    case ClaimNothing(_) => Idle
    case MakeDir(_) => Loading(pc.id)
    case Load(_) => if pc.id in s.rows then Gating(pc.id) else Failing(pc.id, "job not found", false)
    case CheckGate(_) => if s.pressured then Failing(pc.id, STORAGE_FULL, false) else Preparing(pc.id)
    case Prepare(_) => Reading(pc.id, Downloading, None)
    case ReadStatus(_) =>
      if pc.id !in s.rows then
        AfterSetStatusError(pc.id, pc.to, "job not found for status update", false)
      else
        var row := s.rows[pc.id];
        if !IsEdge(row.status, pc.to) && pc.to != Failed then AfterSetStatus(pc.id, pc.to)
        else Writing(pc.id, row.status, pc.to, pc.error, row.messageId.Some?)
    case WriteStatus(_) => if pc.notify then Reloading(pc.id, pc.to) else AfterSetStatus(pc.id, pc.to)
    case Reload(_) =>
      if pc.id in s.rows then AfterSetStatus(pc.id, pc.to)
      else AfterSetStatusError(pc.id, pc.to, "reload job", false)
    case Fetch(_) => Reading(pc.id, Uploading, None)
    case Upload(_, fileId) => Recording(pc.id, fileId)
    case RecordFileId(_) => Reading(pc.id, Completed, None)
    case FailJob(_) => Reading(pc.id, Failed, Some(pc.message))
    case Clean(_, _) => Idle
    case Abort(_, message, full) => Failing(pc.id, message, full)
    case StorageFault(_, message, full) => AfterFault(pc, message, full)
  }

  function NextRows(s: State, a: Action): Table
    requires Enabled(s, a)
  {
    match a
    case Insert(id, user) => s.rows[id := NewRow(user, s.now)]
    case SetProgress(id, current, total) => WithProgress(s.rows, id, current, total)
    case SetMessageId(id, messageId) => WithMessageId(s.rows, id, messageId)
    case Claim(_, id) => s.rows[id := s.rows[id].(status := Downloading)]
    case WriteStatus(w) => WithStatus(s.rows, s.workers[w].id, s.workers[w].to, s.workers[w].error)
    case RecordFileId(w) => WithFileId(s.rows, s.workers[w].id, s.workers[w].fileId)
    case _ => s.rows
  }

  function NextDirs(s: State, a: Action): set<JobId>
    requires Enabled(s, a)
  {
    match a
    case MakeDir(w) => s.dirs + {s.workers[w].id}
    case Clean(w, removed) => if removed then s.dirs - {s.workers[w].id} else s.dirs
    case _ => s.dirs
  }

  function NextPressured(s: State, a: Action): bool
    requires Enabled(s, a)
  {
    match a
    case Evaluate(_, free) => Toggle(s.pressured, Measured(free, s.limits))
    case FailJob(w) => s.pressured || s.workers[w].diskFull
    case _ => s.pressured
  }

  function NextUploads(s: State, a: Action): map<JobId, seq<Option<string>>>
    requires Enabled(s, a)
  {
    match a
    case Upload(w, fileId) =>
      var id := s.workers[w].id;
      s.uploads[id := Calls(s, id) + [Some(fileId)]]
    case Abort(w, _, _) =>
      if s.workers[w].Sending? then
        var id := s.workers[w].id;
        s.uploads[id := Calls(s, id) + [None]]
      else s.uploads
    case _ => s.uploads
  }

  function Apply(s: State, a: Action): State
    requires Enabled(s, a)
  {
    State(
      NextRows(s, a),
      if ByWorker(a) then s.workers[a.w := NextPc(s, a)] else s.workers,
      NextDirs(s, a),
      NextPressured(s, a),
      s.limits,
      NextUploads(s, a),
      if a.Tick? then s.now + 1 else s.now)
  }

  /** `acts` is a possible run from `s`. */
  predicate Runs(s: State, acts: seq<Action>)
    decreases |acts|, 0
  {
    acts == [] || (Runs(s, Front(acts)) && Enabled(Exec(s, Front(acts)), Last(acts)))
  }

  /** The state a run ends in. */
  function Exec(s: State, acts: seq<Action>): State
    requires Runs(s, acts)
    decreases |acts|, 1
  {
    if acts == [] then s else Apply(Exec(s, Front(acts)), Last(acts))
  }

  lemma RunsSnoc(s: State, acts: seq<Action>, a: Action)
    requires Runs(s, acts) && Enabled(Exec(s, acts), a)
    ensures Runs(s, acts + [a])
    ensures Exec(s, acts + [a]) == Apply(Exec(s, acts), a)
  {
    FrontLast(acts, a);
  }

  lemma {:induction false} RunsPrefix(s: State, acts: seq<Action>, i: nat)
    requires Runs(s, acts) && i <= |acts|
    ensures Runs(s, acts[..i])
    decreases |acts|
  {
    if i == |acts| {
      assert acts[..i] == acts;
    } else {
      PrefixOfFront(acts, i);
      RunsPrefix(s, Front(acts), i);
    }
  }

  /** A run cut in two: the second part is a run from the state the first part ends in. */
  lemma {:induction false} RunsSplit(s: State, acts: seq<Action>, i: nat)
    requires Runs(s, acts) && i <= |acts|
    ensures Runs(s, acts[..i])
    ensures Runs(Exec(s, acts[..i]), acts[i..])
    ensures Exec(Exec(s, acts[..i]), acts[i..]) == Exec(s, acts)
    decreases |acts|
  {
    if i == |acts| {
      assert acts[..i] == acts;
    } else {
      PrefixOfFront(acts, i);
      var suffix := acts[i..];
      assert Front(suffix) == Front(acts)[i..] && Last(suffix) == Last(acts);
      RunsSplit(s, Front(acts), i);
    }
  }

  /** Two runs in a row are one run. */
  lemma {:induction false} RunsConcat(s: State, first: seq<Action>, second: seq<Action>)
    requires Runs(s, first) && Runs(Exec(s, first), second)
    ensures Runs(s, first + second)
    ensures Exec(s, first + second) == Exec(Exec(s, first), second)
    decreases |second|
  {
    if second == [] {
      assert first + second == first;
    } else {
      RunsConcat(s, first, Front(second));
      assert Front(first + second) == first + Front(second);
      assert Last(first + second) == Last(second);
    }
  }

  /** No statement of the database fails. */
  predicate Reliable(acts: seq<Action>) {
    forall i | 0 <= i < |acts| :: !acts[i].StorageFault?
  }

  /** Every temp-dir removal succeeds. */
  predicate RemovesDirs(acts: seq<Action>) {
    forall i | 0 <= i < |acts| :: acts[i].Clean? ==> acts[i].removed
  }
}
