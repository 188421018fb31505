/** Why a queued job always has a user, credentials and a folder: the readiness check and the inserts are separate
    steps, and so are all the steps of the other handlers that run at the same time
    (crates/telegram/src/enqueue.rs, readiness.rs, handler.rs, user.rs; crates/oauth/src/routes.rs;
    crates/app/src/job_runner.rs). */
module Readiness {
  import opened Common
  import opened JobModel

  type FolderId = string

  /** Where a handler or a job runner is. */
  datatype Pc =
    | Free
    // insert_and_enqueue and handle_playlist_callback: `items` jobs are to be inserted for `user`
    | CheckCredentials(user: UserId, items: nat)
    | CheckFolder(user: UserId, items: nat)
    | Inserting(user: UserId, items: nat)
    // google_callback
    | OauthUser(user: UserId)
    | OauthCredentials(user: UserId)
    | Provision(user: UserId)
    | SaveFolder(user: UserId, folder: FolderId)
    // try_set_folder_from_message
    | FolderUser(user: UserId, rename: bool)
    | FolderCredentials(user: UserId, rename: bool)
    | FolderRead(user: UserId, rename: bool)
    | CreateFolder(user: UserId)
    | RenameFolder(user: UserId, folder: FolderId)
    // run_job_inner
    | RunUser(job: JobId)
    | RunFolder(job: JobId)
    | RunCredentials(job: JobId)
    | RunReady(job: JobId)
    | Missing(what: Need)

  datatype Need = TheUser | TheFolder | TheCredentials

  /** The steps: a free task takes up something, a busy one goes on (`job` and `folder` are what a step creates),
      or gives up because a call to the outside or a statement failed. Workers change rows all the time. */
  datatype Action =
    | Begin(t: nat, what: Pc)
    | Go(t: nat, newJob: JobId, newFolder: FolderId, now: nat)
    | GiveUp(t: nat)
    | ChangeRow(id: JobId, row: JobRow)

  datatype State = State(
    users: set<UserId>,
    credentials: set<UserId>,
    folders: map<UserId, FolderId>,
    rows: Table,
    tasks: seq<Pc>)

  predicate Begins(pc: Pc, s: State) {
    match pc
    case CheckCredentials(_, _) => true
    case OauthUser(_) => true
    case FolderUser(_, _) => true
    case RunUser(job) => job in s.rows
    case _ => false
  }

  predicate Enabled(s: State, a: Action) {
    match a
    case Begin(t, what) => t < |s.tasks| && s.tasks[t].Free? && Begins(what, s)
    case Go(t, newJob, _, _) => t < |s.tasks| && !s.tasks[t].Free?
    case GiveUp(t) => t < |s.tasks| && !s.tasks[t].Free?
    case ChangeRow(id, row) => id in s.rows && row.user == s.rows[id].user
  }

  function At(s: State, t: nat, pc: Pc): State
    requires t < |s.tasks|
  {
    s.(tasks := s.tasks[t := pc])
  }

  function AfterInsert(user: UserId, items: nat): Pc {
    if items <= 1 then Free else Inserting(user, items - 1)
  }

  /** One step of a busy task. Foreign keys make inserts for an unknown user fail, primary keys make them fail
      for a used id; the task then gives up. */
  function Step(s: State, t: nat, newJob: JobId, newFolder: FolderId, now: nat): State
    requires t < |s.tasks|
  {
    match s.tasks[t]
    case CheckCredentials(user, items) =>
      At(s, t, if user in s.credentials then CheckFolder(user, items) else Free)
    case CheckFolder(user, items) =>
      At(s, t, if user in s.folders && items > 0 then Inserting(user, items) else Free)
    case Inserting(user, items) =>
      if user in s.users && newJob !in s.rows then
        At(s, t, AfterInsert(user, items)).(rows := s.rows[newJob := NewRow(user, now)])
      else At(s, t, Free)
    case OauthUser(user) => At(s, t, OauthCredentials(user)).(users := s.users + {user})
    case OauthCredentials(user) =>
      if user in s.users then At(s, t, Provision(user)).(credentials := s.credentials + {user})
      else At(s, t, Free)
    case Provision(user) => At(s, t, SaveFolder(user, newFolder))
    case SaveFolder(user, folder) =>
      if user in s.users then At(s, t, Free).(folders := s.folders[user := folder]) else At(s, t, Free)
    case FolderUser(user, rename) => At(s, t, FolderCredentials(user, rename)).(users := s.users + {user})
    case FolderCredentials(user, rename) =>
      At(s, t, if user in s.credentials then FolderRead(user, rename) else Free)
    case FolderRead(user, rename) =>
      At(s, t, if !rename then CreateFolder(user)
               else if user in s.folders then RenameFolder(user, s.folders[user]) else Free)
    case CreateFolder(user) => At(s, t, SaveFolder(user, newFolder))
    case RenameFolder(user, folder) => At(s, t, SaveFolder(user, folder))
    case RunUser(job) =>
      At(s, t, if job in s.rows && s.rows[job].user in s.users then RunFolder(job) else Missing(TheUser))
    case RunFolder(job) =>
      At(s, t, if job in s.rows && s.rows[job].user in s.folders then RunCredentials(job) else Missing(TheFolder))
    case RunCredentials(job) =>
      At(s, t, if job in s.rows && s.rows[job].user in s.credentials then RunReady(job) else Missing(TheCredentials))
    case _ => At(s, t, Free)
  }

  function Apply(s: State, a: Action): State
    requires Enabled(s, a)
  {
    match a
    case Begin(t, what) => At(s, t, what)
    case Go(t, newJob, newFolder, now) => Step(s, t, newJob, newFolder, now)
    case GiveUp(t) => At(s, t, Free)
    case ChangeRow(id, row) => s.(rows := s.rows[id := row])
  }

  /** `acts` is a possible run from `s`. */
  predicate Runs(s: State, acts: seq<Action>)
    decreases |acts|, 0
  {
    acts == [] || (Runs(s, Front(acts)) && Enabled(Exec(s, Front(acts)), Last(acts)))
  }

  function Exec(s: State, acts: seq<Action>): State
    requires Runs(s, acts)
    decreases |acts|, 1
  {
    if acts == [] then s else Apply(Exec(s, Front(acts)), Last(acts))
  }

  predicate Ready(s: State, user: UserId) {
    user in s.users && user in s.credentials && user in s.folders
  }

  /** Any database, an empty one for instance, that respects its foreign keys and whose jobs belong to ready users; and
      no task at work. */
  ghost predicate Init(s: State) {
    && s.credentials <= s.users
    && s.folders.Keys <= s.users
    && (forall id | id in s.rows :: Ready(s, s.rows[id].user))
    && forall t | 0 <= t < |s.tasks| :: s.tasks[t].Free?
  }

  predicate PcOk(s: State, pc: Pc) {
    match pc
    case CheckFolder(user, _) => user in s.users && user in s.credentials
    case Inserting(user, _) => Ready(s, user)
    case RunUser(job) => job in s.rows
    case RunFolder(job) => job in s.rows
    case RunCredentials(job) => job in s.rows
    case Missing(_) => false
    case _ => true
  }

  ghost predicate Inv(s: State) {
    && s.credentials <= s.users
    && s.folders.Keys <= s.users
    && (forall id | id in s.rows :: Ready(s, s.rows[id].user))
    && (forall t | 0 <= t < |s.tasks| :: PcOk(s, s.tasks[t]))
  }

  /** Nothing a step does takes back what a check has seen. */
  lemma TablesOnlyGrow(s: State, a: Action)
    requires Enabled(s, a)
    ensures var s' := Apply(s, a);
            && s.users <= s'.users
            && s.credentials <= s'.credentials
            && s.folders.Keys <= s'.folders.Keys
            && s.rows.Keys <= s'.rows.Keys
            && (forall id | id in s.rows :: s'.rows[id].user == s.rows[id].user)
            && |s'.tasks| == |s.tasks|
            && (forall t | 0 <= t < |s.tasks| && (a.ChangeRow? || t != a.t) :: s'.tasks[t] == s.tasks[t])
  {
    if a.Go? {
      StepGrows(s, a.t, a.newJob, a.newFolder, a.now);
    }
  }

  lemma StepGrows(s: State, t: nat, newJob: JobId, newFolder: FolderId, now: nat)
    requires t < |s.tasks|
    ensures var s' := Step(s, t, newJob, newFolder, now);
            && s.users <= s'.users
            && s.credentials <= s'.credentials
            && s.folders.Keys <= s'.folders.Keys
            && s.rows.Keys <= s'.rows.Keys
            && (forall id | id in s.rows :: s'.rows[id].user == s.rows[id].user)
            && |s'.tasks| == |s.tasks|
            && (forall u | 0 <= u < |s.tasks| && u != t :: s'.tasks[u] == s.tasks[u])
  {
  }

  /** The rows and the task of one step. */
  lemma StepIsReady(s: State, t: nat, newJob: JobId, newFolder: FolderId, now: nat)
    requires Inv(s) && t < |s.tasks|
    ensures var s' := Step(s, t, newJob, newFolder, now);
            && s'.credentials <= s'.users
            && s'.folders.Keys <= s'.users
            && PcOk(s', s'.tasks[t])
            && (forall id | id in s'.rows :: Ready(s, s'.rows[id].user))
  {
    assert PcOk(s, s.tasks[t]);
  }

  lemma StepKeepsInv(s: State, a: Action)
    requires Inv(s) && Enabled(s, a)
    ensures Inv(Apply(s, a))
  {
    var s' := Apply(s, a);
    TablesOnlyGrow(s, a);
    if a.Go? {
      StepIsReady(s, a.t, a.newJob, a.newFolder, a.now);
    }
    forall t | 0 <= t < |s'.tasks|
      ensures PcOk(s', s'.tasks[t])
    {
      if a.ChangeRow? || t != a.t {
        assert PcOk(s, s.tasks[t]);
      }
    }
  }

  lemma {:induction false} RunKeepsInv(s: State, acts: seq<Action>)
    requires Init(s) && Runs(s, acts)
    ensures Inv(Exec(s, acts))
    decreases |acts|
  {
    if acts != [] {
      RunKeepsInv(s, Front(acts));
      StepKeepsInv(Exec(s, Front(acts)), Last(acts));
    }
  }

  /** Every job row belongs, at all times, to a user with credentials and a folder, and no job runner finds any of
      the three missing. */
  lemma JobsAreReady(s: State, acts: seq<Action>)
    requires Init(s) && Runs(s, acts)
    ensures forall id | id in Exec(s, acts).rows :: Ready(Exec(s, acts), Exec(s, acts).rows[id].user)
    ensures forall t | 0 <= t < |Exec(s, acts).tasks| :: !Exec(s, acts).tasks[t].Missing?
  {
    RunKeepsInv(s, acts);
    var t := Exec(s, acts);
    forall i | 0 <= i < |t.tasks|
      ensures !t.tasks[i].Missing?
    {
      assert PcOk(t, t.tasks[i]);
    }
  }

  /** Once ready, a user stays ready, whatever runs afterwards. */
  lemma {:induction false} ReadyIsForever(s: State, acts: seq<Action>, user: UserId)
    requires Runs(s, acts) && Ready(s, user)
    ensures Ready(Exec(s, acts), user)
    decreases |acts|
  {
    if acts != [] {
      ReadyIsForever(s, Front(acts), user);
      TablesOnlyGrow(Exec(s, Front(acts)), Last(acts));
    }
  }
}
