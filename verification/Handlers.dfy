/** The handlers' code, statement by statement, while everybody else runs (crates/telegram/src/enqueue.rs,
    readiness.rs, handler.rs, user.rs; crates/oauth/src/routes.rs). */
module Handlers {
  import opened Common
  import opened JobModel
  import opened Readiness

  /** A property that includes the invariant of the tables and that every step keeps. */
  ghost predicate Kept(p: State -> bool) {
    && (forall s {:trigger Inv(s)} :: p(s) ==> Inv(s))
    && (forall s, a {:trigger p(Apply(s, a))} :: p(s) && Enabled(s, a) ==> p(Apply(s, a)))
  }

  type KeptProperty = p: State -> bool | Kept(p) witness (s: State) => false

  ghost predicate Reachable(start: State, s: State) {
    exists acts :: Runs(start, acts) && Exec(start, acts) == s
  }

  ghost function ReachableFrom(start: State): State -> bool {
    s => Reachable(start, s)
  }

  /** Being reachable is such a property. */
  lemma ReachableIsKept(start: State)
    requires Init(start)
    ensures Kept(ReachableFrom(start)) && Reachable(start, start)
  {
    forall s | Reachable(start, s)
      ensures Inv(s)
    {
      var acts :| Runs(start, acts) && Exec(start, acts) == s;
      RunKeepsInv(start, acts);
    }
    forall s, a | Reachable(start, s) && Enabled(s, a)
      ensures Reachable(start, Apply(s, a))
    {
      var acts :| Runs(start, acts) && Exec(start, acts) == s;
      FrontLast(acts, a);
      assert Runs(start, acts + [a]) && Exec(start, acts + [a]) == Apply(s, a);
    }
    assert Runs(start, []) && Exec(start, []) == start;
  }

  /** What a later state still has. */
  predicate Grown(s: State, s': State) {
    && s.users <= s'.users
    && s.credentials <= s'.credentials
    && s.folders.Keys <= s'.folders.Keys
    && s.rows.Keys <= s'.rows.Keys
    && forall id | id in s.rows :: s'.rows[id].user == s.rows[id].user
  }

  /** These jobs have rows of this user. */
  ghost predicate HaveRows(s: State, ids: seq<JobId>, user: UserId) {
    forall i | 0 <= i < |ids| :: ids[i] in s.rows && s.rows[ids[i]].user == user
  }

  lemma GrownHaveRows(s: State, s': State, ids: seq<JobId>, user: UserId)
    requires Grown(s, s') && HaveRows(s, ids, user)
    ensures HaveRows(s', ids, user)
  {
    forall i | 0 <= i < |ids|
      ensures ids[i] in s'.rows && s'.rows[ids[i]].user == user
    {
      assert ids[i] in s.rows && s.rows[ids[i]].user == user;
    }
  }

  lemma HaveRowsSnoc(s: State, ids: seq<JobId>, n: nat, user: UserId)
    requires n < |ids| && HaveRows(s, ids[..n], user) && ids[n] in s.rows && s.rows[ids[n]].user == user
    ensures ids[..n + 1] == ids[..n] + [ids[n]] && HaveRows(s, ids[..n + 1], user)
  {
  }

  datatype Denial = ConnectFirst | SetFolderFirst | ConnectionUnknown | FolderUnknown

  datatype EnqueueError = Denied(why: Denial) | InsertFailed | ProgressFailed | NotifyFailed | MessageIdFailed

  /** Whether an item that ended in this error has its row all the same. */
  predicate HasRow(e: EnqueueError) {
    e.ProgressFailed? || e.NotifyFailed? || e.MessageIdFailed?
  }

  /** How many items have rows once the loop has ended with `r` at item `queued`. */
  function RowCount(r: Result<(), EnqueueError>, queued: nat): nat {
    if r.Err? && HasRow(r.error) then queued + 1 else queued
  }

  datatype Write =
    | Inserted(job: JobId, user: UserId)
    | Progressed(job: JobId, current: int, total: int)
    | Messaged(job: JobId, messageId: int)

  function ErrorOf(r: Result<(), EnqueueError>): Option<EnqueueError> {
    if r.Err? then Some(r.error) else None
  }

  /** The writes for a job that has been inserted, up to the error it ends in, if any. */
  function LaterWrites(e: Option<EnqueueError>, job: JobId, progress: Option<(int, int)>, message: Option<int>)
      : seq<Write>
  {
    (if progress.None? || e == Some(ProgressFailed) then [] else [Progressed(job, progress.value.0, progress.value.1)])
    + (if e.Some? || message.None? then [] else [Messaged(job, message.value)])
  }

  /** All the writes for a job. */
  function JobWrites(e: Option<EnqueueError>, user: UserId, job: JobId, progress: Option<(int, int)>,
                     message: Option<int>): seq<Write>
  {
    if e == Some(InsertFailed) then [] else [Inserted(job, user)] + LaterWrites(e, job, progress, message)
  }

  /** The writes for the first `n` items of a playlist, all of which end well. */
  function ItemWrites(user: UserId, ids: seq<JobId>, messages: seq<Option<int>>, n: nat): seq<Write>
    requires n <= |ids| == |messages|
  {
    if n == 0 then []
    else
      ItemWrites(user, ids, messages, n - 1)
      + JobWrites(None, user, ids[n - 1], Some((n, |ids|)), messages[n - 1])
  }

  /** The writes of a playlist that ends at item `queued`. */
  function PlaylistWrites(e: Option<EnqueueError>, user: UserId, ids: seq<JobId>, messages: seq<Option<int>>,
                          queued: nat): seq<Write>
    requires queued <= |ids| == |messages|
  {
    ItemWrites(user, ids, messages, queued)
    + if e.None? || e.value.Denied? || queued == |ids| then []
      else JobWrites(e, user, ids[queued], Some((queued + 1, |ids|)), messages[queued])
  }

  lemma PlaylistWritesStep(start: seq<Write>, e: Option<EnqueueError>, user: UserId, ids: seq<JobId>,
                           messages: seq<Option<int>>, n: nat)
    requires n < |ids| == |messages|
    ensures var after := start + ItemWrites(user, ids, messages, n)
                         + JobWrites(e, user, ids[n], Some((n + 1, |ids|)), messages[n]);
            && (e.None? ==> after == start + ItemWrites(user, ids, messages, n + 1))
            && (e.Some? && !e.value.Denied? ==> after == start + PlaylistWrites(e, user, ids, messages, n))
  {
  }

  datatype CallbackError = UserFailed | CredentialsFailed

  datatype FolderError = NotConnected | NoFolder | DriveFailed | StorageFailed

  class Task {
    const t: nat

    /** The jobs table of the database. */
    const jobs: JobsTable

    /** Whether the statements of this task all succeed. */
    const reliable: bool

    /** The tables and where all tasks are. */
    var world: State

    /** What the others do before each statement of this task, and which of its statements fail. */
    var others: seq<seq<Action>>
    var faults: seq<bool>

    /** What this task has written into the jobs table. */
    ghost var writes: seq<Write>

    ghost const kept: KeptProperty

    ghost predicate Sound()
      reads this
    {
      kept(world) && t < |world.tasks|
    }

    ghost predicate Valid()
      reads this, jobs
    {
      Sound() && jobs.rows == world.rows
    }

    ghost function Pc(): Pc
      reads this
      requires t < |world.tasks|
    {
      world.tasks[t]
    }

    constructor (t: nat, jobs: JobsTable, s: State, reliable: bool, others: seq<seq<Action>>, faults: seq<bool>,
                 ghost kept: KeptProperty)
      requires kept(s) && t < |s.tasks| && jobs.rows == s.rows
      ensures Valid() && this.t == t && this.jobs == jobs && this.reliable == reliable && this.kept == kept
      ensures world == s && writes == []
    {
      this.t, this.jobs, this.world, this.reliable, this.kept := t, jobs, s, reliable, kept;
      this.others, this.faults := others, faults;
      this.writes := [];
    }

    method Interfere()
      requires Valid()
      modifies this`world, this`others, jobs
      ensures Valid() && Pc() == old(Pc()) && Grown(old(world), world)
    {
      if others == [] {
        return;
      }
      var batch := others[0];
      others := others[1..];
      for i := 0 to |batch|
        invariant Valid() && Pc() == old(Pc()) && Grown(old(world), world)
      {
        var a := batch[i];
        if (a.ChangeRow? || a.t != t) && Enabled(world, a) {
          TablesOnlyGrow(world, a);
          world := Apply(world, a);
          jobs.rows := world.rows;
        }
      }
    }

    /** One step of this task; a statement on the jobs has already left its mark on the table. */
    method Take(a: Action)
      requires Sound() && (a.ChangeRow? || a.t == t) && Enabled(world, a) && jobs.rows == Apply(world, a).rows
      modifies this`world
      ensures Valid() && world == Apply(old(world), a) && Grown(old(world), world)
    {
      TablesOnlyGrow(world, a);
      world := Apply(world, a);
    }

    method Go(newJob: JobId, newFolder: FolderId, now: nat)
      requires Sound() && Pc() != Free && jobs.rows == Step(world, t, newJob, newFolder, now).rows
      modifies this`world
      ensures Valid() && world == Step(old(world), t, newJob, newFolder, now) && Grown(old(world), world)
    {
      Take(Action.Go(t, newJob, newFolder, now));
    }

    /** The task ends early. */
    method Stop()
      requires Valid()
      modifies this`world
      ensures Valid() && Pc() == Free && Grown(old(world), world) && world.rows == old(world).rows
      ensures world.users == old(world).users && world.credentials == old(world).credentials
    {
      if world.tasks[t] != Free {
        Take(GiveUp(t));
      }
    }

    /** The others take their steps; then the next statement may fail, which ends the task. */
    method Fails() returns (fault: bool)
      requires Valid()
      modifies this`world, this`others, this`faults, jobs
      ensures Valid() && Grown(old(world), world)
      ensures Pc() == if fault then Free else old(Pc())
      ensures reliable ==> !fault
    {
      Interfere();
      fault := !reliable && faults != [] && faults[0];
      faults := if faults == [] then [] else faults[1..];
      if fault {
        Stop();
      }
    }

    /** `job_readiness_message`, in front of `items` inserts. */
    method JobReadiness(user: UserId, items: nat) returns (r: Result<(), Denial>)
      requires Valid() && Pc() == Free
      modifies this`world, this`others, this`faults, jobs
      ensures Valid() && Grown(old(world), world)
      ensures r.Ok? ==> Pc() == if items > 0 then Inserting(user, items) else Free
      ensures r.Err? ==> Pc() == Free
      ensures r.Ok? ==> user in world.credentials && user in world.folders
      ensures r == Err(ConnectFirst) ==> user !in old(world).credentials
      ensures r == Err(SetFolderFirst) ==> user !in old(world).folders && user in world.credentials
      ensures r.Err? && reliable ==> r.error.ConnectFirst? || r.error.SetFolderFirst?
    {
      Take(Begin(t, CheckCredentials(user, items)));
      var fault := Fails();
      if fault {
        return Err(ConnectionUnknown);
      }
      var connected := user in world.credentials;
      Go(0, "", 0);
      if !connected {
        return Err(ConnectFirst);
      }
      fault := Fails();
      if fault {
        return Err(FolderUnknown);
      }
      var hasFolder := user in world.folders;
      Go(0, "", 0);
      if !hasFolder {
        return Err(SetFolderFirst);
      }
      r := Ok(());
    }

    /** One insert, for a playlist the update of its progress, the notification, and the update of its message id. */
    method InsertJob(user: UserId, items: nat, job: JobId, now: nat, progress: Option<(int, int)>, message: Option<int>)
        returns (r: Result<(), EnqueueError>)
      requires Valid() && Pc() == Inserting(user, items)
      modifies this`world, this`others, this`faults, this`writes, jobs
      ensures Valid() && Grown(old(world), world)
      ensures r.Ok? ==> Pc() == AfterInsert(user, items)
      ensures r.Err? ==> Pc() == Free && (r.error.InsertFailed? || HasRow(r.error))
      ensures writes == old(writes) + JobWrites(ErrorOf(r), user, job, progress, message)
      ensures r != Err(InsertFailed) ==> job in world.rows && world.rows[job].user == user
      ensures r.Ok? ==> message.Some? && world.rows[job].messageId == message
      ensures message.None? ==> r.Err? && (r.error.InsertFailed? || r.error.ProgressFailed? || r.error.NotifyFailed?)
      ensures reliable && message.Some? ==> r.Ok? || r == Err(InsertFailed)
      ensures reliable && r == Err(InsertFailed) ==> job in world.rows
    {
      var inserted := Insert(user, items, job, now);
      if !inserted {
        return Err(InsertFailed);
      }
      r := Announce(job, progress, message);
    }

    /** What follows the insert. It stops at the first failure. */
    method Announce(job: JobId, progress: Option<(int, int)>, message: Option<int>)
        returns (r: Result<(), EnqueueError>)
      requires Valid() && job in world.rows
      modifies this`world, this`others, this`faults, this`writes, jobs
      ensures Valid() && Grown(old(world), world)
      ensures Pc() == if r.Ok? then old(Pc()) else Free
      ensures writes == old(writes) + LaterWrites(ErrorOf(r), job, progress, message)
      ensures r.Err? ==> HasRow(r.error) && (r.error.ProgressFailed? ==> progress.Some?)
      ensures r.Ok? ==> message.Some? && job in world.rows && world.rows[job].messageId == message
      ensures message.None? && r != Err(ProgressFailed) ==> r == Err(NotifyFailed)
      ensures reliable && message.Some? ==> r.Ok?
    {
      if progress.Some? {
        var reported := ReportProgress(job, progress.value.0, progress.value.1);
        if !reported {
          return Err(ProgressFailed);
        }
      }
      if message.None? {
        Stop();
        return Err(NotifyFailed);
      }
      var saved := SaveMessageId(job, message.value);
      r := if saved then Ok(()) else Err(MessageIdFailed);
    }

    lemma InserterIsReady(user: UserId, items: nat)
      requires Valid() && Pc() == Inserting(user, items)
      ensures user in world.users
    {
      assert Inv(world);
      assert PcOk(world, world.tasks[t]);
    }

    /** The insert alone. The user is there, so if statements work it fails only for an id that is taken. */
    method Insert(user: UserId, items: nat, job: JobId, now: nat) returns (inserted: bool)
      requires Valid() && Pc() == Inserting(user, items)
      modifies this`world, this`others, this`faults, this`writes, jobs
      ensures Valid() && Grown(old(world), world)
      ensures Pc() == if inserted then AfterInsert(user, items) else Free
      ensures writes == old(writes) + if inserted then [Inserted(job, user)] else []
      ensures inserted ==> job !in old(world).rows && job in world.rows && world.rows[job].user == user
      ensures !inserted && reliable ==> job in world.rows
    {
      var fault := Fails();
      if fault {
        return false;
      }
      InserterIsReady(user, items);
      var row := jobs.Insert(job, user, world.users, now);
      Go(job, "", now);
      inserted := row.Some?;
      writes := writes + if inserted then [Inserted(job, user)] else [];
    }

    /** The row shows the progress at once. */
    method ReportProgress(job: JobId, current: int, total: int) returns (ok: bool)
      requires Valid() && job in world.rows
      modifies this`world, this`others, this`faults, this`writes, jobs
      ensures writes == old(writes) + if ok then [Progressed(job, current, total)] else []
      ensures ok ==> job in world.rows
                     && world.rows[job].progressCurrent == current && world.rows[job].progressTotal == total
      ensures Valid() && Grown(old(world), world)
      ensures Pc() == if ok then old(Pc()) else Free
      ensures reliable ==> ok
    {
      var fault := Fails();
      if fault {
        return false;
      }
      jobs.UpdateProgress(job, current, total);
      Take(ChangeRow(job, world.rows[job].(progressCurrent := current, progressTotal := total)));
      writes := writes + [Progressed(job, current, total)];
      ok := true;
    }

    /** The row shows the message at once. */
    method SaveMessageId(job: JobId, messageId: int) returns (ok: bool)
      requires Valid() && job in world.rows
      modifies this`world, this`others, this`faults, this`writes, jobs
      ensures writes == old(writes) + if ok then [Messaged(job, messageId)] else []
      ensures ok ==> job in world.rows && world.rows[job].messageId == Some(messageId)
      ensures Valid() && Grown(old(world), world)
      ensures Pc() == if ok then old(Pc()) else Free
      ensures reliable ==> ok
    {
      var fault := Fails();
      if fault {
        return false;
      }
      jobs.SetStatusMessageId(job, messageId);
      Take(ChangeRow(job, world.rows[job].(messageId := Some(messageId))));
      writes := writes + [Messaged(job, messageId)];
      ok := true;
    }

    lemma RowsAreReady(job: JobId)
      requires Valid() && job in world.rows
      ensures Ready(world, world.rows[job].user)
    {
      assert Inv(world);
    }

    /** `insert_and_enqueue`. */
    method InsertAndEnqueue(user: UserId, job: JobId, now: nat, message: Option<int>)
        returns (r: Result<(), EnqueueError>)
      requires Valid() && Pc() == Free
      modifies this`world, this`others, this`faults, this`writes, jobs
      ensures Valid() && Pc() == Free && Grown(old(world), world)
      ensures writes ==
              old(writes) + if r.Err? && r.error.Denied? then [] else JobWrites(ErrorOf(r), user, job, None, message)
      ensures r.Ok? || HasRow(r.error) ==> job in world.rows && world.rows[job].user == user && Ready(world, user)
      ensures reliable && message.Some? && r.Err? ==>
                if r.error.Denied? then !Ready(old(world), user) else r.error.InsertFailed? && job in world.rows
    {
      var ready := JobReadiness(user, 1);
      if ready.Err? {
        return Err(Denied(ready.error));
      }
      r := InsertJob(user, 1, job, now, None, message);
      if r != Err(InsertFailed) {
        RowsAreReady(job);
      }
    }

    /** One item of a playlist, with all earlier ones in the table. `start` is what had been written before the
        playlist. */
    method EnqueueItem(user: UserId, ids: seq<JobId>, messages: seq<Option<int>>, n: nat, now: nat,
                       ghost start: seq<Write>) returns (r: Result<(), EnqueueError>)
      requires Valid() && n < |ids| == |messages| && Pc() == Inserting(user, |ids| - n)
      requires HaveRows(world, ids[..n], user) && writes == start + ItemWrites(user, ids, messages, n)
      modifies this`world, this`others, this`faults, this`writes, jobs
      ensures Valid() && Grown(old(world), world)
      ensures Pc() == if r.Ok? && n + 1 < |ids| then Inserting(user, |ids| - (n + 1)) else Free
      ensures r.Ok? ==> HaveRows(world, ids[..n + 1], user) && writes == start + ItemWrites(user, ids, messages, n + 1)
      ensures r.Err? ==>
                && (r.error.InsertFailed? || HasRow(r.error))
                && HaveRows(world, ids[..RowCount(r, n)], user)
                && writes == start + PlaylistWrites(ErrorOf(r), user, ids, messages, n)
      ensures r != Err(InsertFailed) ==> Ready(world, user)
      ensures reliable && messages[n].Some? && r.Err? ==> r.error.InsertFailed? && ids[n] in world.rows
    {
      ghost var before := world;
      r := InsertJob(user, |ids| - n, ids[n], now, Some((n + 1, |ids|)), messages[n]);
      GrownHaveRows(before, world, ids[..n], user);
      PlaylistWritesStep(start, ErrorOf(r), user, ids, messages, n);
      if r != Err(InsertFailed) {
        HaveRowsSnoc(world, ids, n, user);
        RowsAreReady(ids[n]);
      }
    }

    /** The loop of `handle_playlist_callback`: it inserts one job after the other while everything else goes on. */
    method EnqueueItems(user: UserId, ids: seq<JobId>, messages: seq<Option<int>>, now: nat)
        returns (r: Result<(), EnqueueError>, queued: nat)
      requires Valid() && Pc() == (if ids == [] then Free else Inserting(user, |ids|)) && |messages| == |ids|
      modifies this`world, this`others, this`faults, this`writes, jobs
      ensures Valid() && Pc() == Free && Grown(old(world), world)
      ensures if r.Ok? then queued == |ids| else queued < |ids| && (r.error.InsertFailed? || HasRow(r.error))
      ensures writes == old(writes) + PlaylistWrites(ErrorOf(r), user, ids, messages, queued)
      ensures HaveRows(world, ids[..RowCount(r, queued)], user)
      ensures RowCount(r, queued) > 0 ==> Ready(world, user)
      ensures reliable && r.Err? && messages[queued].Some? ==> r.error.InsertFailed? && ids[queued] in world.rows
    {
      queued := 0;
      r := Ok(());
      while queued < |ids|
        invariant Valid() && Grown(old(world), world) && queued <= |ids| && r.Ok?
        invariant Pc() == if queued < |ids| then Inserting(user, |ids| - queued) else Free
        invariant writes == old(writes) + ItemWrites(user, ids, messages, queued)
        invariant HaveRows(world, ids[..queued], user)
        invariant queued > 0 ==> Ready(world, user)
      {
        r := EnqueueItem(user, ids, messages, queued, now, old(writes));
        if r.Err? {
          return;
        }
        queued := queued + 1;
      }
    }

    /** `handle_playlist_callback`: it checks once and then inserts. `ids` are the fresh ids, `messages` what the
        notifier answers. If all goes well every item has its row. If not, exactly the items before the failure have,
        and the failing one unless the check or its insert failed. With working statements it stops only for a user
        that was not ready, a failing notification, or an id that is taken. */
    method EnqueuePlaylist(user: UserId, ids: seq<JobId>, messages: seq<Option<int>>, now: nat)
        returns (r: Result<(), EnqueueError>, queued: nat)
      requires Valid() && Pc() == Free && |messages| == |ids|
      modifies this`world, this`others, this`faults, this`writes, jobs
      ensures Valid() && Pc() == Free && Grown(old(world), world)
      ensures r.Ok? ==> queued == |ids|
      ensures r.Err? ==> if r.error.Denied? then queued == 0 else queued < |ids|
      ensures writes == old(writes) + PlaylistWrites(ErrorOf(r), user, ids, messages, queued)
      ensures HaveRows(world, ids[..RowCount(r, queued)], user)
      ensures RowCount(r, queued) > 0 ==> Ready(world, user)
      ensures reliable && r.Err? ==>
                if r.error.Denied? then !Ready(old(world), user)
                else messages[queued].None? || (r.error.InsertFailed? && ids[queued] in world.rows)
    {
      var ready := JobReadiness(user, |ids|);
      if ready.Err? {
        return Err(Denied(ready.error)), 0;
      }
      r, queued := EnqueueItems(user, ids, messages, now);
    }

    /** `google_callback` after the code exchange: the user, the credentials, then the folder. `folder` is the created
        one, or nothing when the drive refuses. A failure to provide the folder is not an error. */
    method GoogleCallback(user: UserId, folder: Option<FolderId>) returns (r: Result<bool, CallbackError>)
      requires Valid() && Pc() == Free
      modifies this`world, this`others, this`faults, jobs
      ensures Valid() && Pc() == Free && Grown(old(world), world)
      ensures r != Err(UserFailed) ==> user in world.users
      ensures r.Ok? ==> user in world.credentials
      ensures r == Ok(true) ==> folder.Some? && Ready(world, user)
      ensures reliable ==> r == Ok(folder.Some?)
    {
      Take(Begin(t, OauthUser(user)));
      var fault := Fails();
      if fault {
        return Err(UserFailed);
      }
      Go(0, "", 0);
      r := SaveCredentials(user);
      if r.Ok? {
        var folderOk := ProvisionUserFolder(user, folder);
        r := Ok(folderOk);
      }
    }

    method SaveCredentials(user: UserId) returns (r: Result<bool, CallbackError>)
      requires Valid() && Pc() == OauthCredentials(user) && user in world.users
      modifies this`world, this`others, this`faults, jobs
      ensures Valid() && Grown(old(world), world)
      ensures if r.Ok? then Pc() == Provision(user) && user in world.credentials
              else Pc() == Free && r.error.CredentialsFailed? && !reliable
    {
      var fault := Fails();
      if fault {
        return Err(CredentialsFailed);
      }
      Go(0, "", 0);
      r := Ok(false);
    }

    method ProvisionUserFolder(user: UserId, folder: Option<FolderId>) returns (ok: bool)
      requires Valid() && Pc() == Provision(user) && user in world.users && user in world.credentials
      modifies this`world, this`others, this`faults, jobs
      ensures Valid() && Pc() == Free && Grown(old(world), world)
      ensures ok ==> folder.Some? && Ready(world, user) && world.folders[user] == folder.value
      ensures reliable ==> ok == folder.Some?
    {
      Interfere();
      if folder.None? {
        Stop();
        return false;
      }
      Go(0, folder.value, 0);
      var fault := Fails();
      if fault {
        return false;
      }
      Go(0, "", 0);
      ok := true;
    }

    /** `try_set_folder_from_message` once a name has been accepted: the user and the credentials. */
    method BeginFolder(user: UserId, rename: bool) returns (r: Result<(), FolderError>)
      requires Valid() && Pc() == Free
      modifies this`world, this`others, this`faults, jobs
      ensures Valid() && Grown(old(world), world)
      ensures if r.Ok? then user in world.users && user in world.credentials && Pc() == FolderRead(user, rename)
              else Pc() == Free
      ensures r.Err? ==> r.error.NotConnected? || (r.error.StorageFailed? && !reliable)
      ensures r == Err(NotConnected) ==> user !in old(world).credentials
    {
      Take(Begin(t, FolderUser(user, rename)));
      var fault := Fails();
      if fault {
        return Err(StorageFailed);
      }
      Go(0, "", 0);
      fault := Fails();
      if fault {
        return Err(StorageFailed);
      }
      var connected := user in world.credentials;
      Go(0, "", 0);
      r := if connected then Ok(()) else Err(NotConnected);
    }

    /** It refreshes the token, unless the drive refuses, and reads the current folder, which a rename needs. */
    method ReadFolder(user: UserId, rename: bool, access: bool) returns (r: Result<(), FolderError>, current: FolderId)
      requires Valid() && Pc() == FolderRead(user, rename)
      modifies this`world, this`others, this`faults, jobs
      ensures Valid() && Grown(old(world), world)
      ensures Pc() == if r.Err? then Free else if rename then RenameFolder(user, current) else CreateFolder(user)
      ensures r.Ok? ==> access && (rename ==> user in world.folders && world.folders[user] == current)
      ensures r.Err? ==> match r.error
                         case NoFolder => rename && user !in old(world).folders
                         case DriveFailed => !access
                         case StorageFailed => !reliable
                         case NotConnected => false
    {
      current := "";
      if !access {
        Stop();
        return Err(DriveFailed), current;
      }
      var fault := Fails();
      if fault {
        return Err(StorageFailed), current;
      }
      var ok := !rename || user in world.folders;
      current := if user in world.folders then world.folders[user] else "";
      Go(0, "", 0);
      r := if ok then Ok(()) else Err(NoFolder);
    }

    /** It asks the drive, whose answer is the folder it created or, to a rename, anything at all, and stores the
        folder. */
    method StoreFolder(user: UserId, rename: bool, current: FolderId, answer: Option<FolderId>)
        returns (r: Result<(), FolderError>)
      requires Valid() && Pc() == (if rename then RenameFolder(user, current) else CreateFolder(user))
      requires user in world.users
      modifies this`world, this`others, this`faults, jobs
      ensures Valid() && Pc() == Free && Grown(old(world), world)
      ensures r.Ok? ==> answer.Some? && user in world.folders
      ensures r.Ok? ==> world.folders[user] == if rename then current else answer.value
      ensures reliable && answer.Some? ==> r.Ok?
    {
      Interfere();
      if answer.None? {
        Stop();
        return Err(DriveFailed);
      }
      Go(0, answer.value, 0);
      var fault := Fails();
      if fault {
        return Err(StorageFailed);
      }
      Go(0, "", 0);
      r := Ok(());
    }

    /** All of it: a rename stores the folder it has read, over whatever the others stored meanwhile. `read` is the
        state in which it read the folder. */
    method SetFolder(user: UserId, rename: bool, access: bool, answer: Option<FolderId>)
        returns (r: Result<(), FolderError>, ghost read: State)
      requires Valid() && Pc() == Free
      modifies this`world, this`others, this`faults, jobs
      ensures Valid() && Pc() == Free && Grown(old(world), world)
      ensures r.Ok? ==> Ready(world, user) && answer.Some? && access
      ensures r.Ok? && !rename ==> world.folders[user] == answer.value
      ensures r.Ok? && rename ==>
                && kept(read) && Grown(old(world), read) && Grown(read, world)
                && user in read.folders && world.folders[user] == read.folders[user]
      ensures reliable && access && answer.Some? ==>
                (user in old(world).credentials && (rename ==> user in old(world).folders) ==> r.Ok?)
    {
      var current := "";
      r := BeginFolder(user, rename);
      if r.Ok? {
        r, current := ReadFolder(user, rename, access);
      }
      read := world;
      if r.Ok? {
        r := StoreFolder(user, rename, current, answer);
      }
    }
  }

  /** A playlist enqueued amid everybody else: whatever happens, the tables end up in a state that the machine reaches,
      so every job in them belongs to a ready user; and the items' rows are there. */
  method EnqueueAmongOthers(start: State, t: nat, others: seq<seq<Action>>, faults: seq<bool>, user: UserId,
                            ids: seq<JobId>, messages: seq<Option<int>>, now: nat)
      returns (final: State, r: Result<(), EnqueueError>, queued: nat)
    requires Init(start) && t < |start.tasks| && |messages| == |ids|
    ensures exists acts :: Runs(start, acts) && Exec(start, acts) == final
    ensures forall id | id in final.rows :: Ready(final, final.rows[id].user)
    ensures RowCount(r, queued) <= |ids| && HaveRows(final, ids[..RowCount(r, queued)], user)
    ensures r.Ok? ==> queued == |ids|
    ensures faults == [] && r.Err? ==>
              if r.error.Denied? then !Ready(start, user)
              else queued < |ids| && (messages[queued].None? || (r.error.InsertFailed? && ids[queued] in final.rows))
  {
    ReachableIsKept(start);
    var jobs := new JobsTable(start.rows);
    var task := new Task(t, jobs, start, faults == [], others, faults, ReachableFrom(start));
    r, queued := task.EnqueuePlaylist(user, ids, messages, now);
    final := task.world;
    assert Reachable(start, final);
    var acts :| Runs(start, acts) && Exec(start, acts) == final;
    JobsAreReady(start, acts);
  }
}
