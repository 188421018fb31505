/** The enqueuing code reports progress while the workers run; nobody can tell. */
module PoolProgress {
  import opened Common
  import opened JobModel
  import opened WorkerPool

  /** The row without its progress columns. */
  function Blind(row: JobRow): JobRow {
    row.(progressCurrent := 0, progressTotal := 0)
  }

  /** The states differ in progress columns only. */
  ghost predicate Alike(s: State, t: State) {
    && s.workers == t.workers && s.dirs == t.dirs && s.pressured == t.pressured && s.limits == t.limits
    && s.uploads == t.uploads && s.now == t.now
    && AlikeTables(s.rows, t.rows)
  }

  function WithoutProgress(acts: seq<Action>): seq<Action> {
    if acts == [] then []
    else if Last(acts).SetProgress? then WithoutProgress(Front(acts))
    else WithoutProgress(Front(acts)) + [Last(acts)]
  }

  lemma AlikeEnabled(s: State, t: State, a: Action)
    requires Alike(s, t) && Enabled(s, a)
    ensures Enabled(t, a)
  {
    if a.Claim? {
      assert Blind(s.rows[a.job]) == Blind(t.rows[a.job]);
      forall other | other in t.rows && t.rows[other].status == Queued
        ensures t.rows[a.job].created <= t.rows[other].created
      {
        assert Blind(s.rows[other]) == Blind(t.rows[other]);
      }
    } else if a.ClaimNothing? {
      forall id | id in t.rows
        ensures t.rows[id].status != Queued
      {
        assert Blind(s.rows[id]) == Blind(t.rows[id]);
      }
    }
  }

  lemma AlikePcs(s: State, t: State, a: Action)
    requires Alike(s, t) && Enabled(s, a) && Enabled(t, a)
    ensures Apply(s, a).workers == Apply(t, a).workers
  {
    if a.ReadStatus? && s.workers[a.w].id in s.rows {
      assert Blind(s.rows[s.workers[a.w].id]) == Blind(t.rows[s.workers[a.w].id]);
    }
  }

  /** Two tables that differ in progress columns only. */
  ghost predicate AlikeTables(rows: Table, rows': Table) {
    && rows.Keys == rows'.Keys
    && forall id | id in rows :: Blind(rows[id]) == Blind(rows'[id])
  }

  /** No other statement of the workers or of the enqueuing code writes or uses the progress columns. */
  lemma AlikeStatements(rows: Table, rows': Table, id: JobId, row: JobRow, status: JobStatus, error: Option<string>,
                        fileId: string, messageId: int)
    requires AlikeTables(rows, rows')
    ensures AlikeTables(rows[id := row], rows'[id := row])
    ensures AlikeTables(WithStatus(rows, id, status, error), WithStatus(rows', id, status, error))
    ensures AlikeTables(WithFileId(rows, id, fileId), WithFileId(rows', id, fileId))
    ensures AlikeTables(WithMessageId(rows, id, messageId), WithMessageId(rows', id, messageId))
    ensures id in rows ==>
              AlikeTables(rows[id := rows[id].(status := status)], rows'[id := rows'[id].(status := status)])
  {
    if id in rows {
      assert Blind(rows[id]) == Blind(rows'[id]);
    }
  }

  lemma AlikeRows(s: State, t: State, a: Action)
    requires Alike(s, t) && Enabled(s, a) && Enabled(t, a)
    ensures AlikeTables(NextRows(s, a), NextRows(t, a))
  {
    assert AlikeTables(s.rows, t.rows);
    match a
    case Insert(id, user) => AlikeStatements(s.rows, t.rows, id, NewRow(user, s.now), Queued, None, "", 0);
    case SetProgress(id, current, total) =>
    case SetMessageId(id, m) => AlikeStatements(s.rows, t.rows, id, NewRow(0, 0), Queued, None, "", m);
    case Claim(_, id) => AlikeStatements(s.rows, t.rows, id, NewRow(0, 0), Downloading, None, "", 0);
    case WriteStatus(w) =>
      AlikeStatements(s.rows, t.rows, s.workers[w].id, NewRow(0, 0), s.workers[w].to, s.workers[w].error, "", 0);
    case RecordFileId(w) =>
      AlikeStatements(s.rows, t.rows, s.workers[w].id, NewRow(0, 0), Queued, None, s.workers[w].fileId, 0);
    case _ =>
  }

  lemma AlikeUploads(s: State, t: State, a: Action)
    requires Alike(s, t) && Enabled(s, a) && Enabled(t, a)
    ensures NextUploads(s, a) == NextUploads(t, a)
  {
  }

  lemma AlikeDirs(s: State, t: State, a: Action)
    requires Alike(s, t) && Enabled(s, a) && Enabled(t, a)
    ensures NextDirs(s, a) == NextDirs(t, a)
  {
  }

  lemma AlikeGate(s: State, t: State, a: Action)
    requires Alike(s, t) && Enabled(s, a) && Enabled(t, a)
    ensures NextPressured(s, a) == NextPressured(t, a)
  {
  }

  lemma AlikeAfter(s: State, t: State, a: Action)
    requires Alike(s, t) && Enabled(s, a) && Enabled(t, a)
    requires NextUploads(s, a) == NextUploads(t, a) && NextDirs(s, a) == NextDirs(t, a)
    requires NextPressured(s, a) == NextPressured(t, a) && AlikeTables(NextRows(s, a), NextRows(t, a))
    requires Apply(s, a).workers == Apply(t, a).workers
    ensures Alike(Apply(s, a), Apply(t, a))
  {
  }

  lemma AlikeStep(s: State, t: State, a: Action)
    requires Alike(s, t) && Enabled(s, a)
    ensures Enabled(t, a) && Alike(Apply(s, a), Apply(t, a))
  {
    AlikeEnabled(s, t, a);
    AlikePcs(s, t, a);
    AlikeRows(s, t, a);
    AlikeUploads(s, t, a);
    AlikeDirs(s, t, a);
    AlikeGate(s, t, a);
    AlikeAfter(s, t, a);
  }

  lemma ProgressStep(s: State, t: State, a: Action)
    requires Alike(s, t) && Enabled(s, a) && a.SetProgress?
    ensures Alike(Apply(s, a), t)
  {
  }

  /** Taking all progress writes out of a run leaves a run, and it ends in the same state but for the progress
      columns: the same claims by the same workers, the same statuses, errors, file ids, directories and uploads. */
  lemma {:induction false} ProgressIsInvisible(s: State, acts: seq<Action>)
    requires Runs(s, acts)
    ensures Runs(s, WithoutProgress(acts))
    ensures Alike(Exec(s, acts), Exec(s, WithoutProgress(acts)))
    decreases |acts|
  {
    if acts != [] {
      var earlier := WithoutProgress(Front(acts));
      ProgressIsInvisible(s, Front(acts));
      if Last(acts).SetProgress? {
        ProgressStep(Exec(s, Front(acts)), Exec(s, earlier), Last(acts));
      } else {
        AlikeStep(Exec(s, Front(acts)), Exec(s, earlier), Last(acts));
        RunsSnoc(s, earlier, Last(acts));
      }
    }
  }
}
