/** The order in which the pool claims jobs. */
module PoolFifo {
  import opened Common
  import opened JobModel
  import opened WorkerPool
  import opened PoolInvariant
  import opened PoolSafety

  /** Every row was created at or before now, and every queued one in second `c` or later. */
  ghost predicate QueuedFrom(s: State, c: nat) {
    && c <= s.now
    && (forall id | id in s.rows :: s.rows[id].created <= s.now)
    && (forall id | id in s.rows :: s.rows[id].status == Queued ==> c <= s.rows[id].created)
  }

  /** Creation times never change. */
  lemma CreatedIsFixed(s: State, a: Action, id: JobId)
    requires Enabled(s, a) && id in s.rows
    ensures id in Apply(s, a).rows && Apply(s, a).rows[id].created == s.rows[id].created
  {
  }

  lemma StepQueuedFrom(s: State, a: Action, c: nat)
    requires Inv(s) && QueuedFrom(s, c) && Enabled(s, a)
    ensures QueuedFrom(Apply(s, a), c)
  {
    var t := Apply(s, a);
    forall id | id in t.rows
      ensures t.rows[id].created <= t.now
      ensures t.rows[id].status == Queued ==> c <= t.rows[id].created
    {
      if id in s.rows {
        CreatedIsFixed(s, a, id);
        StatusStep(s, a, id);
      } else {
        assert a.Insert?;
      }
    }
  }

  lemma {:induction false} RunQueuedFrom(s: State, acts: seq<Action>, c: nat)
    requires Inv(s) && QueuedFrom(s, c) && Runs(s, acts)
    ensures QueuedFrom(Exec(s, acts), c)
    decreases |acts|
  {
    if acts != [] {
      RunQueuedFrom(s, Front(acts), c);
      RunKeepsInv(s, Front(acts));
      StepQueuedFrom(Exec(s, Front(acts)), Last(acts), c);
    }
  }

  /** Whatever a run leaves behind, wherever it stops, is a database a process may start on, with any number of
      workers. */
  lemma AnyStopIsAStart(s: State, acts: seq<Action>, workers: nat)
    requires Init(s) && Runs(s, acts)
    ensures Init(Exec(s, acts).(workers := seq(workers, w => Idle)))
  {
    InitOk(s);
    RunKeepsInv(s, acts);
    RunQueuedFrom(s, acts, 0);
    SameRowsOk(Exec(s, acts), Exec(s, acts).(workers := seq(workers, w => Idle)));
  }

  lemma SameRowsOk(s: State, t: State)
    requires RowsOk(s) && t.rows == s.rows && t.uploads == s.uploads
    ensures RowsOk(t)
  {
    forall id | id in t.rows
      ensures RowOk(t.rows[id], Calls(t, id))
    {
      assert RowOk(s.rows[id], Calls(s, id));
    }
  }

  /** The `i`-th step of a run, and the states around it. */
  lemma StepOfRun(s: State, acts: seq<Action>, i: nat)
    requires Runs(s, acts) && i < |acts|
    ensures Runs(s, acts[..i]) && Enabled(Exec(s, acts[..i]), acts[i])
    ensures Runs(s, acts[..i + 1]) && Exec(s, acts[..i + 1]) == Apply(Exec(s, acts[..i]), acts[i])
  {
    RunsPrefix(s, acts, i + 1);
    var upTo := acts[..i + 1];
    assert Front(upTo) == acts[..i] && Last(upTo) == acts[i];
  }

  /** A claim leaves nothing older in the queue. */
  lemma ClaimSetsFloor(s: State, a: Action)
    requires Inv(s) && QueuedFrom(s, 0) && Enabled(s, a) && a.Claim?
    ensures a.job in s.rows && QueuedFrom(Apply(s, a), s.rows[a.job].created)
  {
    assert QueuedFrom(s, s.rows[a.job].created);
    StepQueuedFrom(s, a, s.rows[a.job].created);
  }

  /** Whatever is claimed later was created at the floor or after it. */
  lemma LaterClaim(s: State, acts: seq<Action>, a: Action, c: nat)
    requires Inv(s) && QueuedFrom(s, c) && Runs(s, acts) && Enabled(Exec(s, acts), a) && a.Claim?
    ensures a.job in Exec(s, acts).rows && c <= Exec(s, acts).rows[a.job].created
  {
    RunQueuedFrom(s, acts, c);
  }

  /** The part of a run between its `i`-th and its `j`-th step. */
  lemma Between(s: State, acts: seq<Action>, i: nat, j: nat)
    requires Runs(s, acts) && i < j < |acts|
    ensures Runs(s, acts[..i + 1]) && Runs(Exec(s, acts[..i + 1]), acts[i + 1..j])
    ensures Runs(s, acts[..j]) && Exec(Exec(s, acts[..i + 1]), acts[i + 1..j]) == Exec(s, acts[..j])
  {
    RunsPrefix(s, acts, j);
    RunsSplit(s, acts[..j], i + 1);
    assert acts[..j][..i + 1] == acts[..i + 1] && acts[..j][i + 1..] == acts[i + 1..j];
  }

  lemma FloorAfterClaim(s: State, acts: seq<Action>, i: nat)
    requires Init(s) && Runs(s, acts) && i < |acts| && acts[i].Claim?
    ensures Runs(s, acts[..i]) && acts[i].job in Exec(s, acts[..i]).rows
    ensures Runs(s, acts[..i + 1]) && Inv(Exec(s, acts[..i + 1]))
    ensures QueuedFrom(Exec(s, acts[..i + 1]), Exec(s, acts[..i]).rows[acts[i].job].created)
  {
    InitOk(s);
    StepOfRun(s, acts, i);
    RunQueuedFrom(s, acts[..i], 0);
    RunKeepsInv(s, acts[..i]);
    ClaimSetsFloor(Exec(s, acts[..i]), acts[i]);
    RunKeepsInv(s, acts[..i + 1]);
  }

  /** In every run, across all workers and interleaved inserts, the jobs are claimed in the order of
      their creation times. */
  lemma ClaimsFollowCreation(s: State, acts: seq<Action>, i: nat, j: nat)
    requires Init(s) && Runs(s, acts) && i < j < |acts| && acts[i].Claim? && acts[j].Claim?
    ensures Runs(s, acts[..i]) && acts[i].job in Exec(s, acts[..i]).rows
    ensures Runs(s, acts[..j]) && acts[j].job in Exec(s, acts[..j]).rows
    ensures Exec(s, acts[..i]).rows[acts[i].job].created <= Exec(s, acts[..j]).rows[acts[j].job].created
  {
    FloorAfterClaim(s, acts, i);
    Between(s, acts, i, j);
    StepOfRun(s, acts, j);
    LaterClaim(Exec(s, acts[..i + 1]), acts[i + 1..j], acts[j], Exec(s, acts[..i]).rows[acts[i].job].created);
  }

  /** The queued jobs that may still be claimed before `id`. */
  ghost function Ahead(s: State, id: JobId): set<JobId>
    requires id in s.rows
  {
    set other | other in s.rows && other != id && s.rows[other].status == Queued
                && s.rows[other].created <= s.rows[id].created
  }

  function ClaimCount(acts: seq<Action>): nat {
    if acts == [] then 0 else ClaimCount(Front(acts)) + if Last(acts).Claim? then 1 else 0
  }

  lemma AheadStep(s: State, a: Action, id: JobId)
    requires Inv(s) && Enabled(s, a) && IsQueued(s.rows, id) && s.rows[id].created < s.now
    requires IsQueued(Apply(s, a).rows, id)
    ensures a.Claim? ==> a.job in Ahead(s, id) && Ahead(Apply(s, a), id) <= Ahead(s, id) - {a.job}
    ensures Ahead(Apply(s, a), id) <= Ahead(s, id)
  {
    var t := Apply(s, a);
    CreatedIsFixed(s, a, id);
    forall other | other in Ahead(t, id)
      ensures other in Ahead(s, id)
    {
      if other in s.rows {
        CreatedIsFixed(s, a, other);
        StatusStep(s, a, other);
      }
    }
  }

  /** Once the second in which it was created is over, a queued job waits for at most as many claims as there are
      queued jobs of its own or an earlier second: nobody created later overtakes it. */
  lemma {:induction false} WaitIsBounded(s: State, acts: seq<Action>, id: JobId)
    requires Inv(s) && Runs(s, acts)
    requires IsQueued(s.rows, id) && s.rows[id].created < s.now
    requires IsQueued(Exec(s, acts).rows, id)
    ensures Exec(s, acts).rows[id].created == s.rows[id].created && s.now <= Exec(s, acts).now
    ensures ClaimCount(acts) + |Ahead(Exec(s, acts), id)| <= |Ahead(s, id)|
    decreases |acts|
  {
    if acts != [] {
      var before := Exec(s, Front(acts));
      RunKeepsInv(s, Front(acts));
      RankNeverDrops(s, Front(acts), id);
      StatusStep(before, Last(acts), id);
      CreatedIsFixed(before, Last(acts), id);
      WaitIsBounded(s, Front(acts), id);
      AheadStep(before, Last(acts), id);
      var ahead := Ahead(before, id);
      if Last(acts).Claim? {
        SubsetCardinality(Ahead(Exec(s, acts), id), ahead - {Last(acts).job});
      } else {
        SubsetCardinality(Ahead(Exec(s, acts), id), ahead);
      }
    }
  }
}
