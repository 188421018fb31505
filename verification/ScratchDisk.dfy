/** The scratch-disk pressure gate and its thresholds (crates/core/src/scratch_disk.rs). */
module ScratchDisk {
  import opened Common

  datatype Thresholds = Thresholds(minFree: nat, resumeFree: nat)

  /** What one call of `evaluate` or `force_pressure` does to the flag when no other thread interferes. */
  datatype Event = Measured(free: nat, limits: Thresholds) | Force

  predicate Pauses(e: Event) {
    e.Force? || e.free < e.limits.minFree
  }

  predicate Resumes(e: Event) {
    !Pauses(e) && e.free >= e.limits.resumeFree
  }

  /** The latest decisive event of a history was a force or a reading below the minimum:
      some event paused and no later event resumed. */
  ghost predicate LatestPauses(history: seq<Event>) {
    exists i | 0 <= i < |history| ::
      Pauses(history[i]) && forall j | i < j < |history| :: !Resumes(history[j])
  }

  /** The flag after one event. */
  function Toggle(pressured: bool, e: Event): bool {
    if Pauses(e) then true else if Resumes(e) then false else pressured
  }

  /** Appending an event to a history changes "the latest decisive event pauses" as `Toggle` changes the flag. */
  lemma LatestPausesSnoc(history: seq<Event>, e: Event)
    ensures LatestPauses(history + [e]) == Toggle(LatestPauses(history), e)
  {
    var h := history + [e];
    if Pauses(e) {
      assert Pauses(h[|history|]);
    } else if Resumes(e) {
      assert h[|history|] == e;
    } else if LatestPauses(history) {
      var i :| 0 <= i < |history| && Pauses(history[i])
        && forall j | i < j < |history| :: !Resumes(history[j]);
      assert Pauses(h[i]);
      assert forall j | i < j < |h| :: !Resumes(h[j]);
    } else {
      forall i | 0 <= i < |history| && Pauses(history[i])
        ensures exists j | i < j < |h| :: Resumes(h[j])
      {
        var j :| i < j < |history| && Resumes(history[j]);
        assert Resumes(h[j]);
      }
      assert forall i | 0 <= i < |history| :: h[i] == history[i];
    }
  }

  /** The gate with its history: the flag is always what the history says. */
  class DiskPressureGate {
    var state: nat
    ghost var history: seq<Event>

    ghost predicate Valid()
      reads this
    {
      state == if LatestPauses(history) then 1 else 0
    }

    constructor ()
      ensures Valid() && history == [] && state == 0
    {
      state := 0;
      history := [];
    }

    method IsPressured() returns (pressured: bool)
      requires Valid()
      ensures pressured == LatestPauses(history)
    {
      pressured := state == 1;
    }

    method ForcePressure()
      requires Valid()
      modifies this
      ensures Valid() && history == old(history) + [Force] && state == 1
    {
      LatestPausesSnoc(history, Force);
      state := 1;
      history := history + [Force];
    }

    /** `skip` tells the workers not to claim. */
    method Evaluate(free: nat, limits: Thresholds) returns (skip: bool)
      requires Valid()
      modifies this
      ensures Valid() && history == old(history) + [Measured(free, limits)]
      ensures skip == LatestPauses(history)
      ensures free < limits.minFree ==> skip && state == 1
      ensures limits.minFree <= free && limits.resumeFree <= free ==> !skip && state == 0
      ensures limits.minFree <= free < limits.resumeFree ==> state == old(state) && (skip <==> old(state) == 1)
    {
      ghost var e := Measured(free, limits);
      LatestPausesSnoc(history, e);
      history := history + [e];
      if free < limits.minFree {
        if state == 0 {
          state := 1;
        }
        return true;
      }
      if state == 1 && free >= limits.resumeFree {
        state := 0;
      }
      skip := state == 1;
    }
  }

  function SaturatingMul(a: nat, b: nat): nat {
    Min(a * b, U64_MAX)
  }

  function SaturatingAdd(a: nat, b: nat): nat {
    Min(a + b, U64_MAX)
  }

  /** For every pair of settings the pause threshold is at most the resume threshold, and strictly
      below it unless the former is already the largest `u64`. A setting that already separates the two is kept, and one
      too large for a `u64` becomes the largest one. */
  method ParseScratchThresholdsMb(minMb: nat, resumeMb: nat) returns (t: Thresholds)
    requires minMb <= U64_MAX && resumeMb <= U64_MAX
    ensures t.minFree <= t.resumeFree <= U64_MAX
    ensures t.minFree < t.resumeFree <==> t.minFree < U64_MAX
    ensures t.minFree < U64_MAX <==> minMb * MIB < U64_MAX
    ensures minMb * MIB <= U64_MAX ==> t.minFree == minMb * MIB
    ensures minMb < resumeMb && resumeMb * MIB <= U64_MAX ==> t == Thresholds(minMb * MIB, resumeMb * MIB)
    ensures resumeMb <= minMb && (minMb + 256) * MIB <= U64_MAX ==> t == Thresholds(minMb * MIB, (minMb + 256) * MIB)
    ensures resumeMb * MIB > U64_MAX || (resumeMb <= minMb && (minMb + 256) * MIB > U64_MAX) ==> t.resumeFree == U64_MAX
  {
    var minFree := SaturatingMul(minMb, MIB);
    var resumeFree := SaturatingMul(resumeMb, MIB);
    if resumeFree <= minFree {
      resumeFree := SaturatingAdd(minFree, 256 * MIB);
    }
    t := Thresholds(minFree, resumeFree);
  }
}
