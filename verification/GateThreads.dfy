/** The pressure gate with any number of threads inside `evaluate` and `force_pressure` at once.
    Every load, store and compare-exchange is one step (crates/core/src/scratch_disk.rs). */
module GateThreads {
  import opened Common
  import opened ScratchDisk

  /** Where a thread is. `free` is its own reading of the free space. */
  datatype Pc =
    | Outside
    | PauseSwap(free: nat)     // about to exchange 0 for 1
    | FirstLoad(free: nat)
    | ResumeSwap(free: nat)    // about to exchange 1 for 0
    | LastLoad(free: nat)
    | Storing                  // force_pressure
    | Returned(free: nat, skip: bool)

  /** What changed, or could have changed, the flag, in order. */
  datatype Swap = Paused(thread: nat, free: nat) | Resumed(thread: nat, free: nat) | Forced(thread: nat, found: nat)

  datatype Action = CallEvaluate(t: nat, free: nat) | CallForce(t: nat) | Step(t: nat)

  datatype State = State(flag: nat, threads: seq<Pc>, swaps: seq<Swap>, limits: Thresholds)

  predicate Enabled(s: State, a: Action) {
    && a.t < |s.threads|
    && match a
       case Step(t) => !s.threads[t].Outside?
       case _ => s.threads[a.t].Outside?
  }

  function Apply(s: State, a: Action): State
    requires Enabled(s, a)
  {
    var pc := s.threads[a.t];
    match a
    case CallEvaluate(t, free) =>
      At(s, t, if free < s.limits.minFree then PauseSwap(free) else FirstLoad(free))
    case CallForce(t) => At(s, t, Storing)
    case Step(t) =>
      match pc
      case PauseSwap(free) =>
        var s' := At(s, t, Returned(free, true));
        if s.flag == 0 then s'.(flag := 1, swaps := s.swaps + [Paused(t, free)]) else s'
      case FirstLoad(free) =>
        At(s, t, if s.flag == 1 && free >= s.limits.resumeFree then ResumeSwap(free) else LastLoad(free))
      case ResumeSwap(free) =>
        var s' := At(s, t, LastLoad(free));
        if s.flag == 1 then s'.(flag := 0, swaps := s.swaps + [Resumed(t, free)]) else s'
      case LastLoad(free) => At(s, t, Returned(free, s.flag == 1))
      case Storing => At(s, t, Outside).(flag := 1, swaps := s.swaps + [Forced(t, s.flag)])
      case _ => At(s, t, Outside)
  }

  function At(s: State, t: nat, pc: Pc): State
    requires t < |s.threads|
  {
    s.(threads := s.threads[t := pc])
  }

  predicate Runs(s: State, acts: seq<Action>)
    decreases |acts|, 0
  {
    acts == [] || (Runs(s, Front(acts)) && Enabled(Exec(s, Front(acts)), Last(acts)))
  }

  function Exec(s: State, acts: seq<Action>): State
    requires Runs(s, acts)
    decreases |acts|, 1
  {
    if acts == [] then s else Apply(Exec(s, Front(acts)), Last(acts))
  }

  predicate Init(s: State) {
    && s.flag == 0
    && s.swaps == []
    && forall t | 0 <= t < |s.threads| :: s.threads[t] == Outside
  }

  /** Pauses and forces that found the flag down, minus resumes. */
  function Balance(swaps: seq<Swap>): int {
    if swaps == [] then 0
    else Balance(Front(swaps)) +
         match Last(swaps)
         case Paused(_, _) => 1
         case Resumed(_, _) => -1
         case Forced(_, found) => if found == 0 then 1 else 0
  }

  ghost predicate PausesSeparated(swaps: seq<Swap>) {
    forall i, j | 0 <= i < j < |swaps| && swaps[i].Paused? && swaps[j].Paused? ::
      exists k | i < k < j :: swaps[k].Resumed?
  }

  /** Each swap was made by a thread whose own reading called for it. */
  ghost predicate ReadingsJustify(swaps: seq<Swap>, limits: Thresholds) {
    forall i | 0 <= i < |swaps| ::
      && (swaps[i].Paused? ==> swaps[i].free < limits.minFree)
      && (swaps[i].Resumed? ==> limits.minFree <= swaps[i].free && limits.resumeFree <= swaps[i].free)
  }

  predicate PcOk(pc: Pc, limits: Thresholds) {
    match pc
    case PauseSwap(free) => free < limits.minFree
    case FirstLoad(free) => limits.minFree <= free
    case ResumeSwap(free) => limits.minFree <= free && limits.resumeFree <= free
    case LastLoad(free) => limits.minFree <= free
    case Returned(free, skip) => free < limits.minFree ==> skip
    case _ => true
  }

  ghost predicate Inv(s: State) {
    && s.flag <= 1
    && s.flag == Balance(s.swaps)
    && PausesSeparated(s.swaps)
    && ReadingsJustify(s.swaps, s.limits)
    && (forall t | 0 <= t < |s.threads| :: PcOk(s.threads[t], s.limits))
    && (s.flag == 0 ==> forall i | 0 <= i < |s.swaps| && s.swaps[i].Paused? ::
          exists k | i < k < |s.swaps| :: s.swaps[k].Resumed?)
  }

  lemma SwapsSnoc(swaps: seq<Swap>, e: Swap)
    requires PausesSeparated(swaps)
    requires e.Paused? ==> forall i | 0 <= i < |swaps| && swaps[i].Paused? ::
                             exists k | i < k < |swaps| :: swaps[k].Resumed?
    ensures PausesSeparated(swaps + [e])
    ensures Balance(swaps + [e]) == Balance(swaps) +
                                    match e
                                    case Paused(_, _) => 1
                                    case Resumed(_, _) => -1
                                    case Forced(_, found) => if found == 0 then 1 else 0
    ensures e.Resumed? ==> forall i | 0 <= i < |swaps + [e]| && (swaps + [e])[i].Paused? ::
                             exists k | i < k < |swaps + [e]| :: (swaps + [e])[k].Resumed?
  {
    var after := swaps + [e];
    FrontLast(swaps, e);
    forall i, j | 0 <= i < j < |after| && after[i].Paused? && after[j].Paused?
      ensures exists k | i < k < j :: after[k].Resumed?
    {
      assert swaps[i].Paused?;
      if j < |swaps| {
        assert swaps[j].Paused?;
        var k :| i < k < j && swaps[k].Resumed?;
        assert after[k].Resumed?;
      } else {
        var k :| i < k < |swaps| && swaps[k].Resumed?;
        assert after[k].Resumed?;
      }
    }
    if e.Resumed? {
      assert after[|swaps|].Resumed?;
    }
  }

  /** The swap a step makes, if it makes one. */
  function SwapOf(s: State, a: Action): Option<Swap>
    requires Enabled(s, a)
  {
    if !a.Step? then None
    else
      match s.threads[a.t]
      case PauseSwap(free) => if s.flag == 0 then Some(Paused(a.t, free)) else None
      case ResumeSwap(free) => if s.flag == 1 then Some(Resumed(a.t, free)) else None
      case Storing => Some(Forced(a.t, s.flag))
      case _ => None
  }

  lemma StepShape(s: State, a: Action)
    requires Enabled(s, a)
    ensures var s' := Apply(s, a);
            && s'.limits == s.limits
            && match SwapOf(s, a)
               case None => s'.swaps == s.swaps && s'.flag == s.flag
               case Some(e) => s'.swaps == s.swaps + [e] && s'.flag == if e.Resumed? then 0 else 1
  {
  }

  lemma StepKeepsPcs(s: State, a: Action)
    requires Enabled(s, a) && (forall t | 0 <= t < |s.threads| :: PcOk(s.threads[t], s.limits))
    ensures forall t | 0 <= t < |Apply(s, a).threads| :: PcOk(Apply(s, a).threads[t], s.limits)
  {
    var s' := Apply(s, a);
    forall t | 0 <= t < |s'.threads|
      ensures PcOk(s'.threads[t], s.limits)
    {
      assert PcOk(s.threads[t], s.limits);
    }
  }

  lemma JustifySnoc(swaps: seq<Swap>, limits: Thresholds, e: Swap)
    requires ReadingsJustify(swaps, limits)
    requires e.Paused? ==> e.free < limits.minFree
    requires e.Resumed? ==> limits.minFree <= e.free && limits.resumeFree <= e.free
    ensures ReadingsJustify(swaps + [e], limits)
  {
  }

  lemma StepKeepsInv(s: State, a: Action)
    requires Inv(s) && Enabled(s, a)
    ensures Inv(Apply(s, a))
  {
    StepShape(s, a);
    StepKeepsPcs(s, a);
    assert PcOk(s.threads[a.t], s.limits);
    match SwapOf(s, a)
    case None =>
    case Some(e) =>
      SwapsSnoc(s.swaps, e);
      JustifySnoc(s.swaps, s.limits, e);
  }

  /** With any number of threads interleaved in any way: the flag is what the swaps account for, it stays in
      {0, 1}, two pauses always have a resume between them, every swap is backed by the reading of the very thread that
      made it, and a thread that read too little space is never told to go on. */
  lemma {:induction false} SwapsAccountForFlag(s: State, acts: seq<Action>)
    requires Init(s) && Runs(s, acts)
    ensures var t := Exec(s, acts);
            && (t.flag == 0 || t.flag == 1)
            && t.flag == Balance(t.swaps)
            && PausesSeparated(t.swaps)
            && ReadingsJustify(t.swaps, t.limits)
            && (forall i | 0 <= i < |t.threads| && t.threads[i].Returned? ::
                  t.threads[i].free < t.limits.minFree ==> t.threads[i].skip)
  {
    RunKeepsInv(s, acts);
    var t := Exec(s, acts);
    forall i | 0 <= i < |t.threads| && t.threads[i].Returned?
      ensures t.threads[i].free < t.limits.minFree ==> t.threads[i].skip
    {
      assert PcOk(t.threads[i], t.limits);
    }
  }

  lemma {:induction false} RunKeepsInv(s: State, acts: seq<Action>)
    requires Init(s) && Runs(s, acts)
    ensures Inv(Exec(s, acts))
    decreases |acts|
  {
    if acts != [] {
      RunKeepsInv(s, Front(acts));
      StepKeepsInv(Exec(s, Front(acts)), Last(acts));
    }
  }

  lemma RunsSnoc(s: State, acts: seq<Action>, a: Action)
    requires Runs(s, acts) && Enabled(Exec(s, acts), a)
    ensures Runs(s, acts + [a]) && Exec(s, acts + [a]) == Apply(Exec(s, acts), a)
  {
    FrontLast(acts, a);
  }

  /** A call of `evaluate` that nobody interferes with does what the sequential gate does. */
  lemma AloneIsSequential(s: State, t: nat, free: nat) returns (acts: seq<Action>)
    requires t < |s.threads| && s.threads[t].Outside? && s.flag <= 1
    ensures Runs(s, acts) && |acts| > 0 && acts[0] == CallEvaluate(t, free)
    ensures forall i | 1 <= i < |acts| :: acts[i] == Step(t)
    ensures var s' := Exec(s, acts);
            var pressured := Toggle(s.flag == 1, Measured(free, s.limits));
            && s'.flag == (if pressured then 1 else 0)
            && s'.threads == s.threads[t := Returned(free, pressured)]
            && s'.flag == (if free < s.limits.minFree then 1 else if free >= s.limits.resumeFree then 0 else s.flag)
  {
    acts := [] + [CallEvaluate(t, free)];
    RunsSnoc(s, [], CallEvaluate(t, free));
    var steps := if free < s.limits.minFree then 1
                       else if s.flag == 1 && free >= s.limits.resumeFree then 3 else 2;
    for i := 0 to steps
      invariant Runs(s, acts) && |acts| == i + 1 && acts[0] == CallEvaluate(t, free)
      invariant forall j | 1 <= j < |acts| :: acts[j] == Step(t)
      invariant |Exec(s, acts).threads| == |s.threads| && Exec(s, acts).limits == s.limits
      invariant Exec(s, acts).threads[t := Outside] == s.threads
      invariant i == 0 ==> Exec(s, acts).flag == s.flag
      invariant i == 0 && free < s.limits.minFree ==> Exec(s, acts).threads[t] == PauseSwap(free)
      invariant i == 0 && free >= s.limits.minFree ==> Exec(s, acts).threads[t] == FirstLoad(free)
      invariant i == 1 && steps > 1 ==> Exec(s, acts).flag == s.flag
      invariant i == 1 && steps == 1 ==> Exec(s, acts).flag == 1 && Exec(s, acts).threads[t] == Returned(free, true)
      invariant i == 1 && steps == 2 ==> Exec(s, acts).threads[t] == LastLoad(free)
      invariant i == 1 && steps == 3 ==> Exec(s, acts).threads[t] == ResumeSwap(free)
      invariant i == 2 && steps == 2 ==>
                  Exec(s, acts).flag == s.flag && Exec(s, acts).threads[t] == Returned(free, s.flag == 1)
      invariant i == 2 && steps == 3 ==> Exec(s, acts).flag == 0 && Exec(s, acts).threads[t] == LastLoad(free)
      invariant i == 3 ==> Exec(s, acts).flag == 0 && Exec(s, acts).threads[t] == Returned(free, false)
    {
      RunsSnoc(s, acts, Step(t));
      acts := acts + [Step(t)];
    }
  }
}
