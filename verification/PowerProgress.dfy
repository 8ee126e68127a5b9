/** A batch that has become the running one is always finished: it cannot be taken
    away, its runner's steps are bounded, and nothing can block it for good
    (server/scans.go, server/cleanup.go). */
module PowerProgress {
  import opened Subsequences
  import opened ScanQueues
  import opened PowerProtocol

  predicate IsFinish(step: Step) {
    step.Runs? && step.move == FinishScan
  }

  /** The number of targets of the running batch. */
  function Targets(q: Queue): nat {
    if q.active in q.batches then |q.batches[q.active].targets| else 0
  }

  /** How many steps a runner has at most still to do for its batch. */
  function Left(r: Runner, targets: nat): nat
    requires InTarget(r) ==> r.todo > 0
  {
    match r
    case Deciding => 0
    case Picked(_) => 0
    case Activated(_) => 6 * targets + 2
    case Scanning(_, todo) => 6 * todo + 1
    case Starting(_, todo) => 6 * todo
    case Started(_, todo, _) => 6 * todo - 1
    case Bumped(_, todo, _, _) => 6 * todo - 2
    case Notified(_, todo, _) => 6 * todo - 3
    case Waiting(_, todo, _) => 6 * todo - 4
  }

  /** Each step of the running batch's runner brings it closer to finishBatch, which
      alone ends the batch. */
  lemma RunnerDescends(s: Sys, r: nat, move: RunnerMove)
    requires RunnerInv(s.q, s.w) && s.q.active != NO_BATCH && Enabled(s, Runs(r, move))
    ensures var s' := ApplyRunner(s, r, move);
            && s.q.active in s.q.batches && s'.w.runners.Keys == s.w.runners.Keys
            && RunnerFits(s.q, s.w.runners[r]) && RunnerFits(s'.q, s'.w.runners[r])
            && Left(s'.w.runners[r], Targets(s.q)) < Left(s.w.runners[r], Targets(s.q))
            && (move == BeginBatch ==> s'.w.runners[r] == Scanning(s.q.active, Targets(s.q)))
            && (move != FinishScan ==> s'.q == s.q)
            && (move == FinishScan ==>
                  s'.q.active == NO_BATCH && s.q.active !in s'.q.batches && s'.w.runners[r] == Deciding)
  {
    assert RunnerFits(s.q, s.w.runners[r]);
    match move
    case Pick(_) =>
    case WaitForScanLock =>
    case TryActivate =>
    case BeginBatch =>
    case LockPower =>
    case StartProcess(_) =>
    case AdvanceTimer =>
    case NotifyTimer =>
    case UnlockPower =>
    case Reap =>
    case FinishScan =>
  }

  lemma RequestKeepsActive(s: Sys, request: Request)
    requires Inv(s) && s.q.active != NO_BATCH && Enabled(s, Requested(request))
    ensures var s' := ApplyRequest(s, request);
            && s'.q.active == s.q.active && s'.w == s.w
            && s.q.active in s'.q.batches && s'.q.batches[s.q.active] == s.q.batches[s.q.active]
  {
    match request
    case EnqueueRequest(id, batch) =>
    case ReorderRequest(id, number, user) => ReorderKeeps(s.q, id, number, user);
    case CancelRequest(id, confirm, user) => CancelKeeps(s.q, id, confirm, user);
    case PurgeRequest(user) => PurgeKeeps(s.q, user);
  }

  /** The running batch survives every request and every other step; only its
      runner's finishBatch ends it. */
  lemma ActiveBatchStays(s: Sys, step: Step)
    requires Inv(s) && Enabled(s, step) && s.q.active != NO_BATCH && !IsFinish(step)
    ensures var s', id := Apply(s, step), s.q.active;
            && s'.q.active == id && id in s.q.batches && id in s'.q.batches && s'.q.batches[id] == s.q.batches[id]
            && s'.w.runners.Keys == s.w.runners.Keys
            && (!step.Runs? ==> s'.w.runners == s.w.runners)
  {
    match step
    case Requested(request) => RequestKeepsActive(s, request);
    case Runs(r, move) => RunnerDescends(s, r, move);
    case _ =>
  }

  // ---------------------------------------------------------------- the runner's steps are bounded

  function RunnerSteps(steps: seq<Step>): nat {
    if steps == [] then 0
    else RunnerSteps(steps[..|steps| - 1]) + if steps[|steps| - 1].Runs? then 1 else 0
  }

  /** One step of the run uses up what its runner did. */
  lemma StepUsesUp(s: Sys, step: Step, r: nat)
    requires Inv(s) && Enabled(s, step) && s.q.active != NO_BATCH && !IsFinish(step) && r in s.w.runners
    ensures var s' := Apply(s, step);
            && s'.q.active == s.q.active && Targets(s'.q) == Targets(s.q) && s'.w.runners.Keys == s.w.runners.Keys
            && RunnerFits(s.q, s.w.runners[r]) && RunnerFits(s'.q, s'.w.runners[r])
            && (if step.Runs? then 1 else 0) + Left(s'.w.runners[r], Targets(s.q)) <= Left(s.w.runners[r], Targets(s.q))
  {
    InvKept(s, step);
    ActiveBatchStays(s, step);
    if step.Runs? {
      assert step.r == r;
      RunnerDescends(s, step.r, step.move);
    }
  }

  lemma RunnerStepsSnoc(steps: seq<Step>, m: nat, n: nat)
    requires m < n <= |steps|
    ensures RunnerSteps(steps[m..n]) == RunnerSteps(steps[m..n - 1]) + if steps[n - 1].Runs? then 1 else 0
  {
    assert steps[m..n][..n - 1 - m] == steps[m..n - 1];
  }

  /** From any state of a run with a running batch on, until finishBatch, the batch is
      there unchanged, and its runner has used up at least as much of what was left as
      it has made steps. */
  lemma {:induction false} StepsAreBounded(states: seq<Sys>, steps: seq<Step>, m: nat, n: nat, r: nat)
    requires IsRun(states, steps) && m <= n < |states|
    requires states[m].q.active != NO_BATCH && r in states[m].w.runners
    requires forall i | m <= i < n :: !IsFinish(steps[i])
    ensures states[n].q.active == states[m].q.active && Targets(states[n].q) == Targets(states[m].q)
    ensures states[n].w.runners.Keys == states[m].w.runners.Keys
    ensures RunnerFits(states[m].q, states[m].w.runners[r]) && RunnerFits(states[n].q, states[n].w.runners[r])
    ensures RunnerSteps(steps[m..n]) + Left(states[n].w.runners[r], Targets(states[m].q)) <=
            Left(states[m].w.runners[r], Targets(states[m].q))
  {
    RunInv(states, steps, m);
    if m < n {
      StepsAreBounded(states, steps, m, n - 1, r);
      RunInv(states, steps, n - 1);
      RunnerStepsSnoc(steps, m, n);
      StepUsesUp(states[n - 1], steps[n - 1], r);
    }
  }

  /** From its activation to its finishBatch a batch takes at most six steps for each
      target and two more. */
  lemma BatchTakesBoundedSteps(states: seq<Sys>, steps: seq<Step>, m: nat, n: nat, r: nat)
    requires IsRun(states, steps) && m < n < |states|
    requires steps[m] == Runs(r, TryActivate) && states[m + 1].q.active != NO_BATCH
    requires forall i | m < i < n :: !IsFinish(steps[i])
    ensures states[n].q.active == states[m].w.runners[r].id
    ensures RunnerSteps(steps[m + 1..n]) <= 6 * Targets(states[m + 1].q) + 2
  {
    RunInv(states, steps, m);
    RunInv(states, steps, m + 1);
    assert states[m + 1] == Apply(states[m], steps[m]);
    StepsAreBounded(states, steps, m + 1, n, r);
  }

  // ---------------------------------------------------------------- nothing blocks the runner

  /** What holds the power mutex still has to do before it lets go. */
  function HolderRank(p: Power): nat {
    match p.holder
    case Free => 0
    case RunnerHolds(_) => 0
    case TimerHolds =>
      if p.timer.pc == Rechecking then 4 else if p.timer.pc == RecheckingGeneration then 3
      else if p.timer.pc == Guarding then 2 else 1
    case AdminHolds(phase) =>
      if phase.AtWork? then 4 else if phase.Succeeded? then 3 else if phase.Advanced? then 2 else 1
  }

  /** A move of the runner, of whoever holds the power mutex, or the end of a process. */
  predicate Helps(s: Sys, step: Step) {
    || step.Runs? || step.Exits?
    || (step.Times? && s.p.holder == TimerHolds)
    || (step.Admin? && s.p.holder.AdminHolds? &&
        (step.admin.AdminWork? || step.admin.AdminAdvance? || step.admin.AdminNotify? || step.admin.AdminUnlock?))
  }

  /** What the holder of the power mutex can do next. */
  function HolderStep(p: Power): Step {
    if p.holder == TimerHolds then
      Times(if p.timer.pc == Rechecking then RecheckInterval
            else if p.timer.pc == RecheckingGeneration then RecheckGeneration
            else if p.timer.pc == Guarding then CheckQueue else SleepEnds(true, true))
    else
      Admin(if p.holder == AdminHolds(AtWork) then AdminWork(false, true)
            else if p.holder == AdminHolds(Succeeded) then AdminAdvance
            else if p.holder == AdminHolds(Leaving) then AdminUnlock else AdminNotify)
  }

  lemma HolderCanMove(s: Sys)
    requires Inv(s) && (s.p.holder.TimerHolds? || s.p.holder.AdminHolds?)
    ensures Enabled(s, HolderStep(s.p)) && Helps(s, HolderStep(s.p))
  {
  }

  /** What a runner that does not wait for the power mutex or a process can do next. */
  function NextMove(r: Runner): RunnerMove {
    if r.Activated? then BeginBatch
    else if r.Scanning? then if r.todo == 0 then FinishScan else LockPower
    else if r.Starting? then StartProcess(true)
    else if r.Started? then AdvanceTimer
    else if r.Bumped? then NotifyTimer
    else if r.Notified? then UnlockPower
    else Reap
  }

  /** While a batch is running, something can always move that helps it on. */
  lemma SomeStepHelps(s: Sys, r: nat) returns (step: Step)
    requires Inv(s) && s.q.active != NO_BATCH && r in s.w.runners
    ensures Enabled(s, step) && Helps(s, step)
  {
    var me := s.w.runners[r];
    assert RunnerFits(s.q, me);
    if me.Waiting? && me.pid in s.w.live {
      step := Exits(me.pid);
    } else if me.Scanning? && me.todo > 0 && s.p.holder != Free {
      assert !s.p.holder.RunnerHolds?;
      HolderCanMove(s);
      step := HolderStep(s.p);
    } else {
      step := Runs(r, NextMove(me));
    }
  }

  ghost predicate Closer(s: Sys, s': Sys, r: nat)
    requires r in s.w.runners && RunnerFits(s.q, s.w.runners[r]) && r in s'.w.runners && RunnerFits(s'.q, s'.w.runners[r])
  {
    var left, left' := Left(s.w.runners[r], Targets(s.q)), Left(s'.w.runners[r], Targets(s'.q));
    left' < left || (left' == left && (|s'.w.live| < |s.w.live| ||
                                       (s'.w.live == s.w.live && HolderRank(s'.p) < HolderRank(s.p))))
  }

  lemma HolderDescends(s: Sys, step: Step)
    requires Inv(s) && s.q.active != NO_BATCH && Enabled(s, step) && Helps(s, step) && (step.Times? || step.Admin?)
    ensures var s' := Apply(s, step); s'.q == s.q && s'.w == s.w && HolderRank(s'.p) < HolderRank(s.p)
  {
  }

  /** ... and every such move brings the batch closer to its end. */
  lemma HelpIsProgress(s: Sys, step: Step, r: nat)
    requires Inv(s) && s.q.active != NO_BATCH && r in s.w.runners
    requires Enabled(s, step) && Helps(s, step) && !IsFinish(step)
    ensures var s' := Apply(s, step);
            && s'.q.active == s.q.active && r in s'.w.runners
            && RunnerFits(s.q, s.w.runners[r]) && RunnerFits(s'.q, s'.w.runners[r]) && Closer(s, s', r)
  {
    InvKept(s, step);
    ActiveBatchStays(s, step);
    match step
    case Runs(k, move) => RunnerDescends(s, k, move);
    case Exits(pid) =>
      assert s.w.live - {pid} < s.w.live;
    case _ => HolderDescends(s, step);
  }

  ghost predicate Leads(s: Sys, steps: seq<Step>, s': Sys)
    decreases |steps|
  {
    if steps == [] then s' == s
    else Enabled(s, steps[0]) && Helps(s, steps[0]) && Leads(Apply(s, steps[0]), steps[1..], s')
  }

  /** From every state with a running batch its end can be reached by such moves
      alone: there is no deadlock and no state from which it would run for ever. */
  lemma {:induction false} FinishIsReachable(s: Sys, r: nat) returns (steps: seq<Step>, end: Sys)
    requires Inv(s) && s.q.active != NO_BATCH && r in s.w.runners && RunnerFits(s.q, s.w.runners[r])
    ensures Leads(s, steps, end) && steps != [] && IsFinish(steps[|steps| - 1])
    ensures end.q.active == NO_BATCH && s.q.active !in end.q.batches && end.w.runners[r := Deciding] == end.w.runners
    decreases Left(s.w.runners[r], Targets(s.q)), |s.w.live|, HolderRank(s.p)
  {
    var step := SomeStepHelps(s, r);
    var s' := Apply(s, step);
    if IsFinish(step) {
      RunnerDescends(s, step.r, step.move);
      assert step.r == r;
      steps, end := [step], s';
    } else {
      HelpIsProgress(s, step, r);
      InvKept(s, step);
      var rest: seq<Step>;
      rest, end := FinishIsReachable(s', r);
      steps := [step] + rest;
      assert steps[1..] == rest;
    }
  }

  /** In every run, a batch that is running can be finished from where it is. */
  lemma ActiveBatchReachesFinish(states: seq<Sys>, steps: seq<Step>, n: nat) returns (more: seq<Step>, end: Sys)
    requires IsRun(states, steps) && n < |states| && states[n].q.active != NO_BATCH
    ensures Leads(states[n], more, end) && more != [] && IsFinish(more[|more| - 1])
    ensures end.q.active == NO_BATCH && states[n].q.active !in end.q.batches
  {
    RunInv(states, steps, n);
    var r :| r in states[n].w.runners;
    more, end := FinishIsReachable(states[n], r);
  }
}
