/** When the automatic sleep does happen, and when queued work does run
    (server/sleep_wake.go, server/scans.go): what the safety results leave open. */
module PowerLaws {
  import opened ScanQueueLaws
  import opened ScanQueues
  import opened PowerProgress
  import opened PowerProtocol

  // ------------------------------------------------------------- the decision to sleep

  /** The sleep action begins only when no batch is queued and none is running, no
      process is alive, and ten minutes at least have passed since the last reset. */
  lemma SleepNeedsIdleQueue(states: seq<Sys>, steps: seq<Step>, n: nat)
    requires IsRun(states, steps) && n < |steps|
    requires states[n].p.timer.pc != Sleeping && states[n + 1].p.timer.pc == Sleeping
    ensures states[n].q.order == [] && states[n].q.active == "" && states[n].w.live == {}
    ensures states[n].p.holder == TimerHolds
    ensures states[n].p.now - states[n].p.lastReset >= states[n].p.timer.armedInterval >= 600
  {
    RunInv(states, steps, n);
    RunInv(states, steps, n + 1);
    OnlyTimerMovesTimer(states[n], steps[n]);
  }

  /** A deadline that nothing has postponed and nothing holds up. */
  predicate Due(p: Power) {
    var t := p.timer;
    && t.pc == Selecting && t.armed && p.now >= t.armedAt + t.armedInterval
    && p.generation == t.armedGeneration && p.interval == t.armedInterval != 0
    && p.holder == Free
  }

  /** The timer's moves from such a deadline on can be made, and they start the sleep
      action exactly if no batch is queued or running; otherwise the timer is armed
      anew and the mutex is free again. */
  lemma DueTimerSleeps(q: Queue, p: Power)
    requires Due(p)
    ensures CanTime(p, Expire)
    ensures var p1 := ApplyTimer(q, p, Expire);
            && CanTime(p1, LockForExpiry)
            && var p2 := ApplyTimer(q, p1, LockForExpiry);
            && CanTime(p2, RecheckInterval)
            && var p3 := ApplyTimer(q, p2, RecheckInterval);
            && CanTime(p3, RecheckGeneration)
            && var p4 := ApplyTimer(q, p3, RecheckGeneration);
            && CanTime(p4, CheckQueue)
            && var p5 := ApplyTimer(q, p4, CheckQueue);
            && if q.order == [] && q.active == "" then p5.timer.pc == Sleeping && p5.holder == TimerHolds
               else p5.timer.pc == Arming && p5.holder == Free
  {
  }

  /** With the timer on and the engine awake, arm() sets a deadline one interval from
      now, for the current generation: left alone for that long, it is due. */
  lemma ArmSetsDeadline(q: Queue, p: Power)
    requires p.timer.pc == Arming && p.interval != 0 && !p.sleeping
    ensures CanTime(p, ReadInterval)
    ensures var p1 := ApplyTimer(q, p, ReadInterval);
            && CanTime(p1, CheckSleeping(false))
            && var p2 := ApplyTimer(q, p1, CheckSleeping(false));
            && CanTime(p2, ReadGeneration)
            && var p3 := ApplyTimer(q, p2, ReadGeneration);
            && CanTime(p3, StartTimer)
            && var p4 := ApplyTimer(q, p3, StartTimer);
            && p4.timer.pc == Selecting && p4.timer.armed && p4.timer.armedAt == p.now
            && p4.timer.armedInterval == p.interval && p4.timer.armedGeneration == p.generation
            && (p.holder == Free ==> Due(p4.(now := p4.now + p.interval)))
  {
  }

  /** With the timer off, or the engine known to be asleep, no deadline is set. */
  lemma ArmLeavesOff(s: Sys)
    requires s.p.timer.pc == Arming && !s.p.timer.armed && (s.p.interval == 0 || s.p.sleeping)
    ensures var s1 := Apply(s, Times(ReadInterval));
            var s' := if s.p.interval == 0 then s1 else Apply(s1, Times(CheckSleeping(false)));
            s'.p.timer.pc == Selecting && !s'.p.timer.armed
  {
  }

  // ------------------------------------------------------------- work does start

  /** A runner that is deciding, with work queued and none running, picks a queued
      batch and makes it the running one. */
  lemma QueuedWorkStarts(s: Sys, r: nat, choice: nat) returns (id: Id)
    requires RunnerInv(s.q, s.w) && r in s.w.runners && s.w.runners[r].Deciding? && s.q.order != []
    ensures Enabled(s, Runs(r, RunnerMove.Pick(choice)))
    ensures var s1 := Apply(s, Runs(r, RunnerMove.Pick(choice)));
            && Enabled(s1, Runs(r, TryActivate))
            && var s2 := Apply(s1, Runs(r, TryActivate));
            && id in s.q.order && s2.q.active == id && r in s2.w.runners && s2.w.runners[r] == Activated(id)
            && multiset(s2.q.order) == multiset(s.q.order) - multiset{id}
  {
    NextKeeps(s.q, choice);
    id := Next(s.q, choice).1.id;
    var s1 := Apply(s, Runs(r, RunnerMove.Pick(choice)));
    ActivateKeeps(s1.q, id);
    RunMeaning(s1.q, id);
  }

  // ------------------------------------------------------------- every target has its turn

  /** How many attempts to start a scan process the steps contain. */
  function Starts(steps: seq<Step>): nat {
    if steps == [] then 0
    else Starts(steps[..|steps| - 1]) + if IsStart(steps[|steps| - 1]) then 1 else 0
  }

  predicate IsStart(step: Step) {
    step.Runs? && step.move.StartProcess?
  }

  /** How many of its targets a runner has still to start. */
  function ToStart(r: Runner, targets: nat): int {
    match r
    case Activated(_) => targets
    case Scanning(_, todo) => todo
    case Starting(_, todo) => todo
    case Started(_, todo, _) => todo - 1
    case Bumped(_, todo, _, _) => todo - 1
    case Notified(_, todo, _) => todo - 1
    case Waiting(_, todo, _) => todo - 1
    case _ => 0
  }

  lemma RunnerStarts(s: Sys, r: nat, move: RunnerMove)
    requires RunnerInv(s.q, s.w) && s.q.active != NO_BATCH && Enabled(s, Runs(r, move)) && move != FinishScan
    ensures var s' := ApplyRunner(s, r, move);
            && r in s'.w.runners
            && ToStart(s.w.runners[r], Targets(s.q)) ==
               ToStart(s'.w.runners[r], Targets(s.q)) + if move.StartProcess? then 1 else 0
  {
    RunnerDescends(s, r, move);
  }

  /** A running batch, with what was started and what is to be started of it. */
  ghost predicate Adds(s: Sys, r: nat, id: Id, targets: nat, started: nat, total: int) {
    && id != NO_BATCH && s.q.active == id && Targets(s.q) == targets && r in s.w.runners
    && started + ToStart(s.w.runners[r], targets) == total
  }

  lemma AddsNext(s: Sys, step: Step, r: nat, id: Id, targets: nat, started: nat, total: int)
    requires Inv(s) && Enabled(s, step) && !IsFinish(step) && Adds(s, r, id, targets, started, total)
    ensures Adds(Apply(s, step), r, id, targets, started + if IsStart(step) then 1 else 0, total)
  {
    ActiveBatchStays(s, step);
    if step.Runs? {
      assert step.r == r;
      RunnerStarts(s, r, step.move);
    }
  }

  lemma RunNext(states: seq<Sys>, steps: seq<Step>, n: nat)
    requires IsRun(states, steps) && n < |steps|
    ensures Inv(states[n]) && Enabled(states[n], steps[n]) && states[n + 1] == Apply(states[n], steps[n])
  {
    RunInv(states, steps, n);
  }

  lemma StartsSnoc(steps: seq<Step>, m: nat, n: nat)
    requires m < n <= |steps|
    ensures Starts(steps[m..n]) == Starts(steps[m..n - 1]) + if IsStart(steps[n - 1]) then 1 else 0
  {
    assert steps[m..n][..n - 1 - m] == steps[m..n - 1];
  }

  lemma {:induction false} StartsAddUp(states: seq<Sys>, steps: seq<Step>, m: nat, n: nat, r: nat, id: Id, targets: nat, total: int)
    requires IsRun(states, steps) && m <= n < |states| && Adds(states[m], r, id, targets, 0, total)
    requires forall i | m <= i < n :: !IsFinish(steps[i])
    ensures Adds(states[n], r, id, targets, Starts(steps[m..n]), total)
  {
    if m < n {
      StartsAddUp(states, steps, m, n - 1, r, id, targets, total);
      RunNext(states, steps, n - 1);
      StartsSnoc(steps, m, n);
      AddsNext(states[n - 1], steps[n - 1], r, id, targets, Starts(steps[m..n - 1]), total);
    }
  }

  /** No target is left out and none is started twice: between the activation of a batch
      and its finishBatch its runner tries to start a process exactly once for each. */
  lemma EveryTargetIsTried(states: seq<Sys>, steps: seq<Step>, m: nat, n: nat, r: nat)
    requires IsRun(states, steps) && m < n < |steps|
    requires steps[m] == Runs(r, TryActivate) && states[m + 1].q.active != NO_BATCH
    requires (forall i | m < i < n :: !IsFinish(steps[i])) && IsFinish(steps[n])
    ensures states[n].q.active == states[m + 1].q.active && states[m + 1].q.active in states[m + 1].q.batches
    ensures Starts(steps[m + 1..n]) == |states[m + 1].q.batches[states[m + 1].q.active].targets|
  {
    RunNext(states, steps, m);
    RunNext(states, steps, m + 1);
    RunNext(states, steps, n);
    var s := states[m + 1];
    ActivatedRunner(states[m], r);
    StartsAddUp(states, steps, m + 1, n, r, s.q.active, Targets(s.q), Targets(s.q));
    FinishingHasNone(states[n], steps[n], r, Targets(s.q));
  }

  lemma FinishingHasNone(s: Sys, step: Step, r: nat, targets: nat)
    requires Inv(s) && Enabled(s, step) && IsFinish(step) && r in s.w.runners
    ensures ToStart(s.w.runners[r], targets) == 0
  {
    assert step.r == r;
  }

  lemma ActivatedRunner(s: Sys, r: nat)
    requires Inv(s) && Enabled(s, Runs(r, TryActivate))
    ensures var s' := ApplyRunner(s, r, TryActivate);
            s'.q.active != NO_BATCH ==>
              r in s'.w.runners && s'.w.runners[r] == Activated(s'.q.active) && s'.q.active in s'.q.batches
  {
  }

  /** Taking the notification out of the channel empties it and begins an arm that has
      seen every advance so far. */
  lemma ReceiveMeaning(q: Queue, p: Power)
    requires CanTime(p, Receive)
    ensures var p' := ApplyTimer(q, p, Receive);
            !p'.token && p'.timer.pc == Arming && !p'.timer.armed && p'.timer.armStart == p.generation
  {
  }
}
