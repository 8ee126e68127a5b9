/** The scan queue, its lazily started runner, the scan processes and the
    automatic engine-sleep timer as one interleaved step system
    (server/scans.go, server/sleep_wake.go, server/cleanup.go).

    Sections under the server mutex and under the generation mutex are single
    steps, because nothing else reads or writes what they guard. The power mutex
    is held across steps, so its holder is part of the state. A step names the
    goroutine that moves and whatever it is free to choose. Times are seconds. */
module PowerProtocol {
  import opened Subsequences
  import opened ScanQueues

  /** The program counter of runQueue and runBatch. `todo` counts the targets that
      are still to be scanned, the current one included. */
  datatype Runner =
    | Deciding
    | Picked(id: Id)
    | Activated(id: Id)
    | Scanning(id: Id, todo: nat)
    | Starting(id: Id, todo: nat)
    | Started(id: Id, todo: nat, pid: nat)
    | Bumped(id: Id, todo: nat, pid: nat, gen: nat)
    | Notified(id: Id, todo: nat, pid: nat)
    | Waiting(id: Id, todo: nat, pid: nat)

  predicate HoldsPower(r: Runner) {
    r.Starting? || r.Started? || r.Bumped? || r.Notified?
  }

  /** The child process a runner has started and not yet reaped. */
  function Pids(r: Runner): set<nat> {
    if r.Started? || r.Bumped? || r.Notified? || r.Waiting? then {r.pid} else {}
  }

  datatype Workers = Workers(
    runners: map<nat, Runner>,
    nextRunner: nat,
    live: set<nat>,
    nextPid: nat)

  /** An administrator's request under the power mutex: at work, successful and
      about to advance the generation, advanced, done. */
  datatype AdminPhase = AtWork | Succeeded | Advanced(gen: nat) | Leaving

  datatype Holder = Free | RunnerHolds(r: nat) | TimerHolds | AdminHolds(phase: AdminPhase)

  /** Where the timer goroutine is: in its select, inside arm(), or handling an
      expiry (the last five; all but the first of these hold the power mutex). */
  datatype TimerPc =
    | Selecting
    | Arming | ArmChecking | ArmReading | ArmStarting
    | Expired | Rechecking | RecheckingGeneration | Guarding | Sleeping

  /** `seenInterval` is what the last arm() read; `armedAt` and `armStart` (the
      generation when the last arm() began) only serve the statements below. */
  datatype Timer = Timer(
    pc: TimerPc,
    armed: bool,
    seenInterval: nat,
    armedGeneration: nat,
    armedInterval: nat,
    armedAt: int,
    armStart: nat)

  /** `token` is the one slot of the notification channel. `configInFlight` are
      generations a settings request has advanced to without having sent yet;
      `configPending` counts settings requests that have stored a new interval and
      not advanced yet. `lastAdvance` and `lastReset` are the times of the latest
      advance and of the latest scan start or successful administrator action. */
  datatype Power = Power(
    holder: Holder,
    generation: nat,
    token: bool,
    configInFlight: set<nat>,
    configPending: nat,
    interval: nat,
    sleeping: bool,
    timer: Timer,
    now: int,
    lastAdvance: int,
    lastReset: int)

  /** Submission numbers and owners of every batch ever submitted, and the batches
      activated so far, oldest first. */
  datatype History = History(
    ticket: map<Id, nat>,
    owner: map<Id, User>,
    next: nat,
    activated: seq<Id>)

  datatype Sys = Sys(q: Queue, w: Workers, p: Power, h: History)

  /** HTTP requests that change the queue. */
  datatype Request =
    | EnqueueRequest(id: Id, batch: Batch)
    | ReorderRequest(id: Id, number: int, user: User)
    | CancelRequest(id: Id, confirm: string, user: User)
    | PurgeRequest(user: User)

  /** One move of a runner. */
  datatype RunnerMove =
    | Pick(choice: nat)
    | WaitForScanLock
    | TryActivate
    | BeginBatch
    | LockPower
    | StartProcess(ok: bool)
    | AdvanceTimer
    | NotifyTimer
    | UnlockPower
    | Reap
    | FinishScan

  /** One move of an administrator's power request or of a settings request. */
  datatype AdminMove =
    | AdminLock
    | AdminWork(nowSleeping: bool, success: bool)
    | AdminAdvance
    | AdminNotify
    | AdminUnlock
    | ConfigSet(value: nat)
    | ConfigAdvance
    | ConfigNotify(gen: nat)

  /** One move of the timer goroutine. */
  datatype TimerMove =
    | Receive
    | ReadInterval
    | CheckSleeping(statFails: bool)
    | ReadGeneration
    | StartTimer
    | Expire
    | LockForExpiry
    | RecheckInterval
    | RecheckGeneration
    | CheckQueue
    | SleepEnds(slept: bool, nowSleeping: bool)

  datatype Step =
    | Requested(request: Request)
    | Runs(r: nat, move: RunnerMove)
    | Exits(pid: nat)
    | Admin(admin: AdminMove)
    | Times(timerMove: TimerMove)
    | Tick(seconds: nat)

  /** validateAppConfig: off, or at least ten minutes. */
  const MIN_SLEEP_TIMER := 600

  predicate ValidInterval(v: nat) { v == 0 || v >= MIN_SLEEP_TIMER }

  ghost predicate Init(s: Sys) {
    && s.q == EMPTY_QUEUE
    && s.w == Workers(map[], 0, {}, 0)
    && s.p.holder == Free && s.p.generation == 0 && !s.p.token
    && s.p.configInFlight == {} && s.p.configPending == 0
    && ValidInterval(s.p.interval)
    && s.p.timer.pc == Arming && !s.p.timer.armed && s.p.timer.armStart == 0 && s.p.timer.armedGeneration == 0
    && s.p.lastReset <= s.p.lastAdvance <= s.p.now
    && s.h == History(map[], map[], 0, [])
  }

  // ---------------------------------------------------------------- steps

  predicate CanMove(me: Runner, move: RunnerMove, live: set<nat>, holder: Holder) {
    match move
    case Pick(_) => me.Deciding?
    case WaitForScanLock => me.Picked?
    case TryActivate => me.Picked?
    case BeginBatch => me.Activated?
    case LockPower => me.Scanning? && me.todo > 0 && holder == Free
    case StartProcess(_) => me.Starting? && me.todo > 0
    case AdvanceTimer => me.Started?
    case NotifyTimer => me.Bumped?
    case UnlockPower => me.Notified?
    case Reap => me.Waiting? && me.pid !in live && me.todo > 0
    case FinishScan => me.Scanning? && me.todo == 0
  }

  predicate CanAdmin(p: Power, move: AdminMove) {
    match move
    case AdminLock => p.holder == Free
    case AdminWork(_, _) => p.holder == AdminHolds(AtWork)
    case AdminAdvance => p.holder == AdminHolds(Succeeded)
    case AdminNotify => p.holder.AdminHolds? && p.holder.phase.Advanced?
    case AdminUnlock => p.holder == AdminHolds(Leaving)
    case ConfigSet(v) => ValidInterval(v)
    case ConfigAdvance => p.configPending > 0
    case ConfigNotify(g) => g in p.configInFlight
  }

  predicate CanTime(p: Power, move: TimerMove) {
    match move
    case Receive => p.timer.pc == Selecting && p.token
    case ReadInterval => p.timer.pc == Arming
    case CheckSleeping(_) => p.timer.pc == ArmChecking
    case ReadGeneration => p.timer.pc == ArmReading
    case StartTimer => p.timer.pc == ArmStarting
    case Expire => p.timer.pc == Selecting && p.timer.armed && p.now >= p.timer.armedAt + p.timer.armedInterval
    case LockForExpiry => p.timer.pc == Expired && p.holder == Free
    case RecheckInterval => p.timer.pc == Rechecking
    case RecheckGeneration => p.timer.pc == RecheckingGeneration
    case CheckQueue => p.timer.pc == Guarding
    case SleepEnds(_, _) => p.timer.pc == Sleeping
  }

  predicate Enabled(s: Sys, step: Step) {
    match step
    case Requested(EnqueueRequest(id, batch)) => id != NO_BATCH && id !in s.h.ticket && batch.status == Queued
    case Requested(_) => true
    case Runs(r, move) => r in s.w.runners && CanMove(s.w.runners[r], move, s.w.live, s.p.holder)
    case Exits(pid) => pid in s.w.live
    case Admin(move) => CanAdmin(s.p, move)
    case Times(move) => CanTime(s.p, move)
    case Tick(_) => true
  }

  function SetRunner(w: Workers, r: nat, to: Runner): Workers {
    w.(runners := w.runners[r := to])
  }

  /** generation++ under the generation mutex. */
  function Advance(p: Power): Power {
    p.(generation := p.generation + 1, lastAdvance := p.now)
  }

  /** The start of arm(): the old timer is stopped and drained. */
  function BeginArm(p: Power): Power {
    p.(timer := p.timer.(pc := Arming, armed := false, armStart := p.generation))
  }

  function ApplyRequest(s: Sys, request: Request): Sys {
    match request
    case EnqueueRequest(id, batch) =>
      var w := s.w;
      s.(q := Enqueue(s.q, id, batch),
         w := if s.q.runnerActive then w
              else SetRunner(w, w.nextRunner, Deciding).(nextRunner := w.nextRunner + 1),
         h := s.h.(ticket := s.h.ticket[id := s.h.next], owner := s.h.owner[id := batch.user], next := s.h.next + 1))
    case ReorderRequest(id, number, user) => s.(q := Reorder(s.q, id, number, user).0)
    case CancelRequest(id, confirm, user) => s.(q := Cancel(s.q, id, confirm, user).0)
    case PurgeRequest(user) => s.(q := Purge(s.q, user).0)
  }

  function ApplyRunner(s: Sys, r: nat, move: RunnerMove): Sys
    requires r in s.w.runners && CanMove(s.w.runners[r], move, s.w.live, s.p.holder)
  {
    var me := s.w.runners[r];
    match move
    case Pick(choice) =>
      var (q, pick) := Next(s.q, choice);
      s.(q := q, w := if pick.found then SetRunner(s.w, r, Picked(pick.id)) else s.w.(runners := s.w.runners - {r}))
    case WaitForScanLock => s.(w := SetRunner(s.w, r, Deciding))
    case TryActivate =>
      var (q, ok) := Activate(s.q, me.id);
      if ok then s.(q := q, w := SetRunner(s.w, r, Activated(me.id)), h := s.h.(activated := s.h.activated + [me.id]))
      else s.(w := SetRunner(s.w, r, Deciding))
    case BeginBatch =>
      if me.id in s.q.batches then s.(w := SetRunner(s.w, r, Scanning(me.id, |s.q.batches[me.id].targets|)))
      else s.(w := SetRunner(s.w, r, Deciding))
    case LockPower =>
      s.(w := SetRunner(s.w, r, Starting(me.id, me.todo)), p := s.p.(holder := RunnerHolds(r)))
    case StartProcess(ok) =>
      if ok then
        s.(w := SetRunner(s.w, r, Started(me.id, me.todo, s.w.nextPid)).(live := s.w.live + {s.w.nextPid}, nextPid := s.w.nextPid + 1),
           p := s.p.(lastReset := s.p.now))
      else
        s.(w := SetRunner(s.w, r, Scanning(me.id, me.todo - 1)), p := s.p.(holder := Free))
    case AdvanceTimer =>
      s.(w := SetRunner(s.w, r, Bumped(me.id, me.todo, me.pid, s.p.generation + 1)), p := Advance(s.p))
    case NotifyTimer =>
      s.(w := SetRunner(s.w, r, Notified(me.id, me.todo, me.pid)), p := s.p.(token := true))
    case UnlockPower =>
      s.(w := SetRunner(s.w, r, Waiting(me.id, me.todo, me.pid)), p := s.p.(holder := Free))
    case Reap => s.(w := SetRunner(s.w, r, Scanning(me.id, me.todo - 1)))
    case FinishScan => s.(q := Finish(s.q, me.id), w := SetRunner(s.w, r, Deciding))
  }

  function ApplyAdmin(p: Power, move: AdminMove): Power
    requires CanAdmin(p, move)
  {
    match move
    case AdminLock => p.(holder := AdminHolds(AtWork))
    case AdminWork(nowSleeping, success) =>
      p.(sleeping := nowSleeping,
         holder := AdminHolds(if success then Succeeded else Leaving),
         lastReset := if success then p.now else p.lastReset)
    case AdminAdvance => Advance(p).(holder := AdminHolds(Advanced(p.generation + 1)))
    case AdminNotify => p.(token := true, holder := AdminHolds(Leaving))
    case AdminUnlock => p.(holder := Free)
    case ConfigSet(v) => p.(interval := v, configPending := p.configPending + if v == p.interval then 0 else 1)
    case ConfigAdvance =>
      Advance(p).(configPending := p.configPending - 1, configInFlight := p.configInFlight + {p.generation + 1})
    case ConfigNotify(g) => p.(token := true, configInFlight := p.configInFlight - {g})
  }

  function ApplyTimer(q: Queue, p: Power, move: TimerMove): Power
    requires CanTime(p, move)
  {
    var t := p.timer;
    match move
    case Receive => BeginArm(p.(token := false))
    case ReadInterval => p.(timer := t.(seenInterval := p.interval, pc := if p.interval == 0 then Selecting else ArmChecking))
    case CheckSleeping(statFails) => p.(timer := t.(pc := if !statFails && p.sleeping then Selecting else ArmReading))
    case ReadGeneration => p.(timer := t.(pc := ArmStarting, armedGeneration := p.generation, armedInterval := t.seenInterval))
    case StartTimer => p.(timer := t.(pc := Selecting, armed := true, armedAt := p.now))
    case Expire => p.(timer := t.(pc := Expired, armed := false))
    case LockForExpiry => p.(holder := TimerHolds, timer := t.(pc := Rechecking))
    case RecheckInterval =>
      if p.interval == 0 || p.interval != t.armedInterval then BeginArm(p.(holder := Free))
      else p.(timer := t.(pc := RecheckingGeneration))
    case RecheckGeneration =>
      if t.armedGeneration != p.generation then BeginArm(p.(holder := Free))
      else p.(timer := t.(pc := Guarding))
    case CheckQueue =>
      if PendingOrActive(q) then BeginArm(p.(holder := Free))
      else p.(timer := t.(pc := Sleeping))
    case SleepEnds(slept, nowSleeping) =>
      if slept then p.(sleeping := true, holder := Free, timer := t.(pc := Selecting))
      else BeginArm(p.(sleeping := nowSleeping, holder := Free))
  }

  function Apply(s: Sys, step: Step): Sys
    requires Enabled(s, step)
  {
    match step
    case Requested(request) => ApplyRequest(s, request)
    case Runs(r, move) => ApplyRunner(s, r, move)
    case Exits(pid) => s.(w := s.w.(live := s.w.live - {pid}))
    case Admin(move) => s.(p := ApplyAdmin(s.p, move))
    case Times(move) => s.(p := ApplyTimer(s.q, s.p, move))
    case Tick(seconds) => s.(p := s.p.(now := s.p.now + seconds))
  }

  // ---------------------------------------------------------------- invariants

  /** One runner exactly when the flag is set, work implies the flag, and what the
      runner is doing agrees with the running batch. */
  ghost predicate RunnerInv(q: Queue, w: Workers) {
    && WellFormed(q)
    && (forall r, r2 | r in w.runners && r2 in w.runners :: r == r2)
    && (q.runnerActive <==> w.runners.Keys != {})
    && (q.order != [] ==> q.runnerActive)
    && (!q.runnerActive ==> q.active == NO_BATCH)
    && (forall r | r in w.runners :: r < w.nextRunner && RunnerFits(q, w.runners[r]))
  }

  predicate RunnerFits(q: Queue, r: Runner) {
    match r
    case Deciding => q.active == NO_BATCH
    case Picked(_) => q.active == NO_BATCH
    case _ => q.active == r.id && r.id != NO_BATCH && (InTarget(r) ==> r.todo > 0)
  }

  /** In the middle of a target. */
  predicate InTarget(r: Runner) {
    HoldsPower(r) || r.Waiting?
  }

  /** Every live process is the one its runner is waiting for, and the power mutex
      is held by whoever is inside its critical section. */
  ghost predicate LockInv(w: Workers, holder: Holder, pc: TimerPc) {
    && (forall r | r in w.runners :: w.live <= Pids(w.runners[r]))
    && (w.runners.Keys == {} ==> w.live == {})
    && (forall r | r in w.runners :: HoldsPower(w.runners[r]) <==> holder == RunnerHolds(r))
    && (holder.RunnerHolds? ==> holder.r in w.runners)
    && (holder == TimerHolds <==> TimerInside(pc))
    && (pc == Sleeping ==> w.live == {})
  }

  predicate TimerInside(pc: TimerPc) {
    pc == Rechecking || pc == RecheckingGeneration || pc == Guarding || pc == Sleeping
  }

  /** An advance whose send has not happened yet. */
  ghost predicate InFlight(w: Workers, p: Power, g: nat) {
    || g in p.configInFlight
    || p.holder == AdminHolds(Advanced(g))
    || (p.holder.RunnerHolds? && p.holder.r in w.runners
        && w.runners[p.holder.r].Bumped? && w.runners[p.holder.r].gen == g)
  }

  /** No reset is lost: an advance is still in flight, was seen by the last arm(),
      or has left a token. */
  ghost predicate TokenInv(w: Workers, p: Power) {
    && p.timer.armStart <= p.generation
    && (forall g: nat | p.timer.armStart < g <= p.generation :: InFlight(w, p, g) || p.token)
    && (p.timer.pc != Arming && p.timer.seenInterval != p.interval ==>
          p.configPending > 0 || p.generation > p.timer.armStart)
  }

  /** The timer has read the generation since its last arm() began. */
  predicate HasGeneration(t: Timer) {
    t.armed || t.pc == ArmStarting || t.pc == Expired || TimerInside(t.pc)
  }

  /** A deadline is set or has just fired and is still being examined. */
  predicate Examined(t: Timer) {
    t.pc == Expired || t.pc == Rechecking || t.pc == RecheckingGeneration
  }

  /** A scan start or administrator action that has not yet advanced. */
  predicate ResetUnannounced(w: Workers, p: Power) {
    || p.holder == AdminHolds(Succeeded)
    || (p.holder.RunnerHolds? && p.holder.r in w.runners && w.runners[p.holder.r].Started?)
  }

  /** An armed deadline whose generation is still current has seen no advance. */
  ghost predicate TimeInv(w: Workers, p: Power) {
    var t := p.timer;
    && ValidInterval(p.interval)
    && p.lastReset <= p.now && p.lastAdvance <= p.now
    && t.armedGeneration <= p.generation
    && (t.armed ==> t.pc == Selecting)
    && (t.pc == ArmChecking || t.pc == ArmReading ==> t.seenInterval >= MIN_SLEEP_TIMER)
    && (HasGeneration(t) ==> t.armStart <= t.armedGeneration && t.armedInterval == t.seenInterval >= MIN_SLEEP_TIMER)
    && (t.armed || Examined(t) ==>
          t.armedAt <= p.now && (t.armedGeneration == p.generation ==> p.lastAdvance <= t.armedAt))
    && (Examined(t) ==> t.armedAt + t.armedInterval <= p.now)
    && (!ResetUnannounced(w, p) ==> p.lastReset <= p.lastAdvance)
    && (t.pc == RecheckingGeneration && t.armedInterval != p.interval ==>
          p.configPending > 0 || t.armedGeneration != p.generation)
    && (t.pc == Guarding || t.pc == Sleeping ==> p.lastReset + t.armedInterval <= p.now)
  }

  ghost predicate Inv(s: Sys) {
    && RunnerInv(s.q, s.w)
    && LockInv(s.w, s.p.holder, s.p.timer.pc)
    && TokenInv(s.w, s.p)
    && TimeInv(s.w, s.p)
    && HistoryInv(s)
  }

  /** Without reordering the queue stays in submission order, and whatever is
      activated comes before everything its owner still has queued. */
  ghost predicate OrderInv(s: Sys) {
    && HistoryInv(s)
    && Ascending(s.h, s.q.order)
    && ActivatedFirst(s.h, s.q.order)
    && PicksFirst(s.w, s.h, s.q.order)
    && InSubmissionOrder(s.h)
  }

  ghost predicate Ascending(h: History, order: seq<Id>) {
    && (forall id | id in order :: id in h.ticket)
    && (forall i, j | 0 <= i < j < |order| :: h.ticket[order[i]] < h.ticket[order[j]])
  }

  /** What has been activated was submitted before what is still queued. */
  ghost predicate ActivatedFirst(h: History, order: seq<Id>) {
    forall a, id | a in h.activated && id in order && Same(h, a, id) :: Before(h, a, id)
  }

  /** A picked batch that is still queued is still its owner's first. */
  ghost predicate PickIsFirst(h: History, order: seq<Id>, id: Id) {
    id in order ==> forall x | x in order && Same(h, id, x) :: x == id || Before(h, id, x)
  }

  ghost predicate PicksFirst(w: Workers, h: History, order: seq<Id>) {
    forall r | r in w.runners && w.runners[r].Picked? :: w.runners[r].id in h.ticket && PickIsFirst(h, order, w.runners[r].id)
  }

  predicate Same(h: History, a: Id, b: Id) {
    a in h.owner && b in h.owner && h.owner[a] == h.owner[b]
  }

  predicate Before(h: History, a: Id, b: Id) {
    a in h.ticket && b in h.ticket && h.ticket[a] < h.ticket[b]
  }

  ghost predicate HistoryInv(s: Sys) {
    && s.h.ticket.Keys == s.h.owner.Keys
    && (forall id | id in s.q.order :: id in s.q.batches)
    && (forall id | id in s.q.batches :: id in s.h.ticket && s.h.owner[id] == s.q.batches[id].user)
    && (forall r | r in s.w.runners && s.w.runners[r].Picked? :: s.w.runners[r].id in s.h.ticket)
    && (forall a | a in s.h.activated :: a in s.h.ticket)
    && (forall id | id in s.h.ticket :: s.h.ticket[id] < s.h.next)
  }

  /** Any two batches of one user were activated in the order of submission. */
  ghost predicate InSubmissionOrder(h: History) {
    && (forall a | a in h.activated :: a in h.ticket && a in h.owner)
    && (forall i, j | 0 <= i < j < |h.activated| && Same(h, h.activated[i], h.activated[j]) ::
          Before(h, h.activated[i], h.activated[j]))
  }

  lemma InitInv(s: Sys)
    requires Init(s)
    ensures Inv(s) && OrderInv(s)
  {
  }

  lemma RunnerInvRequest(s: Sys, request: Request)
    requires RunnerInv(s.q, s.w) && HistoryInv(s) && Enabled(s, Requested(request))
    ensures RunnerInv(ApplyRequest(s, request).q, ApplyRequest(s, request).w)
  {
    match request
    case EnqueueRequest(id, batch) =>
      EnqueueKeeps(s.q, id, batch);
      assert s.w.nextRunner in SetRunner(s.w, s.w.nextRunner, Deciding).runners.Keys;
    case ReorderRequest(id, number, user) => ReorderKeeps(s.q, id, number, user);
    case CancelRequest(id, confirm, user) => CancelKeeps(s.q, id, confirm, user);
    case PurgeRequest(user) => PurgeKeeps(s.q, user);
  }

  /** The moves between two batches, as opposed to those within a target. */
  predicate BetweenBatches(move: RunnerMove) {
    move.Pick? || move.WaitForScanLock? || move.TryActivate? || move.BeginBatch? || move.FinishScan?
  }

  lemma WithinTargetFrame(s: Sys, r: nat, move: RunnerMove)
    requires Enabled(s, Runs(r, move)) && !BetweenBatches(move)
    ensures var s' := ApplyRunner(s, r, move);
            && s'.q == s.q && s'.h == s.h
            && s'.w.runners == s.w.runners[r := s'.w.runners[r]]
            && s'.w.nextRunner == s.w.nextRunner
            && !s'.w.runners[r].Picked?
            && (RunnerFits(s.q, s.w.runners[r]) ==> RunnerFits(s.q, s'.w.runners[r]))
  {
    match move
    case LockPower =>
    case StartProcess(_) =>
    case AdvanceTimer =>
    case NotifyTimer =>
    case UnlockPower =>
    case Reap =>
  }

  lemma RunnerInvRunner(s: Sys, r: nat, move: RunnerMove)
    requires RunnerInv(s.q, s.w) && Enabled(s, Runs(r, move))
    ensures RunnerInv(ApplyRunner(s, r, move).q, ApplyRunner(s, r, move).w)
  {
    if !BetweenBatches(move) {
      WithinTargetFrame(s, r, move);
      assert ApplyRunner(s, r, move).w.runners.Keys == s.w.runners.Keys;
    } else {
      RunnerInvBetween(s, r, move);
    }
  }

  lemma RunnerInvPick(s: Sys, r: nat, choice: nat)
    requires RunnerInv(s.q, s.w) && Enabled(s, Runs(r, RunnerMove.Pick(choice)))
    ensures RunnerInv(ApplyRunner(s, r, RunnerMove.Pick(choice)).q, ApplyRunner(s, r, RunnerMove.Pick(choice)).w)
  {
    NextKeeps(s.q, choice);
  }

  lemma RunnerInvActivate(s: Sys, r: nat)
    requires RunnerInv(s.q, s.w) && Enabled(s, Runs(r, TryActivate))
    ensures RunnerInv(ApplyRunner(s, r, TryActivate).q, ApplyRunner(s, r, TryActivate).w)
  {
    ActivateKeeps(s.q, s.w.runners[r].id);
  }

  lemma RunnerInvFinish(s: Sys, r: nat)
    requires RunnerInv(s.q, s.w) && Enabled(s, Runs(r, FinishScan))
    ensures RunnerInv(ApplyRunner(s, r, FinishScan).q, ApplyRunner(s, r, FinishScan).w)
  {
    FinishKeeps(s.q, s.w.runners[r].id);
  }

  lemma RunnerInvBetween(s: Sys, r: nat, move: RunnerMove)
    requires RunnerInv(s.q, s.w) && Enabled(s, Runs(r, move)) && BetweenBatches(move)
    ensures RunnerInv(ApplyRunner(s, r, move).q, ApplyRunner(s, r, move).w)
  {
    match move
    case Pick(choice) => RunnerInvPick(s, r, choice);
    case TryActivate => RunnerInvActivate(s, r);
    case FinishScan => RunnerInvFinish(s, r);
    case WaitForScanLock =>
    case BeginBatch =>
  }

  lemma LockInvRequest(s: Sys, request: Request)
    requires RunnerInv(s.q, s.w) && LockInv(s.w, s.p.holder, s.p.timer.pc) && Enabled(s, Requested(request))
    ensures var s' := ApplyRequest(s, request); LockInv(s'.w, s'.p.holder, s'.p.timer.pc)
  {
  }

  lemma LockInvRunner(s: Sys, r: nat, move: RunnerMove)
    requires RunnerInv(s.q, s.w) && LockInv(s.w, s.p.holder, s.p.timer.pc) && Enabled(s, Runs(r, move))
    ensures var s' := ApplyRunner(s, r, move); LockInv(s'.w, s'.p.holder, s'.p.timer.pc)
  {
    if BetweenBatches(move) { LockInvBetween(s, r, move); } else { LockInvTarget(s, r, move); }
  }

  lemma LockInvBetween(s: Sys, r: nat, move: RunnerMove)
    requires RunnerInv(s.q, s.w) && LockInv(s.w, s.p.holder, s.p.timer.pc)
    requires Enabled(s, Runs(r, move)) && BetweenBatches(move)
    ensures var s' := ApplyRunner(s, r, move); LockInv(s'.w, s'.p.holder, s'.p.timer.pc)
  {
    match move
    case Pick(choice) => NextKeeps(s.q, choice);
    case TryActivate =>
    case FinishScan =>
    case WaitForScanLock =>
    case BeginBatch =>
  }

  lemma LockInvTarget(s: Sys, r: nat, move: RunnerMove)
    requires RunnerInv(s.q, s.w) && LockInv(s.w, s.p.holder, s.p.timer.pc)
    requires Enabled(s, Runs(r, move)) && !BetweenBatches(move)
    ensures var s' := ApplyRunner(s, r, move); LockInv(s'.w, s'.p.holder, s'.p.timer.pc)
  {
    match move
    case LockPower =>
    case StartProcess(_) =>
    case AdvanceTimer =>
    case NotifyTimer =>
    case UnlockPower =>
    case Reap =>
  }

  lemma LockInvAdmin(w: Workers, p: Power, move: AdminMove)
    requires LockInv(w, p.holder, p.timer.pc) && CanAdmin(p, move)
    ensures var p' := ApplyAdmin(p, move); LockInv(w, p'.holder, p'.timer.pc)
  {
  }

  /** The automatic sleep is only entered with no process alive. */
  lemma LockInvTimer(q: Queue, w: Workers, p: Power, move: TimerMove)
    requires RunnerInv(q, w) && LockInv(w, p.holder, p.timer.pc) && CanTime(p, move)
    ensures var p' := ApplyTimer(q, p, move); LockInv(w, p'.holder, p'.timer.pc)
  {
    if move == CheckQueue && !PendingOrActive(q) && w.live != {} {
      var r :| r in w.runners;
      assert RunnerFits(q, w.runners[r]);
    }
  }

  lemma TokenInvRunner(s: Sys, r: nat, move: RunnerMove)
    requires LockInv(s.w, s.p.holder, s.p.timer.pc) && TokenInv(s.w, s.p) && Enabled(s, Runs(r, move))
    ensures var s' := ApplyRunner(s, r, move); TokenInv(s'.w, s'.p)
  {
    var s' := ApplyRunner(s, r, move);
    forall g: nat | s'.p.timer.armStart < g <= s'.p.generation
      ensures InFlight(s'.w, s'.p, g) || s'.p.token
    {
      assert g <= s.p.generation ==> InFlight(s.w, s.p, g) || s.p.token;
    }
  }

  lemma TokenInvAdmin(w: Workers, p: Power, move: AdminMove)
    requires TokenInv(w, p) && CanAdmin(p, move)
    ensures TokenInv(w, ApplyAdmin(p, move))
  {
    var p' := ApplyAdmin(p, move);
    forall g: nat | p'.timer.armStart < g <= p'.generation
      ensures InFlight(w, p', g) || p'.token
    {
      assert g <= p.generation ==> InFlight(w, p, g) || p.token;
    }
  }

  lemma TokenInvTimer(q: Queue, w: Workers, p: Power, move: TimerMove)
    requires LockInv(w, p.holder, p.timer.pc) && TokenInv(w, p) && CanTime(p, move)
    ensures TokenInv(w, ApplyTimer(q, p, move))
  {
    var p' := ApplyTimer(q, p, move);
    forall g: nat | p'.timer.armStart < g <= p'.generation
      ensures InFlight(w, p', g) || p'.token
    {
      assert g <= p.generation ==> InFlight(w, p, g) || p.token;
    }
  }

  lemma TimeInvRunner(s: Sys, r: nat, move: RunnerMove)
    requires LockInv(s.w, s.p.holder, s.p.timer.pc) && TimeInv(s.w, s.p) && Enabled(s, Runs(r, move))
    ensures var s' := ApplyRunner(s, r, move); TimeInv(s'.w, s'.p)
  {
    if BetweenBatches(move) { TimeInvBetween(s, r, move); } else { TimeInvTarget(s, r, move); }
  }

  lemma TimeInvBetween(s: Sys, r: nat, move: RunnerMove)
    requires LockInv(s.w, s.p.holder, s.p.timer.pc) && TimeInv(s.w, s.p) && Enabled(s, Runs(r, move)) && BetweenBatches(move)
    ensures var s' := ApplyRunner(s, r, move); TimeInv(s'.w, s'.p)
  {
    match move
    case Pick(_) =>
    case TryActivate =>
    case FinishScan =>
    case WaitForScanLock =>
    case BeginBatch =>
  }

  lemma TimeInvTarget(s: Sys, r: nat, move: RunnerMove)
    requires LockInv(s.w, s.p.holder, s.p.timer.pc) && TimeInv(s.w, s.p) && Enabled(s, Runs(r, move)) && !BetweenBatches(move)
    ensures var s' := ApplyRunner(s, r, move); TimeInv(s'.w, s'.p)
  {
    match move
    case LockPower =>
    case StartProcess(_) =>
    case AdvanceTimer =>
    case NotifyTimer =>
    case UnlockPower =>
    case Reap =>
  }

  lemma TimeInvAdmin(w: Workers, p: Power, move: AdminMove)
    requires LockInv(w, p.holder, p.timer.pc) && TimeInv(w, p) && CanAdmin(p, move)
    ensures TimeInv(w, ApplyAdmin(p, move))
  {
  }

  /** The moves inside arm() and the start of one. */
  predicate ArmMove(move: TimerMove) {
    move.Receive? || move.ReadInterval? || move.CheckSleeping? || move.ReadGeneration? || move.StartTimer?
  }

  lemma TimeInvArm(q: Queue, w: Workers, p: Power, move: TimerMove)
    requires LockInv(w, p.holder, p.timer.pc) && TokenInv(w, p) && TimeInv(w, p) && CanTime(p, move) && ArmMove(move)
    ensures TimeInv(w, ApplyTimer(q, p, move))
  {
    match move
    case Receive =>
    case ReadInterval =>
    case CheckSleeping(_) =>
    case ReadGeneration =>
    case StartTimer =>
  }

  lemma TimeInvExpiry(q: Queue, w: Workers, p: Power, move: TimerMove)
    requires LockInv(w, p.holder, p.timer.pc) && TimeInv(w, p) && CanTime(p, move) && !ArmMove(move)
    ensures TimeInv(w, ApplyTimer(q, p, move))
  {
    match move
    case Expire =>
    case LockForExpiry =>
    case RecheckInterval =>
    case RecheckGeneration =>
    case CheckQueue =>
    case SleepEnds(_, _) =>
  }

  lemma HistoryInvRequest(s: Sys, request: Request)
    requires RunnerInv(s.q, s.w) && HistoryInv(s) && Enabled(s, Requested(request))
    ensures HistoryInv(ApplyRequest(s, request))
  {
    RunnerInvRequest(s, request);
    match request
    case EnqueueRequest(id, batch) =>
    case ReorderRequest(id, number, user) => ReorderKeeps(s.q, id, number, user);
    case CancelRequest(id, confirm, user) => CancelKeeps(s.q, id, confirm, user);
    case PurgeRequest(user) => PurgeKeeps(s.q, user);
  }

  lemma HistoryInvRunner(s: Sys, r: nat, move: RunnerMove)
    requires RunnerInv(s.q, s.w) && HistoryInv(s) && Enabled(s, Runs(r, move))
    ensures HistoryInv(ApplyRunner(s, r, move))
  {
    if BetweenBatches(move) {
      RunnerInvBetween(s, r, move);
      HistoryInvBetween(s, r, move);
    } else {
      WithinTargetFrame(s, r, move);
    }
  }

  lemma HistoryInvBetween(s: Sys, r: nat, move: RunnerMove)
    requires RunnerInv(s.q, s.w) && HistoryInv(s) && Enabled(s, Runs(r, move)) && BetweenBatches(move)
    requires RunnerInv(ApplyRunner(s, r, move).q, ApplyRunner(s, r, move).w)
    ensures HistoryInv(ApplyRunner(s, r, move))
  {
    match move
    case Pick(choice) => NextKeeps(s.q, choice);
    case TryActivate =>
      if Activate(s.q, s.w.runners[r].id).1 {
        assert forall a | a in ApplyRunner(s, r, move).h.activated :: a in s.h.activated || a == s.w.runners[r].id;
      }
    case FinishScan =>
    case WaitForScanLock =>
    case BeginBatch =>
  }

  /** Steps that keep everything the token invariant looks at. */
  lemma TokenInvFrame(w: Workers, p: Power, w': Workers, p': Power)
    requires TokenInv(w, p)
    requires w'.runners == w.runners
      || (!p.holder.RunnerHolds? && p'.holder == p.holder)
      || (p.holder.RunnerHolds? && p.holder.r in w.runners && p.holder.r in w'.runners
          && w'.runners[p.holder.r] == w.runners[p.holder.r])
    requires p' == p.(now := p'.now)
    ensures TokenInv(w', p')
  {
    forall g: nat | p'.timer.armStart < g <= p'.generation
      ensures InFlight(w', p', g) || p'.token
    {
      assert InFlight(w, p, g) || p.token;
    }
  }

  lemma InvKeptRequest(s: Sys, request: Request)
    requires Inv(s) && Enabled(s, Requested(request))
    ensures Inv(ApplyRequest(s, request))
  {
    RunnerInvRequest(s, request);
    LockInvRequest(s, request);
    HistoryInvRequest(s, request);
    var s' := ApplyRequest(s, request);
    assert s'.p == s.p;
    TokenInvFrame(s.w, s.p, s'.w, s'.p);
  }

  lemma InvKeptRunner(s: Sys, r: nat, move: RunnerMove)
    requires Inv(s) && Enabled(s, Runs(r, move))
    ensures Inv(ApplyRunner(s, r, move))
  {
    RunnerInvRunner(s, r, move);
    LockInvRunner(s, r, move);
    HistoryInvRunner(s, r, move);
    TokenInvRunner(s, r, move);
    TimeInvRunner(s, r, move);
  }

  lemma InvKeptExit(s: Sys, pid: nat)
    requires Inv(s) && pid in s.w.live
    ensures Inv(s.(w := s.w.(live := s.w.live - {pid})))
  {
    TokenInvFrame(s.w, s.p, s.w.(live := s.w.live - {pid}), s.p);
  }

  lemma InvKeptAdmin(s: Sys, move: AdminMove)
    requires Inv(s) && CanAdmin(s.p, move)
    ensures Inv(s.(p := ApplyAdmin(s.p, move)))
  {
    LockInvAdmin(s.w, s.p, move);
    TokenInvAdmin(s.w, s.p, move);
    TimeInvAdmin(s.w, s.p, move);
  }

  lemma InvKeptTimer(s: Sys, move: TimerMove)
    requires Inv(s) && CanTime(s.p, move)
    ensures Inv(s.(p := ApplyTimer(s.q, s.p, move)))
  {
    LockInvTimer(s.q, s.w, s.p, move);
    TokenInvTimer(s.q, s.w, s.p, move);
    if ArmMove(move) { TimeInvArm(s.q, s.w, s.p, move); } else { TimeInvExpiry(s.q, s.w, s.p, move); }
  }

  lemma InvKeptTick(s: Sys, seconds: nat)
    requires Inv(s)
    ensures Inv(s.(p := s.p.(now := s.p.now + seconds)))
  {
    TokenInvFrame(s.w, s.p, s.w, s.p.(now := s.p.now + seconds));
  }

  /** The invariant holds in every reachable state. */
  lemma InvKept(s: Sys, step: Step)
    requires Inv(s) && Enabled(s, step)
    ensures Inv(Apply(s, step))
  {
    match step
    case Requested(request) => InvKeptRequest(s, request);
    case Runs(r, move) => InvKeptRunner(s, r, move);
    case Exits(pid) => InvKeptExit(s, pid);
    case Admin(move) => InvKeptAdmin(s, move);
    case Times(move) => InvKeptTimer(s, move);
    case Tick(seconds) => InvKeptTick(s, seconds);
  }

  // ---------------------------------------------------------------- submission order

  lemma {:induction false} DropAscending(h: History, order: seq<Id>, ids: set<Id>)
    requires Ascending(h, order)
    ensures Ascending(h, Drop(order, ids))
  {
    DropMember(order, ids);
    if order != [] {
      var n := |order| - 1;
      DropAscending(h, order[..n], ids);
      DropMember(order[..n], ids);
      var front := Drop(order[..n], ids);
      forall i | 0 <= i < |front| ensures h.ticket[front[i]] < h.ticket[order[n]] {
        assert front[i] in front;
        var k :| 0 <= k < n && order[k] == front[i];
      }
    }
  }

  /** Removing ids from the queue keeps every ordering fact. */
  lemma OrderInvShrinks(s: Sys, q: Queue)
    requires OrderInv(s) && HistoryInv(s.(q := q))
    requires forall id | id in q.order :: id in s.q.order
    requires Ascending(s.h, q.order)
    ensures OrderInv(s.(q := q))
  {
  }

  lemma RemoveAtAscending(h: History, order: seq<Id>, k: nat)
    requires Ascending(h, order) && k < |order|
    ensures Ascending(h, RemoveAt(order, k))
    ensures forall x | x in RemoveAt(order, k) :: x in order && x != order[k]
  {
    var r := RemoveAt(order, k);
    forall i | 0 <= i < |r| ensures r[i] == order[if i < k then i else i + 1] {}
  }

  /** A new submission gets the largest number. */
  lemma SubmissionAppends(w: Workers, h: History, order: seq<Id>, id: Id, user: User)
    requires Ascending(h, order) && ActivatedFirst(h, order) && InSubmissionOrder(h) && PicksFirst(w, h, order)
    requires h.ticket.Keys == h.owner.Keys && id !in h.ticket
    requires forall x | x in h.ticket :: h.ticket[x] < h.next
    ensures var h' := h.(ticket := h.ticket[id := h.next], owner := h.owner[id := user], next := h.next + 1);
            && Ascending(h', order + [id]) && ActivatedFirst(h', order + [id]) && InSubmissionOrder(h')
            && PicksFirst(w, h', order + [id])
  {
    var h' := h.(ticket := h.ticket[id := h.next], owner := h.owner[id := user], next := h.next + 1);
    assert forall x :: x in order + [id] <==> x in order || x == id;
    assert forall a, b | a != id && b != id :: (Same(h', a, b) <==> Same(h, a, b)) && (Before(h', a, b) <==> Before(h, a, b));
    assert forall a | a in h.ticket :: Before(h', a, id);
  }

  lemma OrderInvEnqueue(s: Sys, request: Request)
    requires RunnerInv(s.q, s.w) && OrderInv(s) && request.EnqueueRequest? && Enabled(s, Requested(request))
    ensures OrderInv(ApplyRequest(s, request))
  {
    HistoryInvRequest(s, request);
    var s' := ApplyRequest(s, request);
    SubmissionKeepsOrder(s.w, s'.w, s.h, s'.h, s.q.order, s'.q.order, request.id, request.batch.user);
  }

  lemma SubmissionKeepsOrder(w: Workers, w': Workers, h: History, h': History, order: seq<Id>, order': seq<Id>,
                             id: Id, user: User)
    requires Ascending(h, order) && ActivatedFirst(h, order) && InSubmissionOrder(h) && PicksFirst(w, h, order)
    requires h.ticket.Keys == h.owner.Keys && id !in h.ticket
    requires forall x | x in h.ticket :: h.ticket[x] < h.next
    requires h' == h.(ticket := h.ticket[id := h.next], owner := h.owner[id := user], next := h.next + 1)
    requires order' == order + [id] && (w' == w || w'.runners == w.runners[w.nextRunner := Deciding])
    ensures Ascending(h', order') && ActivatedFirst(h', order') && InSubmissionOrder(h') && PicksFirst(w', h', order')
  {
    SubmissionAppends(w, h, order, id, user);
    SubmissionPicks(w, w', h', order');
  }

  /** A runner that has just been started has picked nothing. */
  lemma SubmissionPicks(w: Workers, w': Workers, h: History, order: seq<Id>)
    requires PicksFirst(w, h, order)
    requires w' == w || w'.runners == w.runners[w.nextRunner := Deciding]
    ensures PicksFirst(w', h, order)
  {
    assert forall r | r in w'.runners && w'.runners[r].Picked? :: r in w.runners && w'.runners[r] == w.runners[r];
  }

  lemma OrderInvRequest(s: Sys, request: Request)
    requires RunnerInv(s.q, s.w) && OrderInv(s)
    requires Enabled(s, Requested(request)) && !request.ReorderRequest?
    ensures OrderInv(ApplyRequest(s, request))
  {
    HistoryInvRequest(s, request);
    match request
    case EnqueueRequest(id, batch) => OrderInvEnqueue(s, request);
    case CancelRequest(id, confirm, user) =>
      CancelShrinks(s, id, confirm, user);
      OrderInvShrinks(s, Cancel(s.q, id, confirm, user).0);
    case PurgeRequest(user) =>
      PurgeShrinks(s, user);
      OrderInvShrinks(s, Purge(s.q, user).0);
  }

  lemma CancelShrinks(s: Sys, id: Id, confirm: string, user: User)
    requires Ascending(s.h, s.q.order)
    ensures var order := Cancel(s.q, id, confirm, user).0.order;
            Ascending(s.h, order) && forall x | x in order :: x in s.q.order
  {
    if id in s.q.order { RemoveAtAscending(s.h, s.q.order, IndexOf(s.q.order, id)); }
  }

  lemma PurgeShrinks(s: Sys, user: User)
    requires Ascending(s.h, s.q.order)
    ensures var order := Purge(s.q, user).0.order;
            Ascending(s.h, order) && forall x | x in order :: x in s.q.order
  {
    DropAscending(s.h, s.q.order, Owned(s.q.batches, user));
    DropMember(s.q.order, Owned(s.q.batches, user));
  }

  /** A picked batch is its owner's earliest queued one. */
  lemma PickedIsFirst(s: Sys, choice: nat)
    requires WellFormed(s.q) && OrderInv(s) && Next(s.q, choice).1.found
    ensures Next(s.q, choice).1.id in s.q.order && PickIsFirst(s.h, s.q.order, Next(s.q, choice).1.id)
  {
    NextKeeps(s.q, choice);
    var id := Next(s.q, choice).1.id;
    var owned := Owned(s.q.batches, s.h.owner[id]);
    forall x | x in s.q.order && Same(s.h, id, x)
      ensures x == id || Before(s.h, id, x)
    {
      HeadIsEarliest(s.h, s.q.order, owned, x);
    }
  }

  /** In an ascending order the head of a subsequence comes before the rest. */
  lemma {:induction false} HeadIsEarliest(h: History, order: seq<Id>, ids: set<Id>, x: Id)
    requires Ascending(h, order) && x in order && x in ids
    ensures Keep(order, ids) != []
    ensures x == Keep(order, ids)[0] || Before(h, Keep(order, ids)[0], x)
  {
    KeepMember(order, ids);
    var n := |order| - 1;
    var k :| 0 <= k < |order| && order[k] == x;
    if k < n {
      HeadIsEarliest(h, order[..n], ids, x);
    } else {
      var front := Keep(order[..n], ids);
      KeepMember(order[..n], ids);
      if front != [] {
        assert front[0] in front;
        var i :| 0 <= i < n && order[i] == front[0];
      }
    }
  }

  lemma OrderInvRunner(s: Sys, r: nat, move: RunnerMove)
    requires RunnerInv(s.q, s.w) && OrderInv(s) && Enabled(s, Runs(r, move))
    ensures OrderInv(ApplyRunner(s, r, move))
  {
    HistoryInvRunner(s, r, move);
    if move.Pick? {
      NextKeeps(s.q, move.choice);
      if Next(s.q, move.choice).1.found { PickedIsFirst(s, move.choice); }
    } else if move.TryActivate? {
      if Activate(s.q, s.w.runners[r].id).1 { ActivateInOrder(s, r); }
    } else {
      RunnerElsewhere(s, r, move);
    }
  }

  lemma RunnerElsewhere(s: Sys, r: nat, move: RunnerMove)
    requires RunnerInv(s.q, s.w) && Enabled(s, Runs(r, move)) && !move.Pick? && !move.TryActivate?
    ensures var s' := ApplyRunner(s, r, move);
            && s'.h == s.h && s'.q.order == s.q.order
            && (forall k | k in s'.w.runners && s'.w.runners[k].Picked? :: k in s.w.runners && s.w.runners[k] == s'.w.runners[k])
  {
    match move
    case _ =>
  }

  lemma ActivateInOrder(s: Sys, r: nat)
    requires RunnerInv(s.q, s.w) && OrderInv(s) && Enabled(s, Runs(r, TryActivate))
    requires Activate(s.q, s.w.runners[r].id).1
    ensures OrderInv(ApplyRunner(s, r, TryActivate))
  {
    HistoryInvRunner(s, r, TryActivate);
    var id := s.w.runners[r].id;
    var s' := ApplyRunner(s, r, TryActivate);
    RemoveAtAscending(s.h, s.q.order, IndexOf(s.q.order, id));
    assert PickIsFirst(s.h, s.q.order, id);
    ActivationAppends(s.h, s.q.order, s'.q.order, id);
    assert forall k | k in s'.w.runners :: k == r;
  }

  /** Activating an owner's first queued batch keeps the activation order. */
  lemma ActivationAppends(h: History, order: seq<Id>, order': seq<Id>, id: Id)
    requires InSubmissionOrder(h) && ActivatedFirst(h, order) && PickIsFirst(h, order, id)
    requires id in order && id in h.ticket && id in h.owner
    requires forall x | x in order' :: x in order && x != id
    ensures var h' := h.(activated := h.activated + [id]);
            InSubmissionOrder(h') && ActivatedFirst(h', order')
  {
    var h' := h.(activated := h.activated + [id]);
    var n := |h.activated|;
    assert forall a :: a in h'.activated ==> a in h.activated || a == id;
    assert forall a, b :: (Same(h', a, b) <==> Same(h, a, b)) && (Before(h', a, b) <==> Before(h, a, b));
    forall i, j | 0 <= i < j < |h'.activated| && Same(h', h'.activated[i], h'.activated[j])
      ensures Before(h', h'.activated[i], h'.activated[j])
    {
      assert h.activated[i] in h.activated;
    }
  }

  predicate IsReorder(step: Step) {
    step.Requested? && step.request.ReorderRequest?
  }

  lemma OrderInvKept(s: Sys, step: Step)
    requires Inv(s) && OrderInv(s) && Enabled(s, step) && !IsReorder(step)
    ensures OrderInv(Apply(s, step))
  {
    match step
    case Requested(request) => OrderInvRequest(s, request);
    case Runs(r, move) => OrderInvRunner(s, r, move);
    case _ =>
  }

  // ---------------------------------------------------------------- runs

  /** A run: every state follows from the one before by an enabled step. */
  ghost predicate IsRun(states: seq<Sys>, steps: seq<Step>) {
    && |states| == |steps| + 1
    && Init(states[0])
    && (forall i | 0 <= i < |steps| :: Enabled(states[i], steps[i]) && states[i + 1] == Apply(states[i], steps[i]))
  }

  lemma {:induction false} RunInv(states: seq<Sys>, steps: seq<Step>, n: nat)
    requires IsRun(states, steps) && n < |states|
    ensures Inv(states[n])
  {
    if n == 0 {
      InitInv(states[0]);
    } else {
      RunInv(states, steps, n - 1);
      InvKept(states[n - 1], steps[n - 1]);
    }
  }

  /** The timer puts the engine to sleep only while no manual scan process is
      alive, from the moment it decides until the sleep action returns, and only
      when no manual scan has started and no administrator has put the engine to
      sleep or woken it for the whole armed interval (at least ten minutes). */
  lemma NoSleepUnderScan(states: seq<Sys>, steps: seq<Step>, n: nat)
    requires IsRun(states, steps) && n < |states|
    requires states[n].p.timer.pc == Sleeping
    ensures states[n].w.live == {}
    ensures states[n].p.holder == TimerHolds
    ensures states[n].p.now - states[n].p.lastReset >= states[n].p.timer.armedInterval >= MIN_SLEEP_TIMER
  {
    RunInv(states, steps, n);
  }

  /** While the sleep action runs no step starts a process or another power action. */
  lemma SleepExcludesStarts(states: seq<Sys>, steps: seq<Step>, n: nat)
    requires IsRun(states, steps) && n < |steps|
    requires states[n].p.timer.pc == Sleeping
    ensures states[n + 1].w.live == {}
    ensures states[n + 1].p.lastReset == states[n].p.lastReset
  {
    RunInv(states, steps, n);
    var s, step := states[n], steps[n];
    match step
    case Runs(r, move) => assert !HoldsPower(s.w.runners[r]);
    case _ =>
  }

  lemma OnlyTimerMovesTimer(s: Sys, step: Step)
    requires Enabled(s, step) && Apply(s, step).p.timer.pc != s.p.timer.pc
    ensures step.Times?
  {
    match step
    case Runs(r, move) => RunnerKeepsTimer(s, r, move);
    case _ =>
  }

  lemma RunnerKeepsTimer(s: Sys, r: nat, move: RunnerMove)
    requires Enabled(s, Runs(r, move))
    ensures ApplyRunner(s, r, move).p.timer == s.p.timer
  {
  }

  /** The decision to sleep is only taken under the power mutex, on a deadline that
      has passed, whose generation is current, and whose interval is current unless
      a settings request has stored another one and not announced it yet. */
  lemma NoStaleDeadline(states: seq<Sys>, steps: seq<Step>, n: nat)
    requires IsRun(states, steps) && n < |steps|
    requires states[n].p.timer.pc != Guarding && states[n + 1].p.timer.pc == Guarding
    ensures var p := states[n].p;
            && p.holder == TimerHolds
            && p.generation == p.timer.armedGeneration
            && p.timer.armedAt + p.timer.armedInterval <= p.now
            && p.lastAdvance <= p.timer.armedAt
            && (p.timer.armedInterval == p.interval || p.configPending > 0)
  {
    RunInv(states, steps, n);
    OnlyTimerMovesTimer(states[n], steps[n]);
    match steps[n].timerMove
    case RecheckGeneration =>
    case _ =>
  }

  /** A live process belongs to the running batch, of which there is one. */
  lemma LiveMeansActive(states: seq<Sys>, steps: seq<Step>, n: nat)
    requires IsRun(states, steps) && n < |states|
    requires states[n].w.live != {}
    ensures states[n].q.active != NO_BATCH && states[n].q.active in states[n].q.batches
    ensures exists pid :: states[n].w.live == {pid}
  {
    RunInv(states, steps, n);
    var s := states[n];
    var r :| r in s.w.runners;
    assert s.w.live <= Pids(s.w.runners[r]);
    var pid :| pid in s.w.live;
    assert s.w.live == {pid};
  }

  /** An advance that has been sent is seen by an arm() that began after it, or its
      token is still in the channel. When the timer waits in its select with an
      empty channel and nothing is in flight, its last arm() began after every
      advance, and an armed deadline is for the current generation and interval. */
  lemma NoResetLost(states: seq<Sys>, steps: seq<Step>, n: nat)
    requires IsRun(states, steps) && n < |states|
    ensures var s := states[n];
            forall g: nat | 1 <= g <= s.p.generation && !InFlight(s.w, s.p, g) :: g <= s.p.timer.armStart || s.p.token
    ensures var s, t := states[n], states[n].p.timer;
            t.pc == Selecting && !s.p.token && s.p.configPending == 0 && (forall g: nat :: !InFlight(s.w, s.p, g)) ==>
              && t.armStart == s.p.generation
              && (t.armed ==> t.armedGeneration == s.p.generation && t.armedInterval == s.p.interval)
  {
    RunInv(states, steps, n);
    var s := states[n];
    assert InFlight(s.w, s.p, s.p.generation) || s.p.token || s.p.generation == s.p.timer.armStart;
  }

  /** One runner exists exactly when the flag is set, queued work implies the flag,
      and every batch is queued once or running. */
  lemma OneRunner(states: seq<Sys>, steps: seq<Step>, n: nat)
    requires IsRun(states, steps) && n < |states|
    ensures var s := states[n];
            && WellFormed(s.q)
            && (s.q.runnerActive ==> exists r :: s.w.runners.Keys == {r})
            && (!s.q.runnerActive ==> s.w.runners == map[] && s.q.order == [] && s.q.active == NO_BATCH)
  {
    RunInv(states, steps, n);
    var s := states[n];
    if s.q.runnerActive {
      var r :| r in s.w.runners;
      assert s.w.runners.Keys == {r};
    } else {
      assert s.w.runners == map[];
    }
  }

  lemma {:induction false} RunOrderInv(states: seq<Sys>, steps: seq<Step>, n: nat)
    requires IsRun(states, steps) && n < |states|
    requires forall i | 0 <= i < n :: !IsReorder(steps[i])
    ensures OrderInv(states[n])
  {
    if n == 0 {
      InitInv(states[0]);
    } else {
      RunOrderInv(states, steps, n - 1);
      RunInv(states, steps, n - 1);
      OrderInvKept(states[n - 1], steps[n - 1]);
    }
  }

  /** In a run without reordering one user's batches are activated in the order in
      which they were submitted, whatever users are drawn and however cancels,
      purges and submissions fall between pick and activation. */
  lemma ActivatedInSubmissionOrder(states: seq<Sys>, steps: seq<Step>, n: nat)
    requires IsRun(states, steps) && n < |states|
    requires forall i | 0 <= i < n :: !IsReorder(steps[i])
    ensures InSubmissionOrder(states[n].h)
  {
    RunOrderInv(states, steps, n);
  }
}
