/** The lookup runtime and its records under concurrency (server/lookups.go).

    lookupLifecycleMu is held across steps: its holder's place in the code is the
    phase. Workers publish and leave, the runtime stops and time passes between any
    two steps of the holder. Sections under the runtime mutex or a record mutex are
    single steps. */
module LookupProtocol {
  import opened Lookups
  import opened Sets

  /** A start request: what the handler put into the record before it asked. */
  datatype Request = Request(id: Id, user: User, kind: Kind, at: int)

  /** Who has the lifecycle lock, and where that goroutine is. */
  datatype Phase =
    | Free
    | Cleaning(todo: set<Id>, after: After)
    | CancellingRemoved(id: Id, todo: set<Id>, after: After)
    | MakingRoom(request: Request)
    | Evicting(request: Request, victim: Id)
    | Roomy(request: Request)
    | Inserted(request: Request)
    | Removing(user: User, toCancel: set<Id>, toWait: set<Id>)
    | Deleting(user: User, todo: set<Id>)

  datatype After = ThenStart(request: Request) | ThenRelease

  /** `used` are the ids handed out so far. */
  datatype Sys = Sys(t: Tables, phase: Phase, now: int, used: set<Id>)

  datatype Step =
    | StartBegins(request: Request)
    | JanitorBegins(at: int)
    | CleanOne(id: Id)
    | CancelRemoved
    | CleanupEnds
    | LookForRoom(victim: Id)
    | GiveUpRoom
    | Evict
    | Insert
    | Launch
    | RemoveBegins(user: User)
    | CancelOne(id: Id)
    | WaitEnds
    | DeleteOne(id: Id)
    | RemoveEnds
    | Publish(id: Id, ok: bool)
    | Abandon(id: Id)
    | Leave(id: Id)
    | Stop
    | CancelContext
    | Tick(elapsed: nat)

  predicate Init(s: Sys) {
    s.t == NO_LOOKUPS && s.phase == Free && s.used == {}
  }

  predicate Running(s: Sys, id: Id) {
    id in s.t.workers && !s.t.workers[id].returned
  }

  /** The record as the handler fills it in. */
  function NewRecord(request: Request): Record {
    Record(request.kind, request.user, Pending, request.at, request.at)
  }

  predicate EnabledHolder(s: Sys, step: Step) {
    match step
    case StartBegins(request) =>
      s.phase == Free && request.user != "" && request.id !in s.used && request.at <= s.now
    case JanitorBegins(at) => s.phase == Free && at <= s.now
    case CleanOne(id) => s.phase.Cleaning? && id in s.phase.todo
    case CancelRemoved => s.phase.CancellingRemoved?
    case CleanupEnds => s.phase.Cleaning? && s.phase.todo == {}
    case LookForRoom(victim) =>
      s.phase.MakingRoom? &&
      (|Listed(s.t.records, s.phase.request.user)| >= MAX_RETAINED ==>
         OldestCompleted(s.t.records, s.phase.request.user, victim))
    case GiveUpRoom =>
      && s.phase.MakingRoom? && |Listed(s.t.records, s.phase.request.user)| >= MAX_RETAINED
      && PendingOf(s.t.records, s.phase.request.user) == Listed(s.t.records, s.phase.request.user)
    case Evict => s.phase.Evicting?
    case Insert => s.phase.Roomy?
    case Launch => s.phase.Inserted?
    case RemoveBegins(user) => s.phase == Free && user != ""
    case CancelOne(id) => s.phase.Removing? && id in s.phase.toCancel
    case WaitEnds => s.phase.Removing? && s.phase.toCancel == {} && s.phase.toWait !! s.t.workers.Keys
    case DeleteOne(id) => s.phase.Deleting? && id in s.phase.todo
    case RemoveEnds => s.phase.Deleting? && s.phase.todo == {}
    case _ => false
  }

  /** A work function returns without publishing only when its context was
      cancelled or its record is gone; a timeout is published as a failure. */
  predicate EnabledOther(s: Sys, step: Step) {
    match step
    case Publish(id, ok) => Running(s, id)
    case Abandon(id) => Running(s, id) && (s.t.workers[id].cancelled || s.t.ctxDone || id !in s.t.records)
    case Leave(id) =>
      && id in s.t.workers && s.t.workers[id].returned
      && PendingCount(s.t.pending, s.t.workers[id].user) > 0
    case Stop => true
    case CancelContext => true
    case Tick(elapsed) => true
    case _ => false
  }

  predicate Enabled(s: Sys, step: Step) {
    EnabledHolder(s, step) || EnabledOther(s, step)
  }

  function ApplyHolder(s: Sys, step: Step): Sys
    requires EnabledHolder(s, step)
  {
    match step
    case StartBegins(request) =>
      s.(phase := Cleaning(OverdueIds(s.t.records, s.now), ThenStart(request)), used := s.used + {request.id})
    case JanitorBegins(at) => s.(phase := Cleaning(OverdueIds(s.t.records, at), ThenRelease))
    case CleanOne(id) =>
      s.(t := Deleted(s.t, id), phase := CancellingRemoved(id, s.phase.todo - {id}, s.phase.after))
    case CancelRemoved => s.(t := Cancelled(s.t, s.phase.id), phase := Cleaning(s.phase.todo, s.phase.after))
    case CleanupEnds =>
      if s.phase.after.ThenStart? && CanStart(s.t, s.phase.after.request.user) then
        s.(phase := MakingRoom(s.phase.after.request))
      else
        s.(phase := Free)
    case LookForRoom(victim) =>
      if |Listed(s.t.records, s.phase.request.user)| < MAX_RETAINED then
        s.(phase := Roomy(s.phase.request))
      else
        s.(phase := Evicting(s.phase.request, victim))
    case GiveUpRoom => s.(phase := Free)
    case Evict => s.(t := Deleted(s.t, s.phase.victim), phase := MakingRoom(s.phase.request))
    case Insert =>
      var request := s.phase.request;
      s.(t := s.t.(records := s.t.records[request.id := NewRecord(request)]), phase := Inserted(request))
    case Launch =>
      var request := s.phase.request;
      if CanStart(s.t, request.user) then
        s.(t := Started(s.t, request.id, request.user), phase := Free)
      else
        s.(t := Deleted(s.t, request.id), phase := Free)
    case RemoveBegins(user) =>
      var workers := WorkersOf(s.t.workers, user);
      s.(phase := Removing(user, workers, workers))
    case CancelOne(id) => s.(t := Cancelled(s.t, id), phase := s.phase.(toCancel := s.phase.toCancel - {id}))
    case WaitEnds => s.(phase := Deleting(s.phase.user, Listed(s.t.records, s.phase.user)))
    case DeleteOne(id) => s.(t := Deleted(s.t, id), phase := s.phase.(todo := s.phase.todo - {id}))
    case RemoveEnds => s.(phase := Free)
  }

  function ApplyOther(s: Sys, step: Step): Sys
    requires EnabledOther(s, step)
  {
    match step
    case Publish(id, ok) => s.(t := Published(s.t, id, ok, s.now))
    case Abandon(id) =>
      s.(t := s.t.(workers := s.t.workers[id := s.t.workers[id].(returned := true)]))
    case Leave(id) => s.(t := Left(s.t, id))
    case Stop => s.(t := s.t.(stopped := true))
    case CancelContext => s.(t := s.t.(ctxDone := true))
    case Tick(elapsed) => s.(now := s.now + elapsed)
  }

  function Apply(s: Sys, step: Step): Sys
    requires Enabled(s, step)
  {
    if EnabledHolder(s, step) then ApplyHolder(s, step) else ApplyOther(s, step)
  }

  // ------------------------------------------------------------- invariants

  /** A pending record that need not have a worker: the runtime is stopping, the
      record was inserted and is not launched yet, or its user is being removed. */
  predicate Excused(s: Sys, id: Id)
    requires id in s.t.records
  {
    || s.t.ctxDone
    || (s.phase.Inserted? && s.phase.request.id == id)
    || RemovingUser(s.phase, s.t.records[id].user)
  }

  predicate RemovingUser(phase: Phase, user: User) {
    (phase.Removing? || phase.Deleting?) && phase.user == user
  }

  predicate Backed(s: Sys, id: Id)
    requires id in s.t.records
  {
    Running(s, id) && s.t.workers[id].user == s.t.records[id].user
  }

  /** Each pending record has a live worker of the same user. */
  predicate RecordsBacked(s: Sys) {
    forall id <- s.t.records | s.t.records[id].status == Pending && !Excused(s, id) :: Backed(s, id)
  }

  /** A cancelled worker has no record any more, or its user is being removed. */
  predicate CancelledGone(s: Sys) {
    forall id <- s.t.workers | s.t.workers[id].cancelled && id in s.t.records ::
      RemovingUser(s.phase, s.t.workers[id].user)
  }

  predicate IdsUsed(s: Sys) {
    && s.t.records.Keys <= s.used && s.t.workers.Keys <= s.used
    && forall id <- s.t.records :: s.t.records[id].updatedAt <= s.now && s.t.records[id].user != ""
  }

  /** A worker and its record have one user, and a completed record's worker is
      on its way out. */
  predicate SameOwner(s: Sys) {
    forall id <- s.t.records | id in s.t.workers ::
      && s.t.records[id].user == s.t.workers[id].user
      && (s.t.records[id].status == Pending || s.t.workers[id].returned)
  }

  /** No user has more than two workers or ten records. */
  ghost predicate Limits(t: Tables) {
    && (forall user :: |WorkersOf(t.workers, user)| <= MAX_PENDING)
    && (forall user | user != "" :: |Listed(t.records, user)| <= MAX_RETAINED)
  }

  /** The id of a start that has not inserted its record. */
  predicate Unborn(s: Sys, request: Request) {
    && request.user != "" && request.at <= s.now && request.id in s.used
    && request.id !in s.t.records && request.id !in s.t.workers
  }

  predicate HasSlot(s: Sys, user: User) {
    |WorkersOf(s.t.workers, user)| < MAX_PENDING
  }

  predicate HasRequest(phase: Phase) {
    phase.MakingRoom? || phase.Evicting? || phase.Roomy? || phase.Inserted?
  }

  predicate PhaseInv(s: Sys) {
    match s.phase
    case Free => true
    case Cleaning(todo, after) => todo <= s.used && AfterInv(s, todo, after)
    case CancellingRemoved(id, todo, after) => id !in s.t.records && todo <= s.used && AfterInv(s, todo + {id}, after)
    case MakingRoom(request) => Unborn(s, request) && HasSlot(s, request.user)
    case Evicting(request, victim) =>
      && Unborn(s, request) && HasSlot(s, request.user)
      && victim != request.id && OldestCompleted(s.t.records, request.user, victim)
    case Roomy(request) =>
      && Unborn(s, request) && HasSlot(s, request.user)
      && |Listed(s.t.records, request.user)| < MAX_RETAINED
    case Inserted(request) =>
      && HasSlot(s, request.user) && request.id !in s.t.workers
      && request.id in s.t.records && s.t.records[request.id] == NewRecord(request)
    case Removing(user, toCancel, toWait) =>
      && user != "" && WorkersOf(s.t.workers, user) <= toWait && toCancel <= toWait
      && (forall id <- toWait | id in s.t.workers :: s.t.workers[id].user == user)
      && forall id <- toWait - toCancel | id in s.t.workers :: s.t.workers[id].cancelled
    case Deleting(user, todo) =>
      user != "" && WorkersOf(s.t.workers, user) == {} && Listed(s.t.records, user) <= todo
  }

  predicate AfterInv(s: Sys, todo: set<Id>, after: After) {
    after.ThenStart? ==> Unborn(s, after.request) && after.request.id !in todo
  }

  ghost predicate Inv(s: Sys) {
    && Counted(s.t) && Limits(s.t)
    && IdsUsed(s) && SameOwner(s)
    && RecordsBacked(s) && CancelledGone(s)
    && PhaseInv(s)
  }

  lemma InitInv(s: Sys)
    requires Init(s)
    ensures Inv(s)
  {
  }

  // ------------------------------------------------------------- every step keeps them

  lemma CountedHolder(s: Sys, step: Step)
    requires Inv(s) && EnabledHolder(s, step)
    ensures Counted(ApplyHolder(s, step).t)
  {
    if step == Launch && CanStart(s.t, s.phase.request.user) {
      StartedCounts(s.t, s.phase.request.id, s.phase.request.user);
    } else {
      SameWorkersCount(s.t, ApplyHolder(s, step).t);
    }
  }

  lemma CountedOther(s: Sys, step: Step)
    requires Inv(s) && EnabledOther(s, step)
    ensures Counted(ApplyOther(s, step).t)
  {
    if step.Leave? {
      LeftCounts(s.t, step.id);
    } else {
      SameWorkersCount(s.t, ApplyOther(s, step).t);
    }
  }

  lemma WorkersShrink(t: Tables, t': Tables, user: User)
    requires t'.workers.Keys <= t.workers.Keys
    requires forall id <- t'.workers :: t'.workers[id].user == t.workers[id].user
    ensures |WorkersOf(t'.workers, user)| <= |WorkersOf(t.workers, user)|
  {
    SubsetSize(WorkersOf(t'.workers, user), WorkersOf(t.workers, user));
  }

  lemma ListedShrinks(t: Tables, t': Tables, user: User)
    requires t'.records.Keys <= t.records.Keys
    requires forall id <- t'.records :: t'.records[id].user == t.records[id].user
    ensures |Listed(t'.records, user)| <= |Listed(t.records, user)|
  {
    SubsetSize(Listed(t'.records, user), Listed(t.records, user));
  }

  lemma LimitsShrink(t: Tables, t': Tables)
    requires Limits(t)
    requires t'.workers.Keys <= t.workers.Keys && t'.records.Keys <= t.records.Keys
    requires forall id <- t'.workers :: t'.workers[id].user == t.workers[id].user
    requires forall id <- t'.records :: t'.records[id].user == t.records[id].user
    ensures Limits(t')
  {
    forall user ensures |WorkersOf(t'.workers, user)| <= MAX_PENDING { WorkersShrink(t, t', user); }
    forall user | user != "" ensures |Listed(t'.records, user)| <= MAX_RETAINED { ListedShrinks(t, t', user); }
  }

  lemma LimitsInsert(s: Sys)
    requires Inv(s) && s.phase.Roomy?
    ensures Limits(ApplyHolder(s, Insert).t)
  {
    var request := s.phase.request;
    var t' := ApplyHolder(s, Insert).t;
    forall user | user != "" ensures |Listed(t'.records, user)| <= MAX_RETAINED {
      if user == request.user {
        assert Listed(t'.records, user) == Listed(s.t.records, user) + {request.id};
      } else {
        assert Listed(t'.records, user) == Listed(s.t.records, user);
      }
    }
  }

  lemma LimitsLaunch(s: Sys)
    requires Inv(s) && s.phase.Inserted?
    ensures Limits(ApplyHolder(s, Launch).t)
  {
    var request := s.phase.request;
    if CanStart(s.t, request.user) {
      forall user ensures |WorkersOf(Started(s.t, request.id, request.user).workers, user)| <= MAX_PENDING {
        WorkersAdd(s.t.workers, request.id, Worker(request.user, false, false), user);
      }
    } else {
      LimitsShrink(s.t, Deleted(s.t, request.id));
    }
  }

  lemma LimitsKept(s: Sys, step: Step)
    requires Inv(s) && Enabled(s, step)
    ensures Limits(Apply(s, step).t)
  {
    if step == Insert {
      LimitsInsert(s);
    } else if step == Launch {
      LimitsLaunch(s);
    } else {
      LimitsShrink(s.t, Apply(s, step).t);
    }
  }

  predicate RemovesUser(step: Step) {
    step.RemoveBegins? || step.CancelOne? || step.WaitEnds? || step.DeleteOne? || step.RemoveEnds?
  }

  predicate PlacesRecord(step: Step) {
    step == Insert || step == Launch
  }

  lemma BackedRemoval(s: Sys, step: Step)
    requires Inv(s) && EnabledHolder(s, step) && RemovesUser(step)
    ensures RecordsBacked(ApplyHolder(s, step))
  {
    if step == RemoveEnds {
      forall id <- s.t.records ensures s.t.records[id].user != s.phase.user {
        assert id !in Listed(s.t.records, s.phase.user);
      }
    }
  }

  lemma BackedPlacement(s: Sys, step: Step)
    requires Inv(s) && EnabledHolder(s, step) && PlacesRecord(step)
    ensures RecordsBacked(ApplyHolder(s, step))
  {
  }

  lemma BackedCleaning(s: Sys, step: Step)
    requires Inv(s) && EnabledHolder(s, step) && !RemovesUser(step) && !PlacesRecord(step)
    ensures RecordsBacked(ApplyHolder(s, step))
  {
  }

  lemma BackedHolder(s: Sys, step: Step)
    requires Inv(s) && EnabledHolder(s, step)
    ensures RecordsBacked(ApplyHolder(s, step))
  {
    if RemovesUser(step) {
      BackedRemoval(s, step);
    } else if PlacesRecord(step) {
      BackedPlacement(s, step);
    } else {
      BackedCleaning(s, step);
    }
  }

  lemma BackedOther(s: Sys, step: Step)
    requires Inv(s) && EnabledOther(s, step)
    ensures RecordsBacked(ApplyOther(s, step))
  {
  }

  lemma IdsHolder(s: Sys, step: Step)
    requires Inv(s) && EnabledHolder(s, step)
    ensures IdsUsed(ApplyHolder(s, step))
  {
  }

  lemma OwnerHolder(s: Sys, step: Step)
    requires Inv(s) && EnabledHolder(s, step)
    ensures SameOwner(ApplyHolder(s, step))
  {
  }

  lemma IdsOther(s: Sys, step: Step)
    requires Inv(s) && EnabledOther(s, step)
    ensures IdsUsed(ApplyOther(s, step)) && SameOwner(ApplyOther(s, step))
  {
  }

  lemma CancelledHolder(s: Sys, step: Step)
    requires Inv(s) && EnabledHolder(s, step)
    ensures CancelledGone(ApplyHolder(s, step))
  {
    if RemovesUser(step) { CancelledRemoval(s, step); } else { CancelledRest(s, step); }
  }

  lemma CancelledRest(s: Sys, step: Step)
    requires Inv(s) && EnabledHolder(s, step) && !RemovesUser(step)
    ensures CancelledGone(ApplyHolder(s, step))
  {
  }

  lemma CancelledRemoval(s: Sys, step: Step)
    requires Inv(s) && EnabledHolder(s, step) && RemovesUser(step)
    ensures CancelledGone(ApplyHolder(s, step))
  {
    if step == RemoveEnds {
      forall id <- s.t.workers ensures s.t.workers[id].user != s.phase.user {
        assert id !in WorkersOf(s.t.workers, s.phase.user);
      }
    }
  }

  lemma CancelledOther(s: Sys, step: Step)
    requires Inv(s) && EnabledOther(s, step)
    ensures CancelledGone(ApplyOther(s, step))
  {
  }

  lemma PhaseHolder(s: Sys, step: Step)
    requires Inv(s) && EnabledHolder(s, step)
    ensures PhaseInv(ApplyHolder(s, step))
  {
  }

  lemma SlotOther(s: Sys, step: Step, user: User)
    requires Inv(s) && EnabledOther(s, step)
    ensures HasSlot(s, user) ==> HasSlot(ApplyOther(s, step), user)
    ensures Listed(ApplyOther(s, step).t.records, user) == Listed(s.t.records, user)
  {
    WorkersShrink(s.t, ApplyOther(s, step).t, user);
  }

  lemma RequestPhaseOther(s: Sys, step: Step)
    requires Inv(s) && EnabledOther(s, step) && HasRequest(s.phase)
    ensures PhaseInv(ApplyOther(s, step))
  {
    SlotOther(s, step, s.phase.request.user);
  }

  lemma OtherPhaseOther(s: Sys, step: Step)
    requires Inv(s) && EnabledOther(s, step) && !HasRequest(s.phase)
    ensures PhaseInv(ApplyOther(s, step))
  {
  }

  lemma InvKept(s: Sys, step: Step)
    requires Inv(s) && Enabled(s, step)
    ensures Inv(Apply(s, step))
  {
    LimitsKept(s, step);
    if EnabledHolder(s, step) {
      CountedHolder(s, step);
      BackedHolder(s, step);
      IdsHolder(s, step);
      OwnerHolder(s, step);
      CancelledHolder(s, step);
      PhaseHolder(s, step);
    } else {
      CountedOther(s, step);
      BackedOther(s, step);
      IdsOther(s, step);
      CancelledOther(s, step);
      if HasRequest(s.phase) { RequestPhaseOther(s, step); } else { OtherPhaseOther(s, step); }
    }
  }

  // ------------------------------------------------------------- over whole runs

  ghost predicate IsRun(states: seq<Sys>, steps: seq<Step>) {
    && |states| == |steps| + 1
    && Init(states[0])
    && forall k | 0 <= k < |steps| :: Enabled(states[k], steps[k]) && states[k + 1] == Apply(states[k], steps[k])
  }

  lemma {:induction false} RunInv(states: seq<Sys>, steps: seq<Step>, n: nat)
    requires IsRun(states, steps) && n < |states|
    ensures Inv(states[n])
  {
    if n == 0 {
      InitInv(states[0]);
    } else {
      RunInv(states, steps, n - 1);
      InvKept(states[n - 1], steps[n - 1]);
    }
  }

  /** At every moment of every run, also in the middle of a start, a clean-up or a
      removal, the counter of a user is the number of that user's live workers, at
      most two, and the three maps together hold at most ten records of the user. */
  lemma LimitsHold(states: seq<Sys>, steps: seq<Step>, n: nat, user: User)
    requires IsRun(states, steps) && n < |states| && user != ""
    ensures PendingCount(states[n].t.pending, user) == |WorkersOf(states[n].t.workers, user)| <= MAX_PENDING
    ensures |Listed(states[n].t.records, user)| <= MAX_RETAINED
  {
    RunInv(states, steps, n);
  }

  lemma PendingHaveWorkers(s: Sys, user: User)
    requires Inv(s) && !s.t.ctxDone && user != "" && !s.phase.Inserted? && !RemovingUser(s.phase, user)
    ensures PendingOf(s.t.records, user) <= WorkersOf(s.t.workers, user)
    ensures |PendingOf(s.t.records, user)| <= |WorkersOf(s.t.workers, user)|
  {
    SubsetSize(PendingOf(s.t.records, user), WorkersOf(s.t.workers, user));
  }

  /** Whenever the lifecycle lock is free and the runtime's context is not done,
      each pending record has a live worker of its user that has not returned and
      was not cancelled, so no record can stay pending for ever; hence no user has
      more than two pending records. */
  lemma NoAbandonedRecord(states: seq<Sys>, steps: seq<Step>, n: nat, id: Id)
    requires IsRun(states, steps) && n < |states|
    requires states[n].phase == Free && !states[n].t.ctxDone
    requires id in states[n].t.records && states[n].t.records[id].status == Pending
    ensures Running(states[n], id) && !states[n].t.workers[id].cancelled
    ensures states[n].t.workers[id].user == states[n].t.records[id].user
    ensures |PendingOf(states[n].t.records, states[n].t.records[id].user)| <= MAX_PENDING
  {
    RunInv(states, steps, n);
    assert Backed(states[n], id);
    PendingHaveWorkers(states[n], states[n].t.records[id].user);
  }

  /** Among completed records there is an oldest one. */
  lemma OldestExists(records: map<Id, Record>, user: User, among: set<Id>) returns (oldest: Id)
    requires among != {}
    requires forall id <- among :: id in Listed(records, user) && records[id].status != Pending
    ensures oldest in among
    ensures forall other <- among | other in records && oldest in records ::
              records[oldest].updatedAt <= records[other].updatedAt
  {
    var some :| some in among;
    if among == {some} {
      oldest := some;
    } else {
      var best := OldestExists(records, user, among - {some});
      oldest := if records[some].updatedAt <= records[best].updatedAt then some else best;
    }
  }

  /** Making room for a start that passed canStart cannot fail: unless the runtime
      is stopping, the branch that gives up is never taken, because some completed
      record is the oldest and can go. */
  lemma RoomIsAlwaysFound(states: seq<Sys>, steps: seq<Step>, n: nat) returns (victim: Id)
    requires IsRun(states, steps) && n < |states|
    requires states[n].phase.MakingRoom? && !states[n].t.ctxDone
    ensures !Enabled(states[n], GiveUpRoom)
    ensures Enabled(states[n], LookForRoom(victim))
  {
    RunInv(states, steps, n);
    var s := states[n];
    var user := s.phase.request.user;
    PendingHaveWorkers(s, user);
    victim := 0;
    if |Listed(s.t.records, user)| >= MAX_RETAINED {
      var completed := Listed(s.t.records, user) - PendingOf(s.t.records, user);
      SubsetSize(PendingOf(s.t.records, user), Listed(s.t.records, user));
      victim := OldestExists(s.t.records, user, completed);
      assert OldestCompleted(s.t.records, user, victim);
    }
  }

  /** What an eviction deletes is, at that moment, a completed record of the user
      who asked and the oldest one, whatever was published since it was chosen. */
  lemma EvictsOldest(states: seq<Sys>, steps: seq<Step>, n: nat)
    requires IsRun(states, steps) && n < |steps| && steps[n] == Evict
    ensures OldestCompleted(states[n].t.records, states[n].phase.request.user, states[n].phase.victim)
    ensures states[n + 1].t.records == states[n].t.records - {states[n].phase.victim}
  {
    RunInv(states, steps, n);
  }

  predicate LooksForRoom(phase: Phase) {
    phase.MakingRoom? || phase.Evicting?
  }

  /** How much the loop that makes room has left to do. */
  ghost function RoomMeasure(s: Sys): nat
    requires LooksForRoom(s.phase)
  {
    2 * |Listed(s.t.records, s.phase.request.user)| + if s.phase.MakingRoom? then 1 else 0
  }

  /** The loop that makes room ends: its own steps leave the loop or lower the
      measure, and no other step raises it. */
  lemma RoomLoopEnds(states: seq<Sys>, steps: seq<Step>, n: nat)
    requires IsRun(states, steps) && n < |steps|
    requires LooksForRoom(states[n].phase) && LooksForRoom(states[n + 1].phase)
    ensures states[n + 1].phase.request == states[n].phase.request
    ensures if EnabledHolder(states[n], steps[n]) then RoomMeasure(states[n + 1]) < RoomMeasure(states[n])
            else RoomMeasure(states[n + 1]) == RoomMeasure(states[n])
  {
    RunInv(states, steps, n);
    var s, s', user := states[n], states[n + 1], states[n].phase.request.user;
    if EnabledOther(s, steps[n]) {
      SlotOther(s, steps[n], user);
    } else if steps[n] == Evict {
      assert Listed(s'.t.records, user) == Listed(s.t.records, user) - {s.phase.victim};
    }
  }

  /** A start that got as far as inserting its record launches its worker, unless
      the runtime is stopping; if it is, the record is taken out again. */
  lemma LaunchSucceeds(states: seq<Sys>, steps: seq<Step>, n: nat)
    requires IsRun(states, steps) && n < |steps| && steps[n] == Launch
    ensures var id := states[n].phase.request.id;
            if states[n].t.stopped || states[n].t.ctxDone then id !in states[n + 1].t.records
            else id in states[n + 1].t.records && Backed(states[n + 1], id) && !states[n + 1].t.workers[id].cancelled
  {
    RunInv(states, steps, n);
  }

  /** Removing a user leaves neither a worker nor a record of the user behind. */
  lemma RemovalIsComplete(states: seq<Sys>, steps: seq<Step>, n: nat)
    requires IsRun(states, steps) && n < |steps| && steps[n] == RemoveEnds
    ensures WorkersOf(states[n + 1].t.workers, states[n].phase.user) == {}
    ensures Listed(states[n + 1].t.records, states[n].phase.user) == {}
    ensures states[n].phase.user !in states[n + 1].t.pending
  {
    RunInv(states, steps, n);
    RunInv(states, steps, n + 1);
    assert PendingCount(states[n + 1].t.pending, states[n].phase.user) == 0;
  }

  /** The wait inside a removal cannot get stuck: each worker that is waited for
      and was cancelled may give up or leave at once, and nobody starts another. */
  lemma RemovalProgresses(states: seq<Sys>, steps: seq<Step>, n: nat, id: Id)
    requires IsRun(states, steps) && n < |states|
    requires states[n].phase.Removing? && id in states[n].phase.toWait && id in states[n].t.workers
    ensures Enabled(states[n], CancelOne(id)) || Enabled(states[n], Abandon(id)) || Enabled(states[n], Leave(id))
  {
    RunInv(states, steps, n);
    WorkerIsCounted(states[n], id);
  }

  lemma WorkerIsCounted(s: Sys, id: Id)
    requires Inv(s) && id in s.t.workers
    ensures PendingCount(s.t.pending, s.t.workers[id].user) > 0
  {
    assert id in WorkersOf(s.t.workers, s.t.workers[id].user);
  }

  /** A worker that returned can always leave: its counter never falls below zero. */
  lemma CounterNeverUnderflows(states: seq<Sys>, steps: seq<Step>, n: nat, id: Id)
    requires IsRun(states, steps) && n < |states|
    requires id in states[n].t.workers && states[n].t.workers[id].returned
    ensures Enabled(states[n], Leave(id))
  {
    RunInv(states, steps, n);
    WorkerIsCounted(states[n], id);
  }
}
