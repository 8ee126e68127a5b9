/** What the limits and times of the lookups mean over whole runs (server/lookups.go),
    with owners, numbers and times written out. */
module LookupLaws {
  import opened Lookups
  import opened LookupProtocol
  import opened Sets

  const NINETY_SECONDS: int := 90_000_000_000
  const FIFTEEN_MINUTES: int := 900_000_000_000

  // ------------------------------------------------------------- one section

  /** A worker starts exactly while the runtime runs and the user has fewer than two. */
  lemma StartExactly(t: Tables, user: User)
    requires Counted(t)
    ensures CanStart(t, user) <==>
            !t.stopped && !t.ctxDone && |set w | w in t.workers && t.workers[w].user == user| < 2
  {
    assert (set w | w in t.workers && t.workers[w].user == user) == WorkersOf(t.workers, user);
  }

  /** What is published is the outcome and its time, in that record only. */
  lemma PublishMeaning(t: Tables, id: Id, ok: bool, now: int, other: Id)
    requires id in t.workers
    ensures var t' := Published(t, id, ok, now);
            && t'.records.Keys == t.records.Keys && t'.workers.Keys == t.workers.Keys
            && t'.workers[id].returned && t'.pending == t.pending
            && (id in t.records ==>
                  && t'.records[id].status == (if ok then Success else Failed) && t'.records[id].updatedAt == now
                  && t'.records[id].startedAt == t.records[id].startedAt && t'.records[id].user == t.records[id].user
                  && t'.records[id].kind == t.records[id].kind)
            && (other in t.records && other != id ==> t'.records[other] == t.records[other])
            && (other in t.workers && other != id ==> t'.workers[other] == t.workers[other])
  {
  }

  /** A start with fewer than two workers and ten records goes through, once the
      clean-up before it is over: its record is there, pending, and its worker runs. */
  lemma StartGoesThrough(s: Sys, request: Request)
    requires Inv(s) && s.phase == Cleaning({}, ThenStart(request)) && !s.t.stopped && !s.t.ctxDone
    requires |WorkersOf(s.t.workers, request.user)| < 2 && |Listed(s.t.records, request.user)| < 10
    ensures Enabled(s, CleanupEnds)
    ensures var s1 := Apply(s, CleanupEnds);
            && Enabled(s1, LookForRoom(0))
            && var s2 := Apply(s1, LookForRoom(0));
            && Enabled(s2, Insert)
            && var s3 := Apply(s2, Insert);
            && Enabled(s3, Launch)
            && var s4 := Apply(s3, Launch);
            && s4.phase == Free
            && s4.t.records == s.t.records[request.id := Record(request.kind, request.user, Pending, request.at, request.at)]
            && s4.t.workers == s.t.workers[request.id := Worker(request.user, false, false)]
  {
    assert PendingCount(s.t.pending, request.user) == |WorkersOf(s.t.workers, request.user)|;
  }

  // ------------------------------------------------------------- the limits

  /** At every moment of every run: no three workers and no eleven records of one user. */
  lemma NoMoreThan(states: seq<Sys>, steps: seq<Step>, n: nat, user: User, ids: set<Id>)
    requires IsRun(states, steps) && n < |states| && user != ""
    ensures (forall id <- ids :: id in states[n].t.workers && states[n].t.workers[id].user == user) ==> |ids| <= 2
    ensures (forall id <- ids :: id in states[n].t.records && states[n].t.records[id].user == user) ==> |ids| <= 10
  {
    LimitsHold(states, steps, n, user);
    if forall id <- ids :: id in states[n].t.workers && states[n].t.workers[id].user == user {
      SubsetSize(ids, WorkersOf(states[n].t.workers, user));
    }
    if forall id <- ids :: id in states[n].t.records && states[n].t.records[id].user == user {
      SubsetSize(ids, Listed(states[n].t.records, user));
    }
  }

  /** A removal leaves no worker and no record of the user. */
  lemma NothingIsLeft(states: seq<Sys>, steps: seq<Step>, n: nat, id: Id)
    requires IsRun(states, steps) && n < |steps| && steps[n] == RemoveEnds
    ensures id in states[n + 1].t.records ==> states[n + 1].t.records[id].user != states[n].phase.user
    ensures id in states[n + 1].t.workers ==> states[n + 1].t.workers[id].user != states[n].phase.user
  {
    RemovalIsComplete(states, steps, n);
    assert id !in Listed(states[n + 1].t.records, states[n].phase.user);
    assert id !in WorkersOf(states[n + 1].t.workers, states[n].phase.user);
  }

  // ------------------------------------------------------------- why a record goes

  function Todo(phase: Phase): set<Id> {
    match phase
    case Cleaning(todo, _) => todo
    case CancellingRemoved(_, todo, _) => todo
    case _ => {}
  }

  predicate LateAt(record: Record, now: int) {
    if record.status == Pending then now >= record.startedAt + NINETY_SECONDS
    else now >= record.updatedAt + FIFTEEN_MINUTES
  }

  /** At step b a clean-up listed the record because its time was over. */
  predicate ListedAsLate(states: seq<Sys>, b: nat, id: Id)
    requires b < |states|
  {
    states[b].phase == Free && id in states[b].t.records && LateAt(states[b].t.records[id], states[b].now)
  }

  lemma {:induction false} TodoWasListed(states: seq<Sys>, steps: seq<Step>, n: nat, id: Id) returns (b: nat)
    requires IsRun(states, steps) && n < |states| && id in Todo(states[n].phase)
    ensures b < n && ListedAsLate(states, b, id)
  {
    var s, step := states[n - 1], steps[n - 1];
    if id in Todo(s.phase) {
      b := TodoWasListed(states, steps, n - 1, id);
    } else {
      TodoIsNew(s, step, id);
      b := n - 1;
    }
  }

  lemma TodoIsNew(s: Sys, step: Step, id: Id)
    requires Enabled(s, step) && id in Todo(Apply(s, step).phase) && id !in Todo(s.phase)
    ensures s.phase == Free && id in s.t.records && LateAt(s.t.records[id], s.now)
  {
  }

  /** A record leaves the tables for one of four reasons. */
  predicate HasCause(states: seq<Sys>, steps: seq<Step>, m: nat, id: Id)
    requires IsRun(states, steps) && m < |steps| && id in states[m].t.records
  {
    || EvictsIt(states[m], steps[m], id)
    || (steps[m] == DeleteOne(id) && states[m].phase.Deleting? && states[m].phase.user == states[m].t.records[id].user)
    || (steps[m] == Launch && states[m].t.records[id].status == Pending && (states[m].t.stopped || states[m].t.ctxDone))
    || (steps[m] == CleanOne(id) && exists b | 0 <= b < m :: ListedAsLate(states, b, id))
  }

  /** Room is made for another record of the same user, who has ten, and none of that
      user's completed records is older. */
  predicate EvictsIt(s: Sys, step: Step, id: Id)
    requires id in s.t.records
  {
    && step == Evict && s.phase.Evicting? && s.phase.victim == id
    && s.t.records[id].user == s.phase.request.user && s.t.records[id].status != Pending
    && forall other <- s.t.records | s.t.records[other].user == s.phase.request.user &&
                                     s.t.records[other].status != Pending ::
         s.t.records[id].updatedAt <= s.t.records[other].updatedAt
  }

  /** What a removal deletes is the user's. */
  predicate DeletesOwn(s: Sys) {
    s.phase.Deleting? ==> forall id <- s.phase.todo | id in s.t.records :: s.t.records[id].user == s.phase.user
  }

  lemma {:induction false} DeletesOwnAlways(states: seq<Sys>, steps: seq<Step>, n: nat)
    requires IsRun(states, steps) && n < |states|
    ensures DeletesOwn(states[n])
  {
    if n > 0 {
      DeletesOwnAlways(states, steps, n - 1);
      RunInv(states, steps, n - 1);
      DeletesOwnKept(states[n - 1], steps[n - 1]);
    }
  }

  lemma DeletesOwnKept(s: Sys, step: Step)
    requires Inv(s) && Enabled(s, step) && DeletesOwn(s)
    ensures DeletesOwn(Apply(s, step))
  {
  }

  lemma StepRemoves(s: Sys, step: Step, id: Id)
    requires Inv(s) && DeletesOwn(s) && Enabled(s, step) && id in s.t.records && id !in Apply(s, step).t.records
    ensures || EvictsIt(s, step, id)
            || (step == DeleteOne(id) && s.phase.Deleting? && s.phase.user == s.t.records[id].user)
            || (step == Launch && s.t.records[id].status == Pending && (s.t.stopped || s.t.ctxDone))
            || (step == CleanOne(id) && id in Todo(s.phase))
  {
    StepsThatRemove(s, step, id);
    if step == Evict {
      VictimIsOldest(s, id);
    } else if step == Launch {
      assert PendingCount(s.t.pending, s.phase.request.user) == |WorkersOf(s.t.workers, s.phase.request.user)| < 2;
    }
  }

  lemma StepsThatRemove(s: Sys, step: Step, id: Id)
    requires Enabled(s, step) && id in s.t.records && id !in Apply(s, step).t.records
    ensures step.Evict? || step.DeleteOne? || step.Launch? || step.CleanOne?
    ensures step.DeleteOne? || step.CleanOne? ==> step.id == id
  {
  }

  lemma VictimIsOldest(s: Sys, id: Id)
    requires Inv(s) && s.phase.Evicting? && s.phase.victim == id && id in s.t.records
    ensures EvictsIt(s, Evict, id)
  {
    forall other <- s.t.records
      | s.t.records[other].user == s.phase.request.user && s.t.records[other].status != Pending
      ensures s.t.records[id].updatedAt <= s.t.records[other].updatedAt
    {
      assert other in Listed(s.t.records, s.phase.request.user);
    }
  }

  lemma RemovalHasCause(states: seq<Sys>, steps: seq<Step>, m: nat, id: Id)
    requires IsRun(states, steps) && m < |steps| && id in states[m].t.records && id !in states[m + 1].t.records
    ensures HasCause(states, steps, m, id)
  {
    RunInv(states, steps, m);
    DeletesOwnAlways(states, steps, m);
    StepRemoves(states[m], steps[m], id);
    if steps[m] == CleanOne(id) && id in Todo(states[m].phase) {
      var b := TodoWasListed(states, steps, m, id);
    }
  }

  // ------------------------------------------------------------- how long a result stays

  /** A completed record is never written again, and once it is gone it stays gone. */
  predicate Settled(s: Sys, id: Id, record: Record) {
    && id in s.used && !Starting(s.phase, id)
    && (id in s.t.records ==> s.t.records[id] == record)
    && (id in s.t.workers ==> s.t.workers[id].returned)
  }

  /** The id is that of a start still under way. */
  predicate Starting(phase: Phase, id: Id) {
    match phase
    case Cleaning(_, ThenStart(request)) => request.id == id
    case CancellingRemoved(_, _, ThenStart(request)) => request.id == id
    case MakingRoom(request) => request.id == id
    case Evicting(request, _) => request.id == id
    case Roomy(request) => request.id == id
    case Inserted(request) => request.id == id
    case _ => false
  }

  lemma SettledKept(s: Sys, step: Step, id: Id, record: Record)
    requires Inv(s) && Enabled(s, step) && Settled(s, id, record)
    ensures Settled(Apply(s, step), id, record)
    ensures id !in s.t.records ==> id !in Apply(s, step).t.records
  {
  }

  lemma CompletedIsSettled(s: Sys, id: Id)
    requires Inv(s) && id in s.t.records && s.t.records[id].status != Pending
    ensures Settled(s, id, s.t.records[id])
  {
  }

  lemma {:induction false} StaysSettled(states: seq<Sys>, steps: seq<Step>, i: nat, n: nat, id: Id, record: Record)
    requires IsRun(states, steps) && i <= n < |states| && Settled(states[i], id, record)
    ensures Settled(states[n], id, record)
    decreases n - i
  {
    if i < n {
      RunInv(states, steps, i);
      SettledKept(states[i], steps[i], id, record);
      StaysSettled(states, steps, i + 1, n, id, record);
    }
  }

  /** A record keeps its owner and its start. */
  predicate SameStart(s: Sys, id: Id, user: User, startedAt: int) {
    && id in s.used && !Starting(s.phase, id)
    && (id in s.t.records ==> s.t.records[id].startedAt == startedAt && s.t.records[id].user == user)
  }

  lemma SameStartKept(s: Sys, step: Step, id: Id, user: User, startedAt: int)
    requires Inv(s) && Enabled(s, step) && SameStart(s, id, user, startedAt)
    ensures SameStart(Apply(s, step), id, user, startedAt)
  {
  }

  lemma {:induction false} StartStays(states: seq<Sys>, steps: seq<Step>, i: nat, n: nat, id: Id, user: User, startedAt: int)
    requires IsRun(states, steps) && i <= n < |states| && SameStart(states[i], id, user, startedAt)
    ensures SameStart(states[n], id, user, startedAt) && states[i].now <= states[n].now
    decreases n - i
  {
    if i < n {
      SameStartKept(states[i], steps[i], id, user, startedAt) by { RunInv(states, steps, i); }
      StartStays(states, steps, i + 1, n, id, user, startedAt);
    }
  }

  lemma {:induction false} TimePasses(states: seq<Sys>, steps: seq<Step>, i: nat, n: nat)
    requires IsRun(states, steps) && i <= n < |states|
    ensures states[i].now <= states[n].now
    decreases n - i
  {
    if i < n { TimePasses(states, steps, i + 1, n); }
  }

  lemma {:induction false} LeavesAt(states: seq<Sys>, steps: seq<Step>, i: nat, n: nat, id: Id) returns (m: nat)
    requires IsRun(states, steps) && i <= n < |states| && id in states[i].t.records && id !in states[n].t.records
    ensures i <= m < n && id in states[m].t.records && id !in states[m + 1].t.records
    decreases n - i
  {
    if id in states[i + 1].t.records { m := LeavesAt(states, steps, i + 1, n, id); } else { m := i; }
  }

  /** The result that step k publishes, less than 90 seconds after the lookup began. */
  ghost predicate PublishesAt(states: seq<Sys>, steps: seq<Step>, k: nat, id: Id) {
    && IsRun(states, steps) && k < |steps| && steps[k].Publish? && steps[k].id == id
    && id in states[k].t.records && states[k].now < states[k].t.records[id].startedAt + NINETY_SECONDS
  }

  lemma PublishedIsSettled(states: seq<Sys>, steps: seq<Step>, k: nat, id: Id)
    requires PublishesAt(states, steps, k, id)
    ensures id in states[k + 1].t.records && states[k + 1].t.records[id].status != Pending
    ensures states[k + 1].t.records[id].updatedAt == states[k].now
    ensures Settled(states[k + 1], id, states[k + 1].t.records[id])
    ensures Running(states[k], id) && states[k + 1].t.records[id].startedAt == states[k].t.records[id].startedAt
  {
    RunInv(states, steps, k + 1);
    CompletedIsSettled(states[k + 1], id);
  }

  /** A clean-up that listed the result before it was published found its lookup late. */
  lemma NotListedBefore(states: seq<Sys>, steps: seq<Step>, k: nat, b: nat, id: Id)
    requires PublishesAt(states, steps, k, id) && b <= k
    ensures !ListedAsLate(states, b, id)
  {
    PublishedIsSettled(states, steps, k, id);
    if ListedAsLate(states, b, id) {
      var record := states[b].t.records[id];
      RunInv(states, steps, b);
      if record.status != Pending {
        CompletedIsSettled(states[b], id);
        StaysSettled(states, steps, b, k, id, record);
      } else {
        StartStays(states, steps, b, k, id, record.user, record.startedAt);
      }
    }
  }

  /** One that listed it afterwards came fifteen minutes later. */
  lemma ListedAfter(states: seq<Sys>, steps: seq<Step>, k: nat, b: nat, id: Id)
    requires PublishesAt(states, steps, k, id) && k < b < |states| && ListedAsLate(states, b, id)
    ensures states[b].now >= states[k].now + FIFTEEN_MINUTES
  {
    PublishedIsSettled(states, steps, k, id);
    StaysSettled(states, steps, k + 1, b, id, states[k + 1].t.records[id]);
  }

  /** The record is evicted for a newer one of its user, or its user is removed. */
  ghost predicate EvictedOrRemoved(states: seq<Sys>, steps: seq<Step>, m: nat, id: Id) {
    && IsRun(states, steps) && m < |steps| && id in states[m].t.records
    && (EvictsIt(states[m], steps[m], id) ||
        (steps[m] == DeleteOne(id) && states[m].phase.Deleting? && states[m].phase.user == states[m].t.records[id].user))
  }

  /** A published result stays as it is for fifteen minutes, unless it is evicted or its
      user is removed. The lookup must not have been late itself: the program ends
      every lookup after 30 seconds. */
  lemma ResultStays(states: seq<Sys>, steps: seq<Step>, k: nat, n: nat, id: Id)
    requires PublishesAt(states, steps, k, id) && k < n < |states|
    requires states[n].now < states[k].now + FIFTEEN_MINUTES
    ensures || (id in states[n].t.records && states[n].t.records[id] == states[k + 1].t.records[id])
            || exists m | k < m < n :: EvictedOrRemoved(states, steps, m, id)
  {
    PublishedIsSettled(states, steps, k, id);
    StaysSettled(states, steps, k + 1, n, id, states[k + 1].t.records[id]);
    if id !in states[n].t.records {
      var m := LeavesAt(states, steps, k + 1, n, id);
      RemovalHasCause(states, steps, m, id);
      StaysSettled(states, steps, k + 1, m, id, states[k + 1].t.records[id]);
      if steps[m] == CleanOne(id) {
        var b :| 0 <= b < m && ListedAsLate(states, b, id);
        CleanedTooEarly(states, steps, k, b, n, id);
      } else {
        assert EvictedOrRemoved(states, steps, m, id);
      }
    }
  }

  lemma CleanedTooEarly(states: seq<Sys>, steps: seq<Step>, k: nat, b: nat, n: nat, id: Id)
    requires PublishesAt(states, steps, k, id) && b < n < |states| && ListedAsLate(states, b, id)
    ensures states[n].now >= states[k].now + FIFTEEN_MINUTES
  {
    if b <= k {
      NotListedBefore(states, steps, k, b, id);
    } else {
      ListedAfter(states, steps, k, b, id);
      TimePasses(states, steps, b, n);
    }
  }

  /** That condition is needed: a clean-up that has listed a late lookup deletes the
      result that is published meanwhile. */
  lemma LateResultIsLost(s: Sys, id: Id, ok: bool)
    requires Inv(s) && s.phase.Cleaning? && id in s.phase.todo && Running(s, id) && id in s.t.records
    ensures Enabled(s, Publish(id, ok))
    ensures var s' := Apply(s, Publish(id, ok));
            && s'.t.records[id].status != Pending && s'.t.records[id].updatedAt == s'.now
            && Enabled(s', CleanOne(id)) && id !in Apply(s', CleanOne(id)).t.records
  {
  }

  // ------------------------------------------------------------- what a clean-up leaves

  /** What is late when the clean-up begins is gone when it ends. */
  predicate Doomed(s: Sys, id: Id) {
    id in s.used && !Starting(s.phase, id) && (id in s.t.records ==> id in Todo(s.phase))
  }

  predicate InCleanup(phase: Phase) {
    phase.Cleaning? || phase.CancellingRemoved?
  }

  lemma DoomedKept(s: Sys, step: Step, id: Id)
    requires Inv(s) && Enabled(s, step) && InCleanup(s.phase) && Doomed(s, id)
    ensures Doomed(Apply(s, step), id)
  {
  }

  lemma {:induction false} StaysDoomed(states: seq<Sys>, steps: seq<Step>, i: nat, n: nat, id: Id)
    requires IsRun(states, steps) && i <= n < |states| && Doomed(states[i], id)
    requires forall j | i <= j < n :: InCleanup(states[j].phase)
    ensures Doomed(states[n], id)
    decreases n - i
  {
    if i < n {
      RunInv(states, steps, i);
      DoomedKept(states[i], steps[i], id);
      StaysDoomed(states, steps, i + 1, n, id);
    }
  }

  lemma CleanupIsComplete(states: seq<Sys>, steps: seq<Step>, b: nat, n: nat, id: Id)
    requires IsRun(states, steps) && b < n < |steps| && steps[n] == CleanupEnds
    requires steps[b] == JanitorBegins(states[b].now) || steps[b].StartBegins?
    requires forall j | b < j <= n :: InCleanup(states[j].phase)
    requires id in states[b].t.records && LateAt(states[b].t.records[id], states[b].now)
    ensures id !in states[n + 1].t.records
  {
    RunInv(states, steps, b);
    StaysDoomed(states, steps, b + 1, n, id);
  }
}
