/** The event loop that keeps the history index up to date while job files change
    under it (server/history_index.go, runHistoryIndexer and watchHistoryJobFiles).

    A job file is written by its job and named after it, so files and rows are both
    keyed by job id here and all rows are of this directory. Files may change between
    any two steps, also between the stat and the read of one refresh. A change is
    either noticed (a notification is queued) or silent: the watcher was down, its
    queue overflowed, or only the modification time moved. Files are not links, and
    a change gives a file a modification time it never had before. The watcher's
    request channel holds 128 requests. */
module HistoryLoop {
  import opened HistoryIndex
  import opened Optional

  const REQUEST_CAPACITY := 128

  datatype Request = OneFile(id: JobId) | Everything

  /** What the loop goroutine is doing between its selects. */
  datatype Activity =
    | Idle
    | Batch(todo: set<JobId>)
    | BatchReading(id: JobId, mtime: int, todo: set<JobId>)
    | Walking(todo: set<JobId>, gone: set<JobId>)
    | WalkReading(id: JobId, mtime: int, todo: set<JobId>, gone: set<JobId>)

  /** `used` has every modification time each file ever had; `silent` the files
      that changed silently since the last full refresh began. */
  datatype Sys = Sys(
    files: map<JobId, Entry>,
    used: set<(JobId, int)>,
    rows: Rows,
    events: seq<JobId>,
    inHand: Option<Request>,
    requests: seq<Request>,
    pending: set<JobId>,
    debounce: bool,
    refreshDue: bool,
    errorTimer: bool,
    activity: Activity,
    silent: set<JobId>)

  datatype Step =
    | FileChanges(id: JobId, entry: Option<Entry>, noticed: bool)
    | Watches(watch: WatcherMove)
    | Selects(select: Select)
    | Refreshes(work: Work)

  datatype WatcherMove = TakeEvent | ReportError | SendRequest

  /** The cases of the loop's select. */
  datatype Select = Receive(cooledDown: bool) | DebounceFires | ErrorTimerFires | PeriodicFires

  datatype Work = StatFile(id: JobId) | ReadFile | EndBatch | EndWalk

  function Wanted(place: Place, files: map<JobId, Entry>, id: JobId): Option<Row> {
    if id in files then RowOfEntry(place, FileName(id), files[id]) else None
  }

  predicate Disagrees(place: Place, s: Sys, id: JobId) {
    Lookup(s.rows, id) != Wanted(place, s.files, id)
  }

  predicate Visited(files: map<JobId, Entry>, id: JobId) {
    id in files && !files[id].Directory?
  }

  function WithRow(rows: Rows, id: JobId, row: Option<Row>): Rows {
    match row
    case Some(found) => rows[id := found]
    case None => rows - {id}
  }

  /** What a read right now makes of a file that had `mtime` when it was statted. */
  function ReadRow(place: Place, s: Sys, id: JobId, mtime: int): Option<Row> {
    if id in s.files && s.files[id].Regular? then RowOf(place, FileName(id), File(mtime, s.files[id].file.content))
    else None
  }

  /** With nothing changing in between, that is what the indexer's own refresh of
      the file does. */
  lemma SameAsFileRefresh(place: Place, rows: Rows, listing: Listing, id: JobId)
    requires WellFormed(rows) && forall other <- rows :: rows[other].path.dir == place.jobsDir
    requires FileName(id) in listing ==> !listing[FileName(id)].Link?
    ensures FileRefreshed(place, rows, listing, Path(place.jobsDir, FileName(id))) ==
            WithRow(rows, id, ExpectedRow(place, listing, id))
  {
    FileNameInverse(id, "");
    ExpectedIsOwn(place, listing, id);
    forall other <- rows | other != id ensures rows[other].path.name != FileName(id) {
      FileNameInverse(other, "");
    }
  }

  function BeginWalk(s: Sys): Sys {
    var todo := set id | id in s.files && Visited(s.files, id);
    s.(activity := Walking(todo, s.rows.Keys - todo), silent := {}, refreshDue := false, errorTimer := false)
  }

  predicate MayChange(s: Sys, id: JobId, entry: Option<Entry>) {
    match entry
    case None => true
    case Some(e) => !e.Link? && (e.Directory? || (id, WalkMtime(e)) !in s.used)
  }

  predicate MayWatch(s: Sys, move: WatcherMove) {
    match move
    case TakeEvent => s.events != [] && s.inHand.None?
    case ReportError => s.inHand.None?
    case SendRequest => s.inHand.Some? && |s.requests| < REQUEST_CAPACITY
  }

  predicate MaySelect(s: Sys, select: Select) {
    && s.activity == Idle
    && match select
       case Receive(_) => s.requests != []
       case DebounceFires => s.debounce
       case ErrorTimerFires => s.errorTimer
       case PeriodicFires => true
  }

  predicate MayWork(s: Sys, work: Work) {
    match work
    case StatFile(id) => (s.activity.Batch? || s.activity.Walking?) && id in s.activity.todo
    case ReadFile => s.activity.BatchReading? || s.activity.WalkReading?
    case EndBatch => s.activity == Batch({})
    case EndWalk => s.activity.Walking? && s.activity.todo == {}
  }

  predicate Enabled(s: Sys, step: Step) {
    match step
    case FileChanges(id, entry, _) => MayChange(s, id, entry)
    case Watches(move) => MayWatch(s, move)
    case Selects(select) => MaySelect(s, select)
    case Refreshes(work) => MayWork(s, work)
  }

  function ApplyChange(s: Sys, id: JobId, entry: Option<Entry>, noticed: bool): Sys {
    var s' := if noticed then s.(events := s.events + [id]) else s.(silent := s.silent + {id});
    match entry
    case None => s'.(files := s.files - {id})
    case Some(e) => s'.(files := s.files[id := e], used := s.used + {(id, WalkMtime(e))})
  }

  function ApplyWatch(s: Sys, move: WatcherMove): Sys
    requires MayWatch(s, move)
  {
    match move
    case TakeEvent => s.(events := s.events[1..], inHand := Some(OneFile(s.events[0])))
    case ReportError => s.(inHand := Some(Everything))
    case SendRequest => s.(inHand := None, requests := s.requests + [s.inHand.value])
  }

  function ApplySelect(s: Sys, select: Select): Sys
    requires MaySelect(s, select)
  {
    match select
    case Receive(cooledDown) =>
      var s' := s.(requests := s.requests[1..]);
      if s.requests[0].OneFile? then s'.(pending := s.pending + {s.requests[0].id}, debounce := true)
      else if cooledDown then BeginWalk(s')
      else s'.(refreshDue := true, errorTimer := true)
    case DebounceFires => s.(activity := Batch(s.pending), pending := {}, debounce := false)
    case ErrorTimerFires => if s.refreshDue then BeginWalk(s) else s.(errorTimer := false)
    case PeriodicFires => BeginWalk(s)
  }

  /** refreshFileLocked stats a file: what is gone or not regular loses its row. */
  function StatInBatch(s: Sys, id: JobId): Sys
    requires s.activity.Batch? && id in s.activity.todo
  {
    var rest := s.activity.todo - {id};
    if id in s.files && s.files[id].Regular? then s.(activity := BatchReading(id, s.files[id].file.mtime, rest))
    else s.(activity := Batch(rest), rows := s.rows - {id})
  }

  /** refreshLocked stats a file: what is gone is left to the notification of its
      removal, and what has the recorded modification time is skipped. */
  function StatInWalk(s: Sys, id: JobId): Sys
    requires s.activity.Walking? && id in s.activity.todo
  {
    var rest, gone := s.activity.todo - {id}, s.activity.gone;
    if id !in s.files || (id in s.rows && s.rows[id].mtime == WalkMtime(s.files[id])) then
      s.(activity := Walking(rest, gone))
    else if s.files[id].Regular? then s.(activity := WalkReading(id, s.files[id].file.mtime, rest, gone))
    else s.(activity := Walking(rest, gone), rows := s.rows - {id})
  }

  function ApplyWork(place: Place, s: Sys, work: Work): Sys
    requires MayWork(s, work)
  {
    match work
    case StatFile(id) => if s.activity.Batch? then StatInBatch(s, id) else StatInWalk(s, id)
    case ReadFile =>
      s.(rows := WithRow(s.rows, s.activity.id, ReadRow(place, s, s.activity.id, s.activity.mtime)),
         activity := if s.activity.BatchReading? then Batch(s.activity.todo)
                     else Walking(s.activity.todo, s.activity.gone))
    case EndBatch => s.(activity := Idle)
    case EndWalk => s.(activity := Idle, rows := s.rows - s.activity.gone)
  }

  function Apply(place: Place, s: Sys, step: Step): Sys
    requires Enabled(s, step)
  {
    match step
    case FileChanges(id, entry, noticed) => ApplyChange(s, id, entry, noticed)
    case Watches(move) => ApplyWatch(s, move)
    case Selects(select) => ApplySelect(s, select)
    case Refreshes(work) => ApplyWork(place, s, work)
  }

  // ------------------------------------------------------------- invariants

  /** A change the loop has not come to yet, or has no way to know of. */
  predicate Unhandled(s: Sys, id: JobId) {
    || id in s.events || s.inHand == Some(OneFile(id)) || OneFile(id) in s.requests
    || id in s.pending || id in s.silent
  }

  /** The activity under way will still refresh this job. */
  predicate InWork(activity: Activity, id: JobId) {
    match activity
    case Idle => false
    case Batch(todo) => id in todo
    case BatchReading(reading, _, todo) => id == reading || id in todo
    case Walking(todo, gone) => id in todo || id in gone
    case WalkReading(reading, _, todo, gone) => id == reading || id in todo || id in gone
  }

  ghost predicate DisagreementsKnown(place: Place, s: Sys) {
    forall id: JobId :: Disagrees(place, s, id) ==> Unhandled(s, id) || InWork(s.activity, id)
  }

  predicate TimesUsed(s: Sys) {
    && (forall id <- s.files :: !s.files[id].Link? && (id, WalkMtime(s.files[id])) in s.used)
    && (forall id <- s.rows :: (id, s.rows[id].mtime) in s.used)
    && (s.activity.BatchReading? || s.activity.WalkReading? ==> (s.activity.id, s.activity.mtime) in s.used)
  }

  /** A row with the modification time of its file is the file's. */
  predicate TimesTell(place: Place, s: Sys) {
    forall id <- s.rows | Visited(s.files, id) && s.rows[id].mtime == WalkMtime(s.files[id]) ::
      !Disagrees(place, s, id)
  }

  /** What the walk relies on is still so, or has changed since and is unhandled. */
  predicate ActivityInv(s: Sys) {
    match s.activity
    case Idle => true
    case Batch(_) => true
    case BatchReading(id, mtime, _) => StillAt(s, id, mtime) || Unhandled(s, id)
    case Walking(todo, gone) => WalkInv(s, todo, gone)
    case WalkReading(id, mtime, todo, gone) =>
      (StillAt(s, id, mtime) || Unhandled(s, id)) && id !in todo && id !in gone && WalkInv(s, todo, gone)
  }

  predicate StillAt(s: Sys, id: JobId, mtime: int) {
    id in s.files && s.files[id].Regular? && s.files[id].file.mtime == mtime
  }

  predicate WalkInv(s: Sys, todo: set<JobId>, gone: set<JobId>) {
    && todo !! gone
    && (forall id <- todo :: Visited(s.files, id) || Unhandled(s, id))
    && (forall id <- gone :: !Visited(s.files, id) || Unhandled(s, id))
  }

  predicate FlagsInv(s: Sys) {
    && (s.pending != {} ==> s.debounce)
    && (s.refreshDue ==> s.errorTimer)
    && |s.requests| <= REQUEST_CAPACITY
  }

  ghost predicate Inv(place: Place, s: Sys) {
    && DisagreementsKnown(place, s) && TimesUsed(s) && TimesTell(place, s) && ActivityInv(s) && FlagsInv(s)
  }

  /** The loop starts idle; what the index has wrong at that time counts as silent. */
  ghost predicate Init(place: Place, s: Sys) {
    && s.events == [] && s.inHand == None && s.requests == [] && s.pending == {}
    && !s.debounce && !s.refreshDue && !s.errorTimer && s.activity == Idle
    && TimesUsed(s) && TimesTell(place, s)
    && forall id: JobId :: Disagrees(place, s, id) ==> id in s.silent
  }

  lemma InitInv(place: Place, s: Sys)
    requires Init(place, s)
    ensures Inv(place, s)
  {
  }

  // ------------------------------------------------------------- every step keeps them

  /** The job whose file changes is known to be unhandled, or changed silently. */
  lemma ChangeIsKnown(place: Place, s: Sys, id: JobId, entry: Option<Entry>, noticed: bool)
    requires DisagreementsKnown(place, s) && MayChange(s, id, entry)
    ensures DisagreementsKnown(place, ApplyChange(s, id, entry, noticed))
  {
    var s' := ApplyChange(s, id, entry, noticed);
    assert Unhandled(s', id);
    forall other: JobId | Disagrees(place, s', other) ensures Unhandled(s', other) || InWork(s'.activity, other) {
      if other != id { assert Disagrees(place, s, other); }
    }
  }

  lemma ChangeKeepsTimes(place: Place, s: Sys, id: JobId, entry: Option<Entry>, noticed: bool)
    requires TimesUsed(s) && TimesTell(place, s) && MayChange(s, id, entry)
    ensures TimesUsed(ApplyChange(s, id, entry, noticed)) && TimesTell(place, ApplyChange(s, id, entry, noticed))
  {
  }

  lemma ChangeKeepsActivity(s: Sys, id: JobId, entry: Option<Entry>, noticed: bool)
    requires ActivityInv(s) && MayChange(s, id, entry)
    ensures ActivityInv(ApplyChange(s, id, entry, noticed))
  {
    var s' := ApplyChange(s, id, entry, noticed);
    assert Unhandled(s', id);
    forall other: JobId | Unhandled(s, other) ensures Unhandled(s', other) {}
  }

  lemma ChangeKeeps(place: Place, s: Sys, id: JobId, entry: Option<Entry>, noticed: bool)
    requires Inv(place, s) && MayChange(s, id, entry)
    ensures Inv(place, ApplyChange(s, id, entry, noticed))
  {
    ChangeIsKnown(place, s, id, entry, noticed);
    ChangeKeepsTimes(place, s, id, entry, noticed);
    ChangeKeepsActivity(s, id, entry, noticed);
  }

  lemma WatchKeeps(place: Place, s: Sys, move: WatcherMove)
    requires Inv(place, s) && MayWatch(s, move)
    ensures Inv(place, ApplyWatch(s, move))
  {
    var s' := ApplyWatch(s, move);
    forall id: JobId ensures Unhandled(s, id) ==> Unhandled(s', id) {
      if move == SendRequest { assert s'.requests[|s.requests|] == s.inHand.value; }
    }
    forall id: JobId | Disagrees(place, s', id) ensures Unhandled(s', id) || InWork(s'.activity, id) {
      assert Disagrees(place, s, id);
    }
  }

  lemma WalkCovers(place: Place, s: Sys)
    requires Inv(place, s) && s.activity == Idle
    ensures Inv(place, BeginWalk(s))
  {
  }

  lemma ReceiveKeeps(place: Place, s: Sys, cooledDown: bool)
    requires Inv(place, s) && MaySelect(s, Receive(cooledDown))
    ensures Inv(place, ApplySelect(s, Receive(cooledDown)))
  {
    var rest := s.(requests := s.requests[1..]);
    if s.requests[0].OneFile? {
      var s' := rest.(pending := s.pending + {s.requests[0].id}, debounce := true);
      forall id: JobId ensures Unhandled(s, id) ==> Unhandled(s', id) {}
    } else {
      forall id: JobId ensures Unhandled(s, id) ==> Unhandled(rest, id) {}
      assert Inv(place, rest);
      if cooledDown { WalkCovers(place, rest); }
    }
  }

  lemma SelectKeeps(place: Place, s: Sys, select: Select)
    requires Inv(place, s) && MaySelect(s, select)
    ensures Inv(place, ApplySelect(s, select))
  {
    match select
    case Receive(cooledDown) => ReceiveKeeps(place, s, cooledDown);
    case DebounceFires =>
      forall id: JobId ensures Unhandled(s, id) ==> Unhandled(ApplySelect(s, select), id) || id in s.pending {}
    case _ => WalkCovers(place, s);
  }

  lemma StatInBatchKeeps(place: Place, s: Sys, id: JobId)
    requires Inv(place, s) && s.activity.Batch? && id in s.activity.todo
    ensures Inv(place, StatInBatch(s, id))
  {
    var s' := StatInBatch(s, id);
    forall other: JobId | Disagrees(place, s', other) ensures Unhandled(s', other) || InWork(s'.activity, other) {
      assert Unhandled(s', other) == Unhandled(s, other);
    }
  }

  lemma WalkSkips(place: Place, s: Sys, id: JobId)
    requires Inv(place, s) && s.activity.Walking? && id in s.activity.todo
    requires id in s.files ==> id in s.rows && s.rows[id].mtime == WalkMtime(s.files[id])
    ensures Inv(place, s.(activity := Walking(s.activity.todo - {id}, s.activity.gone)))
  {
    var s' := s.(activity := Walking(s.activity.todo - {id}, s.activity.gone));
    assert Disagrees(place, s, id) ==> Unhandled(s, id);
    forall other: JobId ensures Unhandled(s', other) == Unhandled(s, other) {}
  }

  lemma WalkReads(place: Place, s: Sys, id: JobId)
    requires Inv(place, s) && s.activity.Walking? && id in s.activity.todo && id in s.files && s.files[id].Regular?
    ensures Inv(place, s.(activity := WalkReading(id, s.files[id].file.mtime, s.activity.todo - {id}, s.activity.gone)))
  {
    var s' := s.(activity := WalkReading(id, s.files[id].file.mtime, s.activity.todo - {id}, s.activity.gone));
    forall other: JobId ensures Unhandled(s', other) == Unhandled(s, other) {}
  }

  lemma WalkRemoves(place: Place, s: Sys, id: JobId)
    requires Inv(place, s) && s.activity.Walking? && id in s.activity.todo && id in s.files && !s.files[id].Regular?
    ensures Inv(place, s.(activity := Walking(s.activity.todo - {id}, s.activity.gone), rows := s.rows - {id}))
  {
    var s' := s.(activity := Walking(s.activity.todo - {id}, s.activity.gone), rows := s.rows - {id});
    forall other: JobId ensures Unhandled(s', other) == Unhandled(s, other) {}
    forall other: JobId | Disagrees(place, s', other) ensures Unhandled(s', other) || InWork(s'.activity, other) {
      if other != id { assert Disagrees(place, s, other); }
    }
  }

  lemma StatInWalkKeeps(place: Place, s: Sys, id: JobId)
    requires Inv(place, s) && s.activity.Walking? && id in s.activity.todo
    ensures Inv(place, StatInWalk(s, id))
  {
    if id !in s.files || (id in s.rows && s.rows[id].mtime == WalkMtime(s.files[id])) {
      WalkSkips(place, s, id);
    } else if s.files[id].Regular? {
      WalkReads(place, s, id);
    } else {
      WalkRemoves(place, s, id);
    }
  }

  lemma ReadKeeps(place: Place, s: Sys)
    requires Inv(place, s) && MayWork(s, ReadFile)
    ensures Inv(place, ApplyWork(place, s, ReadFile))
  {
    var s', id := ApplyWork(place, s, ReadFile), s.activity.id;
    forall other: JobId | Disagrees(place, s', other) ensures Unhandled(s', other) || InWork(s'.activity, other) {
      assert Unhandled(s', other) == Unhandled(s, other);
      if other != id { assert Disagrees(place, s, other); }
    }
  }

  lemma EndWalkKeeps(place: Place, s: Sys)
    requires Inv(place, s) && MayWork(s, EndWalk)
    ensures Inv(place, ApplyWork(place, s, EndWalk))
  {
    var s' := ApplyWork(place, s, EndWalk);
    forall other: JobId | Disagrees(place, s', other) ensures Unhandled(s', other) || InWork(s'.activity, other) {
      assert Unhandled(s', other) == Unhandled(s, other);
      if other !in s.activity.gone { assert Disagrees(place, s, other); }
    }
  }

  lemma WorkKeeps(place: Place, s: Sys, work: Work)
    requires Inv(place, s) && MayWork(s, work)
    ensures Inv(place, ApplyWork(place, s, work))
  {
    match work
    case StatFile(id) =>
      if s.activity.Batch? { StatInBatchKeeps(place, s, id); } else { StatInWalkKeeps(place, s, id); }
    case ReadFile => ReadKeeps(place, s);
    case EndBatch =>
      forall id: JobId | Disagrees(place, ApplyWork(place, s, work), id) ensures Unhandled(s, id) {
        assert Disagrees(place, s, id);
      }
    case EndWalk => EndWalkKeeps(place, s);
  }

  lemma InvKept(place: Place, s: Sys, step: Step)
    requires Inv(place, s) && Enabled(s, step)
    ensures Inv(place, Apply(place, s, step))
  {
    match step
    case FileChanges(id, entry, noticed) => ChangeKeeps(place, s, id, entry, noticed);
    case Watches(move) => WatchKeeps(place, s, move);
    case Selects(select) => SelectKeeps(place, s, select);
    case Refreshes(work) => WorkKeeps(place, s, work);
  }

  // ------------------------------------------------------------- over whole runs

  ghost predicate IsRun(place: Place, states: seq<Sys>, steps: seq<Step>) {
    && |states| == |steps| + 1
    && Init(place, states[0])
    && forall k | 0 <= k < |steps| ::
         Enabled(states[k], steps[k]) && states[k + 1] == Apply(place, states[k], steps[k])
  }

  lemma {:induction false} RunInv(place: Place, states: seq<Sys>, steps: seq<Step>, n: nat)
    requires IsRun(place, states, steps) && n < |states|
    ensures Inv(place, states[n])
  {
    if n == 0 {
      InitInv(place, states[0]);
    } else {
      RunInv(place, states, steps, n - 1);
      InvKept(place, states[n - 1], steps[n - 1]);
    }
  }

  /** Whenever the index is wrong about a job, its change is queued (as a
      notification, in the watcher's hand, in the request channel or among the
      pending paths), the refresh under way has still to come to it, or it changed
      silently since the last full refresh began. Pending paths have an armed
      debounce timer and a postponed full refresh an armed timer. */
  lemma DisagreementIsQueued(place: Place, states: seq<Sys>, steps: seq<Step>, n: nat, id: JobId)
    requires IsRun(place, states, steps) && n < |states|
    requires Lookup(states[n].rows, id) != Wanted(place, states[n].files, id)
    ensures Unhandled(states[n], id) || InWork(states[n].activity, id)
    ensures states[n].pending != {} ==> states[n].debounce
    ensures states[n].refreshDue ==> states[n].errorTimer
  {
    RunInv(place, states, steps, n);
    assert Disagrees(place, states[n], id);
  }

  predicate Drained(s: Sys) {
    s.events == [] && s.inHand == None && s.requests == [] && s.pending == {} && s.activity == Idle
  }

  /** A drained loop has exactly the index a rebuild would give, if nothing changed
      silently since the last full refresh began. */
  lemma DrainedMeansRebuilt(place: Place, states: seq<Sys>, steps: seq<Step>, n: nat)
    requires IsRun(place, states, steps) && n < |states|
    requires Drained(states[n]) && states[n].silent == {}
    ensures forall id: JobId :: Lookup(states[n].rows, id) == Wanted(place, states[n].files, id)
  {
    RunInv(place, states, steps, n);
    forall id: JobId ensures Lookup(states[n].rows, id) == Wanted(place, states[n].files, id) {
      assert !Unhandled(states[n], id);
      assert !Disagrees(place, states[n], id);
    }
  }

  /** Silent changes are missed: a file that is deleted unnoticed keeps its row, and
      the loop stays drained. */
  lemma SilentDeletionIsMissed(place: Place, s: Sys, id: JobId)
    requires Drained(s) && id in s.rows
    ensures var s' := Apply(place, s, FileChanges(id, None, false));
            Drained(s') && Lookup(s'.rows, id) == Some(s.rows[id]) != Wanted(place, s'.files, id)
  {
  }

  predicate BeginsFullRefresh(s: Sys, s': Sys) {
    s.activity == Idle && s'.activity.Walking?
  }

  lemma FullRefreshForgives(place: Place, s: Sys, step: Step)
    requires Enabled(s, step) && BeginsFullRefresh(s, Apply(place, s, step))
    ensures Apply(place, s, step).silent == {}
  {
    match step
    case Watches(move) => WatchOnlyQueues(s, move);
    case _ =>
  }

  lemma WatchOnlyQueues(s: Sys, move: WatcherMove)
    requires MayWatch(s, move)
    ensures ApplyWatch(s, move).silent == s.silent && ApplyWatch(s, move).activity == s.activity
  {
  }

  lemma SelectAddsNone(s: Sys, select: Select)
    requires MaySelect(s, select)
    ensures ApplySelect(s, select).silent <= s.silent
  {
  }

  lemma WorkAddsNone(place: Place, s: Sys, work: Work)
    requires MayWork(s, work)
    ensures ApplyWork(place, s, work).silent == s.silent
  {
  }

  lemma SilentGrows(place: Place, s: Sys, step: Step, id: JobId)
    requires Enabled(s, step) && id in Apply(place, s, step).silent && id !in s.silent
    ensures step.FileChanges? && step.id == id && !step.noticed
  {
    match step
    case FileChanges(_, _, _) =>
    case Watches(move) => WatchOnlyQueues(s, move);
    case Selects(select) => SelectAddsNone(s, select);
    case Refreshes(work) => WorkAddsNone(place, s, work);
  }

  /** A full refresh forgives everything that was silent before it began: what is
      counted as silent later changed silently later. */
  lemma FullRefreshCatchesUp(place: Place, states: seq<Sys>, steps: seq<Step>, k: nat, n: nat, id: JobId)
    requires IsRun(place, states, steps) && k < n < |states|
    requires BeginsFullRefresh(states[k], states[k + 1]) && id in states[n].silent
    ensures exists j | k < j < n :: steps[j].FileChanges? && steps[j].id == id && !steps[j].noticed
    decreases n
  {
    if n == k + 1 {
      FullRefreshForgives(place, states[k], steps[k]);
    } else {
      if id in states[n - 1].silent {
        FullRefreshCatchesUp(place, states, steps, k, n - 1, id);
      } else {
        SilentGrows(place, states[n - 1], steps[n - 1], id);
      }
    }
  }
}
