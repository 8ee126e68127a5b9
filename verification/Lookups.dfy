/** Asynchronous lookups: the runtime that runs them, the records they leave and
    the limits on both (server/lookups.go, with the workers of
    server/result_lookup.go, server/quarantine.go and server/history_statistics.go).

    The first part is the code on one object, for one goroutine at a time. The
    second part is the step system: lookupLifecycleMu is held across steps, while
    sections under the runtime mutex or a record mutex are single steps, so workers
    publish and leave in between. The three record maps are one map here whose
    records carry their kind; generated ids are fresh, so their keys never meet.
    Times are nanoseconds. */
module Lookups {
  import opened Sets

  type Id = nat
  type User = string

  const SECOND: int := 1_000_000_000
  const MAX_PENDING := 2
  const MAX_RETAINED := 10
  const EXECUTION_TIMEOUT: int := 30 * SECOND
  const RETENTION: int := 15 * 60 * SECOND
  const CLEANUP_INTERVAL: int := 60 * SECOND

  datatype Kind = ResultLookup | HistoryStatisticsLookup | QuarantineLookup

  datatype Status = Pending | Failed | Success

  datatype Record = Record(kind: Kind, user: User, status: Status, startedAt: int, updatedAt: int)

  /** `returned` says that the work function is over and only the goroutine's
      deferred clean-up is left. */
  datatype Worker = Worker(user: User, cancelled: bool, returned: bool)

  datatype Tables = Tables(
    records: map<Id, Record>,
    workers: map<Id, Worker>,
    pending: map<User, nat>,
    stopped: bool,
    ctxDone: bool)

  const NO_LOOKUPS := Tables(map[], map[], map[], false, false)

  // ------------------------------------------------------------- what one section does

  function PendingCount(pending: map<User, nat>, user: User): nat {
    if user in pending then pending[user] else 0
  }

  predicate CanStart(t: Tables, user: User) {
    !t.stopped && !t.ctxDone && PendingCount(t.pending, user) < MAX_PENDING
  }

  function Started(t: Tables, id: Id, user: User): Tables {
    t.(pending := t.pending[user := PendingCount(t.pending, user) + 1],
       workers := t.workers[id := Worker(user, false, false)])
  }

  /** The deferred clean-up of a worker's goroutine. */
  function Left(t: Tables, id: Id): Tables
    requires id in t.workers && PendingCount(t.pending, t.workers[id].user) > 0
  {
    var user := t.workers[id].user;
    t.(workers := t.workers - {id},
       pending := if t.pending[user] == 1 then t.pending - {user} else t.pending[user := t.pending[user] - 1])
  }

  function Cancelled(t: Tables, id: Id): Tables {
    if id in t.workers then t.(workers := t.workers[id := t.workers[id].(cancelled := true)]) else t
  }

  function Deleted(t: Tables, id: Id): Tables {
    t.(records := t.records - {id})
  }

  /** The end of a work function that was not cancelled: the record, if it is
      still there, gets its final status. */
  function Published(t: Tables, id: Id, ok: bool, now: int): Tables
    requires id in t.workers
  {
    var workers := t.workers[id := t.workers[id].(returned := true)];
    if id in t.records then
      t.(workers := workers,
         records := t.records[id := t.records[id].(status := if ok then Success else Failed, updatedAt := now)])
    else
      t.(workers := workers)
  }

  /** The records of one user; the empty name stands for everybody. */
  function Listed(records: map<Id, Record>, user: User): set<Id> {
    set id | id in records && (user == "" || records[id].user == user)
  }

  function PendingOf(records: map<Id, Record>, user: User): set<Id> {
    set id | id in Listed(records, user) && records[id].status == Pending
  }

  function WorkersOf(workers: map<Id, Worker>, user: User): set<Id> {
    set id | id in workers && workers[id].user == user
  }

  predicate Overdue(record: Record, now: int) {
    if record.status == Pending then
      record.startedAt + EXECUTION_TIMEOUT + CLEANUP_INTERVAL <= now
    else
      record.updatedAt + RETENTION <= now
  }

  function OverdueIds(records: map<Id, Record>, now: int): set<Id> {
    set id | id in records && Overdue(records[id], now)
  }

  /** A completed record of the user that none of the others predates. */
  predicate OldestCompleted(records: map<Id, Record>, user: User, id: Id) {
    && id in Listed(records, user) && records[id].status != Pending
    && forall other <- Listed(records, user) | records[other].status != Pending ::
         records[id].updatedAt <= records[other].updatedAt
  }

  /** What was evicted is the user's, was completed, and is no newer than any
      completed record of the user that stayed. */
  ghost predicate Evicts(records: map<Id, Record>, user: User, left: map<Id, Record>) {
    var gone := records.Keys - left.Keys;
    && left == records - gone
    && gone <= Listed(records, user)
    && (forall id <- gone :: records[id].status != Pending)
    && forall id <- gone, kept <- Listed(left, user) | left[kept].status != Pending ::
         records[id].updatedAt <= left[kept].updatedAt
  }

  function WithCancelled(workers: map<Id, Worker>, ids: set<Id>): map<Id, Worker> {
    map id <- workers :: if id in ids then workers[id].(cancelled := true) else workers[id]
  }

  /** The counter of each user is the number of that user's live workers. */
  ghost predicate Counted(t: Tables) {
    && (forall user :: PendingCount(t.pending, user) == |WorkersOf(t.workers, user)|)
    && (forall user <- t.pending :: t.pending[user] > 0)
  }

  lemma WorkersAdd(workers: map<Id, Worker>, id: Id, worker: Worker, user: User)
    requires id !in workers
    ensures |WorkersOf(workers[id := worker], user)| ==
            |WorkersOf(workers, user)| + if user == worker.user then 1 else 0
  {
    if user == worker.user {
      assert WorkersOf(workers[id := worker], user) == WorkersOf(workers, user) + {id};
    } else {
      assert WorkersOf(workers[id := worker], user) == WorkersOf(workers, user);
    }
  }

  lemma WorkersRemove(workers: map<Id, Worker>, id: Id, user: User)
    requires id in workers
    ensures |WorkersOf(workers - {id}, user)| ==
            |WorkersOf(workers, user)| - if user == workers[id].user then 1 else 0
  {
    if user == workers[id].user {
      assert WorkersOf(workers - {id}, user) == WorkersOf(workers, user) - {id};
    } else {
      assert WorkersOf(workers - {id}, user) == WorkersOf(workers, user);
    }
  }

  lemma StartedCounts(t: Tables, id: Id, user: User)
    requires Counted(t) && id !in t.workers
    ensures Counted(Started(t, id, user))
  {
    var t' := Started(t, id, user);
    forall other ensures PendingCount(t'.pending, other) == |WorkersOf(t'.workers, other)| {
      WorkersAdd(t.workers, id, t'.workers[id], other);
    }
  }

  lemma LeftCounts(t: Tables, id: Id)
    requires Counted(t) && id in t.workers
    ensures PendingCount(t.pending, t.workers[id].user) > 0
    ensures Counted(Left(t, id))
  {
    var user := t.workers[id].user;
    assert id in WorkersOf(t.workers, user);
    var t' := Left(t, id);
    forall other ensures PendingCount(t'.pending, other) == |WorkersOf(t'.workers, other)| {
      WorkersRemove(t.workers, id, other);
    }
  }

  /** Marking workers does not change whose they are. */
  lemma SameWorkersCount(t: Tables, t': Tables)
    requires Counted(t) && t'.pending == t.pending && t'.workers.Keys == t.workers.Keys
    requires forall id <- t.workers :: t'.workers[id].user == t.workers[id].user
    ensures Counted(t')
  {
    forall user ensures PendingCount(t'.pending, user) == |WorkersOf(t'.workers, user)| {
      assert WorkersOf(t'.workers, user) == WorkersOf(t.workers, user);
    }
  }

  ghost function Elements(list: seq<Id>): set<Id> {
    set id | id in list
  }

  lemma ElementsSnoc(list: seq<Id>, id: Id)
    ensures Elements(list + [id]) == Elements(list) + {id}
  {
  }

  lemma ElementsNext(list: seq<Id>, i: nat, ids: set<Id>)
    requires i < |list|
    ensures Elements(list[..i + 1]) * ids ==
            if list[i] in ids then Elements(list[..i]) * ids + {list[i]} else Elements(list[..i]) * ids
  {
    assert list[..i + 1] == list[..i] + [list[i]];
    ElementsSnoc(list[..i], list[i]);
  }

  lemma CancelNext(workers: map<Id, Worker>, ids: set<Id>, id: Id)
    ensures WithCancelled(WithCancelled(workers, ids), {id}) == WithCancelled(workers, ids + {id})
  {
  }

  lemma TakeOut(ids: set<Id>, rest: set<Id>, id: Id)
    requires id in rest
    ensures ids - (rest - {id}) == if id in ids then ids - rest + {id} else ids - rest
    ensures |ids - (rest - {id})| == |ids - rest| + if id in ids then 1 else 0
  {
    assert ids - (rest - {id}) == if id in ids then ids - rest + {id} else ids - rest;
  }

  lemma EvictOne(records: map<Id, Record>, user: User, left: map<Id, Record>, id: Id)
    requires Evicts(records, user, left) && OldestCompleted(left, user, id)
    ensures Evicts(records, user, left - {id})
    ensures Listed(left - {id}, user) == Listed(left, user) - {id}
    ensures PendingOf(left - {id}, user) == PendingOf(left, user)
  {
    var gone := records.Keys - left.Keys;
    var left' := left - {id};
    assert records.Keys - left'.Keys == gone + {id};
    assert left' == records - (gone + {id});
  }

  // ------------------------------------------------------------- the code on one object

  class LookupTables {
    var records: map<Id, Record>
    var workers: map<Id, Worker>
    var pendingByUser: map<User, nat>
    var stopped: bool
    var ctxDone: bool

    ghost function Value(): Tables
      reads this
    {
      Tables(records, workers, pendingByUser, stopped, ctxDone)
    }

    ghost predicate Valid()
      reads this
    {
      Counted(Value())
    }

    constructor ()
      ensures Value() == NO_LOOKUPS && Valid()
    {
      records, workers, pendingByUser, stopped, ctxDone := map[], map[], map[], false, false;
    }

    /** lookupRuntime.start. */
    method Start(id: Id, user: User) returns (ok: bool)
      requires Valid() && id !in workers
      modifies this
      ensures Valid()
      ensures ok == CanStart(old(Value()), user)
      ensures Value() == if ok then Started(old(Value()), id, user) else old(Value())
      ensures ok ==> 1 <= |WorkersOf(workers, user)| <= MAX_PENDING
      ensures ok <==> !old(stopped) && !old(ctxDone) && |set w | w in old(workers) && old(workers)[w].user == user| < 2
    {
      var count := if user in pendingByUser then pendingByUser[user] else 0;
      assert (set w | w in workers && workers[w].user == user) == WorkersOf(workers, user);
      assert PendingCount(Value().pending, user) == count;
      if stopped || ctxDone || count >= MAX_PENDING {
        return false;
      }
      StartedCounts(Value(), id, user);
      pendingByUser := pendingByUser[user := count + 1];
      workers := workers[id := Worker(user, false, false)];
      assert PendingCount(pendingByUser, user) == |WorkersOf(workers, user)|;
      return true;
    }

    /** The deferred function of the goroutine that start begins. */
    method Leave(id: Id)
      requires Valid() && id in workers
      modifies this
      ensures Valid() && old(PendingCount(pendingByUser, workers[id].user)) > 0
      ensures Value() == Left(old(Value()), id)
    {
      LeftCounts(Value(), id);
      var user := workers[id].user;
      workers := workers - {id};
      pendingByUser := pendingByUser[user := pendingByUser[user] - 1];
      if pendingByUser[user] == 0 {
        pendingByUser := pendingByUser - {user};
      }
    }

    /** The workers cancelUserAndWait gathers before it cancels and waits. */
    method WorkersFor(user: User) returns (found: set<Id>)
      ensures found == WorkersOf(workers, user)
    {
      found := {};
      var rest := workers.Keys;
      while rest != {}
        invariant rest <= workers.Keys
        invariant found == WorkersOf(workers, user) - rest
        decreases |rest|
      {
        var id :| id in rest;
        TakeOut(WorkersOf(workers, user), rest, id);
        if workers[id].user == user {
          found := found + {id};
        }
        rest := rest - {id};
      }
    }

    /** cancelUserAndWait up to the wait: every worker of the user is cancelled, no
        other is touched, and the caller knows whom to wait for. */
    method CancelUser(user: User) returns (waiting: set<Id>)
      requires Valid()
      modifies this`workers
      ensures Valid()
      ensures waiting == WorkersOf(old(workers), user)
      ensures workers == WithCancelled(old(workers), WorkersOf(old(workers), user))
    {
      waiting := WorkersFor(user);
      ghost var before := workers;
      var rest := waiting;
      while rest != {}
        invariant rest <= waiting && workers == WithCancelled(before, waiting - rest)
        decreases |rest|
      {
        var id :| id in rest;
        CancelLookup(id);
        rest := rest - {id};
      }
      assert waiting - rest == waiting;
      forall other: User ensures WorkersOf(workers, other) == WorkersOf(before, other) {}
    }

    /** lookupRecordsLocked: a snapshot of the records, in no particular order. */
    method List(user: User) returns (list: seq<Id>)
      ensures Elements(list) == Listed(records, user)
      ensures |list| == |Listed(records, user)|
    {
      list := [];
      var table := records;
      var rest := table.Keys;
      while rest != {}
        invariant rest <= table.Keys
        invariant Elements(list) == Listed(table, user) - rest
        invariant |list| == |Listed(table, user) - rest|
        decreases |rest|
      {
        var id :| id in rest;
        TakeOut(Listed(table, user), rest, id);
        rest := rest - {id};
        if user == "" || table[id].user == user {
          ElementsSnoc(list, id);
          list := list + [id];
        }
      }
      assert Listed(table, user) - {} == Listed(table, user);
    }

    method CancelLookup(id: Id)
      modifies this`workers
      ensures workers == WithCancelled(old(workers), {id})
    {
      if id in workers {
        workers := workers[id := workers[id].(cancelled := true)];
      }
    }

    /** cleanupLookupsLocked: what is overdue goes, and the workers of what went
        are cancelled; nothing else changes. */
    method Cleanup(now: int)
      requires Valid()
      modifies this
      ensures Valid()
      ensures records == old(records) - OverdueIds(old(records), now)
      ensures workers == WithCancelled(old(workers), OverdueIds(old(records), now))
      ensures forall id <- old(records) ::
                id in records <==> if old(records)[id].status == Pending then now < old(records)[id].startedAt + 90_000_000_000
                                   else now < old(records)[id].updatedAt + 900_000_000_000
      ensures forall id <- records :: id in old(records) && records[id] == old(records)[id]
      ensures pendingByUser == old(pendingByUser) && stopped == old(stopped) && ctxDone == old(ctxDone)
    {
      var list := List("");
      ghost var was, overdue := Value(), OverdueIds(records, now);
      ghost var done: set<Id> := {};
      for i := 0 to |list|
        invariant done == Elements(list[..i]) * overdue
        invariant records == was.records - done
        invariant workers == WithCancelled(was.workers, done)
        invariant pendingByUser == was.pending && stopped == was.stopped && ctxDone == was.ctxDone
      {
        var id := list[i];
        ElementsNext(list, i, overdue);
        if id in records && Overdue(records[id], now) {
          records := records - {id};
          CancelLookup(id);
          CancelNext(was.workers, done, id);
          done := done + {id};
        }
      }
      assert list[..|list|] == list;
      assert Elements(list) * overdue == overdue;
      SameWorkersCount(was, Value());
    }

    /** The search for the oldest completed record in a snapshot. */
    method FindOldest(user: User, list: seq<Id>) returns (found: bool, oldest: Id)
      requires Elements(list) == Listed(records, user)
      ensures found ==> OldestCompleted(records, user, oldest)
      ensures !found ==> PendingOf(records, user) == Listed(records, user)
    {
      var table := records;
      found, oldest := false, 0;
      for i := 0 to |list|
        invariant found ==> oldest in Listed(table, user) && table[oldest].status != Pending
        invariant forall k | 0 <= k < i ::
                    list[k] in table && (table[list[k]].status == Pending ||
                                         (found && table[oldest].updatedAt <= table[list[k]].updatedAt))
      {
        var id := list[i];
        assert id in Elements(list);
        if table[id].status == Pending {
          continue;
        }
        if !found || table[id].updatedAt < table[oldest].updatedAt {
          found, oldest := true, id;
        }
      }
      assert forall id <- Elements(list) :: id in list;
    }

    /** makeLookupRoomLocked. */
    method MakeRoom(user: User) returns (ok: bool)
      modifies this`records
      ensures Evicts(old(records), user, records)
      ensures ok == (|PendingOf(old(records), user)| < MAX_RETAINED)
      ensures ok ==> |Listed(records, user)| < MAX_RETAINED
      ensures ok ==> records == old(records) || |Listed(records, user)| == MAX_RETAINED - 1
    {
      ghost var was := records;
      while true
        invariant Evicts(was, user, records)
        invariant PendingOf(records, user) == PendingOf(was, user)
        invariant records == was || |Listed(records, user)| >= MAX_RETAINED - 1
        decreases Listed(records, user)
      {
        var list := List(user);
        if |list| < MAX_RETAINED {
          SubsetSize(PendingOf(records, user), Listed(records, user));
          return true;
        }
        var found, oldest := FindOldest(user, list);
        if !found {
          return false;
        }
        EvictOne(was, user, records, oldest);
        records := records - {oldest};
      }
    }
  }
}
