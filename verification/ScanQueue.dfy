/** The multi-user scan queue of server/scans.go and the account purge of
    server/cleanup.go: everything that runs under the server mutex.

    `Queue` is the guarded state as a value. The functions on it are the
    critical sections; class `ScanQueue` at the end performs them by editing its
    fields in place, and each of its methods is proved against one of them. */
module ScanQueues {
  import opened Subsequences
  import opened UserIds

  type Id = string
  type User = string

  /** activeBatchID == "" means that nothing is running. */
  const NO_BATCH: Id := ""

  datatype Status = Queued | Running

  datatype Batch = Batch(user: User, targets: seq<string>, status: Status)

  datatype Queue = Queue(
    batches: map<Id, Batch>,
    order: seq<Id>,
    active: Id,
    runnerActive: bool)

  const EMPTY_QUEUE := Queue(map[], [], NO_BATCH, false)

  /** The ids of one user's batches. */
  function Owned(batches: map<Id, Batch>, user: User): set<Id> {
    set id | id in batches && batches[id].user == user
  }

  /** One user's part of the queue, as that user sees it. */
  function Mine(q: Queue, user: User): seq<Id> {
    Keep(q.order, Owned(q.batches, user))
  }

  /** The owners with queued work, each once, in the order of their first batch. */
  function UsersOf(batches: map<Id, Batch>, order: seq<Id>): seq<User> {
    if order == [] then []
    else
      var last := order[|order| - 1];
      var users := UsersOf(batches, order[..|order| - 1]);
      if last in batches && batches[last].user !in users then users + [batches[last].user] else users
  }

  lemma {:induction false} UsersOfMember(batches: map<Id, Batch>, order: seq<Id>)
    ensures forall id | id in order && id in batches :: batches[id].user in UsersOf(batches, order)
    ensures forall u | u in UsersOf(batches, order) :: Keep(order, Owned(batches, u)) != []
  {
    if order != [] {
      var n := |order| - 1;
      UsersOfMember(batches, order[..n]);
      assert order == order[..n] + [order[n]];
    }
  }

  lemma UsersOfSnoc(batches: map<Id, Batch>, order: seq<Id>, id: Id)
    requires id in batches
    ensures UsersOf(batches, order + [id]) ==
            var users := UsersOf(batches, order);
            if batches[id].user in users then users else users + [batches[id].user]
  {
    assert (order + [id])[..|order|] == order;
  }

  // ---------------------------------------------------------------- critical sections

  function Enqueue(q: Queue, id: Id, batch: Batch): Queue {
    q.(batches := q.batches[id := batch], order := q.order + [id], runnerActive := true)
  }

  datatype Pick = Pick(id: Id, found: bool)

  /** nextQueuedBatchID with the random number made a parameter: drop ids without
      a batch, choose one of the users with work, take that user's first batch. */
  function Next(q: Queue, choice: nat): (Queue, Pick) {
    var order := Keep(q.order, q.batches.Keys);
    var users := UsersOf(q.batches, order);
    if users == [] then
      (q.(order := order, runnerActive := q.runnerActive && q.active != NO_BATCH), Pick(NO_BATCH, false))
    else
      var user := users[choice % |users|];
      UsersOfMember(q.batches, order);
      (q.(order := order), Pick(Keep(order, Owned(q.batches, user))[0], true))
  }

  function Activate(q: Queue, id: Id): (Queue, bool) {
    if q.active != NO_BATCH || id !in q.batches || id !in q.order then (q, false)
    else
      (q.(batches := q.batches[id := q.batches[id].(status := Running)],
          order := RemoveAt(q.order, IndexOf(q.order, id)),
          active := id), true)
  }

  function Finish(q: Queue, id: Id): Queue {
    q.(batches := q.batches - {id}, active := if q.active == id then NO_BATCH else q.active)
  }

  datatype Outcome =
    | Done
    | IdRequired
    | BadNumber
    | NotConfirmed
    | NotFound
    | IsRunning
    | Busy

  /** The guards shared by reorder and cancel, after the argument checks. */
  function FindQueued(q: Queue, id: Id, user: User): Outcome {
    if !ValidUserId(user) || id !in Owned(q.batches, user) then NotFound
    else if id == q.active then IsRunning
    else if id !in q.order then NotFound
    else Done
  }

  /** A requested one-based number, clamped to the number of owned batches. */
  function Clamp(number: int, count: int): int {
    if number > count then count else number
  }

  /** A user's subsequence with one id moved to a one-based number, clamped. */
  function MovedTo(owned: seq<Id>, id: Id, number: int): seq<Id>
    requires id in owned && 1 <= number
  {
    InsertAt(RemoveAt(owned, IndexOf(owned, id)), Clamp(number, |owned|) - 1, id)
  }

  function Reorder(q: Queue, id: Id, number: int, user: User): (Queue, Outcome) {
    if id == "" then (q, IdRequired)
    else if number < 1 then (q, BadNumber)
    else
      var found := FindQueued(q, id, user);
      if found != Done then (q, found)
      else
        KeepMember(q.order, Owned(q.batches, user));
        (q.(order := Scatter(q.order, Owned(q.batches, user), MovedTo(Mine(q, user), id, number))), Done)
  }

  function Cancel(q: Queue, id: Id, confirm: string, user: User): (Queue, Outcome) {
    if id == "" then (q, IdRequired)
    else if confirm != "Y" then (q, NotConfirmed)
    else
      var found := FindQueued(q, id, user);
      if found != Done then (q, found)
      else (q.(batches := q.batches - {id}, order := RemoveAt(q.order, IndexOf(q.order, id))), Done)
  }

  /** The queue part of deleting an account. */
  function Purge(q: Queue, user: User): (Queue, Outcome) {
    var owned := Owned(q.batches, user);
    if q.active in owned then (q, Busy)
    else (q.(batches := q.batches - (set id | id in Mine(q, user)), order := Drop(q.order, owned)), Done)
  }

  /** manualScanPendingOrActive of server/sleep_wake.go. */
  predicate PendingOrActive(q: Queue) {
    q.active != NO_BATCH || q.order != []
  }

  // ---------------------------------------------------------------- invariant

  /** What every critical section keeps: no id is queued twice, the running batch
      is not queued, every batch is queued or running and nothing else is. */
  ghost predicate WellFormed(q: Queue) {
    && Distinct(q.order)
    && NO_BATCH !in q.batches
    && (forall id :: id in q.order ==> id in q.batches && id != q.active)
    && (forall id :: id in q.batches ==> id in q.order || id == q.active)
    && (q.active == NO_BATCH || q.active in q.batches)
    && (forall id | id in q.batches :: q.batches[id].status == (if id == q.active then Running else Queued))
  }

  /** The first batch its owner has queued. */
  predicate IsHead(q: Queue, id: Id) {
    id in q.batches && var mine := Mine(q, q.batches[id].user); mine != [] && mine[0] == id
  }

  lemma EnqueueKeeps(q: Queue, id: Id, batch: Batch)
    requires WellFormed(q)
    requires id != NO_BATCH && id !in q.batches
    requires batch.status == Queued
    ensures WellFormed(Enqueue(q, id, batch))
  {
  }

  /** On a well-formed queue nothing is dropped, a batch is found exactly when one
      is queued, and it is the first one of its owner. */
  lemma NextKeeps(q: Queue, choice: nat)
    requires WellFormed(q)
    ensures var (q', p) := Next(q, choice);
            && WellFormed(q')
            && (p.found <==> q.order != [])
            && q' == q.(runnerActive := q.runnerActive && (p.found || q.active != NO_BATCH))
            && (p.found ==> p.id in q.order && IsHead(q, p.id))
  {
    KeepAll(q.order, q.batches.Keys);
    UsersOfMember(q.batches, q.order);
    var (_, p) := Next(q, choice);
    if p.found {
      var users := UsersOf(q.batches, q.order);
      var owned := Keep(q.order, Owned(q.batches, users[choice % |users|]));
      KeepMember(q.order, Owned(q.batches, users[choice % |users|]));
      assert p.id == owned[0] && owned[0] in owned;
    }
    assert q.order != [] ==> q.order[0] in q.order;
  }

  /** Every user with queued work can be the one that is picked. */
  lemma NextCanPickAnyUser(q: Queue, id: Id) returns (choice: nat)
    requires WellFormed(q) && id in q.order
    ensures var p := Next(q, choice).1;
            p.found && p.id in Owned(q.batches, q.batches[id].user)
  {
    KeepAll(q.order, q.batches.Keys);
    var user := q.batches[id].user;
    var users := UsersOf(q.batches, q.order);
    assert user in users by { UsersOfMember(q.batches, q.order); }
    choice :| 0 <= choice < |users| && users[choice] == user;
    var mine := Mine(q, user);
    assert mine != [] by { UsersOfMember(q.batches, q.order); }
    assert mine[0] in Owned(q.batches, user) by { KeepMember(q.order, Owned(q.batches, user)); assert mine[0] in mine; }
    SmallMod(choice, |users|);
  }

  lemma SmallMod(k: nat, n: nat)
    requires k < n
    ensures k % n == k
  {
  }

  lemma ActivateKeeps(q: Queue, id: Id)
    requires WellFormed(q)
    ensures WellFormed(Activate(q, id).0)
    ensures Activate(q, id).1 <==> q.active == NO_BATCH && id in q.order
  {
    if q.active == NO_BATCH && id in q.order {
      RemoveAtFacts(q.order, id);
    }
  }

  lemma FinishKeeps(q: Queue, id: Id)
    requires WellFormed(q)
    requires id == q.active != NO_BATCH
    ensures WellFormed(Finish(q, id))
    ensures Finish(q, id).active == NO_BATCH && Finish(q, id).order == q.order
  {
  }

  lemma CancelKeeps(q: Queue, id: Id, confirm: string, user: User)
    requires WellFormed(q)
    ensures var (q', r) := Cancel(q, id, confirm, user);
            && WellFormed(q')
            && q'.active == q.active
            && (r != Done ==> q' == q)
            && (r == Done ==> q'.batches == q.batches - {id} && id in q.order && id != q.active)
  {
    if Cancel(q, id, confirm, user).1 == Done {
      RemoveAtFacts(q.order, id);
    }
  }

  /** Cancelling or activating a batch does not disturb the order of any others. */
  lemma RemovalKeepsOrder(q: Queue, id: Id, confirm: string, user: User, others: set<Id>)
    requires WellFormed(q) && id !in others
    ensures Keep(Cancel(q, id, confirm, user).0.order, others) == Keep(q.order, others)
    ensures Keep(Activate(q, id).0.order, others) == Keep(q.order, others)
  {
    if id in q.order { KeepRemoveOther(q.order, id, others); }
  }

  /** Purging an account never touches the running batch, and leaves the account
      without a batch unless it refuses because the account is running one. */
  lemma PurgeKeeps(q: Queue, user: User)
    requires WellFormed(q)
    ensures var (q', r) := Purge(q, user);
            && WellFormed(q')
            && q'.active == q.active
            && (r == Busy <==> q.active in Owned(q.batches, user))
            && (r == Busy ==> q' == q)
            && (r == Done ==> Owned(q'.batches, user) == {})
            && (forall id | id in q.batches && q.batches[id].user != user :: id in q'.batches && q'.batches[id] == q.batches[id])
  {
    var owned := Owned(q.batches, user);
    KeepDistinct(q.order, owned);
    KeepMember(q.order, owned);
    DropMember(q.order, owned);
  }

  /** Purging an account does not disturb the order of the others' batches. */
  lemma PurgeKeepsOrder(q: Queue, user: User, others: set<Id>)
    requires WellFormed(q) && others !! Owned(q.batches, user)
    ensures Keep(Purge(q, user).0.order, others) == Keep(q.order, others)
  {
    KeepOfDrop(q.order, Owned(q.batches, user), others);
  }

  // ---------------------------------------------------------------- reordering

  /** Reordering permutes the queue, moves no other user's id, and gives the owner
      exactly remove-then-insert at the requested number, clamped to the count. */
  lemma ReorderCorrect(q: Queue, id: Id, number: int, user: User)
    requires WellFormed(q)
    requires Reorder(q, id, number, user).1 == Done
    ensures var q' := Reorder(q, id, number, user).0;
            && q' == q.(order := q'.order)
            && multiset(q'.order) == multiset(q.order)
            && |q'.order| == |q.order|
            && (forall i | 0 <= i < |q.order| && q.order[i] !in Owned(q.batches, user) :: q'.order[i] == q.order[i])
            && id in Mine(q, user)
            && Mine(q', user) == MovedTo(Mine(q, user), id, number)
  {
    var owned := Owned(q.batches, user);
    KeepMember(q.order, owned);
    var mine := Mine(q, user);
    var moved := MovedTo(mine, id, number);
    MoveIsPermutation(mine, id, Clamp(number, |mine|) - 1);
    PermutationMembers(mine, moved);
    ScatterLength(q.order, owned, moved);
    ScatterReadsBack(q.order, owned, moved);
    ScatterIsPermutation(q.order, owned, moved);
    forall i | 0 <= i < |q.order| && q.order[i] !in owned
      ensures Scatter(q.order, owned, moved)[i] == q.order[i]
    {
      ScatterElsewhere(q.order, owned, moved, i);
    }
  }

  lemma PermutationMembers(s: seq<Id>, t: seq<Id>)
    requires multiset(s) == multiset(t)
    ensures forall x :: x in t <==> x in s
  {
    forall x ensures x in t <==> x in s {
      assert x in t <==> x in multiset(t);
      assert x in s <==> x in multiset(s);
    }
  }

  /** What every other user sees does not change. */
  lemma ReorderIsPrivate(q: Queue, id: Id, number: int, user: User, other: User)
    requires WellFormed(q) && other != user
    ensures Mine(Reorder(q, id, number, user).0, other) == Mine(q, other)
  {
    var (q', r) := Reorder(q, id, number, user);
    if r == Done {
      var owned := Owned(q.batches, user);
      KeepMember(q.order, owned);
      var mine := Mine(q, user);
      var moved := MovedTo(mine, id, number);
      MoveIsPermutation(mine, id, Clamp(number, |mine|) - 1);
      PermutationMembers(mine, moved);
      ScatterLength(q.order, owned, moved);
      forall i | 0 <= i < |q.order|
        ensures q.order[i] in owned <==> q'.order[i] in owned
        ensures q.order[i] !in owned ==> q'.order[i] == q.order[i]
      {
        ScatterElsewhere(q.order, owned, moved, i);
      }
      SameElsewhere(q.order, q'.order, owned, Owned(q.batches, other));
    }
  }

  lemma ReorderKeeps(q: Queue, id: Id, number: int, user: User)
    requires WellFormed(q)
    ensures var (q', r) := Reorder(q, id, number, user);
            WellFormed(q') && q' == q.(order := q'.order) && |q'.order| == |q.order| && (r != Done ==> q' == q)
  {
    if Reorder(q, id, number, user).1 == Done {
      ReorderCorrect(q, id, number, user);
      PermutationDistinct(q.order, Reorder(q, id, number, user).0.order);
    }
  }

  // ---------------------------------------------------------------- listing

  datatype Item = Item(id: Id, number: nat)

  /** The queued batches a caller may see; "" stands for every user. */
  function Seen(batches: map<Id, Batch>, user: User): set<Id> {
    if user == "" then batches.Keys else Owned(batches, user)
  }

  predicate InRange(number: nat, all: bool, start: nat, end: nat) {
    all || start <= number <= end
  }

  /** Numbers 1, 2, ... for the ids, leaving out those beyond the range. */
  function Listed(ids: seq<Id>, all: bool, start: nat, end: nat): seq<Item> {
    if ids == [] then []
    else
      var front := Listed(ids[..|ids| - 1], all, start, end);
      if InRange(|ids|, all, start, end) then front + [Item(ids[|ids| - 1], |ids|)] else front
  }

  lemma ListedSnoc(ids: seq<Id>, id: Id, all: bool, start: nat, end: nat)
    ensures Listed(ids + [id], all, start, end) ==
            var front := Listed(ids, all, start, end);
            if InRange(|ids| + 1, all, start, end) then front + [Item(id, |ids| + 1)] else front
  {
    assert (ids + [id])[..|ids|] == ids;
  }

  /** The listing holds exactly the positions in range, each under its number. */
  lemma {:induction false} ListedMeaning(ids: seq<Id>, all: bool, start: nat, end: nat, x: Item)
    ensures x in Listed(ids, all, start, end) <==>
            1 <= x.number <= |ids| && ids[x.number - 1] == x.id && InRange(x.number, all, start, end)
  {
    if ids != [] {
      ListedMeaning(ids[..|ids| - 1], all, start, end, x);
    }
  }

  /** After a successful reorder the listing shows the moved batch under the
      requested number, clamped to the count of the caller's queued batches, and
      under no other number. */
  lemma ListingShowsMove(q: Queue, id: Id, number: int, user: User, n: nat)
    requires WellFormed(q)
    requires Reorder(q, id, number, user).1 == Done
    ensures var q' := Reorder(q, id, number, user).0;
            Item(id, n) in Listed(Keep(q'.order, Seen(q'.batches, user)), true, 0, 0) <==> n == Clamp(number, |Mine(q, user)|)
  {
    ReorderCorrect(q, id, number, user);
    ReorderKeeps(q, id, number, user);
    assert user != "";
    var q' := Reorder(q, id, number, user).0;
    var mine := Mine(q', user);
    KeepDistinct(q'.order, Owned(q'.batches, user));
    ListedMeaning(mine, true, 0, 0, Item(id, n));
    assert mine[Clamp(number, |Mine(q, user)|) - 1] == id;
  }

  // ---------------------------------------------------------------- the object

  /** The batches without those of the kept part of a queue. */
  function WithoutKept(batches: map<Id, Batch>, order: seq<Id>, owned: set<Id>): map<Id, Batch> {
    batches - (set id | id in Keep(order, owned))
  }

  lemma WithoutKeptNext(batches: map<Id, Batch>, order: seq<Id>, owned: set<Id>, k: nat)
    requires k < |order|
    ensures WithoutKept(batches, order[..k + 1], owned) ==
            if order[k] in owned then WithoutKept(batches, order[..k], owned) - {order[k]}
            else WithoutKept(batches, order[..k], owned)
    ensures Distinct(order) && order[k] in owned && order[k] in batches ==> order[k] in WithoutKept(batches, order[..k], owned)
  {
    KeepSnoc(order, owned, k);
    if Distinct(order) { FirstOccurrence(order, k, owned); }
    if order[k] in owned {
      var front := Keep(order[..k], owned);
      assert (set id | id in front + [order[k]]) == (set id | id in front) + {order[k]};
    }
  }

  /** The loop of a purge: the owned ids before `read` are gone from the front of the
      list and from the batches. */
  ghost predicate Dropping(all: map<Id, Batch>, order: seq<Id>, user: User, now: seq<Id>, batches: map<Id, Batch>,
                           read: nat, write: nat) {
    && Distinct(order) && read <= |order| && write == |Drop(order[..read], Owned(all, user))|
    && Compacted(order, now, Drop(order[..read], Owned(all, user)), read)
    && batches == WithoutKept(all, order[..read], Owned(all, user))
  }

  lemma DropStarts(all: map<Id, Batch>, order: seq<Id>, user: User)
    requires Distinct(order)
    ensures Dropping(all, order, user, order, all, 0, 0)
  {
    assert order[..0] == [] && order[0..] == order;
  }

  lemma DropNext(all: map<Id, Batch>, order: seq<Id>, user: User, now: seq<Id>, batches: map<Id, Batch>, read: nat, write: nat)
    requires Dropping(all, order, user, now, batches, read, write) && read < |order|
    ensures write <= read < |now| == |order|
    ensures if now[read] in batches && batches[now[read]].user == user
            then Dropping(all, order, user, now, batches - {now[read]}, read + 1, write)
            else Dropping(all, order, user, now[write := now[read]], batches, read + 1, write + 1)
  {
    var owned := Owned(all, user);
    KeepSnoc(order, owned, read);
    WithoutKeptNext(all, order, owned, read);
    CompactNext(order, now, Drop(order[..read], owned), read);
  }

  lemma DropEnds(all: map<Id, Batch>, order: seq<Id>, user: User, now: seq<Id>, batches: map<Id, Batch>, write: nat)
    requires Dropping(all, order, user, now, batches, |order|, write)
    ensures write <= |now| && now[..write] == Drop(order, Owned(all, user))
    ensures batches == WithoutKept(all, order, Owned(all, user))
  {
    assert order[..|order|] == order;
  }

  /** The fields of the server guarded by its mutex. */
  class ScanQueue {
    var batches: map<Id, Batch>
    var queuedBatchIds: seq<Id>
    var activeBatchId: Id
    var queueRunnerActive: bool

    ghost function View(): Queue
      reads this
    {
      Queue(batches, queuedBatchIds, activeBatchId, queueRunnerActive)
    }

    constructor ()
      ensures View() == EMPTY_QUEUE && WellFormed(View())
    {
      batches, queuedBatchIds, activeBatchId, queueRunnerActive := map[], [], NO_BATCH, false;
    }

    method EnqueueBatch(id: Id, batch: Batch) returns (startRunner: bool)
      modifies this
      ensures View() == Enqueue(old(View()), id, batch)
      ensures startRunner <==> !old(queueRunnerActive)
    {
      batches := batches[id := batch];
      queuedBatchIds := queuedBatchIds + [id];
      startRunner := !queueRunnerActive;
      if startRunner {
        queueRunnerActive := true;
      }
    }

    /** The in-place compaction: drops ids without a batch and collects the users
        with work. Reads stay ahead of writes in the same sequence. */
    method Compact() returns (users: seq<User>)
      modifies this`queuedBatchIds
      ensures queuedBatchIds == Keep(old(queuedBatchIds), batches.Keys)
      ensures users == UsersOf(batches, queuedBatchIds)
    {
      ghost var order, known := queuedBatchIds, batches.Keys;
      var write := 0;
      users := [];
      for read := 0 to |queuedBatchIds|
        invariant write == |Keep(order[..read], known)|
        invariant Compacted(order, queuedBatchIds, Keep(order[..read], known), read)
        invariant users == UsersOf(batches, Keep(order[..read], known))
      {
        KeepSnoc(order, known, read);
        CompactNext(order, queuedBatchIds, Keep(order[..read], known), read);
        var current := queuedBatchIds[read];
        if current in batches {
          users := NoteUser(users, current, Keep(order[..read], known));
          queuedBatchIds := queuedBatchIds[write := current];
          write := write + 1;
        }
      }
      assert order[..|order|] == order;
      queuedBatchIds := queuedBatchIds[..write];
    }

    method NoteUser(users: seq<User>, id: Id, ghost kept: seq<Id>) returns (r: seq<User>)
      requires id in batches && users == UsersOf(batches, kept)
      ensures r == UsersOf(batches, kept + [id])
    {
      UsersOfSnoc(batches, kept, id);
      r := if batches[id].user !in users then users + [batches[id].user] else users;
    }

    method FirstOf(user: User) returns (id: Id)
      requires Keep(queuedBatchIds, Owned(batches, user)) != []
      ensures id == Keep(queuedBatchIds, Owned(batches, user))[0]
    {
      ghost var owned := Owned(batches, user);
      var k := 0;
      while k < |queuedBatchIds| && !(queuedBatchIds[k] in batches && batches[queuedBatchIds[k]].user == user)
        invariant k <= |queuedBatchIds|
        invariant Keep(queuedBatchIds[..k], owned) == []
      {
        KeepSnoc(queuedBatchIds, owned, k);
        k := k + 1;
      }
      assert k < |queuedBatchIds| by {
        assert queuedBatchIds[..|queuedBatchIds|] == queuedBatchIds;
      }
      KeepSplit(queuedBatchIds, k, owned);
      return queuedBatchIds[k];
    }

    method NextQueuedBatchId(choice: nat) returns (id: Id, found: bool)
      modifies this
      ensures (View(), Pick(id, found)) == Next(old(View()), choice)
    {
      var users := Compact();
      if |users| > 0 {
        UsersOfMember(batches, queuedBatchIds);
        id := FirstOf(users[choice % |users|]);
        return id, true;
      }
      if activeBatchId == NO_BATCH {
        queueRunnerActive := false;
      }
      return NO_BATCH, false;
    }

    method ActivateQueuedBatch(id: Id) returns (ok: bool)
      modifies this
      ensures (View(), ok) == Activate(old(View()), id)
    {
      if activeBatchId != NO_BATCH || id !in batches { return false; }
      var index := Find(queuedBatchIds, id);
      if index < 0 { return false; }
      queuedBatchIds := queuedBatchIds[..index] + queuedBatchIds[index + 1..];
      batches := batches[id := batches[id].(status := Running)];
      activeBatchId := id;
      return true;
    }

    method FinishBatch(id: Id)
      modifies this
      ensures View() == Finish(old(View()), id)
    {
      if activeBatchId == id { activeBatchId := NO_BATCH; }
      batches := batches - {id};
    }

    /** The owner's queued ids, collected in queue order. */
    method CollectOwned(user: User) returns (owned: seq<Id>)
      ensures owned == Keep(queuedBatchIds, Owned(batches, user))
    {
      owned := [];
      for k := 0 to |queuedBatchIds|
        invariant owned == Keep(queuedBatchIds[..k], Owned(batches, user))
      {
        KeepSnoc(queuedBatchIds, Owned(batches, user), k);
        if queuedBatchIds[k] in batches && batches[queuedBatchIds[k]].user == user {
          owned := owned + [queuedBatchIds[k]];
        }
      }
      assert queuedBatchIds[..|queuedBatchIds|] == queuedBatchIds;
    }

    /** Overwrites the owner's positions of the live queue, one by one. */
    method WriteBack(user: User, values: seq<Id>)
      requires |values| == |Keep(queuedBatchIds, Owned(batches, user))|
      modifies this`queuedBatchIds
      ensures queuedBatchIds == Scatter(old(queuedBatchIds), Owned(batches, user), values)
    {
      ghost var order, owned := queuedBatchIds, Owned(batches, user);
      var n: nat := 0;
      WriteStarts(order, owned, values);
      for i := 0 to |queuedBatchIds|
        invariant |queuedBatchIds| == |order| && WrittenBack(order, owned, values, queuedBatchIds, i, n)
      {
        n := WriteAt(user, values, i, n, order);
      }
      WriteEnds(order, owned, values, queuedBatchIds, n);
    }

    /** One turn of that loop. */
    method WriteAt(user: User, values: seq<Id>, i: nat, n: nat, ghost order: seq<Id>) returns (next: nat)
      requires WrittenBack(order, Owned(batches, user), values, queuedBatchIds, i, n) && i < |order|
      modifies this`queuedBatchIds
      ensures |queuedBatchIds| == |order| && WrittenBack(order, Owned(batches, user), values, queuedBatchIds, i + 1, next)
    {
      WriteNext(order, Owned(batches, user), values, queuedBatchIds, i, n);
      var queuedId := queuedBatchIds[i];
      if queuedId in batches && batches[queuedId].user == user {
        queuedBatchIds := queuedBatchIds[i := values[n]];
        next := n + 1;
      } else {
        next := n;
      }
    }

    /** Collects the owner's ids, moves one of them in that list, and writes the
        list back over the owner's positions of the live queue. */
    method ReorderQueuedBatch(id: Id, targetNumber: int, user: User) returns (r: Outcome)
      modifies this
      ensures (View(), r) == Reorder(old(View()), id, targetNumber, user)
    {
      if id == "" { return IdRequired; }
      if targetNumber < 1 { return BadNumber; }
      var valid := CheckUserId(user);
      if !valid { return NotFound; }
      if id !in batches || batches[id].user != user { return NotFound; }
      if id == activeBatchId { return IsRunning; }
      var current := Find(queuedBatchIds, id);
      if current < 0 { return NotFound; }
      MoveOwned(id, targetNumber, user);
      return Done;
    }

    method MoveOwned(id: Id, targetNumber: int, user: User)
      requires id in queuedBatchIds && id in Owned(batches, user) && 1 <= targetNumber
      modifies this`queuedBatchIds
      ensures id in Keep(old(queuedBatchIds), Owned(batches, user))
      ensures queuedBatchIds == Scatter(old(queuedBatchIds), Owned(batches, user),
                                        MovedTo(Keep(old(queuedBatchIds), Owned(batches, user)), id, targetNumber))
    {
      var owned := CollectOwned(user);
      KeepMember(queuedBatchIds, Owned(batches, user));
      var target := if targetNumber > |owned| then |owned| else targetNumber;
      var ownedCurrent := Find(owned, id);
      var rest := owned[..ownedCurrent] + owned[ownedCurrent + 1..];
      WriteBack(user, rest[..target - 1] + [id] + rest[target - 1..]);
    }

    method CancelQueuedBatch(id: Id, confirm: string, user: User) returns (r: Outcome)
      modifies this
      ensures (View(), r) == Cancel(old(View()), id, confirm, user)
    {
      if id == "" { return IdRequired; }
      if confirm != "Y" { return NotConfirmed; }
      var valid := CheckUserId(user);
      if !valid { return NotFound; }
      if id !in batches || batches[id].user != user { return NotFound; }
      if id == activeBatchId { return IsRunning; }
      var index := Find(queuedBatchIds, id);
      if index < 0 { return NotFound; }
      queuedBatchIds := queuedBatchIds[..index] + queuedBatchIds[index + 1..];
      batches := batches - {id};
      return Done;
    }

    /** Compacts the queue in place, deleting the account's batches on the way. */
    method DropOwned(user: User)
      requires Distinct(queuedBatchIds)
      modifies this`queuedBatchIds, this`batches
      ensures queuedBatchIds == Drop(old(queuedBatchIds), Owned(old(batches), user))
      ensures batches == WithoutKept(old(batches), old(queuedBatchIds), Owned(old(batches), user))
    {
      ghost var order, all := queuedBatchIds, batches;
      var write: nat := 0;
      DropStarts(all, order, user);
      for read := 0 to |queuedBatchIds|
        invariant |queuedBatchIds| == |order| && Dropping(all, order, user, queuedBatchIds, batches, read, write)
      {
        write := DropOrKeep(user, read, write, all, order);
      }
      DropEnds(all, order, user, queuedBatchIds, batches, write);
      queuedBatchIds := queuedBatchIds[..write];
    }

    /** One turn of that loop. */
    method DropOrKeep(user: User, read: nat, write: nat, ghost all: map<Id, Batch>, ghost order: seq<Id>)
      returns (next: nat)
      requires Dropping(all, order, user, queuedBatchIds, batches, read, write) && read < |order|
      modifies this`queuedBatchIds, this`batches
      ensures |queuedBatchIds| == |order| && Dropping(all, order, user, queuedBatchIds, batches, read + 1, next)
    {
      DropNext(all, order, user, queuedBatchIds, batches, read, write);
      var current := queuedBatchIds[read];
      if current in batches && batches[current].user == user {
        batches := batches - {current};
        next := write;
      } else {
        queuedBatchIds := queuedBatchIds[write := current];
        next := write + 1;
      }
    }

    method PurgeUser(user: User) returns (r: Outcome)
      requires Distinct(queuedBatchIds)
      modifies this
      ensures (View(), r) == Purge(old(View()), user)
    {
      if activeBatchId in batches && batches[activeBatchId].user == user { return Busy; }
      DropOwned(user);
      return Done;
    }

    /** The queued part of a listing: counted from 1, restricted to the range. */
    method ListQueued(all: bool, start: nat, end: nat, user: User) returns (items: seq<Item>)
      ensures items == Listed(Keep(queuedBatchIds, Seen(batches, user)), all, start, end)
    {
      items := [];
      ghost var seen := Seen(batches, user);
      var queueNumber := 0;
      for k := 0 to |queuedBatchIds|
        invariant queueNumber == |Keep(queuedBatchIds[..k], seen)|
        invariant items == Listed(Keep(queuedBatchIds[..k], seen), all, start, end)
      {
        KeepSnoc(queuedBatchIds, seen, k);
        var id := queuedBatchIds[k];
        if id in batches && (user == "" || batches[id].user == user) {
          ListedSnoc(Keep(queuedBatchIds[..k], seen), id, all, start, end);
          queueNumber := queueNumber + 1;
          if all || start <= queueNumber <= end {
            items := items + [Item(id, queueNumber)];
          }
        }
      }
      assert queuedBatchIds[..|queuedBatchIds|] == queuedBatchIds;
    }

    /** listQueueItems: the running batch as number 0, then the queued part. */
    method ListQueueItems(all: bool, start: nat, end: nat, user: User) returns (items: seq<Item>)
      ensures items ==
        (if (all || start == 1) && activeBatchId != NO_BATCH && activeBatchId in Seen(batches, user)
         then [Item(activeBatchId, 0)] else [])
        + Listed(Keep(queuedBatchIds, Seen(batches, user)), all, start, end)
    {
      items := [];
      if all || start == 1 {
        if activeBatchId != NO_BATCH && activeBatchId in batches && (user == "" || batches[activeBatchId].user == user) {
          items := [Item(activeBatchId, 0)];
        }
      }
      var queued := ListQueued(all, start, end, user);
      items := items + queued;
    }
  }
}
