/** What the requests on the scan queue mean to a user, in terms of ids, owners and
    positions only (server/scans.go). */
module ScanQueueLaws {
  import opened Subsequences
  import opened UserIds
  import opened ScanQueues

  /** The batch is queued and this user submitted it. */
  predicate QueuedFor(q: Queue, id: Id, user: User) {
    id in q.order && id in q.batches && q.batches[id].user == user
  }

  predicate RunningFor(q: Queue, id: Id, user: User) {
    id != "" && id == q.active && id in q.batches && q.batches[id].user == user
  }

  /** Batches that are there before and after are the same, up to their status. */
  predicate SameBatches(q: Queue, q': Queue) {
    forall id <- q.batches | id in q'.batches ::
      q'.batches[id].user == q.batches[id].user && q'.batches[id].targets == q.batches[id].targets
  }

  // ------------------------------------------------------------- who may cancel

  /** A cancel is answered by what the caller could see: it succeeds exactly for the
      caller's own queued batch, and then that batch and no other is gone. */
  lemma CancelExactly(q: Queue, id: Id, confirm: string, user: User)
    requires WellFormed(q)
    ensures var (q', r) := Cancel(q, id, confirm, user);
            && (r == IdRequired <==> id == "")
            && (r == NotConfirmed <==> id != "" && confirm != "Y")
            && (r == Done <==> confirm == "Y" && ValidUserId(user) && QueuedFor(q, id, user))
            && (r == IsRunning <==> confirm == "Y" && ValidUserId(user) && RunningFor(q, id, user))
            && (r == NotFound <==> id != "" && confirm == "Y" &&
                                   !(ValidUserId(user) && id in q.batches && q.batches[id].user == user))
            && (r != Done ==> q' == q)
            && (r == Done ==> q'.batches == q.batches - {id} && id !in q'.order &&
                              multiset(q'.order) == multiset(q.order) - multiset{id})
            && q'.active == q.active && q'.runnerActive == q.runnerActive
  {
    var (q', r) := Cancel(q, id, confirm, user);
    if r == Done {
      RemoveAtFacts(q.order, id);
      RemovedOnce(q.order, IndexOf(q.order, id));
    }
  }

  lemma RemovedOnce(s: seq<Id>, k: nat)
    requires k < |s|
    ensures multiset(RemoveAt(s, k)) == multiset(s) - multiset{s[k]}
  {
    assert s == s[..k] + [s[k]] + s[k + 1..];
    assert RemoveAt(s, k) == s[..k] + s[k + 1..];
  }

  /** No one else notices: the batches of every other user and their numbers stay. */
  lemma CancelIsPrivate(q: Queue, id: Id, confirm: string, user: User, other: User)
    requires WellFormed(q) && other != user
    ensures var q' := Cancel(q, id, confirm, user).0;
            && Mine(q', other) == Mine(q, other)
            && forall x <- q.batches | q.batches[x].user == other :: x in q'.batches && q'.batches[x] == q.batches[x]
  {
    CancelExactly(q, id, confirm, user);
    var q' := Cancel(q, id, confirm, user).0;
    if Cancel(q, id, confirm, user).1 == Done {
      assert Owned(q'.batches, other) == Owned(q.batches, other);
      RemovalKeepsOrder(q, id, confirm, user, Owned(q.batches, other));
    }
  }

  // ------------------------------------------------------------- who may reorder

  /** A reorder is answered in the same way. */
  lemma ReorderExactly(q: Queue, id: Id, number: int, user: User)
    requires WellFormed(q)
    ensures var (q', r) := Reorder(q, id, number, user);
            && (r == IdRequired <==> id == "")
            && (r == BadNumber <==> id != "" && number < 1)
            && (r == Done <==> number >= 1 && ValidUserId(user) && QueuedFor(q, id, user))
            && (r == IsRunning <==> number >= 1 && ValidUserId(user) && RunningFor(q, id, user))
            && (r == NotFound <==> id != "" && number >= 1 &&
                                   !(ValidUserId(user) && id in q.batches && q.batches[id].user == user))
            && (r != Done ==> q' == q)
            && q'.batches == q.batches
  {
  }

  /** The moved batch gets the number that was asked for, or the last one there is,
      and the owner's other batches stay in their order. */
  lemma ReorderMeaning(q: Queue, id: Id, number: int, user: User, rest: set<Id>)
    requires WellFormed(q) && Reorder(q, id, number, user).1 == Done && id !in rest
    ensures var mine, mine' := Mine(q, user), Mine(Reorder(q, id, number, user).0, user);
            && |mine'| == |mine| && number >= 1
            && mine'[if number > |mine| then |mine| - 1 else number - 1] == id
            && Keep(mine', rest) == Keep(mine, rest)
  {
    ReorderCorrect(q, id, number, user);
    var mine := Mine(q, user);
    var k := Clamp(number, |mine|) - 1;
    KeepRemoveOther(mine, id, rest);
    InsertedElsewhere(RemoveAt(mine, IndexOf(mine, id)), k, id, rest);
  }

  lemma InsertedElsewhere(s: seq<Id>, k: nat, x: Id, ids: set<Id>)
    requires k <= |s| && x !in ids
    ensures Keep(InsertAt(s, k, x), ids) == Keep(s, ids)
    ensures |InsertAt(s, k, x)| == |s| + 1 && InsertAt(s, k, x)[k] == x
  {
    var one := [x];
    assert InsertAt(s, k, x) == s[..k] + one + s[k..] && s == s[..k] + s[k..];
    KeepConcat(s[..k] + one, s[k..], ids);
    KeepConcat(s[..k], one, ids);
    KeepConcat(s[..k], s[k..], ids);
    assert one[..0] == [];
  }

  // ------------------------------------------------------------- what is kept

  /** Submitting puts the batch last, for all and for its owner, as it was handed in. */
  lemma EnqueueMeaning(q: Queue, id: Id, batch: Batch)
    requires WellFormed(q) && id != NO_BATCH && id !in q.batches
    ensures var q' := Enqueue(q, id, batch);
            && q'.batches == q.batches[id := batch] && q'.order == q.order + [id]
            && Mine(q', batch.user) == Mine(q, batch.user) + [id]
            && q'.active == q.active && q'.runnerActive
  {
    var mine, mine' := Owned(q.batches, batch.user), Owned(q.batches[id := batch], batch.user);
    assert mine' == mine + {id};
    KeptAtEnd(q.order, mine, mine', id);
  }

  lemma KeptAtEnd(s: seq<Id>, ids: set<Id>, ids': set<Id>, id: Id)
    requires ids' == ids + {id} && id !in s
    ensures Keep(s + [id], ids') == Keep(s, ids) + [id]
  {
    assert (s + [id])[..|s|] == s;
    SameKept(s, ids, ids');
  }

  lemma {:induction false} SameKept(s: seq<Id>, ids: set<Id>, ids': set<Id>)
    requires forall x <- s :: x in ids <==> x in ids'
    ensures Keep(s, ids) == Keep(s, ids')
  {
    if s != [] {
      assert s[|s| - 1] in s;
      SameKept(s[..|s| - 1], ids, ids');
    }
  }

  /** Activation takes exactly this batch out of the queue and makes it the running
      one; finishing takes exactly it away. */
  lemma RunMeaning(q: Queue, id: Id)
    requires WellFormed(q)
    ensures var (q', ok) := Activate(q, id);
            if ok then q'.active == id && q'.batches.Keys == q.batches.Keys && SameBatches(q, q') &&
                       multiset(q'.order) == multiset(q.order) - multiset{id}
            else q' == q
    ensures id == q.active != NO_BATCH ==> Finish(q, id).batches == q.batches - {id}
  {
    var (q', ok) := Activate(q, id);
    if ok { RemovedOnce(q.order, IndexOf(q.order, id)); }
  }

  /** A purge takes away exactly the account's batches. */
  lemma PurgeMeaning(q: Queue, user: User)
    requires WellFormed(q) && (q.active in q.batches ==> q.batches[q.active].user != user)
    ensures var (q', r) := Purge(q, user);
            && r == Done && SameBatches(q, q')
            && (forall id :: id in q'.batches <==> id in q.batches && q.batches[id].user != user)
            && (forall id :: id in q'.order <==> id in q.order && q.batches[id].user != user)
  {
    KeepMember(q.order, Owned(q.batches, user));
    DropMember(q.order, Owned(q.batches, user));
  }

  // ------------------------------------------------------------- who is served

  lemma {:induction false} UsersAreOwners(batches: map<Id, Batch>, order: seq<Id>)
    requires forall id <- order :: id in batches
    ensures Distinct(UsersOf(batches, order))
    ensures forall u :: u in UsersOf(batches, order) <==> exists id <- order :: batches[id].user == u
  {
    if order != [] {
      var front, last := order[..|order| - 1], order[|order| - 1];
      UsersAreOwners(batches, front);
      assert order == front + [last];
      assert forall id :: id in order <==> id in front || id == last;
    }
  }

  /** The draw is between users, not between batches: there are as many outcomes as
      users with queued work, each user has exactly one of them, and whoever is drawn
      gets the first of that user's batches. */
  lemma DrawIsFair(q: Queue) returns (users: seq<User>)
    requires WellFormed(q) && q.order != []
    ensures users != [] && Distinct(users)
    ensures forall u :: u in users <==> exists id <- q.order :: q.batches[id].user == u
    ensures forall choice: nat ::
              var p := Next(q, choice).1;
              p.found && Mine(q, users[choice % |users|]) != [] && p.id == Mine(q, users[choice % |users|])[0]
  {
    KeepAll(q.order, q.batches.Keys);
    UsersAreOwners(q.batches, q.order);
    UsersOfMember(q.batches, q.order);
    users := UsersOf(q.batches, q.order);
    assert q.batches[q.order[0]].user in users;
    forall choice: nat
      ensures var p := Next(q, choice).1;
              p.found && Mine(q, users[choice % |users|]) != [] && p.id == Mine(q, users[choice % |users|])[0]
    {
      assert users[choice % |users|] in users;
    }
  }

  // ------------------------------------------------------------- what is listed

  /** The ids a caller sees: all, or the caller's own. */
  function Visible(q: Queue, user: User): set<Id> {
    set id | id in q.batches && (user == "" || q.batches[id].user == user)
  }

  /** The listing of the queued part, by positions in the queue: an item stands for a
      visible batch in the requested range of numbers, and its number is the number of
      visible batches up to it. */
  lemma ListingExactly(q: Queue, all: bool, start: nat, end: nat, user: User, x: Item)
    requires WellFormed(q)
    ensures x in Listed(Keep(q.order, Seen(q.batches, user)), all, start, end) <==>
            (all || start <= x.number <= end) &&
            exists i | 0 <= i < |q.order| ::
              q.order[i] == x.id && x.id in Visible(q, user) && x.number == |Keep(q.order[..i + 1], Visible(q, user))|
  {
    var seen := Visible(q, user);
    assert Seen(q.batches, user) == seen;
    var kept := Keep(q.order, seen);
    ListedMeaning(kept, all, start, end, x);
    if 1 <= x.number <= |kept| && kept[x.number - 1] == x.id {
      var i := PositionOf(q.order, seen, x.number - 1);
    }
    forall i | 0 <= i < |q.order| && q.order[i] in seen && x.number == |Keep(q.order[..i + 1], seen)|
      ensures 1 <= x.number <= |kept| && kept[x.number - 1] == q.order[i]
    {
      KeepSplit(q.order, i, seen);
      KeepSnoc(q.order, seen, i);
    }
  }

  lemma {:induction false} PositionOf(s: seq<Id>, ids: set<Id>, k: nat) returns (i: nat)
    requires k < |Keep(s, ids)|
    ensures i < |s| && s[i] == Keep(s, ids)[k] && s[i] in ids && |Keep(s[..i + 1], ids)| == k + 1
  {
    var n := |s| - 1;
    if s[n] in ids && k == |Keep(s[..n], ids)| {
      i := n;
      assert s[..n + 1] == s;
    } else {
      i := PositionOf(s[..n], ids, k);
      assert s[..n][..i + 1] == s[..i + 1];
    }
  }

  /** Listed numbers ascend. */
  lemma {:induction false} ListingAscends(ids: seq<Id>, all: bool, start: nat, end: nat)
    ensures forall i, j | 0 <= i < j < |Listed(ids, all, start, end)| ::
              Listed(ids, all, start, end)[i].number < Listed(ids, all, start, end)[j].number
    ensures forall i | 0 <= i < |Listed(ids, all, start, end)| :: Listed(ids, all, start, end)[i].number <= |ids|
  {
    if ids != [] { ListingAscends(ids[..|ids| - 1], all, start, end); }
  }
}
