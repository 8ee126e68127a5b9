/** Overlapping requests on one session (server/auth.go). A request reads the row and
    decides; its refresh is a second statement, which may land later, after those of
    other requests, after the janitor, or never. Times are those that requests and
    the janitor took from the clock; statements may come in any order. */
module SessionOverlap {
  import opened Optional
  import opened Sessions

  /** `of` is the time of the request whose refresh lands. */
  datatype Step = Read(at: int) | Write(of: int) | Revoke(at: int, again: bool) | Purge(at: int)

  /** The row, and the refreshes that are still to land. */
  datatype State = State(row: Option<Row>, owed: multiset<int>)

  function Next(s: State, step: Step): State {
    match step
    case Read(at) =>
      if Admits(s.row, at) && NeedsRefresh(s.row.value, at) then s.(owed := s.owed + multiset{at}) else s
    case Write(at) =>
      State(if s.row.Some? then Some(Refreshed(s.row.value, at)) else None, s.owed - multiset{at})
    case Revoke(at, again) => s.(row := After(s.row, Event.Revoke(at, again)))
    case Purge(at) => s.(row := After(s.row, Event.CleanUp(at)))
  }

  function StateAfter(login: int, steps: seq<Step>): State {
    if steps == [] then State(Some(NewRow("", login)), multiset{})
    else Next(StateAfter(login, steps[..|steps| - 1]), steps[|steps| - 1])
  }

  function RowThen(login: int, steps: seq<Step>): Option<Row> {
    StateAfter(login, steps).row
  }

  /** The time of the latest accepted request, or of the login. */
  function LastRead(login: int, steps: seq<Step>): int {
    if steps == [] then login
    else
      var front, last := steps[..|steps| - 1], steps[|steps| - 1];
      var before := LastRead(login, front);
      if last.Read? && Admits(RowThen(login, front), last.at) && last.at > before then last.at else before
  }

  /** The time of the request whose refresh landed last, or of the login. */
  function Landed(login: int, steps: seq<Step>): int {
    if steps == [] then login
    else if steps[|steps| - 1].Write? then steps[|steps| - 1].of
    else Landed(login, steps[..|steps| - 1])
  }

  predicate EverRevoked(steps: seq<Step>) {
    exists i | 0 <= i < |steps| :: steps[i].Revoke?
  }

  /** The janitor came by while the refresh that had landed last was two hours old. */
  predicate Overtaken(login: int, steps: seq<Step>) {
    steps != [] &&
    var front, last := steps[..|steps| - 1], steps[|steps| - 1];
    Overtaken(login, front) || (last.Purge? && last.at > Landed(login, front) + IDLE_TTL)
  }

  /** The janitor's clock is not ahead of `now`. */
  predicate SweptBy(steps: seq<Step>, now: int) {
    forall i | 0 <= i < |steps| && steps[i].Purge? :: steps[i].at <= now
  }

  // ------------------------------------------------------------- when a request is accepted

  lemma RevokedSnoc(steps: seq<Step>)
    requires steps != []
    ensures EverRevoked(steps) <==> EverRevoked(steps[..|steps| - 1]) || steps[|steps| - 1].Revoke?
  {
    var front, last := steps[..|steps| - 1], steps[|steps| - 1];
    if EverRevoked(front) {
      var i :| 0 <= i < |front| && front[i].Revoke?;
      assert steps[i].Revoke?;
    }
    if EverRevoked(steps) && !last.Revoke? {
      var i :| 0 <= i < |steps| && steps[i].Revoke?;
      assert front[i].Revoke?;
    }
  }

  predicate RowIs(row: Row, login: int, landed: int, revoked: bool) {
    && row.absoluteExpiresAt == login + ABSOLUTE_TTL && row.lastSeenAt == landed
    && row.idleExpiresAt == (if landed + IDLE_TTL > row.absoluteExpiresAt then row.absoluteExpiresAt else landed + IDLE_TTL)
    && (row.revokedAt.Some? <==> revoked)
  }

  lemma {:induction false} RowInv(login: int, steps: seq<Step>, now: int)
    requires SweptBy(steps, now)
    ensures RowThen(login, steps).Some? ==>
              RowIs(RowThen(login, steps).value, login, Landed(login, steps), EverRevoked(steps)) && !Overtaken(login, steps)
    ensures RowThen(login, steps).None? ==> EverRevoked(steps) || Overtaken(login, steps) || now > login + ABSOLUTE_TTL
  {
    if steps != [] {
      var front, last := steps[..|steps| - 1], steps[|steps| - 1];
      forall i | 0 <= i < |front| && front[i].Purge? ensures front[i].at <= now { assert front[i] == steps[i]; }
      RowInv(login, front, now);
      RevokedSnoc(steps);
    }
  }

  /** However requests overlap, a session is accepted exactly when it was not revoked,
      is less than a day old, less than two hours have passed since the request whose
      refresh landed last, and the janitor has not overtaken a refresh. */
  lemma AcceptedExactly(login: int, steps: seq<Step>, now: int)
    requires SweptBy(steps, now)
    ensures Admits(RowThen(login, steps), now) <==>
            !EverRevoked(steps) && now < login + ABSOLUTE_TTL && now < Landed(login, steps) + IDLE_TTL &&
            !Overtaken(login, steps)
  {
    RowInv(login, steps, now);
  }

  /** The last second at which the session should still work. */
  function LastMoment(login: int, steps: seq<Step>): int {
    var idle, age := LastRead(login, steps) + IDLE_TTL - REFRESH_AFTER, login + ABSOLUTE_TTL - 1;
    if idle < age then idle else age
  }

  /** A session that is not a day old is accepted whenever its last use was at most
      6900 seconds ago, if and only if the janitor has not overtaken a refresh and the
      request whose refresh landed last came less than 300 seconds before the last use
      or in the last two hours of the day. */
  lemma BoundKeptExactly(login: int, steps: seq<Step>)
    requires !EverRevoked(steps) && SweptBy(steps, LastMoment(login, steps))
    ensures (forall now | now <= LastMoment(login, steps) :: Admits(RowThen(login, steps), now)) <==>
            !Overtaken(login, steps) && (LastRead(login, steps) - Landed(login, steps) < REFRESH_AFTER ||
                                         login + ABSOLUTE_TTL <= Landed(login, steps) + IDLE_TTL)
  {
    var end := LastMoment(login, steps);
    AcceptedExactly(login, steps, end);
    if Admits(RowThen(login, steps), end) {
      forall now | now <= end ensures Admits(RowThen(login, steps), now) {}
    }
  }

  // ------------------------------------------------------------- orderly overlaps

  /** No refresh lands after that of a later request, and the janitor does not come by
      while one is still to land. */
  predicate Orderly(login: int, steps: seq<Step>) {
    steps == [] ||
    var front, last := steps[..|steps| - 1], steps[|steps| - 1];
    && Orderly(login, front)
    && (last.Write? ==> last.of in StateAfter(login, front).owed && last.of >= Landed(login, front))
    && (last.Purge? ==> StateAfter(login, front).owed == multiset{})
  }

  /** The last use is covered by what has landed or is still to land. */
  predicate Covered(lastRead: int, landed: int, owed: multiset<int>) {
    lastRead - landed < REFRESH_AFTER || exists w <- owed :: lastRead - w < REFRESH_AFTER
  }

  lemma CoverMoves(lastRead: int, landed: int, owed: multiset<int>, w: int)
    requires Covered(lastRead, landed, owed) && w in owed && w >= landed
    ensures Covered(lastRead, w, owed - multiset{w})
  {
    if lastRead - w >= REFRESH_AFTER {
      var v :| v in owed && lastRead - v < REFRESH_AFTER;
      assert v in owed - multiset{w};
    }
  }

  lemma CoverGrows(lastRead: int, landed: int, owed: multiset<int>, w: int)
    requires Covered(lastRead, landed, owed)
    ensures Covered(lastRead, landed, owed + multiset{w}) && Covered(w, landed, owed + multiset{w})
  {
    assert w in owed + multiset{w};
    if lastRead - landed >= REFRESH_AFTER {
      var v :| v in owed && lastRead - v < REFRESH_AFTER;
      assert v in owed + multiset{w};
    }
  }

  lemma {:induction false} OrderlyInv(login: int, steps: seq<Step>, now: int)
    requires Orderly(login, steps) && SweptBy(steps, now)
    ensures Covered(LastRead(login, steps), Landed(login, steps), StateAfter(login, steps).owed)
    ensures Overtaken(login, steps) ==> LastRead(login, steps) + IDLE_TTL - REFRESH_AFTER < now
  {
    if steps != [] {
      var front, last := steps[..|steps| - 1], steps[|steps| - 1];
      forall i | 0 <= i < |front| && front[i].Purge? ensures front[i].at <= now { assert front[i] == steps[i]; }
      OrderlyInv(login, front, now);
      RowInv(login, front, now);
      var owed := StateAfter(login, front).owed;
      if last.Write? {
        CoverMoves(LastRead(login, front), Landed(login, front), owed, last.of);
      } else if last.Read? {
        CoverGrows(LastRead(login, front), Landed(login, front), owed, last.at);
      }
    }
  }

  /** With overlapping requests, too, a session that was used at most 6900 seconds ago
      works, unless it was revoked or is a day old, as long as refreshes land in the
      order of their requests, all have landed, and the janitor overtakes none. */
  lemma OrderlySessionsStayAlive(login: int, steps: seq<Step>, now: int)
    requires Orderly(login, steps) && StateAfter(login, steps).owed == multiset{} && SweptBy(steps, now)
    requires now - LastRead(login, steps) <= IDLE_TTL - REFRESH_AFTER
    requires !EverRevoked(steps) && now < login + ABSOLUTE_TTL
    ensures Admits(RowThen(login, steps), now)
  {
    OrderlyInv(login, steps, now);
    AcceptedExactly(login, steps, now);
  }

  // ------------------------------------------------------------- what can go wrong

  /** What the steps of a run did, one at a time. */
  lemma Stepped(login: int, steps: seq<Step>, step: Step)
    ensures StateAfter(login, steps + [step]) == Next(StateAfter(login, steps), step)
    ensures Landed(login, steps + [step]) == if step.Write? then step.of else Landed(login, steps)
    ensures Overtaken(login, steps + [step]) <==>
              Overtaken(login, steps) || (step.Purge? && step.at > Landed(login, steps) + IDLE_TTL)
    ensures LastRead(login, steps + [step]) ==
            if step.Read? && Admits(RowThen(login, steps), step.at) && step.at > LastRead(login, steps) then step.at
            else LastRead(login, steps)
  {
    assert (steps + [step])[..|steps|] == steps;
  }

  /** Any refresh that lands 300 seconds or more late, long before the day is over,
      breaks the bound. */
  lemma LateWriteShortens(login: int, steps: seq<Step>, w: int)
    requires !EverRevoked(steps) && LastRead(login, steps) - w >= REFRESH_AFTER && w + IDLE_TTL < login + ABSOLUTE_TTL
    requires SweptBy(steps, LastMoment(login, steps))
    ensures !Admits(RowThen(login, steps + [Write(w)]), LastMoment(login, steps + [Write(w)]))
  {
    Stepped(login, steps, Write(w));
    RevokedSnoc(steps + [Write(w)]);
    assert (steps + [Write(w)])[..|steps|] == steps;
    AcceptedExactly(login, steps + [Write(w)], LastMoment(login, steps + [Write(w)]));
  }

  /** A slow request of second 300 overwrites the refresh of second 900, and the
      session ends 6600 seconds after its last use. */
  lemma LateWriteHappens()
    ensures var steps := [Read(300), Read(900)] + [Write(900)] + [Write(300)];
            StateAfter(0, [Read(300), Read(900)]).owed == multiset{300, 900} &&
            LastRead(0, steps) == 900 && !Admits(RowThen(0, steps), 7500)
  {
    Stepped(0, [], Read(300));
    Stepped(0, [Read(300)], Read(900));
    assert [] + [Read(300)] == [Read(300)] && [Read(300)] + [Read(900)] == [Read(300), Read(900)];
    Stepped(0, [Read(300), Read(900)], Write(900));
    Stepped(0, [Read(300), Read(900)] + [Write(900)], Write(300));
  }

  /** The janitor deletes the row between the two statements of a request, and the
      session is gone two seconds after its last use. */
  lemma JanitorOvertakes()
    ensures var steps := [Read(7199)] + [Purge(7201)] + [Write(7199)];
            LastRead(0, steps) == 7199 && !Admits(RowThen(0, steps), 7201)
  {
    Stepped(0, [], Read(7199));
    assert [] + [Read(7199)] == [Read(7199)];
    Stepped(0, [Read(7199)], Purge(7201));
    Stepped(0, [Read(7199)] + [Purge(7201)], Write(7199));
  }
}
