/** Login sessions: rows that expire when idle or at a fixed age, are refreshed at
    most every five minutes, and are cleaned up by an hourly janitor (server/auth.go).
    Times are whole seconds. Here requests on one session come one after the other;
    module SessionOverlap lets them overlap. Accounts are active. */
module Sessions {
  import opened Optional

  const IDLE_TTL: int := 2 * 60 * 60
  const ABSOLUTE_TTL: int := 24 * 60 * 60
  const REFRESH_AFTER: int := 5 * 60
  const KEEP_REVOKED: int := 24 * 60 * 60

  datatype Row = Row(user: string, createdAt: int, lastSeenAt: int, idleExpiresAt: int, absoluteExpiresAt: int,
                     revokedAt: Option<int>)

  function NewRow(user: string, now: int): Row {
    Row(user, now, now, now + IDLE_TTL, now + ABSOLUTE_TTL, None)
  }

  predicate Accepts(row: Row, now: int) {
    row.revokedAt.None? && row.idleExpiresAt > now && row.absoluteExpiresAt > now
  }

  predicate NeedsRefresh(row: Row, now: int) {
    now - row.lastSeenAt >= REFRESH_AFTER
  }

  /** The write of a request that found the row in need of a refresh. */
  function Refreshed(row: Row, now: int): Row {
    row.(lastSeenAt := now,
         idleExpiresAt := if now + IDLE_TTL > row.absoluteExpiresAt then row.absoluteExpiresAt else now + IDLE_TTL)
  }

  function Seen(row: Row, now: int): Row {
    if Accepts(row, now) && NeedsRefresh(row, now) then Refreshed(row, now) else row
  }

  function WithRevoked(row: Row, now: int, again: bool): Row {
    if again || row.revokedAt.None? then row.(revokedAt := Some(now)) else row
  }

  predicate Useless(row: Row, now: int) {
    || row.absoluteExpiresAt < now || row.idleExpiresAt < now
    || (row.revokedAt.Some? && row.revokedAt.value < now - KEEP_REVOKED)
  }

  // ------------------------------------------------------------- the table

  class SessionTable {
    var rows: map<string, Row>

    constructor ()
      ensures rows == map[]
    {
      rows := map[];
    }

    /** The insert of handleAuthLogin; tokens are new. */
    method Login(token: string, user: string, now: int)
      requires token !in rows
      modifies this
      ensures rows == old(rows)[token := NewRow(user, now)]
    {
      rows := rows[token := Row(user, now, now, now + IDLE_TTL, now + ABSOLUTE_TTL, None)];
    }

    /** authenticateRequest. */
    method Authenticate(token: string, now: int) returns (accepted: bool)
      modifies this
      ensures accepted == (token in old(rows) && Accepts(old(rows)[token], now))
      ensures rows == if accepted then old(rows)[token := Seen(old(rows)[token], now)] else old(rows)
    {
      if token !in rows {
        return false;
      }
      var row := rows[token];
      if row.revokedAt.Some? || row.idleExpiresAt <= now || row.absoluteExpiresAt <= now {
        return false;
      }
      if now - row.lastSeenAt >= REFRESH_AFTER {
        var idleExpires := now + IDLE_TTL;
        if idleExpires > row.absoluteExpiresAt {
          idleExpires := row.absoluteExpiresAt;
        }
        rows := rows[token := row.(lastSeenAt := now, idleExpiresAt := idleExpires)];
      }
      return true;
    }

    /** handleAuthLogout. */
    method Logout(token: string, now: int)
      modifies this
      ensures rows == if token in old(rows) then old(rows)[token := WithRevoked(old(rows)[token], now, true)] else old(rows)
    {
      if token in rows {
        rows := rows[token := rows[token].(revokedAt := Some(now))];
      }
    }

    /** A password change (`again`), or the removal or suspension of the account. */
    method RevokeUser(user: string, now: int, again: bool)
      modifies this
      ensures rows == map token <- old(rows) ::
                        if old(rows)[token].user == user then WithRevoked(old(rows)[token], now, again) else old(rows)[token]
    {
      rows := map token <- rows ::
        if rows[token].user == user && (again || rows[token].revokedAt.None?) then rows[token].(revokedAt := Some(now))
        else rows[token];
    }

    /** One pass of runSessionJanitor. */
    method CleanUp(now: int)
      modifies this
      ensures rows == map token <- old(rows) | !Useless(old(rows)[token], now) :: old(rows)[token]
    {
      rows := map token <- rows | !Useless(rows[token], now) :: rows[token];
    }

    /** One action on the whole table. Each session sees the event that is meant for
        it, or nothing: sessions do not influence each other. */
    method Handle(action: Action)
      requires action.Enter? ==> action.token !in rows
      modifies this
      ensures forall token: string ::
                RowOf(rows, token) ==
                if action.Enter? && action.token == token then Some(NewRow(action.user, action.at))
                else match EventFor(action, token, RowOf(old(rows), token))
                     case None => RowOf(old(rows), token)
                     case Some(event) => After(RowOf(old(rows), token), event)
    {
      match action {
        case Enter(token, user, at) => Login(token, user, at);
        case Use(token, at) => var accepted := Authenticate(token, at);
        case Leave(token, at) => Logout(token, at);
        case Expel(user, again, at) => RevokeUser(user, at, again);
        case Sweep(at) => CleanUp(at);
      }
    }
  }

  /** What happens to the table. */
  datatype Action =
    | Enter(token: string, user: string, at: int)
    | Use(token: string, at: int)
    | Leave(token: string, at: int)
    | Expel(user: string, again: bool, at: int)
    | Sweep(at: int)

  function RowOf(rows: map<string, Row>, token: string): Option<Row> {
    if token in rows then Some(rows[token]) else None
  }

  /** What an action means to one session. */
  function EventFor(action: Action, token: string, row: Option<Row>): Option<Event> {
    match action
    case Enter(_, _, _) => None
    case Use(used, at) => if used == token then Some(Request(at)) else None
    case Leave(left, at) => if left == token then Some(Revoke(at, true)) else None
    case Expel(user, again, at) => if row.Some? && row.value.user == user then Some(Revoke(at, again)) else None
    case Sweep(at) => Some(Event.CleanUp(at))
  }

  // ------------------------------------------------------------- the life of one session

  /** `again` tells whether a row that is revoked already gets the new time. */
  datatype Event = Request(at: int) | Revoke(at: int, again: bool) | CleanUp(at: int)

  /** What an event does to the row, if it is still there. */
  function After(row: Option<Row>, event: Event): Option<Row> {
    match row
    case None => None
    case Some(r) =>
      match event
      case Request(at) => Some(Seen(r, at))
      case Revoke(at, again) => Some(WithRevoked(r, at, again))
      case CleanUp(at) => if Useless(r, at) then None else row
  }

  /** The row after a login and some events. */
  function RowAfter(login: int, events: seq<Event>): Option<Row> {
    if events == [] then Some(NewRow("", login)) else After(RowAfter(login, events[..|events| - 1]), events[|events| - 1])
  }

  predicate Admits(row: Option<Row>, now: int) {
    row.Some? && Accepts(row.value, now)
  }

  predicate InOrder(login: int, events: seq<Event>) {
    && (events != [] ==> login <= events[0].at)
    && forall i, j | 0 <= i < j < |events| :: events[i].at <= events[j].at
  }

  /** When the session was last used: at the last accepted request, or at login. */
  function LastUse(login: int, events: seq<Event>): int {
    if events == [] then login
    else
      var front, last := events[..|events| - 1], events[|events| - 1];
      if last.Request? && Admits(RowAfter(login, front), last.at) then last.at else LastUse(login, front)
  }

  predicate Revoked(events: seq<Event>) {
    exists i | 0 <= i < |events| :: events[i].Revoke?
  }

  function LastTime(login: int, events: seq<Event>): int {
    if events == [] then login else events[|events| - 1].at
  }

  /** What is known about a row that is there. */
  predicate RowFits(row: Row, login: int, lastUse: int, revoked: bool) {
    && row.createdAt == login && row.absoluteExpiresAt == login + ABSOLUTE_TTL
    && row.lastSeenAt <= lastUse < row.lastSeenAt + REFRESH_AFTER
    && row.idleExpiresAt == (if row.lastSeenAt + IDLE_TTL > row.absoluteExpiresAt then row.absoluteExpiresAt
                             else row.lastSeenAt + IDLE_TTL)
    && (row.revokedAt.Some? <==> revoked)
  }

  predicate SessionFits(row: Option<Row>, login: int, lastUse: int, revoked: bool, now: int) {
    && login <= lastUse <= now
    && (row.Some? ==> RowFits(row.value, login, lastUse, revoked))
    && (row.None? ==> revoked || now > login + ABSOLUTE_TTL || now > lastUse + IDLE_TTL - REFRESH_AFTER)
  }

  lemma {:induction false} SessionInv(login: int, events: seq<Event>)
    requires InOrder(login, events)
    ensures SessionFits(RowAfter(login, events), login, LastUse(login, events), Revoked(events), LastTime(login, events))
  {
    if events != [] {
      var front, last := events[..|events| - 1], events[|events| - 1];
      assert InOrder(login, front) && LastTime(login, front) <= last.at;
      SessionInv(login, front);
      assert Revoked(events) <==> Revoked(front) || last.Revoke? by {
        if Revoked(front) {
          var i :| 0 <= i < |front| && front[i].Revoke?;
          assert events[i].Revoke?;
        }
        if Revoked(events) && !last.Revoke? {
          var i :| 0 <= i < |events| && events[i].Revoke?;
          assert front[i].Revoke?;
        }
      }
    }
  }

  /** A session that was used at most 6900 seconds ago still works, although its row
      is refreshed only every 300 seconds, unless it was revoked or is a day old. */
  lemma UsedSessionsStayAlive(login: int, events: seq<Event>, now: int)
    requires InOrder(login, events) && LastTime(login, events) <= now
    requires now - LastUse(login, events) <= IDLE_TTL - REFRESH_AFTER
    requires !Revoked(events) && now < login + ABSOLUTE_TTL
    ensures Admits(RowAfter(login, events), now)
  {
    SessionInv(login, events);
  }

  /** A session does not work when its last use was 7200 seconds ago or more, from the
      age of 24 hours on, and once it was revoked. */
  lemma DeadSessionsStayDead(login: int, events: seq<Event>, now: int)
    requires InOrder(login, events) && LastTime(login, events) <= now
    requires now - LastUse(login, events) >= IDLE_TTL || now >= login + ABSOLUTE_TTL || Revoked(events)
    ensures !Admits(RowAfter(login, events), now)
  {
    SessionInv(login, events);
  }

  /** Neither bound on the idle time can be improved. */
  lemma IdleBoundsAreTight()
    ensures var events := [Request(REFRESH_AFTER - 1)];
            LastUse(0, events) == REFRESH_AFTER - 1 &&
            !Admits(RowAfter(0, events), REFRESH_AFTER - 1 + IDLE_TTL - REFRESH_AFTER + 1)
    ensures LastUse(0, []) == 0 && Admits(RowAfter(0, []), IDLE_TTL - 1)
  {
    var events := [Request(REFRESH_AFTER - 1)];
    assert events[..0] == [];
    assert RowAfter(0, []) == Some(NewRow("", 0));
  }

  // ------------------------------------------------------------- the janitor

  function WithoutCleanUps(events: seq<Event>): seq<Event> {
    if events == [] then []
    else
      var front, last := WithoutCleanUps(events[..|events| - 1]), events[|events| - 1];
      if last.CleanUp? then front else front + [last]
  }

  /** A row that was cleaned up could not have been used again. */
  predicate Hopeless(row: Option<Row>, now: int) {
    row.None? || row.value.revokedAt.Some? || row.value.absoluteExpiresAt <= now || row.value.idleExpiresAt <= now
  }

  lemma {:induction false} CleanUpInv(login: int, events: seq<Event>)
    requires InOrder(login, events)
    ensures RowAfter(login, events) == RowAfter(login, WithoutCleanUps(events)) ||
            (RowAfter(login, events).None? &&
             Hopeless(RowAfter(login, WithoutCleanUps(events)), LastTime(login, events)))
  {
    if events != [] {
      var front, last := events[..|events| - 1], events[|events| - 1];
      assert InOrder(login, front) && LastTime(login, front) <= last.at;
      CleanUpInv(login, front);
      var bare := WithoutCleanUps(front);
      if !last.CleanUp? {
        assert (bare + [last])[..|bare|] == bare;
      }
    }
  }

  /** Cleaning up is invisible: whatever happened, a request is answered as if no row
      had ever been deleted. */
  lemma CleanUpIsInvisible(login: int, events: seq<Event>, now: int)
    requires InOrder(login, events) && LastTime(login, events) <= now
    ensures Admits(RowAfter(login, events), now) <==> Admits(RowAfter(login, WithoutCleanUps(events)), now)
  {
    CleanUpInv(login, events);
  }
}
