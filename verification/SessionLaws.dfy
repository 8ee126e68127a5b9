/** The life of a login session in seconds (server/auth.go): when it works, when its
    row is written, and when its row is deleted. */
module SessionLaws {
  import opened Optional
  import opened Sessions

  /** A new session works for two hours without use and a day at most. */
  lemma LoginMeaning(user: string, now: int, later: int)
    ensures Accepts(NewRow(user, now), later) <==> later < now + 7200
    ensures NewRow(user, now).user == user && NewRow(user, now).absoluteExpiresAt == now + 86400
  {
  }

  /** A request is accepted strictly before both deadlines while the row is not revoked.
      It is written back from 300 seconds after the last write on; then the idle deadline
      is two hours ahead, or the absolute one if that is earlier. */
  lemma RequestMeaning(row: Row, now: int)
    ensures Accepts(row, now) <==> row.revokedAt == None && now < row.idleExpiresAt && now < row.absoluteExpiresAt
    ensures !Accepts(row, now) || now < row.lastSeenAt + 300 ==> Seen(row, now) == row
    ensures Accepts(row, now) && now >= row.lastSeenAt + 300 ==>
              && Seen(row, now).lastSeenAt == now
              && Seen(row, now).idleExpiresAt <= now + 7200 && Seen(row, now).idleExpiresAt <= row.absoluteExpiresAt
              && (Seen(row, now).idleExpiresAt == now + 7200 || Seen(row, now).idleExpiresAt == row.absoluteExpiresAt)
    ensures Seen(row, now).user == row.user && Seen(row, now).createdAt == row.createdAt
    ensures Seen(row, now).absoluteExpiresAt == row.absoluteExpiresAt && Seen(row, now).revokedAt == row.revokedAt
  {
  }

  /** A revocation is for good; the time of an earlier one is only replaced when that is
      asked for. */
  lemma RevokeMeaning(row: Row, now: int, again: bool)
    ensures WithRevoked(row, now, again).revokedAt ==
            if row.revokedAt == None || again then Some(now) else row.revokedAt
    ensures WithRevoked(row, now, again) == row.(revokedAt := WithRevoked(row, now, again).revokedAt)
  {
  }

  /** The janitor deletes exactly the rows past one of their deadlines, and those
      revoked more than a day ago. */
  lemma CleanUpExactly(row: Row, now: int)
    ensures After(Some(row), Event.CleanUp(now)) == None <==>
            || row.absoluteExpiresAt < now || row.idleExpiresAt < now
            || (row.revokedAt != None && row.revokedAt.value + 86400 < now)
    ensures After(Some(row), Event.CleanUp(now)) in {None, Some(row)}
  {
  }

  /** So no row stays for ever: each is deleted by the first clean-up later than its
      absolute deadline, whatever happened to it. */
  lemma {:induction false} RowsGo(login: int, events: seq<Event>, at: int)
    requires InOrder(login, events) && LastTime(login, events) <= at && at > login + 86400
    ensures After(RowAfter(login, events), Event.CleanUp(at)) == None
  {
    SessionInv(login, events);
  }

  /** One session over any events, in seconds: used within 6900 seconds it works, after
      7200 without use or at the age of a day it does not, and a revoked one never does. */
  lemma LifeInSeconds(login: int, events: seq<Event>, now: int)
    requires InOrder(login, events) && LastTime(login, events) <= now
    ensures !Revoked(events) && now - LastUse(login, events) <= 6900 && now < login + 86400 ==>
              Admits(RowAfter(login, events), now)
    ensures now - LastUse(login, events) >= 7200 || now >= login + 86400 || Revoked(events) ==>
              !Admits(RowAfter(login, events), now)
  {
    SessionInv(login, events);
  }
}
