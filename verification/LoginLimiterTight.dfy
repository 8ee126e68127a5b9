/** A trace of login attempts that reaches the rate bound (server/login_limiter.go). */
module LoginLimiterTight {
  import opened LoginLimiters

  const TIGHT := Config(2, 3, 1200)

  /** The second window, in nanoseconds: it opens with a rejected attempt. */
  const LATE: Instant := 1200 * SECOND

  /** A trace, the accepted times in it, and the limiter and the time at its end. */
  ghost predicate Reaches(trace: seq<Event>, times: seq<Instant>, l: Limiter, now: Instant) {
    && Ordered(trace) && Now(trace) == now
    && After(trace, TIGHT) == l && Accepted(trace, Everyone, TIGHT) == times
  }

  /** What one more event does. */
  ghost predicate Does(l: Limiter, event: Event, accepted: bool, l': Limiter) {
    Step(l, event, TIGHT) == l' && Accepts(l, Everyone, event, TIGHT) == accepted
  }

  lemma Extend(trace: seq<Event>, times: seq<Instant>, l: Limiter, now: Instant, event: Event, accepted: bool, l': Limiter)
    returns (longer: seq<Event>)
    requires Reaches(trace, times, l, now) && Does(l, event, accepted, l') && 0 < event.at && now <= event.at
    ensures longer == trace + [event]
    ensures Reaches(longer, if accepted then times + [event.at] else times, l', event.at)
  {
    longer := trace + [event];
    assert longer[..|trace|] == trace;
    forall i | 0 <= i < |trace| ensures trace[i].at <= event.at { assert trace[i].at <= trace[|trace| - 1].at; }
  }

  const IN_COOLDOWN := Source(2, 1 + RATE_WINDOW, 1 + LATE)
  const SEEN_LATE := Source(1, LATE + RATE_WINDOW, ZERO)
  const SEEN_AFTER := Source(1, LATE + 1 + RATE_WINDOW, ZERO)

  const AFTER_TWO := Limiter(map["a" := IN_COOLDOWN], 2, 1 + RATE_WINDOW, ZERO)
  const AFTER_REJECTION := Limiter(map["a" := IN_COOLDOWN], 0, 1 + LATE, ZERO)
  const AFTER_X := Limiter(map["a" := IN_COOLDOWN, "x" := SEEN_LATE], 1, 1 + LATE, ZERO)
  const AFTER_Y := Limiter(map["a" := IN_COOLDOWN, "x" := SEEN_LATE, "y" := SEEN_LATE], 2, 1 + LATE, ZERO)
  const AFTER_A := Limiter(map["a" := SEEN_AFTER, "x" := SEEN_LATE, "y" := SEEN_LATE], 1, LATE + 1 + RATE_WINDOW, ZERO)

  const AFTER_ONE := Limiter(map["a" := Source(1, 1 + RATE_WINDOW, ZERO)], 1, 1 + RATE_WINDOW, ZERO)
  const AFTER_AX := Limiter(map["a" := SEEN_AFTER, "x" := Source(2, LATE + RATE_WINDOW, 2 * LATE + 1), "y" := SEEN_LATE],
                            2, LATE + 1 + RATE_WINDOW, ZERO)
  const AFTER_ALL := Limiter(map[], 0, ZERO, 2 * LATE + 1)

  /** Two attempts of one source use up its limit; a third one is rejected, but opens
      a window for all. */
  lemma FirstWindow()
    ensures Does(FRESH, Attempt("a", 1), true, AFTER_ONE)
    ensures Does(AFTER_ONE, Attempt("a", 1), true, AFTER_TWO)
    ensures Does(AFTER_TWO, Attempt("a", 1 + RATE_WINDOW), false, AFTER_REJECTION)
  {
  }

  /** At the end of that window two others are accepted. */
  lemma LateAttempts()
    ensures Does(AFTER_REJECTION, Attempt("x", LATE), true, AFTER_X)
    ensures Does(AFTER_X, Attempt("y", LATE), true, AFTER_Y)
  {
    assert AFTER_REJECTION.byIP["x" := SEEN_LATE] == AFTER_X.byIP;
    assert AFTER_X.byIP["y" := SEEN_LATE] == AFTER_Y.byIP;
  }

  /** A nanosecond later the window is over, and all three are accepted. */
  lemma AttemptsAfter()
    ensures Does(AFTER_Y, Attempt("a", LATE + 1), true, AFTER_A)
    ensures Does(AFTER_A, Attempt("x", LATE + 1), true, AFTER_AX)
  {
    assert AFTER_Y.byIP["a" := SEEN_AFTER] == AFTER_A.byIP;
    assert AFTER_A.byIP["x" := Source(2, LATE + RATE_WINDOW, 2 * LATE + 1)] == AFTER_AX.byIP;
  }

  /** The third one starts a cooldown for all. */
  lemma LastAttempt()
    ensures Does(AFTER_AX, Attempt("y", LATE + 1), true, AFTER_ALL)
  {
  }

  /** The trace over the states between its events, whatever they are. */
  lemma TraceOver(one: Limiter, two: Limiter, rejection: Limiter, x: Limiter, y: Limiter, a: Limiter)
    returns (trace: seq<Event>)
    requires Does(FRESH, Attempt("a", 1), true, one) && Does(one, Attempt("a", 1), true, two)
    requires Does(two, Attempt("a", 1 + RATE_WINDOW), false, rejection)
    requires Does(rejection, Attempt("x", LATE), true, x) && Does(x, Attempt("y", LATE), true, y)
    requires Does(y, Attempt("a", LATE + 1), true, a)
    ensures Reaches(trace, [1, 1, LATE, LATE, LATE + 1], a, LATE + 1)
  {
    trace := FirstThree(one, two, rejection);
    trace := Extend(trace, [1, 1], rejection, 1 + RATE_WINDOW, Attempt("x", LATE), true, x);
    trace := Extend(trace, [1, 1, LATE], x, LATE, Attempt("y", LATE), true, y);
    trace := Extend(trace, [1, 1, LATE, LATE], y, LATE, Attempt("a", LATE + 1), true, a);
  }

  lemma FirstThree(one: Limiter, two: Limiter, rejection: Limiter) returns (trace: seq<Event>)
    requires Does(FRESH, Attempt("a", 1), true, one) && Does(one, Attempt("a", 1), true, two)
    requires Does(two, Attempt("a", 1 + RATE_WINDOW), false, rejection)
    ensures Reaches(trace, [1, 1], rejection, 1 + RATE_WINDOW)
  {
    trace := Extend([], [], FRESH, ZERO, Attempt("a", 1), true, one);
    trace := Extend(trace, [1], one, 1, Attempt("a", 1), true, two);
    trace := Extend(trace, [1, 1], two, 1, Attempt("a", 1 + RATE_WINDOW), false, rejection);
  }

  lemma LateTrace() returns (trace: seq<Event>)
    ensures Reaches(trace, [1, 1, LATE, LATE, LATE + 1], AFTER_A, LATE + 1)
  {
    FirstWindow();
    LateAttempts();
    AttemptsAfter();
    trace := TraceOver(AFTER_ONE, AFTER_TWO, AFTER_REJECTION, AFTER_X, AFTER_Y, AFTER_A);
  }

  /** The bound for all sources together cannot be improved: with an overall limit of
      three, five attempts are accepted within one nanosecond. */
  lemma RateBoundIsReached() returns (trace: seq<Event>)
    ensures ValidConfig(TIGHT) && Ordered(trace)
    ensures Accepted(trace, Everyone, TIGHT) == [1, 1, LATE, LATE, LATE + 1, LATE + 1, LATE + 1]
    ensures 6 - 2 + 1 == 2 * Limit(Everyone, TIGHT) - 1 && (LATE + 1) - LATE < Span(TIGHT)
  {
    AttemptsAfter();
    LastAttempt();
    trace := LateTrace();
    var times := [1, 1, LATE, LATE, LATE + 1];
    trace := Extend(trace, times, AFTER_A, LATE + 1, Attempt("x", LATE + 1), true, AFTER_AX);
    trace := Extend(trace, times + [LATE + 1], AFTER_AX, LATE + 1, Attempt("y", LATE + 1), true, AFTER_ALL);
    assert times + [LATE + 1] + [LATE + 1] == [1, 1, LATE, LATE, LATE + 1, LATE + 1, LATE + 1];
  }

  /** The one case in which a clean-up changes an answer happens: when the windows of
      `x` and `y` have ended, a new source is rejected because the map is full, and
      let in if the janitor has just passed. */
  lemma CleanUpLetsIn() returns (trace: seq<Event>)
    ensures ValidConfig(TIGHT) && Ordered(trace) && Now(trace) <= LATE + RATE_WINDOW
    ensures !Allow(After(trace, TIGHT), "z", LATE + RATE_WINDOW, TIGHT).1.ok
    ensures Allow(Cleanup(After(trace, TIGHT), LATE + RATE_WINDOW), "z", LATE + RATE_WINDOW, TIGHT).1.ok
  {
    trace := LateTrace();
    FullMap();
    LetsIn(trace, AFTER_A, LATE + 1, "z", LATE + RATE_WINDOW, TIGHT);
  }

  lemma LetsIn(trace: seq<Event>, l: Limiter, last: Instant, ip: string, now: Instant, cfg: Config)
    requires ValidConfig(cfg) && Ordered(trace) && After(trace, cfg) == l && Now(trace) == last <= now && 0 < now
    requires !Allow(l, ip, now, cfg).1.ok && l.globalCooldownUntil == ZERO
    requires ip !in l.byIP && |l.byIP| >= cfg.maxTriesOverall && Expired(l.byIP, now) != {}
    ensures Allow(Cleanup(l, now), ip, now, cfg).1.ok
  {
    TraceValid(trace, cfg);
    CleanupHarmless(l, ip, last, now, cfg);
  }

  /** The state before has three sources, of which `x` and `y` have expired. */
  lemma FullMap()
    ensures |AFTER_A.byIP| == 3 && "z" !in AFTER_A.byIP && Expired(AFTER_A.byIP, LATE + RATE_WINDOW) != {}
    ensures !Allow(AFTER_A, "z", LATE + RATE_WINDOW, TIGHT).1.ok
  {
    assert AFTER_A.byIP.Keys == {"a", "x", "y"};
    assert |{"a", "x", "y"}| == 3;
    assert "x" in Expired(AFTER_A.byIP, LATE + RATE_WINDOW);
  }
}
